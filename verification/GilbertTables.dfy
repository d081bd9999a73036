/** The static lookup tables of src/gilbert.rs and the two conversions that read them. */
module GilbertTables {
  import opened Gilbert
  import opened GilbertScreen

  const WIDTH: nat := 320
  const HEIGHT: nat := 192
  const TOTAL_PIXELS: nat := WIDTH * HEIGHT

  /** The screen's own axes. */
  const SCREEN := Frame(0, 0, 1, 0, 0, 1)

  /** Truncation to an unsigned 16-bit integer. */
  function U16(n: int): nat {
    n % 0x1_0000
  }

  /** `path` visits each pixel of the w-by-h screen exactly once. */
  ghost predicate Tour(path: seq<Point>, w: nat, h: nat) {
    && |path| == w * h
    && (forall d :: 0 <= d < |path| ==> 0 <= path[d].x < w && 0 <= path[d].y < h)
    && (forall d, e :: 0 <= d < e < |path| ==> path[d] != path[e])
    && (forall x, y :: 0 <= x < w && 0 <= y < h ==> Point(x, y) in path)
  }

  lemma TourLength(path: seq<Point>, w: nat, h: nat)
    requires Tour(path, w, h)
    ensures |path| == w * h
  {
  }

  lemma TourStep(path: seq<Point>, w: nat, h: nat, d: nat)
    requires Tour(path, w, h) && d < |path|
    ensures 0 <= path[d].x < w && 0 <= path[d].y < h
    ensures forall e :: 0 <= e < d ==> path[e] != path[d] && 0 <= path[e].x < w && 0 <= path[e].y < h
  {
  }

  lemma RepeatCount(s: seq<Point>, i: nat, j: nat)
    requires i < j < |s| && s[i] == s[j]
    ensures multiset(s)[s[i]] >= 2
  {
    assert s == s[..j] + s[j..];
    assert s[..j][i] == s[i] && s[j..][0] == s[i];
  }

  lemma CountsMakeTour(path: seq<Point>, w: nat, h: nat)
    requires |path| == w * h
    requires forall p: Point :: multiset(path)[p] == if 0 <= p.x < w && 0 <= p.y < h then 1 else 0
    ensures Tour(path, w, h)
  {
    forall d, e | 0 <= d < e < |path|
      ensures path[d] != path[e]
    {
      if path[d] == path[e] {
        RepeatCount(path, d, e);
      }
    }
    forall d | 0 <= d < |path|
      ensures 0 <= path[d].x < w && 0 <= path[d].y < h
    {
      assert path[d] in multiset(path);
    }
    forall x, y | 0 <= x < w && 0 <= y < h
      ensures Point(x, y) in path
    {
      assert Point(x, y) in multiset(path);
    }
  }

  /** The curve from the origin along the screen axes tours the screen. */
  lemma CurveTours(w: nat, h: nat)
    requires w >= 1 && h >= 1
    ensures Tour(Place(SCREEN, Curve(w, h)), w, h)
  {
    hide Curve, Place, Tour, CellOf;
    PlacedCoverage(SCREEN, w, h, Point(0, 0));
    var path := Place(SCREEN, Curve(w, h));
    forall p: Point
      ensures multiset(path)[p] == if 0 <= p.x < w && 0 <= p.y < h then 1 else 0
    {
      PlacedCoverage(SCREEN, w, h, p);
      ScreenCell(p);
    }
    CountsMakeTour(path, w, h);
  }

  lemma ScreenCell(p: Point)
    ensures CellOf(SCREEN, p) == Cell(p.x, p.y)
  {
  }

  lemma ScreenNeighbours(w: nat, h: nat, d: nat)
    requires w >= 1 && h >= 1 && w % 2 == 0 && d + 1 < |Place(SCREEN, Curve(w, h))|
    ensures var path := Place(SCREEN, Curve(w, h)); Neighbours(path[d], path[d + 1])
  {
    hide Curve, Place, Neighbours;
    var path := Place(SCREEN, Curve(w, h));
    PlacedContinuity(SCREEN, w, h);
    assert Neighbours(path[d + 1 - 1], path[d + 1]);
  }

  class Tables {
    var dToXy: array<Point>
    var xyToD: array2<nat>

    ghost predicate Shaped()
      reads this
    {
      && dToXy.Length == TOTAL_PIXELS
      && xyToD.Length0 == HEIGHT && xyToD.Length1 == WIDTH
    }

    /** The two tables describe one tour of the screen. */
    ghost predicate Describes(path: seq<Point>)
      reads this, dToXy, xyToD
    {
      && Shaped()
      && Tour(path, WIDTH, HEIGHT)
      && (forall d :: 0 <= d < TOTAL_PIXELS ==> dToXy[d] == path[d])
      && (forall d :: 0 <= d < TOTAL_PIXELS ==> xyToD[path[d].y, path[d].x] == d)
    }

    constructor ()
      ensures Shaped() && fresh(dToXy) && fresh(xyToD)
    {
      dToXy := new Point[TOTAL_PIXELS](_ => Point(0, 0));
      xyToD := new nat[HEIGHT, WIDTH]((_, _) => 0);
    }

    /** Generates the curve and records it in both tables, truncating to 16 bits. */
    method Init()
      requires Shaped()
      modifies this, dToXy, xyToD
      ensures dToXy == old(dToXy) && xyToD == old(xyToD)
      ensures Describes(Place(SCREEN, Curve(WIDTH, HEIGHT)))
    {
      hide Curve, Place, Tour;
      var path := new Path();
      Gilbert2d(0, 0, WIDTH, 0, 0, HEIGHT, path);
      CurveTours(WIDTH, HEIGHT);
      var points := path.points;
      assert points == Place(SCREEN, Curve(WIDTH, HEIGHT));
      Record(points);
    }

    method Record(path: seq<Point>)
      requires Shaped() && Tour(path, WIDTH, HEIGHT)
      modifies dToXy, xyToD
      ensures Shaped()
      ensures forall d :: 0 <= d < TOTAL_PIXELS ==> dToXy[d] == path[d]
      ensures forall d :: 0 <= d < TOTAL_PIXELS ==>
                && 0 <= path[d].x < WIDTH && 0 <= path[d].y < HEIGHT
                && xyToD[path[d].y, path[d].x] == d
    {
      hide Tour;
      TourLength(path, WIDTH, HEIGHT);
      for d := 0 to |path|
        invariant forall e :: 0 <= e < d ==> dToXy[e] == path[e]
        invariant forall e :: 0 <= e < d ==> 0 <= path[e].x < WIDTH && 0 <= path[e].y < HEIGHT
        invariant forall e :: 0 <= e < d ==> xyToD[path[e].y, path[e].x] == e
      {
        var p := path[d];
        TourStep(path, WIDTH, HEIGHT, d);
        dToXy[d] := Point(U16(p.x), U16(p.y));
        xyToD[p.y, p.x] := U16(d);
      }
    }

    /** Reads the first table; indices past the end read its last entry. */
    function DToXy(d: nat): Point
      requires Shaped()
      reads this, dToXy
    {
      dToXy[if d < TOTAL_PIXELS then d else TOTAL_PIXELS - 1]
    }

    /** Reads the second table; TOTAL_PIXELS stands for a point off the screen. */
    function XyToD(x: nat, y: nat): nat
      requires Shaped()
      reads this, xyToD
    {
      if x >= WIDTH || y >= HEIGHT then TOTAL_PIXELS else xyToD[y, x]
    }

    /** Index to pixel to index is the identity, and neighbouring indices are
        neighbouring pixels. */
    lemma IndexRoundTrip(d: nat)
      requires Describes(Place(SCREEN, Curve(WIDTH, HEIGHT)))
      requires d < TOTAL_PIXELS
      ensures var p := DToXy(d);
        && 0 <= p.x < WIDTH && 0 <= p.y < HEIGHT && XyToD(p.x, p.y) == d
        && (d + 1 < TOTAL_PIXELS ==> Neighbours(p, DToXy(d + 1)))
    {
      hide Curve, Place, Describes, DToXy, XyToD, Neighbours;
      var path := Place(SCREEN, Curve(WIDTH, HEIGHT));
      AtIndex(path, d);
      if d + 1 < TOTAL_PIXELS {
        AtIndex(path, d + 1);
        ScreenNeighbours(WIDTH, HEIGHT, d);
      }
    }

    lemma AtIndex(path: seq<Point>, d: nat)
      requires Describes(path) && d < TOTAL_PIXELS
      ensures d < |path| && DToXy(d) == path[d]
      ensures 0 <= path[d].x < WIDTH && 0 <= path[d].y < HEIGHT && XyToD(path[d].x, path[d].y) == d
    {
    }

    /** Pixel to index to pixel is the identity, and every index is a 16-bit number. */
    lemma PixelRoundTrip(x: nat, y: nat)
      requires Describes(Place(SCREEN, Curve(WIDTH, HEIGHT)))
      requires x < WIDTH && y < HEIGHT
      ensures XyToD(x, y) < TOTAL_PIXELS <= 0x1_0000 && DToXy(XyToD(x, y)) == Point(x, y)
    {
      hide Curve, Place;
      var path := Place(SCREEN, Curve(WIDTH, HEIGHT));
      assert Point(x, y) in path;
      var d :| 0 <= d < |path| && path[d] == Point(x, y);
    }
  }
}
