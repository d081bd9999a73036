/** The generator of src/gilbert.rs over signed axis vectors, proved to lay the abstract
    curve on the screen. */
module GilbertScreen {
  import opened Gilbert

  datatype Point = Point(x: int, y: int)

  /** `n` steps of the unit `d`, which is -1, 0 or 1. */
  function Steps(n: int, d: int): int {
    if d == 1 then n else if d == -1 then -n else 0
  }

  /** The placement of a rectangle: its first cell and the unit steps along its axes. */
  datatype Frame = Frame(x: int, y: int, ux: int, uy: int, vx: int, vy: int) {

    /** The unit steps are axis-aligned and perpendicular. */
    predicate Valid() {
      && (ux == 0 ==> (uy == 1 || uy == -1) && (vx == 1 || vx == -1) && vy == 0)
      && (ux != 0 ==> (ux == 1 || ux == -1) && uy == 0 && vx == 0 && (vy == 1 || vy == -1))
    }

    function At(c: Cell): Point {
      Point(x + Steps(c.i, ux) + Steps(c.j, vx), y + Steps(c.i, uy) + Steps(c.j, vy))
    }

    /** The frame in which a moved part of the curve is drawn. */
    function Moved(m: Motion): Frame {
      var o := At(Move(m, Cell(0, 0)));
      match m
      case Shift(_, _) => Frame(o.x, o.y, ux, uy, vx, vy)
      case Swap => Frame(o.x, o.y, vx, vy, ux, uy)
      case Mirror(_, _) => Frame(o.x, o.y, -vx, -vy, -ux, -uy)
    }
  }

  function Place(f: Frame, s: seq<Cell>): (t: seq<Point>)
    ensures |t| == |s|
    ensures forall k :: 0 <= k < |s| ==> t[k] == f.At(s[k])
  {
    seq(|s|, k requires 0 <= k < |s| => f.At(s[k]))
  }

  function Abs(n: int): nat {
    if n < 0 then -n else n
  }

  function Signum(n: int): int {
    if n < 0 then -1 else if n == 0 then 0 else 1
  }

  /** Division by two rounding toward zero, as the source language does. */
  function Half(n: int): int {
    if n < 0 then -(-n / 2) else n / 2
  }

  predicate Axes(ax: int, ay: int, bx: int, by_: int) {
    (ax != 0 && ay == 0 && bx == 0 && by_ != 0) || (ax == 0 && ay != 0 && bx != 0 && by_ == 0)
  }

  function FrameOf(x: int, y: int, ax: int, ay: int, bx: int, by_: int): Frame {
    Frame(x, y, Signum(ax), Signum(ay), Signum(bx), Signum(by_))
  }

  lemma MovedAt(f: Frame, m: Motion, c: Cell)
    requires f.Valid()
    ensures f.Moved(m).Valid()
    ensures f.At(Move(m, c)) == f.Moved(m).At(c)
  {
    if f.ux == 1 {
    } else if f.ux == -1 {
    } else if f.uy == 1 {
    } else {
      assert f.uy == -1;
    }
  }

  lemma PlaceMoved(f: Frame, m: Motion, s: seq<Cell>)
    requires f.Valid()
    ensures f.Moved(m).Valid()
    ensures Place(f, MoveAll(m, s)) == Place(f.Moved(m), s)
  {
    MovedAt(f, m, Cell(0, 0));
    forall k | 0 <= k < |s|
      ensures Place(f, MoveAll(m, s))[k] == Place(f.Moved(m), s)[k]
    {
      MovedAt(f, m, s[k]);
    }
  }

  lemma PlaceConcat(f: Frame, s: seq<Cell>, t: seq<Cell>)
    ensures Place(f, s + t) == Place(f, s) + Place(f, t)
  {
  }

  /** How the curve over a wide rectangle is drawn out of the curves over its halves. */
  lemma PlaceWide(f: Frame, w: nat, h: nat)
    requires f.Valid() && w > 1 && h > 1 && 2 * w > 3 * h
    ensures Place(f, Curve(w, h)) == Place(f, Curve(Split(w), h))
                                     + Place(f.Moved(Shift(Split(w), 0)), Curve(w - Split(w), h))
  {
    hide *;
    var k := Split(w);
    CurveParts(w, h);
    PlaceMoved(f, Shift(k, 0), Curve(w - k, h));
    PlaceConcat(f, Curve(k, h), MoveAll(Shift(k, 0), Curve(w - k, h)));
  }

  /** How the curve over a tall rectangle is drawn out of the curves over its three parts. */
  lemma PlaceTall(f: Frame, w: nat, h: nat)
    requires f.Valid() && w > 1 && h > 1 && 2 * w <= 3 * h
    ensures Place(f, Curve(w, h)) == Place(f.Moved(Swap), Curve(Split(h), w / 2))
                                     + Place(f.Moved(Shift(0, Split(h))), Curve(w, h - Split(h)))
                                     + Place(f.Moved(Mirror(w - 1, Split(h) - 1)), Curve(Split(h), w - w / 2))
  {
    hide *;
    var k := Split(h);
    var s1, s2, s3 := Curve(k, w / 2), Curve(w, h - k), Curve(k, w - w / 2);
    CurveParts(w, h);
    PlaceMoved(f, Swap, s1);
    PlaceMoved(f, Shift(0, k), s2);
    PlaceMoved(f, Mirror(w - 1, k - 1), s3);
    PlaceConcat(f, MoveAll(Swap, s1), MoveAll(Shift(0, k), s2));
    PlaceConcat(f, MoveAll(Swap, s1) + MoveAll(Shift(0, k), s2), MoveAll(Mirror(w - 1, k - 1), s3));
  }

  class Path {
    var points: seq<Point>

    constructor ()
      ensures points == []
    {
      points := [];
    }
  }

  /** Pushes `n` points, starting at (x, y) and stepping by (dx, dy). */
  method PushLine(x: int, y: int, dx: int, dy: int, n: nat, path: Path)
    requires -1 <= dx <= 1 && -1 <= dy <= 1
    modifies path
    ensures path.points == old(path.points) + seq(n, k => Point(x + Steps(k, dx), y + Steps(k, dy)))
  {
    var cx, cy := x, y;
    for k := 0 to n
      invariant cx == x + Steps(k, dx) && cy == y + Steps(k, dy)
      invariant path.points == old(path.points) + seq(k, m => Point(x + Steps(m, dx), y + Steps(m, dy)))
    {
      path.points := path.points + [Point(cx, cy)];
      cx := cx + dx;
      cy := cy + dy;
    }
  }

  lemma PlaceLine(f: Frame, n: nat)
    requires f.Valid()
    ensures Place(f, Row(n)) == seq(n, k => Point(f.x + Steps(k, f.ux), f.y + Steps(k, f.uy)))
    ensures Place(f, MoveAll(Swap, Row(n))) == seq(n, k => Point(f.x + Steps(k, f.vx), f.y + Steps(k, f.vy)))
  {
  }

  /** A component of an axis vector at its split point. */
  function SplitComponent(a: int): int {
    if Abs(Half(a)) % 2 != 0 && Abs(a) > 2 then Half(a) + Signum(a) else Half(a)
  }

  lemma SplitComponentLength(a: int)
    requires Abs(a) != 1
    ensures SplitComponent(a) == Steps(Split(Abs(a)), Signum(a))
    ensures Half(a) == Steps(Abs(a) / 2, Signum(a))
    ensures Abs(a) > 1 ==> 1 <= Split(Abs(a)) < Abs(a)
  {
  }

  /** The test on the halved vector's length is the test on its one nonzero component. */
  lemma SplitVector(ax: int, ay: int)
    requires ax == 0 || ay == 0
    ensures var odd := Abs(Half(ax) + Half(ay)) % 2 != 0 && Abs(ax + ay) > 2;
      && SplitComponent(ax) == (if odd then Half(ax) + Signum(ax) else Half(ax))
      && SplitComponent(ay) == (if odd then Half(ay) + Signum(ay) else Half(ay))
  {
  }

  lemma WideFrames(x: int, y: int, ax: int, ay: int, bx: int, by_: int, ax2: int, ay2: int)
    requires Axes(ax, ay, bx, by_) && Abs(ax + ay) > 1
    requires var odd := Abs(Half(ax) + Half(ay)) % 2 != 0 && Abs(ax + ay) > 2;
      && ax2 == (if odd then Half(ax) + Signum(ax) else Half(ax))
      && ay2 == (if odd then Half(ay) + Signum(ay) else Half(ay))
    ensures var f, k := FrameOf(x, y, ax, ay, bx, by_), Split(Abs(ax + ay));
      && f.Valid()
      && Axes(ax2, ay2, bx, by_) && FrameOf(x, y, ax2, ay2, bx, by_) == f && Abs(ax2 + ay2) == k
      && Axes(ax - ax2, ay - ay2, bx, by_) && Abs((ax - ax2) + (ay - ay2)) == Abs(ax + ay) - k
      && FrameOf(x + ax2, y + ay2, ax - ax2, ay - ay2, bx, by_) == f.Moved(Shift(k, 0))
  {
    hide Split, Half, SplitComponent;
    SplitVector(ax, ay);
    SplitComponentLength(ax);
    SplitComponentLength(ay);
  }

  lemma TallFrames(x: int, y: int, ax: int, ay: int, bx: int, by_: int, ax2: int, ay2: int, bx2: int, by2: int)
    requires Axes(ax, ay, bx, by_) && Abs(ax + ay) > 1 && Abs(bx + by_) > 1
    requires ax2 == Half(ax) && ay2 == Half(ay)
    requires var odd := Abs(Half(bx) + Half(by_)) % 2 != 0 && Abs(bx + by_) > 2;
      && bx2 == (if odd then Half(bx) + Signum(bx) else Half(bx))
      && by2 == (if odd then Half(by_) + Signum(by_) else Half(by_))
    ensures var f, w, k := FrameOf(x, y, ax, ay, bx, by_), Abs(ax + ay), Split(Abs(bx + by_));
      && f.Valid()
      && Axes(bx2, by2, ax2, ay2) && Abs(bx2 + by2) == k && Abs(ax2 + ay2) == w / 2
      && FrameOf(x, y, bx2, by2, ax2, ay2) == f.Moved(Swap)
      && Axes(ax, ay, bx - bx2, by_ - by2) && Abs((bx - bx2) + (by_ - by2)) == Abs(bx + by_) - k
      && FrameOf(x + bx2, y + by2, ax, ay, bx - bx2, by_ - by2) == f.Moved(Shift(0, k))
  {
    hide Split, Half, SplitComponent;
    SplitVector(bx, by_);
    SplitComponentLength(ax);
    SplitComponentLength(ay);
    SplitComponentLength(bx);
    SplitComponentLength(by_);
  }

  lemma MirrorFrame(x: int, y: int, ax: int, ay: int, bx: int, by_: int, ax2: int, ay2: int, bx2: int, by2: int)
    requires Axes(ax, ay, bx, by_) && Abs(ax + ay) > 1 && Abs(bx + by_) > 1
    requires ax2 == Half(ax) && ay2 == Half(ay)
    requires var odd := Abs(Half(bx) + Half(by_)) % 2 != 0 && Abs(bx + by_) > 2;
      && bx2 == (if odd then Half(bx) + Signum(bx) else Half(bx))
      && by2 == (if odd then Half(by_) + Signum(by_) else Half(by_))
    ensures var f, w, k := FrameOf(x, y, ax, ay, bx, by_), Abs(ax + ay), Split(Abs(bx + by_));
      && f.Valid()
      && Axes(-bx2, -by2, -(ax - ax2), -(ay - ay2))
      && Abs(-bx2 + -by2) == k && Abs(-(ax - ax2) + -(ay - ay2)) == w - w / 2
      && FrameOf(x + (ax - Signum(ax)) + (bx2 - Signum(bx)), y + (ay - Signum(ay)) + (by2 - Signum(by_)),
                 -bx2, -by2, -(ax - ax2), -(ay - ay2)) == f.Moved(Mirror(w - 1, k - 1))
  {
    hide Split, Half, SplitComponent;
    SplitVector(bx, by_);
    SplitComponentLength(ax);
    SplitComponentLength(ay);
    SplitComponentLength(bx);
    SplitComponentLength(by_);
  }

  /** The generator appends exactly the curve over its rectangle to the path. */
  method Gilbert2d(x: int, y: int, ax: int, ay: int, bx: int, by_: int, path: Path)
    requires Axes(ax, ay, bx, by_)
    modifies path
    ensures path.points == old(path.points)
                           + Place(FrameOf(x, y, ax, ay, bx, by_), Curve(Abs(ax + ay), Abs(bx + by_)))
    decreases Abs(ax + ay) + Abs(bx + by_), 1
  {
    var w := Abs(ax + ay);
    var h := Abs(bx + by_);
    ghost var f := FrameOf(x, y, ax, ay, bx, by_);
    hide Place, Curve, Split, MoveAll;
    CurveParts(w, h);
    if h == 1 {
      PlaceLine(f, w);
      PushLine(x, y, Signum(ax), Signum(ay), w, path);
    } else if w == 1 {
      PlaceLine(f, h);
      PushLine(x, y, Signum(bx), Signum(by_), h, path);
    } else if 2 * w > 3 * h {
      DrawWide(x, y, ax, ay, bx, by_, path);
    } else {
      DrawTall(x, y, ax, ay, bx, by_, path);
    }
  }

  /** A wide rectangle: split along the first axis. */
  method DrawWide(x: int, y: int, ax: int, ay: int, bx: int, by_: int, path: Path)
    requires Axes(ax, ay, bx, by_) && Abs(ax + ay) > 1 && Abs(bx + by_) > 1
    requires 2 * Abs(ax + ay) > 3 * Abs(bx + by_)
    modifies path
    ensures path.points == old(path.points)
                           + Place(FrameOf(x, y, ax, ay, bx, by_), Curve(Abs(ax + ay), Abs(bx + by_)))
    decreases Abs(ax + ay) + Abs(bx + by_), 0
  {
    hide *;
    var ax2, ay2 := Half(ax), Half(ay);
    if Abs(ax2 + ay2) % 2 != 0 && Abs(ax + ay) > 2 {
      ax2 := ax2 + Signum(ax);
      ay2 := ay2 + Signum(ay);
    }
    WideFrames(x, y, ax, ay, bx, by_, ax2, ay2);
    PlaceWide(FrameOf(x, y, ax, ay, bx, by_), Abs(ax + ay), Abs(bx + by_));
    Gilbert2d(x, y, ax2, ay2, bx, by_, path);
    Gilbert2d(x + ax2, y + ay2, ax - ax2, ay - ay2, bx, by_, path);
  }

  /** A tall or square rectangle: three parts, the first and last turned sideways. */
  method DrawTall(x: int, y: int, ax: int, ay: int, bx: int, by_: int, path: Path)
    requires Axes(ax, ay, bx, by_) && Abs(ax + ay) > 1 && Abs(bx + by_) > 1
    requires 2 * Abs(ax + ay) <= 3 * Abs(bx + by_)
    modifies path
    ensures path.points == old(path.points)
                           + Place(FrameOf(x, y, ax, ay, bx, by_), Curve(Abs(ax + ay), Abs(bx + by_)))
    decreases Abs(ax + ay) + Abs(bx + by_), 0
  {
    hide *;
    var ax2, ay2, bx2, by2 := Half(ax), Half(ay), Half(bx), Half(by_);
    if Abs(bx2 + by2) % 2 != 0 && Abs(bx + by_) > 2 {
      bx2 := bx2 + Signum(bx);
      by2 := by2 + Signum(by_);
    }
    var dax, day, dbx, dby := Signum(ax), Signum(ay), Signum(bx), Signum(by_);
    TallFrames(x, y, ax, ay, bx, by_, ax2, ay2, bx2, by2);
    MirrorFrame(x, y, ax, ay, bx, by_, ax2, ay2, bx2, by2);
    PlaceTall(FrameOf(x, y, ax, ay, bx, by_), Abs(ax + ay), Abs(bx + by_));
    Gilbert2d(x, y, bx2, by2, ax2, ay2, path);
    Gilbert2d(x + bx2, y + by2, ax, ay, bx - bx2, by_ - by2, path);
    Gilbert2d(x + (ax - dax) + (bx2 - dbx), y + (ay - day) + (by2 - dby),
              -bx2, -by2, -(ax - ax2), -(ay - ay2), path);
  }

  // ------------------------------------- the placed curve, in any orientation

  /** The cell of the frame at which a screen point lies. */
  function CellOf(f: Frame, p: Point): Cell {
    Cell(Steps(p.x - f.x, f.ux) + Steps(p.y - f.y, f.uy), Steps(p.x - f.x, f.vx) + Steps(p.y - f.y, f.vy))
  }

  lemma CellOfAt(f: Frame, p: Point, c: Cell)
    requires f.Valid()
    ensures f.At(c) == p <==> CellOf(f, p) == c
  {
  }

  lemma {:induction false} PlaceCount(f: Frame, s: seq<Cell>, p: Point)
    requires f.Valid()
    ensures multiset(Place(f, s))[p] == multiset(s)[CellOf(f, p)]
  {
    if s == [] {
    } else {
      var t, c := s[..|s| - 1], s[|s| - 1];
      PlaceCount(f, t, p);
      CellOfAt(f, p, c);
      hide CellOf;
      assert s == t + [c];
      assert Place(f, s) == Place(f, t) + [f.At(c)];
    }
  }

  /** Every screen point of the rectangle is visited exactly once, every other one never. */
  lemma PlacedCoverage(f: Frame, w: nat, h: nat, p: Point)
    requires f.Valid() && w >= 1 && h >= 1
    ensures multiset(Place(f, Curve(w, h)))[p] == if In(w, h, CellOf(f, p)) then 1 else 0
    ensures |Place(f, Curve(w, h))| == w * h
  {
    hide Curve, Place, CellOf;
    CurveCovers(w, h);
    CurveLength(w, h);
    PlaceCount(f, Curve(w, h), p);
  }

  predicate Neighbours(p: Point, q: Point) {
    Abs(p.x - q.x) + Abs(p.y - q.y) == 1
  }

  ghost predicate Unbroken(s: seq<Point>) {
    forall k :: 0 < k < |s| ==> Neighbours(s[k - 1], s[k])
  }

  lemma NeighboursAt(f: Frame, c: Cell, d: Cell)
    requires f.Valid()
    ensures Neighbours(f.At(c), f.At(d)) <==> Adjacent(c, d)
  {
  }

  lemma PlaceUnbroken(f: Frame, s: seq<Cell>)
    requires f.Valid()
    ensures Unbroken(Place(f, s)) <==> Continuous(s)
  {
    hide Place;
    forall k | 0 < k < |s|
      ensures Neighbours(Place(f, s)[k - 1], Place(f, s)[k]) <==> Adjacent(s[k - 1], s[k])
    {
      NeighboursAt(f, s[k - 1], s[k]);
    }
  }

  /** In every orientation the path starts at the given corner, and it has no jump exactly
      when the width is even or 1 or the height is odd or 2. For an even width it ends at
      the far corner of the first axis. */
  lemma PlacedContinuity(f: Frame, w: nat, h: nat)
    requires f.Valid() && w >= 1 && h >= 1
    ensures var s := Place(f, Curve(w, h));
      && (Unbroken(s) <==> w % 2 == 0 || h % 2 == 1 || w == 1 || h == 2)
      && s != [] && s[0] == Point(f.x, f.y)
      && (w % 2 == 0 ==> s[|s| - 1] == f.At(Cell(w - 1, 0)))
  {
    hide Curve, Place, Continuous, Unbroken;
    CurveContinuity(w, h);
    CurveEnds(w, h);
    PlaceUnbroken(f, Curve(w, h));
  }
}
