/** The Gilbert space-filling curve (src/gilbert.rs), in a rectangle's own coordinates:
    `Cell(i, j)` is i steps along the first axis and j along the second. */
module Gilbert {

  datatype Cell = Cell(i: int, j: int)

  /** How the three parts of a tall rectangle and the second half of a wide one are placed. */
  datatype Motion = Shift(di: int, dj: int) | Swap | Mirror(mi: int, mj: int)

  function Move(m: Motion, c: Cell): Cell {
    match m
    case Shift(di, dj) => Cell(di + c.i, dj + c.j)
    case Swap => Cell(c.j, c.i)
    case Mirror(mi, mj) => Cell(mi - c.j, mj - c.i)
  }

  function MoveBack(m: Motion, c: Cell): Cell {
    match m
    case Shift(di, dj) => Cell(c.i - di, c.j - dj)
    case Swap => Cell(c.j, c.i)
    case Mirror(mi, mj) => Cell(mj - c.j, mi - c.i)
  }

  function MoveAll(m: Motion, s: seq<Cell>): (t: seq<Cell>)
    ensures |t| == |s|
    ensures forall k :: 0 <= k < |s| ==> t[k] == Move(m, s[k])
  {
    seq(|s|, k requires 0 <= k < |s| => Move(m, s[k]))
  }

  /** Where a side is split: the half, moved up to an even length when that is odd. */
  function Split(n: nat): (k: nat)
    ensures n >= 2 ==> 1 <= k < n
    ensures n > 2 ==> k % 2 == 0 && k <= n / 2 + 1
  {
    if (n / 2) % 2 != 0 && n > 2 then n / 2 + 1 else n / 2
  }

  function Row(w: nat): (s: seq<Cell>)
    ensures |s| == w
    ensures forall k :: 0 <= k < w ==> s[k] == Cell(k, 0)
  {
    seq(w, k => Cell(k, 0))
  }

  /** The curve over a w-by-h rectangle. */
  function Curve(w: nat, h: nat): seq<Cell>
    requires w >= 1 && h >= 1
    decreases w + h
  {
    if h == 1 then Row(w)
    else if w == 1 then MoveAll(Swap, Row(h))
    else if 2 * w > 3 * h then
      Curve(Split(w), h) + MoveAll(Shift(Split(w), 0), Curve(w - Split(w), h))
    else
      MoveAll(Swap, Curve(Split(h), w / 2))
      + MoveAll(Shift(0, Split(h)), Curve(w, h - Split(h)))
      + MoveAll(Mirror(w - 1, Split(h) - 1), Curve(Split(h), w - w / 2))
  }

  // -------------------------------------------------------------- coverage

  predicate In(w: int, h: int, c: Cell) {
    0 <= c.i < w && 0 <= c.j < h
  }

  /** `s` visits each cell of the w-by-h rectangle exactly once and nothing else. */
  ghost predicate Covers(s: seq<Cell>, w: nat, h: nat) {
    forall c :: multiset(s)[c] == if In(w, h, c) then 1 else 0
  }

  lemma {:induction false} RowCovers(w: nat)
    ensures Covers(Row(w), w, 1)
  {
    if w > 0 {
      RowCovers(w - 1);
      assert Row(w) == Row(w - 1) + [Cell(w - 1, 0)];
    }
  }

  lemma {:induction false} MoveAllCount(m: Motion, s: seq<Cell>, c: Cell)
    ensures multiset(MoveAll(m, s))[c] == multiset(s)[MoveBack(m, c)]
  {
    if s == [] {
    } else {
      var t := s[..|s| - 1];
      MoveAllCount(m, t, c);
      assert s == t + [s[|s| - 1]];
      assert Move(m, s[|s| - 1]) == c <==> s[|s| - 1] == MoveBack(m, c);
      assert MoveAll(m, s) == MoveAll(m, t) + [Move(m, s[|s| - 1])];
    }
  }

  lemma ColumnCovers(h: nat)
    ensures Covers(MoveAll(Swap, Row(h)), 1, h)
  {
    RowCovers(h);
    forall c
      ensures multiset(MoveAll(Swap, Row(h)))[c] == if In(1, h, c) then 1 else 0
    {
      MoveAllCount(Swap, Row(h), c);
    }
  }

  lemma WideCovers(s1: seq<Cell>, s2: seq<Cell>, w: nat, h: nat, k: nat)
    requires k <= w && Covers(s1, k, h) && Covers(s2, w - k, h)
    ensures Covers(s1 + MoveAll(Shift(k, 0), s2), w, h)
  {
    forall c {
      MoveAllCount(Shift(k, 0), s2, c);
    }
  }

  lemma TallCovers(s1: seq<Cell>, s2: seq<Cell>, s3: seq<Cell>, w: nat, h: nat, n: nat, k: nat)
    requires n <= w && k <= h
    requires Covers(s1, k, n) && Covers(s2, w, h - k) && Covers(s3, k, w - n)
    ensures Covers(MoveAll(Swap, s1) + MoveAll(Shift(0, k), s2) + MoveAll(Mirror(w - 1, k - 1), s3), w, h)
  {
    var t := MoveAll(Swap, s1) + MoveAll(Shift(0, k), s2) + MoveAll(Mirror(w - 1, k - 1), s3);
    forall c
      ensures multiset(t)[c] == if In(w, h, c) then 1 else 0
    {
      MoveAllCount(Swap, s1, c);
      MoveAllCount(Shift(0, k), s2, c);
      MoveAllCount(Mirror(w - 1, k - 1), s3, c);
    }
  }

  /** Full coverage: every cell exactly once, for every rectangle. */
  lemma {:induction false} CurveCovers(w: nat, h: nat)
    requires w >= 1 && h >= 1
    ensures Covers(Curve(w, h), w, h)
    decreases w + h
  {
    hide Covers, MoveAll, Split;
    if h == 1 {
      RowCovers(w);
    } else if w == 1 {
      ColumnCovers(h);
    } else if 2 * w > 3 * h {
      var k := Split(w);
      CurveCovers(k, h);
      CurveCovers(w - k, h);
      WideCovers(Curve(k, h), Curve(w - k, h), w, h, k);
    } else {
      var k := Split(h);
      CurveCovers(k, w / 2);
      CurveCovers(w, h - k);
      CurveCovers(k, w - w / 2);
      TallCovers(Curve(k, w / 2), Curve(w, h - k), Curve(k, w - w / 2), w, h, w / 2, k);
    }
  }

  lemma SplitAreas(w: nat, h: nat, n: nat, k: nat)
    requires n <= w && k <= h
    ensures n * h + (w - n) * h == w * h
    ensures k * n + w * (h - k) + k * (w - n) == w * h
  {
  }

  lemma {:induction false} CurveLength(w: nat, h: nat)
    requires w >= 1 && h >= 1
    ensures |Curve(w, h)| == w * h
    decreases w + h
  {
    hide Split;
    if h == 1 || w == 1 {
    } else if 2 * w > 3 * h {
      var k := Split(w);
      CurveLength(k, h);
      CurveLength(w - k, h);
      SplitAreas(w, h, k, 0);
    } else {
      var k := Split(h);
      CurveLength(k, w / 2);
      CurveLength(w, h - k);
      CurveLength(k, w - w / 2);
      SplitAreas(w, h, w / 2, k);
    }
  }

  // ------------------------------------------------------------ continuity

  predicate Adjacent(c: Cell, d: Cell) {
    || (c.i == d.i && (c.j == d.j + 1 || d.j == c.j + 1))
    || (c.j == d.j && (c.i == d.i + 1 || d.i == c.i + 1))
  }

  /** Consecutive cells are at Manhattan distance 1. */
  ghost predicate Continuous(s: seq<Cell>) {
    forall k :: 0 < k < |s| ==> Adjacent(s[k - 1], s[k])
  }

  lemma ContinuousConcat(s: seq<Cell>, t: seq<Cell>)
    requires Continuous(s) && Continuous(t) && s != [] && t != []
    requires Adjacent(s[|s| - 1], t[0])
    ensures Continuous(s + t)
  {
    forall k | 0 < k < |s + t|
      ensures Adjacent((s + t)[k - 1], (s + t)[k])
    {
      if k > |s| {
        assert (s + t)[k] == t[k - |s|] && (s + t)[k - 1] == t[k - |s| - 1];
      }
    }
  }

  lemma MoveAllContinuous(m: Motion, s: seq<Cell>)
    requires Continuous(s)
    ensures Continuous(MoveAll(m, s))
  {
    forall k | 0 < k < |s|
      ensures Adjacent(MoveAll(m, s)[k - 1], MoveAll(m, s)[k])
    {
      assert Adjacent(s[k - 1], s[k]);
    }
  }

  /** Where the curve over a w-by-h rectangle ends: at the far corner of the first axis,
      except that a single column ends at its other end and an odd width of height 2 ends
      one cell short. */
  function LastCell(w: nat, h: nat): Cell {
    if w == 1 then Cell(0, h - 1)
    else if w % 2 == 1 && h == 2 then Cell(w - 2, 0)
    else Cell(w - 1, 0)
  }

  ghost predicate Spans(s: seq<Cell>, w: nat, h: nat) {
    s != [] && s[0] == Cell(0, 0) && s[|s| - 1] == LastCell(w, h)
  }

  lemma {:induction false} CurveEnds(w: nat, h: nat)
    requires w >= 1 && h >= 1
    ensures Spans(Curve(w, h), w, h)
    decreases w + h
  {
    if h == 1 || w == 1 {
    } else if 2 * w > 3 * h {
      CurveEnds(Split(w), h);
      CurveEnds(w - Split(w), h);
      WideEnds(Curve(Split(w), h), Curve(w - Split(w), h), w, h);
    } else {
      var k := Split(h);
      CurveEnds(k, w / 2);
      CurveEnds(w, h - k);
      CurveEnds(k, w - w / 2);
      TallEnds(Curve(k, w / 2), Curve(w, h - k), Curve(k, w - w / 2), w, h);
    }
  }

  lemma WideEnds(s1: seq<Cell>, s2: seq<Cell>, w: nat, h: nat)
    requires w > 1 && h > 1 && 2 * w > 3 * h
    requires Spans(s1, Split(w), h) && Spans(s2, w - Split(w), h)
    ensures Spans(s1 + MoveAll(Shift(Split(w), 0), s2), w, h)
  {
  }

  /** The last cells of the first and third part of a tall rectangle, put in place. */
  lemma TallLastCells(w: nat, h: nat)
    requires w > 1 && h > 1 && 2 * w <= 3 * h
    ensures Move(Swap, LastCell(Split(h), w / 2)) == Cell(0, Split(h) - 1)
    ensures Move(Mirror(w - 1, Split(h) - 1), LastCell(Split(h), w - w / 2)) == LastCell(w, h)
  {
    if h == 2 {
      assert w == 2 || w == 3;
    } else {
      hide Split;
    }
  }

  lemma TallEnds(s1: seq<Cell>, s2: seq<Cell>, s3: seq<Cell>, w: nat, h: nat)
    requires w > 1 && h > 1 && 2 * w <= 3 * h
    requires Spans(s1, Split(h), w / 2) && Spans(s2, w, h - Split(h)) && Spans(s3, Split(h), w - w / 2)
    ensures Spans(MoveAll(Swap, s1) + MoveAll(Shift(0, Split(h)), s2)
                  + MoveAll(Mirror(w - 1, Split(h) - 1), s3), w, h)
  {
    TallLastCells(w, h);
    hide MoveAll, Split, LastCell;
  }

  predicate Smooth(w: nat, h: nat) {
    w % 2 == 0 || h % 2 == 1 || w == 1 || h == 2
  }

  lemma WideSmooth(w: nat, h: nat)
    requires w > 1 && h > 1 && 2 * w > 3 * h && Smooth(w, h)
    ensures Smooth(Split(w), h) && Smooth(w - Split(w), h)
  {
    hide Split;
  }

  lemma TallSmooth(w: nat, h: nat)
    requires w > 1 && h > 2 && 2 * w <= 3 * h && Smooth(w, h)
    ensures Smooth(Split(h), w / 2) && Smooth(w, h - Split(h)) && Smooth(Split(h), w - w / 2)
  {
    hide Split;
  }

  lemma FlatSmooth(w: nat)
    requires 1 < w <= 3
    ensures Smooth(Split(2), w / 2) && Smooth(w, 2 - Split(2)) && Smooth(Split(2), w - w / 2)
  {
  }

  lemma CurveParts(w: nat, h: nat)
    requires w >= 1 && h >= 1
    ensures h == 1 ==> Curve(w, h) == Row(w)
    ensures h > 1 && w == 1 ==> Curve(w, h) == MoveAll(Swap, Row(h))
    ensures h > 1 && w > 1 && 2 * w > 3 * h ==>
              Curve(w, h) == Curve(Split(w), h) + MoveAll(Shift(Split(w), 0), Curve(w - Split(w), h))
    ensures h > 1 && w > 1 && 2 * w <= 3 * h ==>
              Curve(w, h) == MoveAll(Swap, Curve(Split(h), w / 2))
                             + MoveAll(Shift(0, Split(h)), Curve(w, h - Split(h)))
                             + MoveAll(Mirror(w - 1, Split(h) - 1), Curve(Split(h), w - w / 2))
  {
  }

  lemma LineContinuous(n: nat)
    ensures Continuous(Row(n)) && Continuous(MoveAll(Swap, Row(n)))
  {
    MoveAllContinuous(Swap, Row(n));
  }

  lemma {:induction false} SmoothContinuous(w: nat, h: nat)
    requires w >= 1 && h >= 1 && Smooth(w, h)
    ensures Continuous(Curve(w, h))
    decreases w + h
  {
    hide Spans, MoveAll, Split, Smooth, Continuous, Curve;
    CurveParts(w, h);
    if h == 1 || w == 1 {
      LineContinuous(w);
      LineContinuous(h);
    } else if 2 * w > 3 * h {
      var k := Split(w);
      WideSmooth(w, h);
      SmoothContinuous(k, h);
      SmoothContinuous(w - k, h);
      CurveEnds(k, h);
      CurveEnds(w - k, h);
      WideContinuous(Curve(k, h), Curve(w - k, h), w, h);
    } else {
      var k := Split(h);
      if h == 2 {
        FlatSmooth(w);
      } else {
        TallSmooth(w, h);
      }
      SmoothContinuous(k, w / 2);
      SmoothContinuous(w, h - k);
      SmoothContinuous(k, w - w / 2);
      CurveEnds(k, w / 2);
      CurveEnds(w, h - k);
      CurveEnds(k, w - w / 2);
      TallContinuous(Curve(k, w / 2), Curve(w, h - k), Curve(k, w - w / 2), w, h);
    }
  }

  lemma WideContinuous(s1: seq<Cell>, s2: seq<Cell>, w: nat, h: nat)
    requires w > 1 && h > 1 && 2 * w > 3 * h && Smooth(w, h)
    requires Spans(s1, Split(w), h) && Spans(s2, w - Split(w), h)
    requires Continuous(s1) && Continuous(s2)
    ensures Continuous(s1 + MoveAll(Shift(Split(w), 0), s2))
  {
    MoveAllContinuous(Shift(Split(w), 0), s2);
    ContinuousConcat(s1, MoveAll(Shift(Split(w), 0), s2));
  }

  lemma TallContinuous(s1: seq<Cell>, s2: seq<Cell>, s3: seq<Cell>, w: nat, h: nat)
    requires w > 1 && h > 1 && 2 * w <= 3 * h && Smooth(w, h)
    requires Spans(s1, Split(h), w / 2) && Spans(s2, w, h - Split(h)) && Spans(s3, Split(h), w - w / 2)
    requires Continuous(s1) && Continuous(s2) && Continuous(s3)
    ensures Continuous(MoveAll(Swap, s1) + MoveAll(Shift(0, Split(h)), s2)
                       + MoveAll(Mirror(w - 1, Split(h) - 1), s3))
  {
    TallLastCells(w, h);
    hide MoveAll, Split;
    var t1, t2, t3 := MoveAll(Swap, s1), MoveAll(Shift(0, Split(h)), s2), MoveAll(Mirror(w - 1, Split(h) - 1), s3);
    MoveAllContinuous(Swap, s1);
    MoveAllContinuous(Shift(0, Split(h)), s2);
    MoveAllContinuous(Mirror(w - 1, Split(h) - 1), s3);
    assert t1[|t1| - 1] == Cell(0, Split(h) - 1) && t2[0] == Cell(0, Split(h));
    ContinuousConcat(t1, t2);
    ContinuousConcat(t1 + t2, t3);
  }

  /** Each unit step flips the parity of i + j. */
  lemma {:induction false} ParityAlternates(s: seq<Cell>, k: nat)
    requires Continuous(s) && k < |s|
    ensures (s[k].i + s[k].j - s[0].i - s[0].j - k) % 2 == 0
  {
    if k > 0 {
      ParityAlternates(s, k - 1);
      assert Adjacent(s[k - 1], s[k]);
    }
  }

  lemma EvenArea(w: nat, h: nat)
    requires h % 2 == 0
    ensures (w * h) % 2 == 0
  {
    assert w * h == 2 * (w * (h / 2));
  }

  /** No continuous traversal joins the two ends when the width is odd and the height even. */
  lemma RoughDiscontinuous(w: nat, h: nat)
    requires w >= 1 && h >= 1 && !Smooth(w, h)
    ensures !Continuous(Curve(w, h))
  {
    hide Curve;
    CurveEnds(w, h);
    CurveLength(w, h);
    EvenArea(w, h);
    if Continuous(Curve(w, h)) {
      ParityAlternates(Curve(w, h), w * h - 1);
    }
  }

  /** Perfect continuity holds exactly for even widths, odd heights, single columns and
      height 2. */
  lemma CurveContinuity(w: nat, h: nat)
    requires w >= 1 && h >= 1
    ensures Continuous(Curve(w, h)) <==> w % 2 == 0 || h % 2 == 1 || w == 1 || h == 2
  {
    if Smooth(w, h) {
      SmoothContinuous(w, h);
    } else {
      RoughDiscontinuous(w, h);
    }
  }

  /** The smallest rectangle of the failing kind with both sides above 2. */
  lemma BrokenExample()
    ensures !Continuous(Curve(3, 4))
  {
    hide *;
    CurveContinuity(3, 4);
  }
}
