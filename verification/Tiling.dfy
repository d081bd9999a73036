/** Free and live blocks that together tile a region exactly. */
module Tiling {
  import opened Blocks

  ghost predicate LiveAt(live: set<Block>, x: int) {
    exists b :: b in live && b.Has(x)
  }

  ghost predicate Within(b: Block, lo: nat, hi: nat) {
    b.size > 0 && lo <= b.addr && b.End() <= hi
  }

  ghost predicate Disjoint(live: set<Block>) {
    forall b, c :: b in live && c in live && b != c ==> b.End() <= c.addr || c.End() <= b.addr
  }

  /** Every address of [lo, hi) is in exactly one block, free or live; the free list is
      sorted and no two free blocks touch. */
  ghost predicate Tiles(lo: nat, hi: nat, free: seq<Block>, live: set<Block>) {
    && Canonical(free)
    && (forall i :: 0 <= i < |free| ==> Within(free[i], lo, hi))
    && (forall b :: b in live ==> Within(b, lo, hi))
    && Disjoint(live)
    && (forall x :: lo <= x < hi ==> (Covered(free, x) <==> !LiveAt(live, x)))
  }

  /** The free list is a function of the live blocks. */
  lemma TilesUnique(lo: nat, hi: nat, free: seq<Block>, free': seq<Block>, live: set<Block>)
    requires Tiles(lo, hi, free, live) && Tiles(lo, hi, free', live)
    ensures free == free'
  {
    forall x
      ensures Covered(free, x) <==> Covered(free', x)
    {
      CoveredWithin(lo, hi, free, x);
      CoveredWithin(lo, hi, free', x);
    }
    CanonicalUnique(free, free');
  }

  lemma CoveredWithin(lo: nat, hi: nat, l: seq<Block>, x: int)
    requires forall i :: 0 <= i < |l| ==> Within(l[i], lo, hi)
    ensures Covered(l, x) ==> lo <= x < hi
  {
  }

  lemma WholeRegion(lo: nat, hi: nat)
    requires lo < hi
    ensures Tiles(lo, hi, [Block(lo, hi - lo)], {})
  {
    var l := [Block(lo, hi - lo)];
    forall x | lo <= x < hi
      ensures Covered(l, x)
    {
      assert l[0].Has(x);
    }
  }

  /** When nothing is live the free list is the whole region. */
  lemma NothingLive(lo: nat, hi: nat, free: seq<Block>)
    requires lo < hi && Tiles(lo, hi, free, {})
    ensures free == [Block(lo, hi - lo)]
  {
    WholeRegion(lo, hi);
    TilesUnique(lo, hi, free, [Block(lo, hi - lo)], {});
  }

  // ------------------------------------------------------------- allocation

  lemma LiveAdd(live: set<Block>, b: Block, x: int)
    ensures LiveAt(live + {b}, x) <==> LiveAt(live, x) || b.Has(x)
  {
    if LiveAt(live, x) {
      var c :| c in live && c.Has(x);
      assert c in live + {b};
    }
    assert b in live + {b};
  }

  lemma TakeWithin(lo: nat, hi: nat, l: seq<Block>, k: nat, used: nat)
    requires Canonical(l) && k < |l| && used <= l[k].size && forall i :: 0 <= i < |l| ==> Within(l[i], lo, hi)
    ensures forall i :: 0 <= i < |Take(l, k, used)| ==> Within(Take(l, k, used)[i], lo, hi)
  {
  }

  /** A free block and a live one share no address, so neither do their extents. */
  lemma FreeApartFromLive(lo: nat, hi: nat, free: seq<Block>, live: set<Block>, k: nat, b: Block)
    requires Tiles(lo, hi, free, live) && k < |free| && b in live
    ensures b.End() <= free[k].addr || free[k].End() <= b.addr
  {
    assert Within(free[k], lo, hi) && Within(b, lo, hi);
    assert free[k].Has(b.addr) ==> Covered(free, b.addr);
    assert b.Has(b.addr);
    assert LiveAt(live, b.addr);
    assert b.Has(free[k].addr) ==> LiveAt(live, free[k].addr);
    assert free[k].Has(free[k].addr);
    assert Covered(free, free[k].addr);
  }

  lemma TakeDisjoint(lo: nat, hi: nat, free: seq<Block>, live: set<Block>, k: nat, used: nat)
    requires Tiles(lo, hi, free, live) && k < |free| && 0 < used <= free[k].size
    ensures Disjoint(live + {Block(free[k].addr, used)})
  {
    forall b | b in live
      ensures b.End() <= free[k].addr || free[k].addr + used <= b.addr
    {
      FreeApartFromLive(lo, hi, free, live, k, b);
    }
  }

  /** Taking the front of a free block makes it live and keeps the tiling. */
  lemma TakeTiles(lo: nat, hi: nat, free: seq<Block>, live: set<Block>, k: nat, used: nat)
    requires Tiles(lo, hi, free, live) && k < |free| && 0 < used <= free[k].size
    ensures Tiles(lo, hi, Take(free, k, used), live + {Block(free[k].addr, used)})
    ensures Block(free[k].addr, used) !in live
  {
    var u, r := Block(free[k].addr, used), Take(free, k, used);
    TakeCanonical(free, k, used);
    TakeWithin(lo, hi, free, k, used);
    TakeDisjoint(lo, hi, free, live, k, used);
    assert Within(free[k], lo, hi);
    forall x | lo <= x < hi
      ensures Covered(r, x) <==> !LiveAt(live + {u}, x)
    {
      TakeCovered(free, k, used, x);
      LiveAdd(live, u, x);
    }
    TakenIsNew(lo, hi, free, live, k, used);
    hide Take, Canonical, Covered, LiveAt, Disjoint;
  }

  lemma TakenIsNew(lo: nat, hi: nat, free: seq<Block>, live: set<Block>, k: nat, used: nat)
    requires Tiles(lo, hi, free, live) && k < |free| && 0 < used <= free[k].size
    ensures Block(free[k].addr, used) !in live
  {
    var u := Block(free[k].addr, used);
    assert Within(free[k], lo, hi) && free[k].Has(u.addr);
    assert u.Has(u.addr);
    assert u in live ==> LiveAt(live, u.addr);
  }

  // ----------------------------------------------------------- deallocation

  lemma LiveRemove(live: set<Block>, b: Block, x: int)
    requires b in live && Disjoint(live)
    ensures LiveAt(live - {b}, x) <==> LiveAt(live, x) && !b.Has(x)
  {
    if LiveAt(live, x) && !b.Has(x) {
      var c :| c in live && c.Has(x);
      assert c in live - {b};
    }
  }

  lemma LiveApart(lo: nat, hi: nat, free: seq<Block>, live: set<Block>, b: Block)
    requires Tiles(lo, hi, free, live) && b in live
    ensures Apart(free, b)
  {
    forall i | 0 <= i < |free|
      ensures free[i].End() <= b.addr || b.End() <= free[i].addr
    {
      FreeApartFromLive(lo, hi, free, live, i, b);
    }
  }

  /** The free list after `b` is given back. */
  function Give(free: seq<Block>, b: Block): seq<Block> {
    Coalesce(Insert(free, b))
  }

  lemma CanonicalOrdered(l: seq<Block>)
    requires Canonical(l)
    ensures Ordered(l)
  {
  }

  lemma GiveCanonical(free: seq<Block>, b: Block)
    requires Canonical(free) && Apart(free, b)
    ensures Ordered(Insert(free, b)) && Canonical(Give(free, b))
  {
    hide Insert, Coalesce, Canonical, Ordered, Apart;
    CanonicalOrdered(free);
    InsertOrdered(free, b);
    CoalesceCanonical(Insert(free, b));
  }

  lemma GiveCovered(free: seq<Block>, b: Block, x: int)
    requires Canonical(free) && Apart(free, b)
    ensures Covered(Give(free, b), x) <==> Covered(free, x) || b.Has(x)
  {
    hide Insert, Coalesce, Canonical, Ordered, Apart, Covered;
    GiveCanonical(free, b);
    CoalesceCovered(Insert(free, b), x);
    InsertCovered(free, b, x);
  }

  /** A canonical list whose addresses all lie in [lo, hi) has its blocks there. */
  lemma CoveredWithinBlocks(lo: nat, hi: nat, l: seq<Block>)
    requires Canonical(l) && forall x :: Covered(l, x) ==> lo <= x < hi
    ensures forall i :: 0 <= i < |l| ==> Within(l[i], lo, hi)
  {
    forall i | 0 <= i < |l|
      ensures Within(l[i], lo, hi)
    {
      assert l[i].Has(l[i].addr) && l[i].Has(l[i].End() - 1);
      assert Covered(l, l[i].addr) && Covered(l, l[i].End() - 1);
    }
  }

  /** Giving a live block back keeps the tiling. */
  lemma GiveTiles(lo: nat, hi: nat, free: seq<Block>, live: set<Block>, b: Block)
    requires Tiles(lo, hi, free, live) && b in live
    ensures Tiles(lo, hi, Give(free, b), live - {b})
  {
    hide Give;
    var r := Give(free, b);
    LiveApart(lo, hi, free, live, b);
    GiveCanonical(free, b);
    forall x
      ensures Covered(r, x) ==> lo <= x < hi
      ensures lo <= x < hi ==> (Covered(r, x) <==> !LiveAt(live - {b}, x))
    {
      GiveCovered(free, b, x);
      LiveRemove(live, b, x);
      CoveredWithin(lo, hi, free, x);
    }
    CoveredWithinBlocks(lo, hi, r);
  }

  /** Allocating and giving back restores the free list. */
  lemma TakeThenGive(l: seq<Block>, k: nat, used: nat)
    requires Canonical(l) && k < |l| && 0 < used <= l[k].size
    ensures Give(Take(l, k, used), Block(l[k].addr, used)) == l
  {
    var r, u := Take(l, k, used), Block(l[k].addr, used);
    TakeCanonical(l, k, used);
    TakeApart(l, k, used);
    hide Take, Give, Apart;
    GiveCanonical(r, u);
    forall x
      ensures Covered(Give(r, u), x) <==> Covered(l, x)
    {
      GiveCovered(r, u, x);
      TakeCovered(l, k, used, x);
      assert u.Has(x) ==> l[k].Has(x);
    }
    CanonicalUnique(Give(r, u), l);
  }

  lemma TakeApart(l: seq<Block>, k: nat, used: nat)
    requires Canonical(l) && k < |l| && 0 < used <= l[k].size
    ensures Apart(Take(l, k, used), Block(l[k].addr, used))
  {
  }

  // -------------------------------------------------------------- the walk

  ghost predicate IsBlock(free: seq<Block>, live: set<Block>, b: Block) {
    b in free || b in live
  }

  lemma BlocksApart(lo: nat, hi: nat, free: seq<Block>, live: set<Block>, b: Block, c: Block)
    requires Tiles(lo, hi, free, live) && IsBlock(free, live, b) && IsBlock(free, live, c) && b != c
    ensures b.End() <= c.addr || c.End() <= b.addr
  {
    if b in free && c in live {
      var k :| 0 <= k < |free| && free[k] == b;
      FreeApartFromLive(lo, hi, free, live, k, c);
    } else if c in free && b in live {
      var k :| 0 <= k < |free| && free[k] == c;
      FreeApartFromLive(lo, hi, free, live, k, b);
    }
  }

  lemma BlockAround(lo: nat, hi: nat, free: seq<Block>, live: set<Block>, x: int) returns (b: Block)
    requires Tiles(lo, hi, free, live) && lo <= x < hi
    ensures IsBlock(free, live, b) && b.Has(x)
  {
    if Covered(free, x) {
      var i :| 0 <= i < |free| && free[i].Has(x);
      b := free[i];
    } else {
      b :| b in live && b.Has(x);
    }
  }

  /** Address `x` is the end of the region or the start of a block. */
  ghost predicate Boundary(hi: nat, free: seq<Block>, live: set<Block>, x: nat) {
    x == hi || exists b :: IsBlock(free, live, b) && b.addr == x
  }

  /** A walk that starts at a block boundary and steps over a block is at a boundary again. */
  lemma NextBoundary(lo: nat, hi: nat, free: seq<Block>, live: set<Block>, b: Block)
    requires Tiles(lo, hi, free, live) && IsBlock(free, live, b)
    ensures lo <= b.addr < b.End() <= hi && Boundary(hi, free, live, b.End())
  {
    BlockWithin(lo, hi, free, live, b);
    if b.End() < hi {
      var c := BlockAround(lo, hi, free, live, b.End());
      BlocksApart(lo, hi, free, live, b, c);
    }
  }

  lemma BlockWithin(lo: nat, hi: nat, free: seq<Block>, live: set<Block>, b: Block)
    requires Tiles(lo, hi, free, live) && IsBlock(free, live, b)
    ensures Within(b, lo, hi)
  {
    if b in free {
      var k :| 0 <= k < |free| && free[k] == b;
    }
  }

  lemma FirstBoundary(lo: nat, hi: nat, free: seq<Block>, live: set<Block>)
    requires Tiles(lo, hi, free, live) && lo < hi
    ensures Boundary(hi, free, live, lo)
  {
    var b := BlockAround(lo, hi, free, live, lo);
    BlockWithin(lo, hi, free, live, b);
  }

  // ------------------------------------------------------------ conservation

  ghost function Pick(s: set<Block>): Block
    requires s != {}
    ensures Pick(s) in s
  {
    var b :| b in s;
    b
  }

  /** The bytes of all live blocks. */
  ghost function LiveTotal(live: set<Block>): nat {
    if live == {} then 0 else Pick(live).size + LiveTotal(live - {Pick(live)})
  }

  lemma TotalGive(free: seq<Block>, b: Block)
    ensures Total(Give(free, b)) == Total(free) + b.size
  {
    hide Insert, Coalesce, Total;
    TotalInsert(free, b);
    TotalCoalesce(Insert(free, b));
  }

  /** Conservation: live and free bytes add up to the region. */
  lemma {:induction false} Conservation(lo: nat, hi: nat, free: seq<Block>, live: set<Block>)
    requires lo < hi && Tiles(lo, hi, free, live)
    ensures LiveTotal(live) + Total(free) == hi - lo
    decreases |live|
  {
    hide Tiles, Give;
    if live == {} {
      NothingLive(lo, hi, free);
      TotalOne(Block(lo, hi - lo));
    } else {
      var b := Pick(live);
      GiveTiles(lo, hi, free, live, b);
      TotalGive(free, b);
      Conservation(lo, hi, Give(free, b), live - {b});
    }
  }

  // --------------------------------------------------------------- alignment

  predicate Unit(b: Block, q: nat)
    requires q > 0
  {
    b.addr % q == 0 && b.size % q == 0
  }

  ghost predicate Units(l: seq<Block>, q: nat)
    requires q > 0
  {
    forall i :: 0 <= i < |l| ==> Unit(l[i], q)
  }

  lemma SumUnit(a: nat, b: nat, q: nat)
    requires q > 0 && a % q == 0 && b % q == 0
    ensures (a + b) % q == 0
    ensures b <= a ==> (a - b) % q == 0
  {
    var m, n := a / q, b / q;
    assert a == q * m && b == q * n;
    assert a + b == q * (m + n);
    MultipleMod(m + n, q);
    if b <= a {
      assert a - b == q * (m - n);
      MultipleMod(m - n, q);
    }
  }

  lemma MultipleMod(m: int, q: nat)
    requires q > 0
    ensures (q * m) % q == 0
  {
    var x := q * m;
    var d := m - x / q;
    assert q * d == x % q;
    SmallMultiple(d, q);
  }

  lemma SmallMultiple(d: int, q: nat)
    ensures d >= 1 ==> q * d >= q
    ensures d <= -1 ==> q * d + q <= 0
  {
    if d >= 1 {
      assert q * d == q + q * (d - 1);
    } else if d <= -1 {
      assert q * d + q == 0 - q * (-1 - d);
    }
  }

  lemma TakeUnits(l: seq<Block>, k: nat, used: nat, q: nat)
    requires q > 0 && Units(l, q) && k < |l| && used <= l[k].size && used % q == 0
    ensures Units(Take(l, k, used), q)
  {
    assert Unit(l[k], q);
    SumUnit(l[k].addr, used, q);
    SumUnit(l[k].size, used, q);
  }

  lemma InsertUnits(l: seq<Block>, b: Block, q: nat)
    requires q > 0 && Units(l, q) && Unit(b, q)
    ensures Units(Insert(l, b), q)
  {
    hide Insert, Above, Unit;
    InsertAt(l, b);
  }

  lemma {:induction false} CoalesceUnits(l: seq<Block>, q: nat)
    requires q > 0 && Units(l, q)
    ensures Units(Coalesce(l), q)
    decreases |l|
  {
    if |l| < 2 {
    } else if l[0].End() == l[1].addr {
      var m := [Block(l[0].addr, l[0].size + l[1].size)] + l[2..];
      assert Unit(l[0], q) && Unit(l[1], q);
      SumUnit(l[0].size, l[1].size, q);
      assert forall i :: 1 <= i < |m| ==> m[i] == l[i + 1];
      hide Unit;
      CoalesceUnits(m, q);
    } else {
      CoalesceUnits(l[1..], q);
    }
  }

  lemma GiveUnits(l: seq<Block>, b: Block, q: nat)
    requires q > 0 && Units(l, q) && Unit(b, q)
    ensures Units(Give(l, b), q)
  {
    hide Insert, Coalesce, Units;
    InsertUnits(l, b, q);
    CoalesceUnits(Insert(l, b), q);
  }
}
