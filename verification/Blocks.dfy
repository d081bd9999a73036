/** Address-ordered lists of free blocks and the operations the two allocators of Ralph OS
    (src/allocator.rs, src/program_alloc.rs) perform on them, with their meaning in terms of
    the addresses the list covers. */
module Blocks {

  datatype Block = Block(addr: nat, size: nat) {
    function End(): nat {
      addr + size
    }

    predicate Has(x: int) {
      addr <= x < addr + size
    }
  }

  /** Whether address `x` lies in a block of the list. */
  ghost predicate Covered(l: seq<Block>, x: int) {
    exists i :: 0 <= i < |l| && l[i].Has(x)
  }

  /** The blocks are nonempty, in address order and do not overlap. */
  ghost predicate Ordered(l: seq<Block>) {
    && (forall i :: 0 <= i < |l| ==> l[i].size > 0)
    && (forall i, j :: 0 <= i < j < |l| ==> l[i].End() <= l[j].addr)
  }

  /** Moreover no two of them touch. */
  ghost predicate Canonical(l: seq<Block>) {
    && (forall i :: 0 <= i < |l| ==> l[i].size > 0)
    && (forall i, j :: 0 <= i < j < |l| ==> l[i].End() < l[j].addr)
  }

  // ------------------------------------------------------------- uniqueness

  lemma TailCovered(l: seq<Block>, x: int)
    requires Ordered(l) && l != []
    ensures Covered(l, x) <==> l[0].Has(x) || Covered(l[1..], x)
    ensures Covered(l[1..], x) ==> x >= l[0].End()
  {
    if Covered(l[1..], x) {
      var i :| 0 <= i < |l[1..]| && l[1..][i].Has(x);
      assert l[i + 1].Has(x);
    }
    if Covered(l, x) && !l[0].Has(x) {
      var i :| 0 <= i < |l| && l[i].Has(x);
      assert l[1..][i - 1].Has(x);
    }
  }

  lemma CanonicalTail(l: seq<Block>)
    requires Canonical(l) && l != []
    ensures Ordered(l) && Canonical(l[1..])
    ensures Covered(l, l[0].addr) && !Covered(l, l[0].End())
    ensures forall x :: Covered(l, x) ==> x >= l[0].addr
  {
    assert l[0].Has(l[0].addr);
  }

  lemma SameHead(k: seq<Block>, l: seq<Block>)
    requires Canonical(k) && Canonical(l) && k != [] && l != []
    requires forall x :: Covered(k, x) <==> Covered(l, x)
    ensures k[0] == l[0]
  {
    CanonicalTail(k);
    CanonicalTail(l);
    assert k[0].addr == l[0].addr;
    assert !Covered(k, l[0].End()) && !Covered(l, k[0].End());
    assert !k[0].Has(l[0].End()) && !l[0].Has(k[0].End());
  }

  /** A canonical list is determined by the addresses it covers. */
  lemma {:induction false} CanonicalUnique(k: seq<Block>, l: seq<Block>)
    requires Canonical(k) && Canonical(l)
    requires forall x :: Covered(k, x) <==> Covered(l, x)
    ensures k == l
  {
    if k == [] && l == [] {
    } else if k == [] {
      CanonicalTail(l);
    } else if l == [] {
      CanonicalTail(k);
    } else {
      SameHead(k, l);
      CanonicalTail(k);
      CanonicalTail(l);
      forall x
        ensures Covered(k[1..], x) <==> Covered(l[1..], x)
      {
        TailCovered(k, x);
        TailCovered(l, x);
      }
      CanonicalUnique(k[1..], l[1..]);
    }
  }

  // -------------------------------------------------------- sorted insertion

  /** The first position whose block lies above address `a`. */
  function Above(l: seq<Block>, a: nat): (k: nat)
    ensures k <= |l|
    ensures forall i :: 0 <= i < k ==> l[i].addr <= a
    ensures k < |l| ==> l[k].addr > a
  {
    if l == [] || l[0].addr > a then 0 else 1 + Above(l[1..], a)
  }

  lemma {:induction false} AboveIs(l: seq<Block>, a: nat, k: nat)
    requires k <= |l| && (forall i :: 0 <= i < k ==> l[i].addr <= a) && (k < |l| ==> l[k].addr > a)
    ensures Above(l, a) == k
  {
    if k > 0 {
      AboveIs(l[1..], a, k - 1);
    }
  }

  function Insert(l: seq<Block>, b: Block): (r: seq<Block>)
    ensures |r| == |l| + 1
  {
    l[..Above(l, b.addr)] + [b] + l[Above(l, b.addr)..]
  }

  /** `b` is nonempty and overlaps no block of the list. */
  ghost predicate Apart(l: seq<Block>, b: Block) {
    b.size > 0 && forall i :: 0 <= i < |l| ==> l[i].End() <= b.addr || b.End() <= l[i].addr
  }

  lemma InsertAt(l: seq<Block>, b: Block)
    ensures forall i :: 0 <= i < Above(l, b.addr) ==> Insert(l, b)[i] == l[i]
    ensures Insert(l, b)[Above(l, b.addr)] == b
    ensures forall i :: Above(l, b.addr) < i <= |l| ==> Insert(l, b)[i] == l[i - 1]
  {
    hide Above;
    Spliced(l, Above(l, b.addr), b);
  }

  lemma Spliced(l: seq<Block>, k: nat, b: Block)
    requires k <= |l|
    ensures forall i :: 0 <= i < k ==> (l[..k] + [b] + l[k..])[i] == l[i]
    ensures (l[..k] + [b] + l[k..])[k] == b
    ensures forall i :: k < i <= |l| ==> (l[..k] + [b] + l[k..])[i] == l[i - 1]
  {
  }

  lemma InsertOrdered(l: seq<Block>, b: Block)
    requires Ordered(l) && Apart(l, b)
    ensures Ordered(Insert(l, b))
  {
    hide Insert, Above;
    InsertAt(l, b);
    InsertSides(l, b);
    var k, r := Above(l, b.addr), Insert(l, b);
    forall i, j | 0 <= i < j < |r|
      ensures r[i].End() <= r[j].addr
    {
      var x, y := r[i], r[j];
      if j == k {
        assert x == l[i] && y == b;
      } else if i == k {
        assert x == b && y == l[j - 1];
      } else {
        assert x == l[if i < k then i else i - 1] && y == l[if j < k then j else j - 1];
      }
    }
  }

  /** What lies below the insertion point ends before the block; the rest starts after it. */
  lemma InsertSides(l: seq<Block>, b: Block)
    requires Ordered(l) && Apart(l, b)
    ensures forall i :: 0 <= i < Above(l, b.addr) ==> l[i].End() <= b.addr
    ensures forall i :: Above(l, b.addr) <= i < |l| ==> b.End() <= l[i].addr
  {
    hide Above;
    var k := Above(l, b.addr);
    forall i | k <= i < |l|
      ensures b.End() <= l[i].addr
    {
      assert i > k ==> l[k].End() <= l[i].addr;
    }
  }

  lemma InsertCovered(l: seq<Block>, b: Block, x: int)
    ensures Covered(Insert(l, b), x) <==> Covered(l, x) || b.Has(x)
  {
    hide Above, Insert;
    InsertAt(l, b);
    var k, r := Above(l, b.addr), Insert(l, b);
    assert r[k] == b;
    if Covered(r, x) {
      var i :| 0 <= i < |r| && r[i].Has(x);
      assert i < k ==> l[i] == r[i];
      assert i > k ==> l[i - 1] == r[i];
    }
    if Covered(l, x) {
      var i :| 0 <= i < |l| && l[i].Has(x);
      assert r[if i < k then i else i + 1] == l[i];
    }
  }

  // -------------------------------------------------------------- coalescing

  /** Joins each block with the blocks that follow it without a gap. */
  function Coalesce(l: seq<Block>): seq<Block>
    decreases |l|
  {
    if |l| < 2 then l
    else if l[0].End() == l[1].addr then Coalesce([Block(l[0].addr, l[0].size + l[1].size)] + l[2..])
    else [l[0]] + Coalesce(l[1..])
  }

  lemma JoinOrdered(l: seq<Block>)
    requires Ordered(l) && |l| >= 2 && l[0].End() == l[1].addr
    ensures Ordered([Block(l[0].addr, l[0].size + l[1].size)] + l[2..])
  {
    var m := [Block(l[0].addr, l[0].size + l[1].size)] + l[2..];
    assert forall i :: 1 <= i < |m| ==> m[i] == l[i + 1];
  }

  lemma JoinCovered(l: seq<Block>, x: int)
    requires |l| >= 2 && l[0].End() == l[1].addr
    ensures Covered([Block(l[0].addr, l[0].size + l[1].size)] + l[2..], x) <==> Covered(l, x)
  {
    var m := [Block(l[0].addr, l[0].size + l[1].size)] + l[2..];
    if Covered(l, x) {
      var i :| 0 <= i < |l| && l[i].Has(x);
      assert m[if i < 2 then 0 else i - 1].Has(x);
    }
    if Covered(m, x) {
      var i :| 0 <= i < |m| && m[i].Has(x);
      assert i == 0 ==> l[0].Has(x) || l[1].Has(x);
      assert i > 0 ==> l[i + 1].Has(x);
    }
  }

  lemma {:induction false} CoalesceCovered(l: seq<Block>, x: int)
    requires Ordered(l)
    ensures Covered(Coalesce(l), x) <==> Covered(l, x)
    decreases |l|
  {
    if |l| < 2 {
    } else if l[0].End() == l[1].addr {
      JoinOrdered(l);
      JoinCovered(l, x);
      CoalesceCovered([Block(l[0].addr, l[0].size + l[1].size)] + l[2..], x);
    } else {
      CoalesceCovered(l[1..], x);
      TailCovered(l, x);
      ConsCovered(l[0], Coalesce(l[1..]), x);
    }
  }

  lemma ConsCovered(b: Block, l: seq<Block>, x: int)
    ensures Covered([b] + l, x) <==> b.Has(x) || Covered(l, x)
  {
    var m := [b] + l;
    if Covered(m, x) {
      var i :| 0 <= i < |m| && m[i].Has(x);
      assert i > 0 ==> l[i - 1].Has(x);
    }
    if Covered(l, x) {
      var i :| 0 <= i < |l| && l[i].Has(x);
      assert m[i + 1].Has(x);
    }
    assert m[0] == b;
  }

  lemma {:induction false} CoalesceCanonical(l: seq<Block>)
    requires Ordered(l)
    ensures Canonical(Coalesce(l))
    ensures l != [] ==> Coalesce(l) != [] && Coalesce(l)[0].addr == l[0].addr
    decreases |l|
  {
    if |l| < 2 {
    } else if l[0].End() == l[1].addr {
      JoinOrdered(l);
      CoalesceCanonical([Block(l[0].addr, l[0].size + l[1].size)] + l[2..]);
    } else {
      CoalesceCanonical(l[1..]);
      var r := Coalesce(l[1..]);
      assert forall j :: 0 < j < |r| ==> r[0].End() < r[j].addr;
      assert l[0].End() < r[0].addr;
    }
  }

  // -------------------------------------------------------------- first fit

  /** The first block of at least `size`, or the length of the list. */
  function FirstFit(l: seq<Block>, size: nat): (k: nat)
    ensures k <= |l|
    ensures forall i :: 0 <= i < k ==> l[i].size < size
    ensures k < |l| ==> l[k].size >= size
  {
    if l == [] || l[0].size >= size then 0 else 1 + FirstFit(l[1..], size)
  }

  /** First fit takes the lowest block that is large enough. */
  lemma FirstFitLowest(l: seq<Block>, size: nat)
    requires Canonical(l) && FirstFit(l, size) < |l|
    ensures forall f :: f in l && f.size >= size ==> l[FirstFit(l, size)].addr <= f.addr
  {
    hide FirstFit;
    forall f | f in l && f.size >= size
      ensures l[FirstFit(l, size)].addr <= f.addr
    {
      var i :| 0 <= i < |l| && l[i] == f;
      assert i >= FirstFit(l, size);
    }
  }

  lemma {:induction false} FirstFitIs(l: seq<Block>, size: nat, k: nat)
    requires k <= |l| && (forall i :: 0 <= i < k ==> l[i].size < size) && (k < |l| ==> l[k].size >= size)
    ensures FirstFit(l, size) == k
  {
    if k > 0 {
      FirstFitIs(l[1..], size, k - 1);
    }
  }

  function Remove(l: seq<Block>, k: nat): (r: seq<Block>)
    requires k < |l|
    ensures |r| == |l| - 1
    ensures forall i :: 0 <= i < k ==> r[i] == l[i]
    ensures forall i :: k <= i < |r| ==> r[i] == l[i + 1]
  {
    l[..k] + l[k + 1..]
  }

  /** The list after the first `used` bytes of block `k` are taken. */
  function Take(l: seq<Block>, k: nat, used: nat): seq<Block>
    requires k < |l| && used <= l[k].size
  {
    if used == l[k].size then Remove(l, k)
    else l[k := Block(l[k].addr + used, l[k].size - used)]
  }

  lemma TakeCanonical(l: seq<Block>, k: nat, used: nat)
    requires Canonical(l) && k < |l| && used <= l[k].size
    ensures Canonical(Take(l, k, used))
  {
    var r := Take(l, k, used);
    if used == l[k].size {
      assert forall i :: 0 <= i < |r| ==> r[i] == l[if i < k then i else i + 1];
    }
  }

  lemma RemoveCovered(l: seq<Block>, k: nat, x: int)
    requires Canonical(l) && k < |l|
    ensures Covered(Remove(l, k), x) <==> Covered(l, x) && !l[k].Has(x)
  {
    var r := Remove(l, k);
    assert forall i :: 0 <= i < |r| ==> r[i] == l[if i < k then i else i + 1];
    if Covered(l, x) && !l[k].Has(x) {
      var i :| 0 <= i < |l| && l[i].Has(x);
      assert r[if i < k then i else i - 1] == l[i];
    }
  }

  lemma ShrinkCovered(l: seq<Block>, k: nat, used: nat, x: int)
    requires Canonical(l) && k < |l| && used <= l[k].size
    ensures Covered(l[k := Block(l[k].addr + used, l[k].size - used)], x)
       <==> Covered(l, x) && !Block(l[k].addr, used).Has(x)
  {
    var r := l[k := Block(l[k].addr + used, l[k].size - used)];
    if Covered(r, x) {
      var i :| 0 <= i < |r| && r[i].Has(x);
      assert l[i].Has(x);
    }
    if Covered(l, x) && !Block(l[k].addr, used).Has(x) {
      var i :| 0 <= i < |l| && l[i].Has(x);
      assert r[i].Has(x);
    }
  }

  lemma TakeCovered(l: seq<Block>, k: nat, used: nat, x: int)
    requires Canonical(l) && k < |l| && used <= l[k].size
    ensures Covered(Take(l, k, used), x) <==> Covered(l, x) && !Block(l[k].addr, used).Has(x)
  {
    hide Covered, Canonical;
    if used == l[k].size {
      RemoveCovered(l, k, x);
    } else {
      ShrinkCovered(l, k, used, x);
    }
  }

  /** Removing the block and inserting its unused rest is the same as shrinking it. */
  lemma InsertRest(l: seq<Block>, k: nat, used: nat)
    requires Canonical(l) && k < |l| && used < l[k].size
    ensures Insert(Remove(l, k), Block(l[k].addr + used, l[k].size - used)) == Take(l, k, used)
  {
    hide Above, Canonical;
    var m, b := Remove(l, k), Block(l[k].addr + used, l[k].size - used);
    RestPosition(l, k, used);
    assert m[..k] == l[..k];
    assert m[k..] == l[k + 1..];
    assert l[k := b] == l[..k] + [b] + l[k + 1..];
  }

  lemma RestPosition(l: seq<Block>, k: nat, used: nat)
    requires Canonical(l) && k < |l| && used < l[k].size
    ensures Above(Remove(l, k), l[k].addr + used) == k
  {
    var m, a := Remove(l, k), l[k].addr + used;
    assert forall i :: 0 <= i < |m| ==> m[i] == l[if i < k then i else i + 1];
    AboveIs(m, a, k);
  }

  // ----------------------------------------------------------------- totals

  function Total(l: seq<Block>): nat {
    if l == [] then 0 else l[0].size + Total(l[1..])
  }

  lemma {:induction false} TotalConcat(k: seq<Block>, l: seq<Block>)
    ensures Total(k + l) == Total(k) + Total(l)
  {
    if k == [] {
      assert k + l == l;
    } else {
      TotalConcat(k[1..], l);
      assert (k + l)[1..] == k[1..] + l;
    }
  }

  lemma TotalInsert(l: seq<Block>, b: Block)
    ensures Total(Insert(l, b)) == Total(l) + b.size
  {
    var k := Above(l, b.addr);
    TotalConcat(l[..k] + [b], l[k..]);
    TotalConcat(l[..k], [b]);
    TotalConcat(l[..k], l[k..]);
    assert l == l[..k] + l[k..];
    assert Total([b]) == b.size;
  }

  lemma TotalAt(l: seq<Block>, k: nat)
    requires k < |l|
    ensures Total(l) == Total(l[..k]) + l[k].size + Total(l[k + 1..])
  {
    hide Total;
    assert l == (l[..k] + [l[k]]) + l[k + 1..];
    TotalConcat(l[..k] + [l[k]], l[k + 1..]);
    TotalConcat(l[..k], [l[k]]);
    TotalOne(l[k]);
  }

  lemma TotalOne(b: Block)
    ensures Total([b]) == b.size
  {
  }

  lemma TotalTake(l: seq<Block>, k: nat, used: nat)
    requires k < |l| && used <= l[k].size
    ensures Total(Take(l, k, used)) == Total(l) - used
  {
    hide Total;
    TotalAt(l, k);
    TotalConcat(l[..k], l[k + 1..]);
    var r := l[k := Block(l[k].addr + used, l[k].size - used)];
    TotalAt(r, k);
    assert r[..k] == l[..k] && r[k + 1..] == l[k + 1..];
  }

  lemma {:induction false} TotalCoalesce(l: seq<Block>)
    ensures Total(Coalesce(l)) == Total(l)
    decreases |l|
  {
    if |l| < 2 {
    } else if l[0].End() == l[1].addr {
      var m := [Block(l[0].addr, l[0].size + l[1].size)] + l[2..];
      assert m[1..] == l[2..] && l[1..][1..] == l[2..];
      TotalCoalesce(m);
    } else {
      TotalCoalesce(l[1..]);
    }
  }
}
