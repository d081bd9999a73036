/** The linked free list kept inside the free memory itself: `mem` maps the address of a
    block to the header written there. Both allocators use it. */
module FreeLists {
  import opened Options
  import opened Blocks

  datatype Link = Null | To(addr: nat)

  /** A header in memory: of a free block, or of a block in use. */
  datatype Cell = FreeCell(size: nat, next: Link) | UsedCell(magic: nat, owner: nat, size: nat)

  type Memory = map<nat, Cell>

  function LinkAt(l: seq<Block>, i: nat): Link {
    if i < |l| then To(l[i].addr) else Null
  }

  function LinkBefore(l: seq<Block>, i: nat): Link {
    if 0 < i <= |l| then To(l[i - 1].addr) else Null
  }

  /** The addresses increase. */
  ghost predicate Sorted(l: seq<Block>) {
    forall i, j :: 0 <= i < j < |l| ==> l[i].addr < l[j].addr
  }

  /** The headers in `mem` chain the blocks of `l`, in address order. */
  ghost predicate Chained(mem: Memory, l: seq<Block>) {
    Sorted(l) && forall i :: 0 <= i < |l| ==> HeaderAt(mem, l, i)
  }

  ghost predicate HeaderAt(mem: Memory, l: seq<Block>, i: nat)
    requires i < |l|
  {
    l[i].addr in mem && mem[l[i].addr] == FreeCell(l[i].size, LinkAt(l, i + 1))
  }

  function Addrs(l: seq<Block>): set<nat> {
    set b | b in l :: b.addr
  }

  /** Headers at addresses outside `s` are the same in both memories. */
  ghost predicate SameOutside(m: Memory, m': Memory, s: set<nat>) {
    forall a :: a in m && a !in s ==> a in m' && m'[a] == m[a]
  }

  lemma ChainedElsewhere(mem: Memory, l: seq<Block>, a: nat, c: Cell)
    requires Chained(mem, l) && forall i :: 0 <= i < |l| ==> l[i].addr != a
    ensures Chained(mem[a := c], l)
  {
    var m := mem[a := c];
    forall i | 0 <= i < |l|
      ensures HeaderAt(m, l, i)
    {
      assert HeaderAt(mem, l, i);
    }
  }

  lemma SortedSplice(l: seq<Block>, k: nat, b: Block)
    requires Sorted(l) && k <= |l|
    requires (forall i :: 0 <= i < k ==> l[i].addr < b.addr) && (forall i :: k <= i < |l| ==> b.addr < l[i].addr)
    ensures Sorted(l[..k] + [b] + l[k..])
  {
    var r := l[..k] + [b] + l[k..];
    Spliced(l, k, b);
    forall i, j | 0 <= i < j < |r|
      ensures r[i].addr < r[j].addr
    {
      if j == k {
        assert r[i] == l[i];
      } else if i == k {
        assert r[j] == l[j - 1];
      } else {
        assert r[i] == l[if i < k then i else i - 1] && r[j] == l[if j < k then j else j - 1];
      }
    }
  }

  /** The memory after block `b` is linked in at position `k`. */
  function LinkIn(mem: Memory, l: seq<Block>, k: nat, b: Block): Memory
    requires k <= |l| && (k > 0 ==> l[k - 1].addr in mem && mem[l[k - 1].addr].FreeCell?)
  {
    var m := mem[b.addr := FreeCell(b.size, LinkAt(l, k))];
    if k == 0 then m else m[l[k - 1].addr := FreeCell(mem[l[k - 1].addr].size, To(b.addr))]
  }

  lemma ChainedSplice(mem: Memory, l: seq<Block>, k: nat, b: Block)
    requires Chained(mem, l) && k <= |l|
    requires (forall i :: 0 <= i < k ==> l[i].addr < b.addr) && (forall i :: k <= i < |l| ==> b.addr < l[i].addr)
    ensures k > 0 ==> HeaderAt(mem, l, k - 1)
    ensures Chained(LinkIn(mem, l, k, b), l[..k] + [b] + l[k..])
  {
    assert k > 0 ==> HeaderAt(mem, l, k - 1);
    var r, m := l[..k] + [b] + l[k..], LinkIn(mem, l, k, b);
    SortedSplice(l, k, b);
    Spliced(l, k, b);
    forall i | 0 <= i < |r|
      ensures HeaderAt(m, r, i)
    {
      if i < k {
        assert HeaderAt(mem, l, i) && r[i] == l[i];
        assert i + 1 < k ==> r[i + 1] == l[i + 1];
      } else if i > k {
        assert HeaderAt(mem, l, i - 1) && r[i] == l[i - 1];
        assert i < |l| ==> r[i + 1] == l[i];
      } else {
        assert k < |l| ==> r[i + 1] == l[i];
      }
    }
  }

  lemma AddrsAt(l: seq<Block>, i: nat)
    requires i < |l|
    ensures l[i].addr in Addrs(l)
  {
  }

  lemma AddrsSplice(l: seq<Block>, k: nat, b: Block)
    requires k <= |l|
    ensures Addrs(l[..k] + [b] + l[k..]) == Addrs(l) + {b.addr}
  {
    var r := l[..k] + [b] + l[k..];
    assert forall x :: x in r <==> x in l || x == b by {
      assert l == l[..k] + l[k..];
    }
  }

  lemma InsertionPoint(l: seq<Block>, a: nat, k: nat)
    requires Sorted(l) && k <= |l| && (forall i :: 0 <= i < |l| ==> l[i].addr != a)
    requires (forall i :: 0 <= i < k ==> l[i].addr <= a) && (k < |l| ==> l[k].addr > a)
    ensures forall i :: 0 <= i < k ==> l[i].addr < a
    ensures forall i :: k <= i < |l| ==> a < l[i].addr
  {
  }

  /** The memory after block `k` is linked out. */
  function LinkOut(mem: Memory, l: seq<Block>, k: nat): Memory
    requires k < |l| && (k > 0 ==> l[k - 1].addr in mem && mem[l[k - 1].addr].FreeCell?)
  {
    if k == 0 then mem else mem[l[k - 1].addr := FreeCell(mem[l[k - 1].addr].size, LinkAt(l, k + 1))]
  }

  lemma ChainedRemove(mem: Memory, l: seq<Block>, k: nat)
    requires Chained(mem, l) && k < |l|
    ensures HeaderAt(mem, l, k) && (k > 0 ==> HeaderAt(mem, l, k - 1))
    ensures Chained(LinkOut(mem, l, k), Remove(l, k))
  {
    assert k > 0 ==> HeaderAt(mem, l, k - 1);
    var r, m := Remove(l, k), LinkOut(mem, l, k);
    forall i | 0 <= i < |r|
      ensures HeaderAt(m, r, i)
    {
      if i < k {
        assert HeaderAt(mem, l, i);
      } else {
        assert HeaderAt(mem, l, i + 1);
      }
    }
  }

  lemma AddrsRemove(l: seq<Block>, k: nat)
    requires k < |l|
    ensures Addrs(Remove(l, k)) <= Addrs(l) && (k > 0 ==> l[k - 1].addr in Addrs(l))
  {
    var r := Remove(l, k);
    forall b | b in r
      ensures b.addr in Addrs(l)
    {
      var i :| 0 <= i < |r| && r[i] == b;
      assert l[if i < k then i else i + 1] in l;
    }
    assert k > 0 ==> l[k - 1] in l;
  }

  /** The memory after block `k` is replaced by `b`. */
  function LinkOver(mem: Memory, l: seq<Block>, k: nat, b: Block): Memory
    requires k < |l| && (k > 0 ==> l[k - 1].addr in mem && mem[l[k - 1].addr].FreeCell?)
  {
    var m := mem[b.addr := FreeCell(b.size, LinkAt(l, k + 1))];
    if k == 0 then m else m[l[k - 1].addr := FreeCell(mem[l[k - 1].addr].size, To(b.addr))]
  }

  lemma ChainedReplace(mem: Memory, l: seq<Block>, k: nat, b: Block)
    requires Chained(mem, l) && k < |l|
    requires l[k].addr < b.addr && (k + 1 < |l| ==> b.addr < l[k + 1].addr)
    ensures HeaderAt(mem, l, k) && (k > 0 ==> HeaderAt(mem, l, k - 1))
    ensures Chained(LinkOver(mem, l, k, b), l[k := b])
  {
    assert k > 0 ==> HeaderAt(mem, l, k - 1);
    var r, m := l[k := b], LinkOver(mem, l, k, b);
    forall i | 0 <= i < |r|
      ensures HeaderAt(m, r, i)
    {
      assert HeaderAt(mem, l, i);
    }
    assert Sorted(r) by {
      forall i, j | 0 <= i < j < |r|
        ensures r[i].addr < r[j].addr
      {
        assert i == k ==> l[k + 1].addr <= l[j].addr;
      }
    }
  }

  /** The list after block `k` absorbs its successor. */
  function Join(l: seq<Block>, k: nat): seq<Block>
    requires k + 1 < |l|
  {
    l[..k] + ([Block(l[k].addr, l[k].size + l[k + 1].size)] + l[k + 2..])
  }

  lemma Joined(l: seq<Block>, k: nat)
    requires k + 1 < |l|
    ensures |Join(l, k)| == |l| - 1
    ensures Join(l, k)[k] == Block(l[k].addr, l[k].size + l[k + 1].size)
    ensures forall i :: 0 <= i < k ==> Join(l, k)[i] == l[i]
    ensures forall i :: k < i < |l| - 1 ==> Join(l, k)[i] == l[i + 1]
  {
  }

  lemma AddrsJoin(l: seq<Block>, k: nat)
    requires k + 1 < |l|
    ensures Addrs(Join(l, k)) <= Addrs(l) && l[k].addr in Addrs(l)
  {
    hide Join;
    Joined(l, k);
    var r := Join(l, k);
    forall b | b in r
      ensures b.addr in Addrs(l)
    {
      var i :| 0 <= i < |r| && r[i] == b;
      assert l[if i <= k then i else i + 1] in l;
    }
    assert l[k] in l;
  }

  lemma ChainedJoin(mem: Memory, l: seq<Block>, k: nat)
    requires Chained(mem, l) && k + 1 < |l|
    ensures Chained(mem[l[k].addr := FreeCell(l[k].size + l[k + 1].size, LinkAt(l, k + 2))], Join(l, k))
  {
    hide Join;
    var r, m := Join(l, k), mem[l[k].addr := FreeCell(l[k].size + l[k + 1].size, LinkAt(l, k + 2))];
    Joined(l, k);
    forall i | 0 <= i < |r|
      ensures HeaderAt(m, r, i)
    {
      if i < k {
        assert HeaderAt(mem, l, i);
      } else if i > k {
        assert HeaderAt(mem, l, i + 1);
      }
    }
  }

  lemma CoalesceJoin(l: seq<Block>, k: nat)
    requires k + 1 < |l| && l[k].End() == l[k + 1].addr
    ensures Coalesce(Join(l, k)[k..]) == Coalesce(l[k..])
    ensures Join(l, k)[..k] == l[..k]
  {
    var t := l[k..];
    assert t[2..] == l[k + 2..];
    assert Join(l, k)[k..] == [Block(t[0].addr, t[0].size + t[1].size)] + t[2..];
  }

  lemma CoalesceNil()
    ensures Coalesce([]) == []
  {
  }

  lemma CoalesceStep(l: seq<Block>, k: nat)
    requires k < |l| && (k + 1 < |l| ==> l[k].End() != l[k + 1].addr)
    ensures l[..k] + Coalesce(l[k..]) == l[..k + 1] + Coalesce(l[k + 1..])
  {
    var t := l[k..];
    assert t[1..] == l[k + 1..];
    assert l[..k + 1] == l[..k] + [l[k]];
  }

  class FreeList {
    var head: Link
    var mem: Memory
    ghost var blocks: seq<Block>

    ghost predicate Linked()
      reads this
    {
      head == LinkAt(blocks, 0) && Chained(mem, blocks)
    }

    /** A list of one block. */
    constructor Single(addr: nat, size: nat)
      ensures Linked() && blocks == [Block(addr, size)]
    {
      head := To(addr);
      mem := map[addr := FreeCell(size, Null)];
      blocks := [Block(addr, size)];
    }

    /** Writes a header and links the block in at its place in address order. */
    method Add(addr: nat, size: nat)
      requires Linked() && forall i :: 0 <= i < |blocks| ==> blocks[i].addr != addr
      modifies this
      ensures Linked() && blocks == Insert(old(blocks), Block(addr, size))
      ensures SameOutside(old(mem), mem, Addrs(blocks)) && Addrs(blocks) == Addrs(old(blocks)) + {addr}
    {
      hide Above, Sorted, Addrs;
      ChainedElsewhere(mem, blocks, addr, FreeCell(size, Null));
      mem := mem[addr := FreeCell(size, Null)];
      var prev := Null;
      var current := head;
      ghost var k := 0;
      while current != Null
        invariant k <= |blocks| && current == LinkAt(blocks, k) && prev == LinkBefore(blocks, k)
        invariant forall i :: 0 <= i < k ==> blocks[i].addr <= addr
        decreases |blocks| - k
      {
        if current.addr > addr {
          break;
        }
        assert HeaderAt(mem, blocks, k);
        prev := current;
        current := mem[current.addr].next;
        k := k + 1;
      }
      AboveIs(blocks, addr, k);
      InsertionPoint(blocks, addr, k);
      ChainedSplice(mem, blocks, k, Block(addr, size));
      mem := mem[addr := FreeCell(size, current)];
      match prev {
        case Null => head := To(addr);
        case To(p) => mem := mem[p := mem[p].(next := To(addr))];
      }
      AddrsSplice(blocks, k, Block(addr, size));
      if k > 0 {
        AddrsAt(blocks, k - 1);
      }
      blocks := blocks[..k] + [Block(addr, size)] + blocks[k..];
    }

    /** Merges every block with the blocks that touch it from above. */
    method Merge()
      requires Linked()
      modifies this
      ensures Linked() && blocks == Coalesce(old(blocks))
      ensures SameOutside(old(mem), mem, Addrs(old(blocks)))
    {
      hide Coalesce, Join, Sorted, Addrs;
      var current := head;
      ghost var k := 0;
      assert blocks == blocks[0..];
      CoalesceNil();
      while current != Null
        invariant Linked() && k <= |blocks| && current == LinkAt(blocks, k)
        invariant blocks[..k] + Coalesce(blocks[k..]) == Coalesce(old(blocks))
        invariant SameOutside(old(mem), mem, Addrs(old(blocks)))
        invariant Addrs(blocks) <= Addrs(old(blocks))
        decreases |blocks| - k
      {
        assert HeaderAt(mem, blocks, k);
        var cell := mem[current.addr];
        var blockEnd := current.addr + cell.size;
        if cell.next != Null && blockEnd == cell.next.addr {
          assert HeaderAt(mem, blocks, k + 1);
          ChainedJoin(mem, blocks, k);
          CoalesceJoin(blocks, k);
          AddrsJoin(blocks, k);
          Joined(blocks, k);
          var next := mem[cell.next.addr];
          mem := mem[current.addr := FreeCell(cell.size + next.size, next.next)];
          blocks := Join(blocks, k);
        } else {
          CoalesceStep(blocks, k);
          current := cell.next;
          k := k + 1;
        }
      }
      assert blocks[..k] == blocks && blocks[k..] == [];
    }

    /** The first block of at least `size` and the link before it. */
    method FindFit(size: nat) returns (prev: Link, found: Link)
      requires Linked()
      ensures found == LinkAt(blocks, FirstFit(blocks, size))
      ensures prev == LinkBefore(blocks, FirstFit(blocks, size))
    {
      prev := Null;
      found := head;
      ghost var k := 0;
      while found != Null
        invariant k <= |blocks| && found == LinkAt(blocks, k) && prev == LinkBefore(blocks, k)
        invariant forall i :: 0 <= i < k ==> blocks[i].size < size
        decreases |blocks| - k
      {
        assert HeaderAt(mem, blocks, k);
        var cell := mem[found.addr];
        if cell.size >= size {
          break;
        }
        prev := found;
        found := cell.next;
        k := k + 1;
      }
      FirstFitIs(blocks, size, k);
    }

    /** Makes `prev`, or the head, point at `next`. */
    method Relink(prev: Link, next: Link)
      requires prev != Null ==> prev.addr in mem && mem[prev.addr].FreeCell?
      modifies this`head, this`mem
      ensures prev == Null ==> head == next && mem == old(mem)
      ensures prev != Null ==> head == old(head)
                               && mem == old(mem)[prev.addr := FreeCell(old(mem)[prev.addr].size, next)]
    {
      match prev {
        case Null => head := next;
        case To(p) => mem := mem[p := mem[p].(next := next)];
      }
    }

    /** Links block `k` out, given the links to it and before it, and returns its size. */
    method Unlink(prev: Link, found: Link, ghost k: nat) returns (size: nat)
      requires Linked() && k < |blocks| && found == LinkAt(blocks, k) && prev == LinkBefore(blocks, k)
      modifies this
      ensures Linked() && blocks == Remove(old(blocks), k) && size == old(blocks)[k].size
      ensures SameOutside(old(mem), mem, Addrs(old(blocks))) && Addrs(blocks) <= Addrs(old(blocks))
    {
      hide Addrs, Sorted;
      ChainedRemove(mem, blocks, k);
      AddrsRemove(blocks, k);
      var cell := mem[found.addr];
      size := cell.size;
      Relink(prev, cell.next);
      blocks := Remove(blocks, k);
    }

    /** Replaces block `k` by one that starts inside it. */
    method Replace(prev: Link, found: Link, ghost k: nat, addr: nat, size: nat)
      requires Linked() && k < |blocks| && found == LinkAt(blocks, k) && prev == LinkBefore(blocks, k)
      requires blocks[k].addr < addr && (k + 1 < |blocks| ==> addr < blocks[k + 1].addr)
      modifies this
      ensures Linked() && blocks == old(blocks)[k := Block(addr, size)]
    {
      ChainedReplace(mem, blocks, k, Block(addr, size));
      hide Chained;
      var cell := mem[found.addr];
      mem := mem[addr := FreeCell(size, cell.next)];
      Relink(prev, To(addr));
      blocks := blocks[k := Block(addr, size)];
    }

    /** Writes a header at an address where no free block starts. */
    method SetHeader(addr: nat, c: Cell)
      requires Linked() && forall i :: 0 <= i < |blocks| ==> blocks[i].addr != addr
      modifies this`mem
      ensures Linked() && mem == old(mem)[addr := c]
    {
      ChainedElsewhere(mem, blocks, addr, c);
      mem := mem[addr := c];
    }

    /** The size of the free block that starts at `addr`, found by scanning the list. */
    method FreeSizeAt(addr: nat) returns (r: Option<nat>)
      requires Linked()
      ensures r.Some? ==> Block(addr, r.value) in blocks
      ensures r.None? ==> forall b :: b in blocks ==> b.addr != addr
    {
      var current := head;
      ghost var k := 0;
      while current != Null
        invariant k <= |blocks| && current == LinkAt(blocks, k)
        invariant forall i :: 0 <= i < k ==> blocks[i].addr != addr
        decreases |blocks| - k
      {
        assert HeaderAt(mem, blocks, k);
        if current.addr == addr {
          assert blocks[k] in blocks;
          return Some(mem[current.addr].size);
        }
        current := mem[current.addr].next;
        k := k + 1;
      }
      return None;
    }
  }
}
