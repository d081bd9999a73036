/** The kernel heap of src/allocator.rs. */
module Heap {
  import Bytes
  import opened Options
  import opened Blocks
  import opened FreeLists
  import opened Tiling

  const ALIGNMENT: nat := 8
  const HEADER_SIZE: nat := 16
  const MIN_BLOCK_SIZE: nat := 16
  const HEADER_MAGIC: nat := 0x48504C52
  const KERNEL_TASK_ID_SENTINEL: nat := 0xFFFF_FFFF

  function AlignUp(n: nat): (r: nat)
    ensures n <= r < n + ALIGNMENT && r % ALIGNMENT == 0
  {
    (n + ALIGNMENT - 1) / ALIGNMENT * ALIGNMENT
  }

  /** The bytes a request consumes: the header and the data, in whole units. */
  function TotalSize(size: nat): (t: nat)
    ensures t % ALIGNMENT == 0 && t > MIN_BLOCK_SIZE
    ensures HEADER_SIZE + size <= t < HEADER_SIZE + (if size == 0 then 1 else size) + ALIGNMENT
  {
    AlignUp(HEADER_SIZE + if size == 0 then 1 else size)
  }

  // ------------------------------------------------- the heap as a value

  datatype Heap = Heap(free: seq<Block>, live: set<Block>)

  /** How much of a block of `size` an allocation of `total` takes: a rest too small to be
      a free block goes with it. */
  function Used(size: nat, total: nat): (u: nat)
    requires total <= size
    ensures total <= u <= size && u - total < MIN_BLOCK_SIZE
    ensures u != total ==> size - total < MIN_BLOCK_SIZE
    ensures u == size || size - u >= MIN_BLOCK_SIZE
  {
    if size - total >= MIN_BLOCK_SIZE then total else size
  }

  function Allocated(h: Heap, total: nat): Heap {
    var k := FirstFit(h.free, total);
    if k == |h.free| then h
    else
      var u := Used(h.free[k].size, total);
      Heap(Take(h.free, k, u), h.live + {Block(h.free[k].addr, u)})
  }

  function Released(h: Heap, b: Block): Heap {
    Heap(Give(h.free, b), h.live - {b})
  }

  predicate Fit(b: Block) {
    b.addr % ALIGNMENT == 0 && b.size % ALIGNMENT == 0 && b.size >= MIN_BLOCK_SIZE
  }

  ghost predicate AllFit(l: seq<Block>) {
    forall i :: 0 <= i < |l| ==> Fit(l[i])
  }

  /** The canonical form of the heap. */
  ghost predicate Sound(h: Heap, lo: nat, hi: nat) {
    Tiles(lo, hi, h.free, h.live) && AllFit(h.free) && forall b :: b in h.live ==> Fit(b)
  }

  lemma TakeFits(l: seq<Block>, k: nat, total: nat)
    requires AllFit(l) && k < |l| && total <= l[k].size && total % ALIGNMENT == 0 && total >= MIN_BLOCK_SIZE
    ensures Fit(Block(l[k].addr, Used(l[k].size, total)))
    ensures AllFit(Take(l, k, Used(l[k].size, total)))
  {
    assert Fit(l[k]);
  }

  lemma InsertFits(l: seq<Block>, b: Block)
    requires AllFit(l) && Fit(b)
    ensures AllFit(Insert(l, b))
  {
    hide Insert, Above, Fit;
    InsertAt(l, b);
  }

  lemma {:induction false} CoalesceFits(l: seq<Block>)
    requires AllFit(l)
    ensures AllFit(Coalesce(l))
    decreases |l|
  {
    if |l| < 2 {
    } else if l[0].End() == l[1].addr {
      var m := [Block(l[0].addr, l[0].size + l[1].size)] + l[2..];
      assert Fit(l[0]) && Fit(l[1]);
      assert forall i :: 1 <= i < |m| ==> m[i] == l[i + 1];
      CoalesceFits(m);
    } else {
      CoalesceFits(l[1..]);
    }
  }

  lemma AllocatedSound(h: Heap, total: nat, lo: nat, hi: nat)
    requires Sound(h, lo, hi) && total % ALIGNMENT == 0 && total >= MIN_BLOCK_SIZE
    ensures Sound(Allocated(h, total), lo, hi)
  {
    hide Tiles, Take, Fit, FirstFit;
    var k := FirstFit(h.free, total);
    if k < |h.free| {
      TakeTiles(lo, hi, h.free, h.live, k, Used(h.free[k].size, total));
      TakeFits(h.free, k, total);
    }
  }

  lemma ReleasedSound(h: Heap, b: Block, lo: nat, hi: nat)
    requires Sound(h, lo, hi) && b in h.live
    ensures Sound(Released(h, b), lo, hi)
  {
    hide Tiles, Insert, Coalesce, Fit;
    GiveTiles(lo, hi, h.free, h.live, b);
    InsertFits(h.free, b);
    CoalesceFits(Insert(h.free, b));
  }

  // ------------------------------------------------------- whole histories

  /** A request of some size, or the release of a live block. */
  datatype Op = Request(size: nat) | Release(block: Block)

  /** A history is legal when it releases only live blocks. */
  ghost predicate Legal(h: Heap, ops: seq<Op>)
    decreases |ops|
  {
    ops != [] ==>
      && (ops[0].Release? ==> ops[0].block in h.live)
      && Legal(Perform(h, ops[0]), ops[1..])
  }

  function Perform(h: Heap, op: Op): Heap {
    match op
    case Request(size) => Allocated(h, TotalSize(size))
    case Release(b) => Released(h, b)
  }

  function History(h: Heap, ops: seq<Op>): Heap
    decreases |ops|
  {
    if ops == [] then h else History(Perform(h, ops[0]), ops[1..])
  }

  lemma {:induction false} HistorySound(h: Heap, ops: seq<Op>, lo: nat, hi: nat)
    requires Sound(h, lo, hi) && Legal(h, ops)
    ensures Sound(History(h, ops), lo, hi)
    decreases |ops|
  {
    hide Sound, Allocated, Released, TotalSize;
    if ops != [] {
      match ops[0]
      case Request(size) =>
        AllocatedSound(h, TotalSize(size), lo, hi);
        HistorySound(Perform(h, ops[0]), ops[1..], lo, hi);
      case Release(b) =>
        ReleasedSound(h, b, lo, hi);
        HistorySound(Perform(h, ops[0]), ops[1..], lo, hi);
    }
  }

  /** In every legal history live and free blocks tile the heap exactly, the free list is
      sorted, aligned, large enough and has no two touching blocks; and the free list is a
      function of the live blocks alone. */
  lemma HistoriesAreCanonical(start: nat, size: nat, ops: seq<Op>, ops': seq<Op>)
    requires start % ALIGNMENT == 0 && size % ALIGNMENT == 0 && size >= MIN_BLOCK_SIZE
    requires var h := Heap([Block(start, size)], {}); Legal(h, ops) && Legal(h, ops')
    ensures var h := Heap([Block(start, size)], {});
      && Sound(History(h, ops), start, start + size)
      && (History(h, ops).live == History(h, ops').live ==> History(h, ops).free == History(h, ops').free)
  {
    hide History, Legal, Tiles;
    var h := Heap([Block(start, size)], {});
    WholeRegion(start, start + size);
    HistorySound(h, ops, start, start + size);
    HistorySound(h, ops', start, start + size);
    if History(h, ops).live == History(h, ops').live {
      TilesUnique(start, start + size, History(h, ops).free, History(h, ops').free, History(h, ops).live);
    }
  }

  /** An allocation that succeeds, released at once, leaves the heap as it was. */
  lemma AllocateThenRelease(h: Heap, total: nat, lo: nat, hi: nat)
    requires Sound(h, lo, hi) && total > 0 && FirstFit(h.free, total) < |h.free|
    ensures var k := FirstFit(h.free, total);
      Released(Allocated(h, total), Block(h.free[k].addr, Used(h.free[k].size, total))) == h
  {
    hide FirstFit, Take, Give;
    var k := FirstFit(h.free, total);
    TakeThenGive(h.free, k, Used(h.free[k].size, total));
    TakenIsNew(lo, hi, h.free, h.live, k, Used(h.free[k].size, total));
  }

  // --------------------------------------------------- the allocator itself

  type TaskId = n: int | 0 <= n < 0xFFFF_FFFF

  function EncodeTaskId(task: Option<TaskId>): nat {
    match task
    case None => KERNEL_TASK_ID_SENTINEL
    case Some(id) => id
  }

  function DecodeTaskId(raw: nat): Option<nat> {
    if raw == KERNEL_TASK_ID_SENTINEL then None else Some(raw)
  }

  /** Each live block has its header in memory. */
  ghost predicate Headed(mem: Memory, owners: map<Block, Option<TaskId>>) {
    forall b :: b in owners ==>
      b.addr in mem && mem[b.addr] == UsedCell(HEADER_MAGIC, EncodeTaskId(owners[b]), b.size)
  }

  class LinkedListAllocator {
    const list: FreeList
    const heapStart: nat
    const heapEnd: nat
    /** The live blocks and the tasks they were allocated for. */
    ghost var owners: map<Block, Option<TaskId>>

    ghost function View(): Heap
      reads this, list
    {
      Heap(list.blocks, owners.Keys)
    }

    ghost predicate Valid()
      reads this, list
    {
      && heapStart > 0
      && list.Linked()
      && Sound(View(), heapStart, heapEnd)
      && Headed(list.mem, owners)
    }

    /** One free block spanning the whole heap. */
    constructor (start: nat, size: nat)
      requires 0 < start && start % ALIGNMENT == 0 && size % ALIGNMENT == 0 && size >= MIN_BLOCK_SIZE
      ensures Valid() && View() == Heap([Block(start, size)], {}) && fresh(list)
      ensures heapStart == start && heapEnd == start + size
    {
      list := new FreeList.Single(start, size);
      heapStart, heapEnd := start, start + size;
      owners := map[];
      new;
      WholeRegion(start, start + size);
    }

    /** First fit: takes the lowest free block that is large enough; null exactly when none
        is. The header records the owner. */
    method Allocate(size: nat, task: Option<TaskId>) returns (ptr: nat)
      requires Valid()
      modifies this, list
      ensures Valid() && View() == Allocated(old(View()), TotalSize(size))
      ensures ptr == 0 <==> forall b :: b in old(View()).free ==> b.size < TotalSize(size)
      ensures ptr == 0 ==> owners == old(owners)
      ensures ptr != 0 ==>
        exists b :: b in owners && b !in old(owners) && owners == old(owners)[b := task]
                    && ptr == b.addr + HEADER_SIZE && ptr % ALIGNMENT == 0
                    && b.size >= HEADER_SIZE + size && b.size - TotalSize(size) < MIN_BLOCK_SIZE
                    && forall f :: f in old(View()).free && f.size >= TotalSize(size) ==> b.addr <= f.addr
    {
      hide Sound, TotalSize, FirstFit, Headed, Take, FreeList.Linked;
      var total := TotalSize(size);
      var prev, found := list.FindFit(total);
      ghost var k := FirstFit(list.blocks, total);
      if found == Null {
        return 0;
      }
      AllocatedSound(View(), total, heapStart, heapEnd);
      TakenIsFresh(View(), total, heapStart, heapEnd);
      ghost var b := Block(found.addr, Used(list.blocks[k].size, total));
      LowestFits(View(), total, heapStart, heapEnd);
      Carve(prev, found, k, total, task);
      assert owners.Keys == old(owners.Keys) + {b};
      assert View() == Allocated(old(View()), total);
      return found.addr + HEADER_SIZE;
    }

    /** Splits block `k`: its front becomes live, a large enough rest goes back to the list. */
    method Carve(prev: Link, found: Link, ghost k: nat, total: nat, task: Option<TaskId>)
      requires Valid() && k < |list.blocks| && 0 < total <= list.blocks[k].size
      requires found == LinkAt(list.blocks, k) && prev == LinkBefore(list.blocks, k)
      modifies this, list
      ensures var used := Used(old(list.blocks)[k].size, total); var b := Block(found.addr, used);
        && list.Linked() && list.blocks == Take(old(list.blocks), k, used)
        && owners == old(owners)[b := task] && Headed(list.mem, owners)
    {
      hide Take, Remove, Insert, Addrs, Chained, Tiles, Canonical;
      ghost var free := list.blocks;
      SoundCanonical(View(), heapStart, heapEnd);
      LiveNotFreeAll(View(), heapStart, heapEnd, k);
      TakenStarts(free, k, Used(free[k].size, total));
      TakeByParts(free, k, Used(free[k].size, total));
      var blockStart := found.addr;
      var blockSize := list.Unlink(prev, found, k);
      var used := if blockSize - total >= MIN_BLOCK_SIZE then total else blockSize;
      var remaining := blockSize - used;
      if remaining >= MIN_BLOCK_SIZE {
        list.Add(blockStart + used, remaining);
      }
      list.SetHeader(blockStart, UsedCell(HEADER_MAGIC, EncodeTaskId(task), used));
      owners := owners[Block(blockStart, used) := task];
    }

    /** Gives a block back: reads the header before the pointer, links the block in and
        merges. */
    method Deallocate(ptr: nat, ghost b: Block)
      requires Valid() && b in owners && ptr == b.addr + HEADER_SIZE
      modifies this, list
      ensures Valid() && View() == Released(old(View()), b) && owners == old(owners) - {b}
    {
      hide Sound, Insert, Coalesce, Addrs, Chained;
      ReleasedSound(View(), b, heapStart, heapEnd);
      LiveStartsApart(View(), b, heapStart, heapEnd);
      var blockStart := ptr - HEADER_SIZE;
      var header := list.mem[blockStart];
      assert header.magic == HEADER_MAGIC;
      var blockSize := header.size;
      list.Add(blockStart, Bytes.Max(blockSize, MIN_BLOCK_SIZE));
      list.Merge();
      owners := owners - {b};
      assert owners.Keys == old(owners.Keys) - {b};
      assert View() == Released(old(View()), b);
    }

    /** One step of the heap walk: the block at a boundary, found by scanning the free list
        and otherwise by reading the header. */
    method BlockAt(cursor: nat) returns (end: nat, free: bool)
      requires Valid() && heapStart <= cursor < heapEnd
      requires Boundary(heapEnd, list.blocks, owners.Keys, cursor)
      ensures cursor < end <= heapEnd && Boundary(heapEnd, list.blocks, owners.Keys, end)
      ensures free ==> Block(cursor, end - cursor) in list.blocks
      ensures !free ==> Block(cursor, end - cursor) in owners
    {
      hide Sound, Tiles, Chained;
      ghost var b :| IsBlock(list.blocks, owners.Keys, b) && b.addr == cursor;
      SoundTiles(View(), heapStart, heapEnd);
      var freeSize := list.FreeSizeAt(cursor);
      if freeSize.Some? {
        end, free := cursor + freeSize.value, true;
        NextBoundary(heapStart, heapEnd, list.blocks, owners.Keys, Block(cursor, freeSize.value));
      } else {
        assert b in owners;
        NextBoundary(heapStart, heapEnd, list.blocks, owners.Keys, b);
        var header := list.mem[cursor];
        assert header.magic == HEADER_MAGIC;
        end, free := cursor + header.size, false;
      }
    }

    /** Walks the heap to the block around `addr`. */
    method Walk(addr: nat) returns (start: nat, end: nat, free: bool)
      requires Valid() && heapStart <= addr < heapEnd
      ensures start <= addr < end
      ensures free ==> Block(start, end - start) in list.blocks
      ensures !free ==> Block(start, end - start) in owners
    {
      hide Sound, Tiles, Boundary, Headed, FreeList.Linked;
      SoundTiles(View(), heapStart, heapEnd);
      FirstBoundary(heapStart, heapEnd, list.blocks, owners.Keys);
      start := heapStart;
      end, free := BlockAt(start);
      while end <= addr
        invariant heapStart <= start <= addr && start < end <= heapEnd
        invariant Boundary(heapEnd, list.blocks, owners.Keys, end)
        invariant free ==> Block(start, end - start) in list.blocks
        invariant !free ==> Block(start, end - start) in owners
        decreases heapEnd - end
      {
        start := end;
        end, free := BlockAt(start);
      }
    }

    /** The allocated block around an address: the true one, or none exactly when the
        address is free or outside the heap. */
    method FindAllocation(addr: nat) returns (r: Option<(nat, nat)>)
      requires Valid()
      ensures r.Some? ==> r.value.0 <= addr < r.value.1 && Block(r.value.0, r.value.1 - r.value.0) in View().live
      ensures r.Some? <==> LiveAt(View().live, addr)
    {
      SoundTiles(View(), heapStart, heapEnd);
      if addr < heapStart || addr >= heapEnd {
        OutsideIsNotLive(View(), heapStart, heapEnd, addr);
        return None;
      }
      var start, end, free := Walk(addr);
      WalkDecides(View(), heapStart, heapEnd, start, end, addr);
      r := if free then None else Some((start, end));
    }

    /** The free block around an address, symmetrically. */
    method FindFreeRegion(addr: nat) returns (r: Option<(nat, nat)>)
      requires Valid()
      ensures r.Some? ==> r.value.0 <= addr < r.value.1 && Block(r.value.0, r.value.1 - r.value.0) in View().free
      ensures r.Some? <==> Covered(View().free, addr)
    {
      SoundTiles(View(), heapStart, heapEnd);
      if addr < heapStart || addr >= heapEnd {
        OutsideIsNotLive(View(), heapStart, heapEnd, addr);
        return None;
      }
      var start, end, free := Walk(addr);
      WalkDecides(View(), heapStart, heapEnd, start, end, addr);
      r := if free then Some((start, end)) else None;
    }

    /** The task that owns the allocation around an address. */
    method FindAllocationOwner(addr: nat) returns (r: Option<Option<nat>>)
      requires Valid()
      ensures r.Some? <==> LiveAt(View().live, addr)
      ensures forall b :: b in owners && b.Has(addr) ==> r == Some(owners[b])
    {
      SoundTiles(View(), heapStart, heapEnd);
      if addr < heapStart || addr >= heapEnd {
        OutsideIsNotLive(View(), heapStart, heapEnd, addr);
        return None;
      }
      var start, end, free := Walk(addr);
      WalkDecides(View(), heapStart, heapEnd, start, end, addr);
      if free {
        return None;
      }
      ghost var b := Block(start, end - start);
      LiveAroundUnique(View(), heapStart, heapEnd, b, addr);
      r := Some(DecodeTaskId(list.mem[start].owner));
    }
  }

  lemma LowestFits(h: Heap, total: nat, lo: nat, hi: nat)
    requires Sound(h, lo, hi) && FirstFit(h.free, total) < |h.free|
    ensures var b := h.free[FirstFit(h.free, total)];
      b.addr % ALIGNMENT == 0 && forall f :: f in h.free && f.size >= total ==> b.addr <= f.addr
  {
    hide FirstFit;
    FirstFitLowest(h.free, total);
    assert Fit(h.free[FirstFit(h.free, total)]);
  }

  lemma SoundTiles(h: Heap, lo: nat, hi: nat)
    requires Sound(h, lo, hi)
    ensures Tiles(lo, hi, h.free, h.live)
  {
  }

  lemma OutsideIsNotLive(h: Heap, lo: nat, hi: nat, x: nat)
    requires Tiles(lo, hi, h.free, h.live) && !(lo <= x < hi)
    ensures !LiveAt(h.live, x) && !Covered(h.free, x)
  {
  }

  /** The block a walk stops at settles whether the address is free or live. */
  lemma WalkDecides(h: Heap, lo: nat, hi: nat, start: nat, end: nat, x: nat)
    requires Tiles(lo, hi, h.free, h.live) && lo <= x < hi && start <= x < end
    ensures Block(start, end - start) in h.live ==> LiveAt(h.live, x) && !Covered(h.free, x)
    ensures Block(start, end - start) in h.free ==> Covered(h.free, x) && !LiveAt(h.live, x)
  {
    var b := Block(start, end - start);
    assert b.Has(x);
    if b in h.free {
      var i :| 0 <= i < |h.free| && h.free[i] == b;
    }
  }

  lemma LiveAroundUnique(h: Heap, lo: nat, hi: nat, b: Block, x: nat)
    requires Tiles(lo, hi, h.free, h.live) && b in h.live && b.Has(x)
    ensures forall c :: c in h.live && c.Has(x) ==> c == b
  {
  }

  /** A live block is large enough, starts at no free block and no other live block starts
      there. */
  lemma LiveStartsApart(h: Heap, b: Block, lo: nat, hi: nat)
    requires Sound(h, lo, hi) && b in h.live
    ensures b.size >= MIN_BLOCK_SIZE
    ensures forall i :: 0 <= i < |h.free| ==> h.free[i].addr != b.addr
    ensures forall c :: c in h.live ==> c.addr !in Addrs(h.free) && (c != b ==> c.addr != b.addr)
  {
    LiveNotFree(lo, hi, h.free, h.live, b);
    forall c | c in h.live
      ensures c.addr !in Addrs(h.free) && (c != b ==> c.addr != b.addr)
    {
      LiveNotFree(lo, hi, h.free, h.live, c);
    }
    forall i | 0 <= i < |h.free|
      ensures h.free[i].addr != b.addr
    {
      FreeApartFromLive(lo, hi, h.free, h.live, i, b);
    }
  }

  lemma TakenIsFresh(h: Heap, total: nat, lo: nat, hi: nat)
    requires Sound(h, lo, hi) && 0 < total && FirstFit(h.free, total) < |h.free|
    ensures var k := FirstFit(h.free, total); Block(h.free[k].addr, Used(h.free[k].size, total)) !in h.live
  {
    hide FirstFit;
    var k := FirstFit(h.free, total);
    TakenIsNew(lo, hi, h.free, h.live, k, Used(h.free[k].size, total));
  }

  /** No remaining free block starts where the taken part or its rest does. */
  lemma TakenStarts(l: seq<Block>, k: nat, used: nat)
    requires Canonical(l) && k < |l| && 0 < used <= l[k].size
    ensures forall i :: 0 <= i < |Take(l, k, used)| ==> Take(l, k, used)[i].addr != l[k].addr
    ensures used < l[k].size ==> forall i :: 0 <= i < |Remove(l, k)| ==> Remove(l, k)[i].addr != l[k].addr + used
  {
    hide Remove;
  }

  lemma SoundCanonical(h: Heap, lo: nat, hi: nat)
    requires Sound(h, lo, hi)
    ensures Canonical(h.free)
  {
  }

  lemma TakeByParts(l: seq<Block>, k: nat, used: nat)
    requires Canonical(l) && k < |l| && used <= l[k].size
    ensures used == l[k].size ==> Take(l, k, used) == Remove(l, k)
    ensures used < l[k].size ==>
              Insert(Remove(l, k), Block(l[k].addr + used, l[k].size - used)) == Take(l, k, used)
  {
    hide Insert, Canonical;
    if used < l[k].size {
      InsertRest(l, k, used);
    }
  }

  lemma LiveNotFreeAll(h: Heap, lo: nat, hi: nat, k: nat)
    requires Sound(h, lo, hi) && k < |h.free|
    ensures forall b :: b in h.live ==> !h.free[k].Has(b.addr) && b.addr !in Addrs(h.free)
  {
    forall b | b in h.live
      ensures !h.free[k].Has(b.addr) && b.addr !in Addrs(h.free)
    {
      LiveNotFree(lo, hi, h.free, h.live, b);
    }
  }

  lemma LiveNotFree(lo: nat, hi: nat, free: seq<Block>, live: set<Block>, b: Block)
    requires Tiles(lo, hi, free, live) && b in live
    ensures forall i :: 0 <= i < |free| ==> !free[i].Has(b.addr)
    ensures b.addr !in Addrs(free)
  {
    forall i | 0 <= i < |free|
      ensures !free[i].Has(b.addr)
    {
      FreeApartFromLive(lo, hi, free, live, i, b);
    }
    forall f | f in free
      ensures f.addr != b.addr
    {
      var i :| 0 <= i < |free| && free[i] == f;
    }
  }
}