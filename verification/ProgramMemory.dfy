/** The program region of src/program_alloc.rs. */
module ProgramMemory {
  import opened Options
  import opened Blocks
  import opened FreeLists
  import opened Tiling

  const REGION_START: nat := 0x400000
  const REGION_END: nat := 0x1000000
  const REGION_SIZE: nat := REGION_END - REGION_START
  const PAGE_SIZE: nat := 4096
  const MIN_BLOCK_SIZE: nat := 16

  /** A request in whole pages; an empty one still needs room for a header. */
  function Rounded(size: nat): (r: nat)
    ensures r >= size && r >= MIN_BLOCK_SIZE && r % MIN_BLOCK_SIZE == 0
    ensures r % PAGE_SIZE == 0 <==> size > 0
    ensures r < size + if size == 0 then MIN_BLOCK_SIZE + 1 else PAGE_SIZE
  {
    if size == 0 then MIN_BLOCK_SIZE else (size + PAGE_SIZE - 1) / PAGE_SIZE * PAGE_SIZE
  }

  lemma RoundedTwice(size: nat)
    ensures size > 0 ==> Rounded(Rounded(size)) == Rounded(size)
  {
  }

  datatype Region = Region(free: seq<Block>, live: set<Block>)

  /** The region when nothing has been allocated. */
  const WHOLE: Region := Region([Block(REGION_START, REGION_SIZE)], {})

  /** Whether a block of `size` can be had. */
  predicate Fits(p: Region, size: nat) {
    FirstFit(p.free, size) < |p.free|
  }

  /** The block that first fit takes. */
  function Chosen(p: Region, size: nat): Block
    requires Fits(p, size)
  {
    Block(p.free[FirstFit(p.free, size)].addr, size)
  }

  function Acquired(p: Region, size: nat): Region
    requires Fits(p, size)
  {
    Region(Take(p.free, FirstFit(p.free, size), size), p.live + {Chosen(p, size)})
  }

  function Returned(p: Region, b: Block): Region {
    Region(Give(p.free, b), p.live - {b})
  }

  ghost predicate Sound(p: Region) {
    && Tiles(REGION_START, REGION_END, p.free, p.live)
    && Units(p.free, MIN_BLOCK_SIZE)
    && forall b :: b in p.live ==> Unit(b, MIN_BLOCK_SIZE)
  }

  lemma WholeSound()
    ensures Sound(WHOLE)
  {
    WholeRegion(REGION_START, REGION_END);
  }

  lemma AcquiredSound(p: Region, size: nat)
    requires Sound(p) && Fits(p, size) && size > 0 && size % MIN_BLOCK_SIZE == 0
    ensures Sound(Acquired(p, size)) && Chosen(p, size) !in p.live
  {
    hide Tiles, Take, FirstFit, Units;
    var k := FirstFit(p.free, size);
    TakeTiles(REGION_START, REGION_END, p.free, p.live, k, size);
    TakeUnits(p.free, k, size, MIN_BLOCK_SIZE);
    UnitAt(p.free, k, MIN_BLOCK_SIZE);
  }

  lemma UnitAt(l: seq<Block>, k: nat, q: nat)
    requires q > 0 && Units(l, q) && k < |l|
    ensures Unit(l[k], q)
  {
  }

  lemma ReturnedSound(p: Region, b: Block)
    requires Sound(p) && b in p.live
    ensures Sound(Returned(p, b))
  {
    hide Tiles, Give, Units;
    GiveTiles(REGION_START, REGION_END, p.free, p.live, b);
    GiveUnits(p.free, b, MIN_BLOCK_SIZE);
  }

  /** Page alignment is kept by every request above zero. */
  lemma PagesKept(p: Region, size: nat, b: Block)
    requires Units(p.free, PAGE_SIZE)
    ensures size > 0 && Fits(p, Rounded(size)) ==>
              Units(Acquired(p, Rounded(size)).free, PAGE_SIZE) && Unit(Chosen(p, Rounded(size)), PAGE_SIZE)
    ensures Unit(b, PAGE_SIZE) ==> Units(Returned(p, b).free, PAGE_SIZE)
  {
    hide Take, Give, FirstFit, Units;
    if size > 0 && Fits(p, Rounded(size)) {
      TakeUnits(p.free, FirstFit(p.free, Rounded(size)), Rounded(size), PAGE_SIZE);
      UnitAt(p.free, FirstFit(p.free, Rounded(size)), PAGE_SIZE);
    }
    if Unit(b, PAGE_SIZE) {
      GiveUnits(p.free, b, PAGE_SIZE);
    }
  }

  class ProgramAllocator {
    const list: FreeList
    var inUse: nat
    /** The blocks handed out. */
    ghost var live: set<Block>

    ghost function View(): Region
      reads this, list
    {
      Region(list.blocks, live)
    }

    ghost predicate Valid()
      reads this, list
    {
      list.Linked() && Sound(View()) && inUse + Total(list.blocks) == REGION_SIZE
    }

    constructor ()
      ensures Valid() && View() == WHOLE && fresh(list)
    {
      list := new FreeList.Single(REGION_START, REGION_SIZE);
      inUse := 0;
      live := {};
      new;
      WholeSound();
      TotalOne(Block(REGION_START, REGION_SIZE));
    }

    /** First fit in whole pages: none exactly when no free block is large enough. */
    method Allocate(request: nat) returns (r: Option<nat>)
      requires Valid()
      modifies this, list
      ensures Valid()
      ensures r.Some? <==> Fits(old(View()), Rounded(request))
      ensures r.None? ==> View() == old(View())
      ensures r.Some? ==> View() == Acquired(old(View()), Rounded(request))
                          && Chosen(old(View()), Rounded(request)) == Block(r.value, Rounded(request))
                          && forall f :: f in old(View()).free && f.size >= Rounded(request) ==> r.value <= f.addr
    {
      hide Sound, FirstFit, Take, FreeList.Linked;
      var size := Rounded(request);
      var prev, found := list.FindFit(size);
      ghost var k := FirstFit(list.blocks, size);
      FoundMeansFits(list.blocks, k, found);
      if found == Null {
        return None;
      }
      AcquiredSound(View(), size);
      SoundCanonical(View());
      FirstFitLowest(list.blocks, size);
      TotalTake(list.blocks, k, size);
      SplitFront(prev, found, k, size);
      inUse := inUse + size;
      live := live + {Block(found.addr, size)};
      return Some(found.addr);
    }

    /** Takes the front of block `k`; the rest, if any, stays in its place in the list. */
    method SplitFront(prev: Link, found: Link, ghost k: nat, size: nat)
      requires list.Linked() && Sound(View()) && k < |list.blocks|
      requires 0 < size <= list.blocks[k].size && size % MIN_BLOCK_SIZE == 0
      requires found == LinkAt(list.blocks, k) && prev == LinkBefore(list.blocks, k)
      modifies list
      ensures list.Linked() && list.blocks == Take(old(list.blocks), k, size)
    {
      hide Remove, Tiles;
      RestIsUnit(View(), k, size);
      assert HeaderAt(list.mem, list.blocks, k);
      var cell := list.mem[found.addr];
      var remaining := cell.size - size;
      if remaining >= MIN_BLOCK_SIZE {
        list.Replace(prev, found, k, found.addr + size, remaining);
      } else {
        var _ := list.Unlink(prev, found, k);
      }
    }

    /** Gives a block back: the size is rounded as it was when the block was allocated. */
    method Deallocate(addr: nat, request: nat)
      requires Valid() && Block(addr, Rounded(request)) in live
      modifies this, list
      ensures Valid() && View() == Returned(old(View()), Block(addr, Rounded(request)))
    {
      hide Sound, Insert, Coalesce, FreeList.Linked;
      var size := Rounded(request);
      ghost var b := Block(addr, size);
      ReturnedSound(View(), b);
      LiveStarts(View(), b);
      TotalGive(list.blocks, b);
      ReturnedTotal(View(), b);
      list.Add(addr, size);
      list.Merge();
      inUse := inUse - size;
      live := live - {b};
    }

    /** Allocated and free bytes; together always the whole region, and the allocated
        bytes are exactly those of the live blocks. */
    method Stats() returns (used: nat, free: nat)
      requires Valid()
      ensures used + free == REGION_SIZE && used == LiveTotal(live) && free == Total(list.blocks)
    {
      free := 0;
      var current := list.head;
      ghost var k := 0;
      assert list.blocks[..0] == [];
      while current != Null
        invariant k <= |list.blocks| && current == LinkAt(list.blocks, k)
        invariant free == Total(list.blocks[..k])
        decreases |list.blocks| - k
      {
        assert HeaderAt(list.mem, list.blocks, k);
        TotalConcat(list.blocks[..k], [list.blocks[k]]);
        TotalOne(list.blocks[k]);
        assert list.blocks[..k + 1] == list.blocks[..k] + [list.blocks[k]];
        var cell := list.mem[current.addr];
        free := free + cell.size;
        current := cell.next;
        k := k + 1;
      }
      assert list.blocks[..k] == list.blocks;
      Conservation(REGION_START, REGION_END, list.blocks, live);
      used := inUse;
    }

    /** The maximal allocated run around an address, read off the gaps between free blocks;
        none exactly when the address is free or outside the region. */
    method FindAllocation(addr: nat) returns (r: Option<(nat, nat)>)
      requires Valid()
      ensures r.Some? ==> MaximalGap(list.blocks, r.value.0, r.value.1) && r.value.0 <= addr < r.value.1
      ensures r.Some? <==> REGION_START <= addr < REGION_END && !Covered(list.blocks, addr)
    {
      if addr < REGION_START || addr >= REGION_END {
        return None;
      }
      hide Sound;
      SoundTiles(View());
      var prevEnd := REGION_START;
      var current := list.head;
      ghost var k := 0;
      while current != Null
        invariant k <= |list.blocks| && current == LinkAt(list.blocks, k)
        invariant prevEnd == GapStart(list.blocks, k) && prevEnd <= addr
        decreases |list.blocks| - k
      {
        assert HeaderAt(list.mem, list.blocks, k);
        var cell := list.mem[current.addr];
        var regionStart, regionEnd := current.addr, current.addr + cell.size;
        GapBefore(View(), k);
        if prevEnd < regionStart {
          if prevEnd <= addr < regionStart {
            return Some((prevEnd, regionStart));
          }
        }
        if regionStart <= addr < regionEnd {
          assert list.blocks[k].Has(addr);
          return None;
        }
        prevEnd := regionEnd;
        current := cell.next;
        k := k + 1;
      }
      GapBefore(View(), k);
      if prevEnd < REGION_END && prevEnd <= addr < REGION_END {
        return Some((prevEnd, REGION_END));
      }
      return None;
    }

    /** The free block around an address. */
    method FindFreeRegion(addr: nat) returns (r: Option<(nat, nat)>)
      requires Valid()
      ensures r.Some? ==> r.value.0 <= addr < r.value.1 && Block(r.value.0, r.value.1 - r.value.0) in list.blocks
      ensures r.Some? <==> Covered(list.blocks, addr)
    {
      SoundTiles(View());
      CoveredWithin(REGION_START, REGION_END, list.blocks, addr);
      if addr < REGION_START || addr >= REGION_END {
        return None;
      }
      var current := list.head;
      ghost var k := 0;
      while current != Null
        invariant k <= |list.blocks| && current == LinkAt(list.blocks, k)
        invariant forall i :: 0 <= i < k ==> !list.blocks[i].Has(addr)
        decreases |list.blocks| - k
      {
        assert HeaderAt(list.mem, list.blocks, k);
        var cell := list.mem[current.addr];
        if current.addr <= addr < current.addr + cell.size {
          assert list.blocks[k].Has(addr) && list.blocks[k] in list.blocks;
          return Some((current.addr, current.addr + cell.size));
        }
        current := cell.next;
        k := k + 1;
      }
      return None;
    }
  }

  lemma FoundMeansFits(l: seq<Block>, k: nat, found: Link)
    requires k <= |l| && found == LinkAt(l, k)
    ensures found == Null <==> k == |l|
  {
  }

  lemma SoundCanonical(p: Region)
    requires Sound(p)
    ensures Canonical(p.free)
  {
  }

  lemma SoundTiles(p: Region)
    requires Sound(p)
    ensures Tiles(REGION_START, REGION_END, p.free, p.live)
  {
  }

  /** In a region of whole units a rest smaller than a unit is no rest at all. */
  lemma RestIsUnit(p: Region, k: nat, size: nat)
    requires Sound(p) && k < |p.free| && 0 < size <= p.free[k].size && size % MIN_BLOCK_SIZE == 0
    ensures p.free[k].size - size >= MIN_BLOCK_SIZE || p.free[k].size == size
    ensures k + 1 < |p.free| ==> p.free[k].End() < p.free[k + 1].addr
  {
    UnitAt(p.free, k, MIN_BLOCK_SIZE);
  }

  lemma LiveStarts(p: Region, b: Block)
    requires Sound(p) && b in p.live
    ensures forall i :: 0 <= i < |p.free| ==> p.free[i].addr != b.addr
  {
    forall i | 0 <= i < |p.free|
      ensures p.free[i].addr != b.addr
    {
      FreeApartFromLive(REGION_START, REGION_END, p.free, p.live, i, b);
    }
  }

  lemma ReturnedTotal(p: Region, b: Block)
    requires Sound(p) && b in p.live
    ensures Total(p.free) + b.size <= REGION_SIZE
  {
    hide Sound, Give;
    ReturnedSound(p, b);
    SoundTiles(Returned(p, b));
    Conservation(REGION_START, REGION_END, Give(p.free, b), p.live - {b});
    TotalGive(p.free, b);
  }

  /** Where the gap before free block `k` starts. */
  function GapStart(l: seq<Block>, k: nat): nat
    requires k <= |l|
  {
    if k == 0 then REGION_START else l[k - 1].End()
  }

  /** [s, e) holds no free address and cannot be extended on either side. */
  ghost predicate MaximalGap(l: seq<Block>, s: nat, e: nat) {
    && REGION_START <= s < e <= REGION_END
    && (forall x :: s <= x < e ==> !Covered(l, x))
    && (s == REGION_START || Covered(l, s - 1))
    && (e == REGION_END || Covered(l, e))
  }

  lemma GapBefore(p: Region, k: nat)
    requires Tiles(REGION_START, REGION_END, p.free, p.live) && k <= |p.free|
    ensures var s, e := GapStart(p.free, k), if k < |p.free| then p.free[k].addr else REGION_END;
      s < e ==> MaximalGap(p.free, s, e)
  {
    var l := p.free;
    var s, e := GapStart(l, k), if k < |l| then l[k].addr else REGION_END;
    forall x | s <= x < e
      ensures !Covered(l, x)
    {
      forall i | 0 <= i < |l|
        ensures !l[i].Has(x)
      {
        GapMisses(l, k, i, x);
      }
    }
    assert k > 0 ==> l[k - 1].Has(s - 1);
    assert k < |l| ==> l[k].Has(e);
  }

  lemma GapMisses(l: seq<Block>, k: nat, i: nat, x: nat)
    requires Canonical(l) && k <= |l| && i < |l| && GapStart(l, k) <= x && (k < |l| ==> x < l[k].addr)
    ensures !l[i].Has(x)
  {
    if i + 1 < k {
      assert l[i].End() < l[k - 1].addr;
    } else if i > k {
      assert l[k].End() < l[i].addr;
    }
  }
}
