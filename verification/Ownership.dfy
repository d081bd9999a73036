/** Who owns what in the program region: the per-task registry of src/executable.rs together
    with the allocations that feed it (src/task.rs, src/api.rs). */
module Ownership {
  import opened Options
  import opened Blocks
  import opened Tiling
  import opened ProgramMemory

  type TaskId = nat

  const STACK_SIZE: nat := 16384

  /** The memory of one task; sizes as they were requested. */
  datatype TaskAllocations = TaskAllocations(stack: Block, program: Option<Block>, heapBlocks: seq<Block>)

  datatype System = System(region: Region, tasks: map<TaskId, TaskAllocations>)

  /** The block that a request occupies. */
  function Held(b: Block): Block {
    Block(b.addr, Rounded(b.size))
  }

  function HeldAll(l: seq<Block>): (r: seq<Block>)
    ensures |r| == |l| && forall i :: 0 <= i < |l| ==> r[i] == Held(l[i])
  {
    seq(|l|, i requires 0 <= i < |l| => Held(l[i]))
  }

  /** Everything a task holds, in the order in which it is given back. */
  function Owned(t: TaskAllocations): seq<Block> {
    HeldAll(t.heapBlocks) + (if t.program.Some? then [Held(t.program.value)] else []) + [Held(t.stack)]
  }

  /** A task's blocks are live and none is held twice. */
  ghost predicate HoldsLive(t: TaskAllocations, live: set<Block>) {
    && (forall b :: multiset(Owned(t))[b] <= 1)
    && (forall b :: b in Owned(t) ==> b in live)
  }

  ghost predicate Exclusive(tasks: map<TaskId, TaskAllocations>) {
    forall id, id' :: id in tasks && id' in tasks && id != id' ==>
      forall b :: b in Owned(tasks[id]) ==> b !in Owned(tasks[id'])
  }

  /** The region is tiled, and the blocks registered to all tasks are live and pairwise
      different, hence disjoint. */
  ghost predicate Inv(s: System) {
    && Sound(s.region)
    && (forall id :: id in s.tasks ==> HoldsLive(s.tasks[id], s.region.live))
    && Exclusive(s.tasks)
  }

  /** Whether some task holds `b`. */
  ghost predicate Registered(s: System, b: Block) {
    exists id :: id in s.tasks && b in Owned(s.tasks[id])
  }

  /** The live blocks that no task would give back. */
  ghost function Orphans(s: System): set<Block> {
    set b | b in s.region.live && !Registered(s, b)
  }

  // ------------------------------------------------------------- operations

  /** Allocates a stack and registers it. */
  function SpawnTask(s: System, id: TaskId): System {
    if !Fits(s.region, Rounded(STACK_SIZE)) then s
    else
      var b := Chosen(s.region, Rounded(STACK_SIZE));
      System(Acquired(s.region, Rounded(STACK_SIZE)),
             s.tasks[id := TaskAllocations(Block(b.addr, STACK_SIZE), None, [])])
  }

  function TaskAlloc(s: System, id: TaskId, size: nat): System {
    if size == 0 || !Fits(s.region, Rounded(size)) then s
    else
      var b := Chosen(s.region, Rounded(size));
      var region := Acquired(s.region, Rounded(size));
      if id !in s.tasks then System(region, s.tasks)
      else
        var t := s.tasks[id];
        System(region, s.tasks[id := t.(heapBlocks := t.heapBlocks + [b])])
  }

  /** The first heap block at `ptr`. */
  function Position(l: seq<Block>, ptr: nat): (k: nat)
    ensures k <= |l|
    ensures forall i :: 0 <= i < k ==> l[i].addr != ptr
    ensures k < |l| ==> l[k].addr == ptr
  {
    if l == [] || l[0].addr == ptr then 0 else 1 + Position(l[1..], ptr)
  }

  predicate Frees(s: System, id: TaskId, ptr: nat) {
    id in s.tasks && Position(s.tasks[id].heapBlocks, ptr) < |s.tasks[id].heapBlocks|
  }

  function TaskFree(s: System, id: TaskId, ptr: nat): System {
    if !Frees(s, id, ptr) then s
    else
      var t := s.tasks[id];
      var k := Position(t.heapBlocks, ptr);
      System(Returned(s.region, Held(t.heapBlocks[k])), s.tasks[id := t.(heapBlocks := Remove(t.heapBlocks, k))])
  }

  function ReturnAll(p: Region, l: seq<Block>): Region
    decreases |l|
  {
    if l == [] then p else ReturnAll(Returned(p, l[0]), l[1..])
  }

  function UnloadTask(s: System, id: TaskId): System {
    if id !in s.tasks then s
    else System(ReturnAll(s.region, Owned(s.tasks[id])), s.tasks - {id})
  }

  /** Loads a program of `size` bytes for a new task with `args` bytes of arguments:
      program memory, stack, registration of both, then the argument block. */
  function SpawnProgram(s: System, id: TaskId, size: nat, args: nat): System {
    if !Fits(s.region, Rounded(size)) then s
    else
      var b := Chosen(s.region, Rounded(size));
      var s1 := System(Acquired(s.region, Rounded(size)), s.tasks);
      if !Fits(s1.region, Rounded(STACK_SIZE)) then s1
      else
        var s2 := SpawnTask(s1, id);
        var s3 := s2.(tasks := s2.tasks[id := s2.tasks[id].(program := Some(Block(b.addr, size)))]);
        TaskAlloc(s3, id, args)
  }

  predicate Launches(s: System, id: TaskId, size: nat, args: nat) {
    && Fits(s.region, Rounded(size))
    && var s1 := System(Acquired(s.region, Rounded(size)), s.tasks);
       Fits(s1.region, Rounded(STACK_SIZE)) && args > 0 && Fits(SpawnTask(s1, id).region, Rounded(args))
  }

  // ------------------------------------------------------------ what they keep

  lemma OwnedMembers(t: TaskAllocations, b: Block)
    ensures b in Owned(t) <==> b in multiset(Owned(t))
  {
  }

  lemma PushOwned(t: TaskAllocations, b: Block)
    ensures multiset(Owned(t.(heapBlocks := t.heapBlocks + [b]))) == multiset(Owned(t)) + multiset{Held(b)}
  {
    assert HeldAll(t.heapBlocks + [b]) == HeldAll(t.heapBlocks) + [Held(b)];
  }

  lemma HeldConcat(k: seq<Block>, l: seq<Block>)
    ensures HeldAll(k + l) == HeldAll(k) + HeldAll(l)
  {
  }

  lemma RemoveHeld(h: seq<Block>, k: nat)
    requires k < |h|
    ensures multiset(HeldAll(h)) == multiset(HeldAll(Remove(h, k))) + multiset{Held(h[k])}
  {
    assert h == h[..k] + ([h[k]] + h[k + 1..]);
    HeldConcat(h[..k], [h[k]] + h[k + 1..]);
    HeldConcat([h[k]], h[k + 1..]);
    HeldConcat(h[..k], h[k + 1..]);
    assert HeldAll([h[k]]) == [Held(h[k])];
    hide HeldAll;
  }

  lemma RemoveOwned(t: TaskAllocations, k: nat)
    requires k < |t.heapBlocks|
    ensures multiset(Owned(t)) ==
            multiset(Owned(t.(heapBlocks := Remove(t.heapBlocks, k)))) + multiset{Held(t.heapBlocks[k])}
  {
    hide HeldAll, Remove;
    RemoveHeld(t.heapBlocks, k);
  }

  /** Task `id` comes to hold one more block, which nobody held. */
  lemma GainKeeps(s: System, region: Region, id: TaskId, t: TaskAllocations, b: Block)
    requires Inv(s) && Sound(region) && region.live == s.region.live + {b} && b !in s.region.live
    requires multiset(Owned(t)) == (if id in s.tasks then multiset(Owned(s.tasks[id])) else multiset{}) + multiset{b}
    ensures Inv(System(region, s.tasks[id := t]))
  {
    hide Sound, Owned;
    var tasks := s.tasks[id := t];
    forall c
      ensures c in Owned(t) ==> c == b || (id in s.tasks && c in Owned(s.tasks[id]))
    {
      OwnedMembers(t, c);
      if id in s.tasks {
        OwnedMembers(s.tasks[id], c);
      }
    }
    assert HoldsLive(t, region.live) by {
      if id in s.tasks {
        OwnedMembers(s.tasks[id], b);
      }
    }
  }

  lemma GainOrphans(s: System, region: Region, id: TaskId, t: TaskAllocations, b: Block)
    requires Inv(s) && region.live == s.region.live + {b} && b !in s.region.live
    requires multiset(Owned(t)) == (if id in s.tasks then multiset(Owned(s.tasks[id])) else multiset{}) + multiset{b}
    ensures Orphans(System(region, s.tasks[id := t])) == Orphans(s)
  {
    hide Sound, Owned, HoldsLive;
    var s' := System(region, s.tasks[id := t]);
    forall c
      ensures Registered(s', c) <==> Registered(s, c) || c == b
    {
      OwnedMembers(t, c);
      if id in s.tasks {
        OwnedMembers(s.tasks[id], c);
      }
      if Registered(s, c) {
        var j :| j in s.tasks && c in Owned(s.tasks[j]);
        assert j in s'.tasks && c in Owned(s'.tasks[j]);
      }
      assert id in s'.tasks && s'.tasks[id] == t;
    }
  }

  /** Task `id` gives one of its blocks back. */
  lemma LoseKeeps(s: System, region: Region, id: TaskId, t: TaskAllocations, b: Block)
    requires Inv(s) && Sound(region) && region.live == s.region.live - {b} && id in s.tasks
    requires multiset(Owned(s.tasks[id])) == multiset(Owned(t)) + multiset{b}
    ensures Inv(System(region, s.tasks[id := t]))
  {
    hide Sound, Owned;
    var was := s.tasks[id];
    assert multiset(Owned(was))[b] <= 1;
    OwnedMembers(was, b);
    OwnedMembers(t, b);
    assert HoldsLive(was, s.region.live);
    forall c
      ensures c in Owned(t) ==> c != b && c in Owned(was)
      ensures multiset(Owned(t))[c] <= 1
    {
      assert multiset(Owned(was))[c] == multiset(Owned(t))[c] + multiset{b}[c];
      OwnedMembers(t, c);
      OwnedMembers(was, c);
    }
    assert HoldsLive(t, region.live);
  }

  lemma LoseOrphans(s: System, region: Region, id: TaskId, t: TaskAllocations, b: Block)
    requires Inv(s) && region.live == s.region.live - {b} && id in s.tasks
    requires multiset(Owned(s.tasks[id])) == multiset(Owned(t)) + multiset{b}
    ensures Orphans(System(region, s.tasks[id := t])) == Orphans(s)
  {
    hide Sound, Owned;
    var s' := System(region, s.tasks[id := t]);
    var was := s.tasks[id];
    forall c
      ensures c != b ==> (Registered(s', c) <==> Registered(s, c))
      ensures c == b ==> Registered(s, c)
    {
      OwnedMembers(t, c);
      OwnedMembers(was, c);
      if c != b && Registered(s, c) {
        var j :| j in s.tasks && c in Owned(s.tasks[j]);
        assert j in s'.tasks && c in Owned(s'.tasks[j]);
      }
    }
  }

  lemma {:induction false} ReturnAllSound(p: Region, l: seq<Block>)
    requires Sound(p) && (forall b :: multiset(l)[b] <= 1) && (forall b :: b in l ==> b in p.live)
    ensures Sound(ReturnAll(p, l)) && ReturnAll(p, l).live == p.live - (set b | b in l)
    decreases |l|
  {
    hide Sound, Give;
    if l == [] {
    } else {
      ReturnedSound(p, l[0]);
      TailDistinct(l);
      ReturnAllSound(Returned(p, l[0]), l[1..]);
      assert (set b | b in l) == {l[0]} + (set b | b in l[1..]);
    }
  }

  lemma TailDistinct(l: seq<Block>)
    requires l != [] && forall b :: multiset(l)[b] <= 1
    ensures l[0] !in l[1..] && forall b :: multiset(l[1..])[b] <= 1
  {
    assert l == [l[0]] + l[1..];
    forall b
      ensures multiset(l)[b] == multiset([l[0]])[b] + multiset(l[1..])[b]
    {
    }
    assert multiset(l[1..])[l[0]] == 0;
    assert l[0] in l[1..] <==> l[0] in multiset(l[1..]);
  }

  lemma UnloadKeeps(s: System, id: TaskId)
    requires Inv(s)
    ensures Inv(UnloadTask(s, id)) && Orphans(UnloadTask(s, id)) == Orphans(s)
  {
    hide Sound, Owned, ReturnAll;
    if id in s.tasks {
      var l := Owned(s.tasks[id]);
      ReturnAllSound(s.region, l);
      var s' := UnloadTask(s, id);
      forall j | j in s'.tasks
        ensures HoldsLive(s'.tasks[j], s'.region.live)
      {
        assert HoldsLive(s.tasks[j], s.region.live);
      }
      forall c
        ensures Registered(s, c) <==> c in l || Registered(s', c)
      {
        if Registered(s, c) && c !in l {
          var j :| j in s.tasks && c in Owned(s.tasks[j]);
          assert j in s'.tasks;
        }
      }
    }
  }

  lemma AcquireGives(p: Region, size: nat)
    requires Sound(p) && Fits(p, Rounded(size))
    ensures var b, q := Chosen(p, Rounded(size)), Acquired(p, Rounded(size));
      Sound(q) && q.live == p.live + {b} && b !in p.live && Held(Block(b.addr, size)) == b
  {
    hide Sound, FirstFit, Take;
    AcquiredSound(p, Rounded(size));
  }

  lemma SpawnTaskKeeps(s: System, id: TaskId)
    requires Inv(s) && id !in s.tasks
    ensures Inv(SpawnTask(s, id)) && Orphans(SpawnTask(s, id)) == Orphans(s)
  {
    hide Inv, Sound, Orphans, Acquired, Chosen, Fits;
    if Fits(s.region, Rounded(STACK_SIZE)) {
      InvSound(s);
      AcquireGives(s.region, STACK_SIZE);
      var b, region := Chosen(s.region, Rounded(STACK_SIZE)), Acquired(s.region, Rounded(STACK_SIZE));
      var t := TaskAllocations(Block(b.addr, STACK_SIZE), None, []);
      assert Owned(t) == [b];
      GainKeeps(s, region, id, t, b);
      GainOrphans(s, region, id, t, b);
    }
  }

  lemma InvSound(s: System)
    requires Inv(s)
    ensures Sound(s.region)
  {
  }

  /** Memory taken without being registered becomes an orphan and changes nothing else. */
  lemma OrphanKeeps(s: System, region: Region, b: Block)
    requires Inv(s) && Sound(region) && region.live == s.region.live + {b} && b !in s.region.live
    ensures Inv(System(region, s.tasks)) && Orphans(System(region, s.tasks)) == Orphans(s) + {b}
  {
    hide Sound, Owned;
    var s' := System(region, s.tasks);
    forall id | id in s.tasks
      ensures HoldsLive(s.tasks[id], region.live)
    {
      assert HoldsLive(s.tasks[id], s.region.live);
    }
    forall c
      ensures Registered(s', c) <==> Registered(s, c)
      ensures Registered(s, c) ==> c in s.region.live
    {
      if Registered(s, c) {
        var id :| id in s.tasks && c in Owned(s.tasks[id]);
        assert HoldsLive(s.tasks[id], s.region.live);
      }
    }
  }

  lemma TaskAllocKeeps(s: System, id: TaskId, size: nat)
    requires Inv(s)
    ensures Inv(TaskAlloc(s, id, size))
    ensures Orphans(TaskAlloc(s, id, size)) == Orphans(s)
            + if size > 0 && id !in s.tasks && Fits(s.region, Rounded(size)) then {Chosen(s.region, Rounded(size))}
              else {}
  {
    hide Inv, Sound, Orphans, Acquired, Chosen, Fits, Owned;
    if size > 0 && Fits(s.region, Rounded(size)) {
      InvSound(s);
      AcquireGives(s.region, size);
      var b, region := Chosen(s.region, Rounded(size)), Acquired(s.region, Rounded(size));
      if id in s.tasks {
        var t := s.tasks[id];
        ChosenHeld(s.region, size);
        PushOwned(t, b);
        GainKeeps(s, region, id, t.(heapBlocks := t.heapBlocks + [b]), b);
        GainOrphans(s, region, id, t.(heapBlocks := t.heapBlocks + [b]), b);
      } else {
        OrphanKeeps(s, region, b);
      }
    }
  }

  /** A heap block is registered with its rounded size, which rounds to itself. */
  lemma ChosenHeld(p: Region, size: nat)
    requires size > 0 && Fits(p, Rounded(size))
    ensures Held(Chosen(p, Rounded(size))) == Chosen(p, Rounded(size))
  {
    hide FirstFit;
    RoundedTwice(size);
  }

  /** The block that freeing `ptr` gives back. */
  function Freed(s: System, id: TaskId, ptr: nat): Block
    requires Frees(s, id, ptr)
  {
    Held(s.tasks[id].heapBlocks[Position(s.tasks[id].heapBlocks, ptr)])
  }

  lemma TaskFreeKeeps(s: System, id: TaskId, ptr: nat)
    requires Inv(s)
    ensures Inv(TaskFree(s, id, ptr)) && Orphans(TaskFree(s, id, ptr)) == Orphans(s)
  {
    hide Orphans, Owned, Sound, Give;
    if Frees(s, id, ptr) {
      var t := s.tasks[id];
      var k := Position(t.heapBlocks, ptr);
      var b := Held(t.heapBlocks[k]);
      RemoveOwned(t, k);
      OwnedMembers(t, b);
      assert HoldsLive(t, s.region.live);
      ReturnedSound(s.region, b);
      LoseKeeps(s, Returned(s.region, b), id, t.(heapBlocks := Remove(t.heapBlocks, k)), b);
      LoseOrphans(s, Returned(s.region, b), id, t.(heapBlocks := Remove(t.heapBlocks, k)), b);
    }
  }

  /** Freeing gives back one live block, which starts at `ptr` and is held by this task, with
      its recorded size; a pointer to no such block changes nothing. */
  lemma FreesOwnBlock(s: System, id: TaskId, ptr: nat)
    requires Inv(s)
    ensures var r := TaskFree(s, id, ptr);
      if Frees(s, id, ptr) then
        var b := Freed(s, id, ptr);
        && b.addr == ptr && b in s.region.live && b in Owned(s.tasks[id])
        && r.region == Returned(s.region, b) && r.tasks.Keys == s.tasks.Keys
        && multiset(Owned(s.tasks[id])) == multiset(Owned(r.tasks[id])) + multiset{b}
        && forall j :: j in s.tasks && j != id ==> r.tasks[j] == s.tasks[j]
      else r == s
  {
    hide Sound, Give, Owned, Remove;
    if Frees(s, id, ptr) {
      var t := s.tasks[id];
      RemoveOwned(t, Position(t.heapBlocks, ptr));
      OwnedMembers(t, Freed(s, id, ptr));
      assert HoldsLive(t, s.region.live);
    }
  }

  /** Task `id` comes to hold an orphan. */
  lemma AdoptKeeps(s: System, id: TaskId, t: TaskAllocations, b: Block)
    requires Inv(s) && id in s.tasks && b in Orphans(s)
    requires multiset(Owned(t)) == multiset(Owned(s.tasks[id])) + multiset{b}
    ensures Inv(s.(tasks := s.tasks[id := t])) && Orphans(s.(tasks := s.tasks[id := t])) == Orphans(s) - {b}
  {
    hide Sound, Owned;
    var was, s' := s.tasks[id], s.(tasks := s.tasks[id := t]);
    assert HoldsLive(was, s.region.live);
    assert b !in Owned(was);
    OwnedMembers(was, b);
    forall c
      ensures c in Owned(t) <==> c in Owned(was) || c == b
      ensures multiset(Owned(t))[c] <= 1
      ensures Registered(s', c) <==> Registered(s, c) || c == b
    {
      OwnedMembers(was, c);
      OwnedMembers(t, c);
      assert multiset(Owned(t))[c] == multiset(Owned(was))[c] + multiset{b}[c];
      if Registered(s, c) {
        var j :| j in s.tasks && c in Owned(s.tasks[j]);
        assert j in s'.tasks && (j == id ==> c in Owned(s'.tasks[id]));
      }
      assert id in s'.tasks && s'.tasks[id] == t;
    }
    assert HoldsLive(t, s.region.live);
  }

  /** There is room for the program, and then none for the stack of its task. */
  ghost predicate SpawnLeaks(s: System, size: nat) {
    Fits(s.region, Rounded(size)) && !Fits(Acquired(s.region, Rounded(size)), Rounded(STACK_SIZE))
  }

  lemma SpawnProgramKeeps(s: System, id: TaskId, size: nat, args: nat)
    requires Inv(s) && id !in s.tasks
    ensures Inv(SpawnProgram(s, id, size, args))
    ensures Orphans(SpawnProgram(s, id, size, args)) == Orphans(s)
            + if SpawnLeaks(s, size) then {Chosen(s.region, Rounded(size))} else {}
  {
    hide Inv, Sound, Orphans, Acquired, Chosen, Fits, Owned, SpawnTask, TaskAlloc;
    if Fits(s.region, Rounded(size)) {
      InvSound(s);
      AcquireGives(s.region, size);
      var b := Chosen(s.region, Rounded(size));
      var s1 := System(Acquired(s.region, Rounded(size)), s.tasks);
      OrphanKeeps(s, s1.region, b);
      OrphansLive(s, b);
      if Fits(s1.region, Rounded(STACK_SIZE)) {
        SpawnTaskKeeps(s1, id);
        SpawnedShape(s1, id);
        var s2 := SpawnTask(s1, id);
        var t := s2.tasks[id].(program := Some(Block(b.addr, size)));
        ProgramOwned(s2.tasks[id], Block(b.addr, size));
        AdoptKeeps(s2, id, t, b);
        TaskAllocKeeps(s2.(tasks := s2.tasks[id := t]), id, args);
      }
    }
  }

  lemma OrphansLive(s: System, b: Block)
    ensures b !in s.region.live ==> b !in Orphans(s)
  {
  }

  lemma SpawnedShape(s: System, id: TaskId)
    requires Fits(s.region, Rounded(STACK_SIZE))
    ensures id in SpawnTask(s, id).tasks && SpawnTask(s, id).tasks[id].program.None?
  {
  }

  lemma ProgramOwned(t: TaskAllocations, b: Block)
    requires t.program.None?
    ensures multiset(Owned(t.(program := Some(b)))) == multiset(Owned(t)) + multiset{Held(b)}
  {
  }

  // -------------------------------------------------------------- whole runs

  datatype Event =
    | Spawn(id: TaskId)
    | Load(id: TaskId, size: nat, args: nat)
    | Alloc(id: TaskId, size: nat)
    | Free(id: TaskId, ptr: nat)
    | Unload(id: TaskId)

  function Step(s: System, e: Event): System {
    match e
    case Spawn(id) => SpawnTask(s, id)
    case Load(id, size, args) => SpawnProgram(s, id, size, args)
    case Alloc(id, size) => TaskAlloc(s, id, size)
    case Free(id, ptr) => TaskFree(s, id, ptr)
    case Unload(id) => UnloadTask(s, id)
  }

  /** New tasks have new identifiers, as the scheduler guarantees. */
  predicate NewId(s: System, e: Event) {
    (e.Spawn? || e.Load?) ==> e.id !in s.tasks
  }

  /** The events that take memory nobody will give back: a program that is loaded and for
      which no task can be created, and an allocation for a task that is not registered. */
  ghost predicate Leaks(s: System, e: Event) {
    match e
    case Load(id, size, args) => SpawnLeaks(s, size)
    case Alloc(id, size) => size > 0 && id !in s.tasks && Fits(s.region, Rounded(size))
    case _ => false
  }

  lemma StepKeeps(s: System, e: Event)
    requires Inv(s) && NewId(s, e)
    ensures Inv(Step(s, e)) && Orphans(s) <= Orphans(Step(s, e))
    ensures Leaks(s, e) <==> Orphans(Step(s, e)) != Orphans(s)
  {
    hide Inv, Orphans, SpawnTask, SpawnProgram, TaskAlloc, TaskFree, UnloadTask, Acquired, Chosen, Fits;
    match e
    case Spawn(id) => SpawnTaskKeeps(s, id);
    case Load(id, size, args) =>
      SpawnProgramKeeps(s, id, size, args);
      if SpawnLeaks(s, size) {
        InvSound(s);
        AcquireGives(s.region, size);
        OrphansLive(s, Chosen(s.region, Rounded(size)));
      }
    case Alloc(id, size) =>
      TaskAllocKeeps(s, id, size);
      if Leaks(s, e) {
        InvSound(s);
        AcquireGives(s.region, size);
        OrphansLive(s, Chosen(s.region, Rounded(size)));
      }
    case Free(id, ptr) => TaskFreeKeeps(s, id, ptr);
    case Unload(id) => UnloadKeeps(s, id);
  }

  function Run(s: System, events: seq<Event>): System
    decreases |events|
  {
    if events == [] then s else Run(Step(s, events[0]), events[1..])
  }

  predicate Fresh(s: System, events: seq<Event>)
    decreases |events|
  {
    events != [] ==> NewId(s, events[0]) && Fresh(Step(s, events[0]), events[1..])
  }

  ghost predicate EverLeaks(s: System, events: seq<Event>)
    decreases |events|
  {
    events != [] && (Leaks(s, events[0]) || EverLeaks(Step(s, events[0]), events[1..]))
  }

  lemma {:induction false} RunKeeps(s: System, events: seq<Event>)
    requires Inv(s) && Fresh(s, events)
    ensures Inv(Run(s, events)) && Orphans(s) <= Orphans(Run(s, events))
    ensures EverLeaks(s, events) <==> Orphans(Run(s, events)) != Orphans(s)
    decreases |events|
  {
    hide Inv, Orphans, Step, Leaks;
    if events != [] {
      StepKeeps(s, events[0]);
      RunKeeps(Step(s, events[0]), events[1..]);
    }
  }

  const BOOT: System := System(WHOLE, map[])

  lemma BootInv()
    ensures Inv(BOOT) && Orphans(BOOT) == {}
  {
    WholeSound();
  }

  lemma NoTasksNoRegistered(s: System)
    requires Inv(s) && s.tasks == map[]
    ensures Orphans(s) == s.region.live
  {
  }

  /** Ownership end to end. In every run from boot the region is tiled, tasks hold live and
      pairwise different blocks, and allocated plus free bytes are the whole region. Once
      every task is unloaded the free list is the one original region exactly when no event
      of the run leaked. */
  lemma EverythingComesBack(events: seq<Event>)
    requires Fresh(BOOT, events)
    ensures var s := Run(BOOT, events);
      && Inv(s)
      && LiveTotal(s.region.live) + Total(s.region.free) == REGION_SIZE
      && (s.tasks == map[] ==>
            (s.region.free == [Block(REGION_START, REGION_SIZE)] <==> !EverLeaks(BOOT, events)))
  {
    hide Run, EverLeaks, Fresh, Orphans, Inv, Sound;
    BootInv();
    RunKeeps(BOOT, events);
    var s := Run(BOOT, events);
    InvSound(s);
    SoundTiles(s.region);
    Conservation(REGION_START, REGION_END, s.region.free, s.region.live);
    if s.tasks == map[] {
      NoTasksNoRegistered(s);
      WholeMeansNothingLive(s.region);
    }
  }

  /** A program as large as the region: it is loaded, there is no room for a stack, and with no
      task in the system all memory is gone. */
  lemma LeakExample()
    ensures var s := Run(BOOT, [Load(0, REGION_SIZE, 1)]);
      Fresh(BOOT, [Load(0, REGION_SIZE, 1)]) && s.tasks == map[] && s.region.free == []
  {
    var e := Load(0, REGION_SIZE, 1);
    assert Step(BOOT, e).tasks == map[] && Step(BOOT, e).region.free == [];
    assert Run(BOOT, [e]) == Run(Step(BOOT, e), []);
  }

  lemma WholeMeansNothingLive(p: Region)
    requires Sound(p)
    ensures p.free == [Block(REGION_START, REGION_SIZE)] <==> p.live == {}
  {
    hide Tiles;
    SoundTiles(p);
    if p.live == {} {
      NothingLive(REGION_START, REGION_END, p.free);
    }
    if p.free == [Block(REGION_START, REGION_SIZE)] && p.live != {} {
      var b :| b in p.live;
      FreeApartFromLive(REGION_START, REGION_END, p.free, p.live, 0, b);
      BlockWithin(REGION_START, REGION_END, p.free, p.live, b);
      assert false;
    }
  }

  /** Any two blocks held by tasks, other than the same holding, have disjoint extents. */
  lemma HoldingsDisjoint(s: System, id: TaskId, i: nat, id': TaskId, j: nat)
    requires Inv(s) && id in s.tasks && id' in s.tasks && (id, i) != (id', j)
    requires i < |Owned(s.tasks[id])| && j < |Owned(s.tasks[id'])|
    ensures var b, c := Owned(s.tasks[id])[i], Owned(s.tasks[id'])[j];
      b.End() <= c.addr || c.End() <= b.addr
  {
    hide Owned, Tiles;
    var l := Owned(s.tasks[id]);
    assert HoldsLive(s.tasks[id], s.region.live) && HoldsLive(s.tasks[id'], s.region.live);
    var b, c := l[i], Owned(s.tasks[id'])[j];
    assert b in l && c in Owned(s.tasks[id']);
    if id == id' {
      DistinctAt(l, i, j);
    }
    SoundTiles(s.region);
    BlocksApart(REGION_START, REGION_END, s.region.free, s.region.live, b, c);
  }

  lemma DistinctAt(l: seq<Block>, i: nat, j: nat)
    requires i < |l| && j < |l| && i != j && forall b :: multiset(l)[b] <= 1
    ensures l[i] != l[j]
  {
    var m, n := if i < j then i else j, if i < j then j else i;
    assert l == l[..n] + l[n..];
    assert l[..n][m] == l[m] && l[n..][0] == l[n];
    assert multiset(l)[l[m]] == multiset(l[..n])[l[m]] + multiset(l[n..])[l[m]];
  }

  // ------------------------------------------------------ the registry itself

  class Registry {
    const memory: ProgramAllocator
    var tasks: map<TaskId, TaskAllocations>

    ghost function View(): System
      reads this, memory, memory.list
    {
      System(memory.View(), tasks)
    }

    ghost predicate Valid()
      reads this, memory, memory.list
    {
      memory.Valid() && Inv(View())
    }

    constructor ()
      ensures Valid() && View() == BOOT && fresh(memory) && fresh(memory.list)
    {
      memory := new ProgramAllocator();
      tasks := map[];
      new;
      BootInv();
    }

    /** Allocates a stack for a new task and registers it. */
    method NewTask(id: TaskId) returns (ok: bool)
      requires Valid() && id !in tasks
      modifies this, memory, memory.list
      ensures Valid() && View() == SpawnTask(old(View()), id)
      ensures ok <==> id in tasks
    {
      hide Inv, ProgramAllocator.Valid;
      SpawnTaskKeeps(View(), id);
      var stack := memory.Allocate(STACK_SIZE);
      ok := stack.Some?;
      if ok {
        tasks := tasks[id := TaskAllocations(Block(stack.value, STACK_SIZE), None, [])];
      }
    }

    /** Loads a program and starts a task for it: true exactly when there is room for the
        program, then for a stack, then for the arguments. What a failure leaves behind is
        modelled too. */
    method LaunchProgram(id: TaskId, size: nat, args: nat) returns (ok: bool)
      requires Valid() && id !in tasks
      modifies this, memory, memory.list
      ensures Valid() && View() == SpawnProgram(old(View()), id, size, args)
      ensures ok <==> Launches(old(View()), id, size, args)
    {
      hide Inv, ProgramAllocator.Valid, Acquired, TaskAlloc, SpawnTask, Orphans;
      SpawnProgramKeeps(View(), id, size, args);
      var program := memory.Allocate(size);
      if program.None? {
        return false;
      }
      ghost var s1 := System(memory.View(), tasks);
      InvSound(old(View()));
      AcquireGives(old(View()).region, size);
      OrphanKeeps(old(View()), s1.region, Chosen(old(View()).region, Rounded(size)));
      ok := NewTask(id);
      SpawnedOrNot(s1, id);
      if !ok {
        return;
      }
      SpawnTaskKeeps(s1, id);
      AdoptLoaded(old(View()), s1, id, size);
      tasks := tasks[id := tasks[id].(program := Some(Block(program.value, size)))];
      var argv := Alloc(id, args);
      ok := argv.Some?;
    }

    /** Heap memory for a task, in whole pages. */
    method Alloc(id: TaskId, size: nat) returns (r: Option<nat>)
      requires Valid()
      modifies this, memory, memory.list
      ensures Valid() && View() == TaskAlloc(old(View()), id, size)
      ensures r.Some? <==> size > 0 && Fits(old(View()).region, Rounded(size))
      ensures r.Some? ==> r.value == Chosen(old(View()).region, Rounded(size)).addr
    {
      hide Inv, ProgramAllocator.Valid, Acquired, FirstFit;
      TaskAllocKeeps(View(), id, size);
      if size == 0 {
        return None;
      }
      var alignedSize := (size + 0xFFF) / 4096 * 4096;
      RoundedTwice(size);
      r := memory.Allocate(alignedSize);
      if r.Some? {
        if id in tasks {
          var t := tasks[id];
          tasks := tasks[id := t.(heapBlocks := t.heapBlocks + [Block(r.value, alignedSize)])];
        }
      }
    }

    /** Frees a heap block if it is one of this task's; false otherwise. */
    method FreeBlock(id: TaskId, ptr: nat) returns (ok: bool)
      requires Valid()
      modifies this, memory, memory.list
      ensures Valid() && View() == TaskFree(old(View()), id, ptr)
      ensures ok <==> Frees(old(View()), id, ptr)
    {
      TaskFreeKeeps(View(), id, ptr);
      if id !in tasks {
        return false;
      }
      var t := tasks[id];
      var k := FindPosition(t.heapBlocks, ptr);
      if k == |t.heapBlocks| {
        return false;
      }
      var b := t.heapBlocks[k];
      HeapBlockLive(View(), id, k);
      hide Inv, ProgramAllocator.Valid, Give;
      tasks := tasks[id := t.(heapBlocks := Remove(t.heapBlocks, k))];
      memory.Deallocate(b.addr, b.size);
      ok := true;
    }

    /** Gives back everything a task holds: heap blocks, program, stack. */
    method Unload(id: TaskId)
      requires Valid()
      modifies this, memory, memory.list
      ensures Valid() && View() == UnloadTask(old(View()), id)
    {
      hide Inv, ProgramAllocator.Valid, Owned, ReturnAll, Pending, Returned;
      if id !in tasks {
        return;
      }
      UnloadKeeps(View(), id);
      var t := tasks[id];
      ghost var l := Owned(t);
      StartPending(View(), id);
      tasks := tasks - {id};
      for k := 0 to |t.heapBlocks|
        invariant memory.Valid() && tasks == old(tasks) - {id}
        invariant Pending(memory.View(), l[k..])
        invariant ReturnAll(memory.View(), l[k..]) == ReturnAll(old(memory.View()), l)
      {
        var b := t.heapBlocks[k];
        OwnedAt(t, k);
        PendingStep(memory.View(), l[k..]);
        assert l[k..][1..] == l[k + 1..];
        memory.Deallocate(b.addr, b.size);
      }
      ghost var rest := l[|t.heapBlocks|..];
      OwnedRest(t);
      if t.program.Some? {
        PendingStep(memory.View(), rest);
        memory.Deallocate(t.program.value.addr, t.program.value.size);
        rest := rest[1..];
      }
      PendingStep(memory.View(), rest);
      memory.Deallocate(t.stack.addr, t.stack.size);
      ReturnNothing(memory.View());
      assert rest[1..] == [];
    }

    /** The task whose stack, program or heap block contains an address. */
    method FindTaskByProgramAddr(addr: nat) returns (r: Option<TaskId>)
      requires Valid()
      ensures r.Some? ==> r.value in tasks && Contains(tasks[r.value], addr)
      ensures r.None? ==> forall id :: id in tasks ==> !Contains(tasks[id], addr)
      ensures forall id :: id in tasks && Contains(tasks[id], addr) ==> r == Some(id)
    {
      ghost var s := View();
      var ids := tasks.Keys;
      while ids != {}
        invariant ids <= tasks.Keys
        invariant forall id :: id in tasks && id !in ids ==> !Contains(tasks[id], addr)
        decreases |ids|
      {
        var id :| id in ids;
        if Contains(tasks[id], addr) {
          forall other | other in tasks && Contains(tasks[other], addr)
            ensures other == id
          {
            ContainsUnique(s, id, other, addr);
          }
          return Some(id);
        }
        ids := ids - {id};
      }
      return None;
    }
  }

  lemma SpawnedOrNot(s: System, id: TaskId)
    requires id !in s.tasks
    ensures id in SpawnTask(s, id).tasks <==> Fits(s.region, Rounded(STACK_SIZE))
    ensures !Fits(s.region, Rounded(STACK_SIZE)) ==> SpawnTask(s, id) == s
  {
  }

  /** The new task may be given the program memory that was just loaded. */
  lemma AdoptLoaded(s: System, s1: System, id: TaskId, size: nat)
    requires Inv(s) && id !in s.tasks && Fits(s.region, Rounded(size))
    requires s1 == System(Acquired(s.region, Rounded(size)), s.tasks) && Fits(s1.region, Rounded(STACK_SIZE))
    ensures var s2, b := SpawnTask(s1, id), Chosen(s.region, Rounded(size));
      && id in s2.tasks
      && Inv(s2.(tasks := s2.tasks[id := s2.tasks[id].(program := Some(Block(b.addr, size)))]))
  {
    hide Inv, Acquired, Orphans, Owned, SpawnTask, Chosen;
    var s2, b := SpawnTask(s1, id), Chosen(s.region, Rounded(size));
    InvSound(s);
    AcquireGives(s.region, size);
    OrphanKeeps(s, s1.region, b);
    SpawnTaskKeeps(s1, id);
    SpawnedShape(s1, id);
    ProgramOwned(s2.tasks[id], Block(b.addr, size));
    AdoptKeeps(s2, id, s2.tasks[id].(program := Some(Block(b.addr, size))), b);
  }

  /** Whether an address lies in memory a task asked for. */
  predicate Contains(t: TaskAllocations, addr: nat) {
    || t.stack.Has(addr)
    || (t.program.Some? && t.program.value.Has(addr))
    || exists i :: 0 <= i < |t.heapBlocks| && t.heapBlocks[i].Has(addr)
  }

  lemma ContainsOwned(t: TaskAllocations, addr: nat) returns (i: nat)
    requires Contains(t, addr)
    ensures i < |Owned(t)| && Owned(t)[i].Has(addr)
  {
    if t.stack.Has(addr) {
      i := |Owned(t)| - 1;
    } else if t.program.Some? && t.program.value.Has(addr) {
      i := |t.heapBlocks|;
    } else {
      i :| 0 <= i < |t.heapBlocks| && t.heapBlocks[i].Has(addr);
    }
  }

  lemma ContainsUnique(s: System, id: TaskId, id': TaskId, addr: nat)
    requires Inv(s) && id in s.tasks && id' in s.tasks
    requires Contains(s.tasks[id], addr) && Contains(s.tasks[id'], addr)
    ensures id == id'
  {
    hide Inv, Owned;
    var i := ContainsOwned(s.tasks[id], addr);
    var j := ContainsOwned(s.tasks[id'], addr);
    if id != id' {
      HoldingsDisjoint(s, id, i, id', j);
      assert false;
    }
  }

  lemma OwnedAt(t: TaskAllocations, k: nat)
    requires k < |t.heapBlocks|
    ensures k < |Owned(t)| && Owned(t)[k] == Held(t.heapBlocks[k])
  {
  }

  lemma OwnedRest(t: TaskAllocations)
    ensures |t.heapBlocks| <= |Owned(t)|
    ensures Owned(t)[|t.heapBlocks|..] ==
            (if t.program.Some? then [Held(t.program.value)] else []) + [Held(t.stack)]
  {
  }

  lemma StartPending(s: System, id: TaskId)
    requires Inv(s) && id in s.tasks
    ensures Pending(s.region, Owned(s.tasks[id])[0..]) && Owned(s.tasks[id])[0..] == Owned(s.tasks[id])
    ensures |s.tasks[id].heapBlocks| <= |Owned(s.tasks[id])|
  {
    assert HoldsLive(s.tasks[id], s.region.live);
  }

  lemma ReturnNothing(p: Region)
    ensures ReturnAll(p, []) == p
  {
  }

  /** What is left of a list of blocks being given back. */
  ghost predicate Pending(p: Region, l: seq<Block>) {
    (forall b :: multiset(l)[b] <= 1) && (forall b :: b in l ==> b in p.live)
  }

  lemma PendingStep(p: Region, l: seq<Block>)
    requires Pending(p, l) && l != []
    ensures l[0] in p.live && Pending(Returned(p, l[0]), l[1..])
    ensures ReturnAll(Returned(p, l[0]), l[1..]) == ReturnAll(p, l)
  {
    TailDistinct(l);
  }

  lemma HeapBlockLive(s: System, id: TaskId, k: nat)
    requires Inv(s) && id in s.tasks && k < |s.tasks[id].heapBlocks|
    ensures Held(s.tasks[id].heapBlocks[k]) in s.region.live
  {
    var t := s.tasks[id];
    assert HoldsLive(t, s.region.live);
    assert Owned(t)[k] == Held(t.heapBlocks[k]);
    assert Owned(t)[k] in Owned(t);
  }

  method FindPosition(l: seq<Block>, ptr: nat) returns (k: nat)
    ensures k == Position(l, ptr)
  {
    k := 0;
    while k < |l| && l[k].addr != ptr
      invariant 0 <= k <= |l| && forall i :: 0 <= i < k ==> l[i].addr != ptr
    {
      k := k + 1;
    }
    PositionIs(l, ptr, k);
  }

  lemma {:induction false} PositionIs(l: seq<Block>, ptr: nat, k: nat)
    requires k <= |l| && (forall i :: 0 <= i < k ==> l[i].addr != ptr) && (k < |l| ==> l[k].addr == ptr)
    ensures Position(l, ptr) == k
  {
    if k > 0 {
      PositionIs(l[1..], ptr, k - 1);
    }
  }
}
