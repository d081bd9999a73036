/** The scheduler and the ownership registry together: tasks are created with memory, take and
    give back more while they run, and lose all of it when the scheduler reaps them
    (src/scheduler.rs, src/executable.rs, src/api.rs). */
module Kernel {
  import opened Blocks
  import opened ProgramMemory
  import S = Scheduler
  import SS = SchedulerSafety
  import O = Ownership

  datatype Kernel = Kernel(sched: S.Sched, memory: O.System)

  /** What happens: a task or a program is started, the running task takes or frees memory, or
      it gives way, sleeps or exits, or a tick passes. */
  datatype Event =
    | NewTask
    | Launch(size: nat, args: nat)
    | Alloc(size: nat)
    | Free(ptr: nat)
    | Schedule(e: S.Event)

  // ------------------------------------------------------------- operations

  predicate RoomForStack(s: O.System) {
    Fits(s.region, Rounded(O.STACK_SIZE))
  }

  function Spawn(k: Kernel): Kernel {
    Kernel(S.Spawn(k.sched, RoomForStack(k.memory)), O.SpawnTask(k.memory, k.sched.nextId))
  }

  function LaunchProgram(k: Kernel, size: nat, args: nat): Kernel {
    if !Fits(k.memory.region, Rounded(size)) then k
    else
      var loaded := O.System(Acquired(k.memory.region, Rounded(size)), k.memory.tasks);
      Kernel(S.Spawn(k.sched, RoomForStack(loaded)), O.SpawnProgram(k.memory, k.sched.nextId, size, args))
  }

  /** The reaper unloads each task it removes. */
  function UnloadAll(s: O.System, ids: seq<S.TaskId>): O.System
    decreases |ids|
  {
    if ids == [] then s else UnloadAll(O.UnloadTask(s, ids[0]), ids[1..])
  }

  predicate Acts(e: S.Event) {
    !e.NewTask?
  }

  function Step(k: Kernel, e: Event): Kernel
    requires k.sched.current < |k.sched.tasks| && (e.Schedule? ==> Acts(e.e))
  {
    match e
    case NewTask => if k.sched.waiting then k else Spawn(k)
    case Launch(size, args) => if k.sched.waiting then k else LaunchProgram(k, size, args)
    case Alloc(size) => if k.sched.waiting then k else k.(memory := O.TaskAlloc(k.memory, k.sched.cpu, size))
    case Free(ptr) => if k.sched.waiting then k else k.(memory := O.TaskFree(k.memory, k.sched.cpu, ptr))
    case Schedule(a) =>
      var r := S.Step(k.sched, a);
      var n := |k.sched.unloaded|;
      Kernel(r, UnloadAll(k.memory, if n <= |r.unloaded| then r.unloaded[n..] else []))
  }

  // ---------------------------------------------------------- the invariant

  /** Exactly the tasks in the scheduler's list are registered. */
  ghost predicate Same(k: Kernel) {
    forall id :: id in k.memory.tasks <==> SS.HasId(k.sched.tasks, id)
  }

  ghost predicate Inv(k: Kernel, clock: nat) {
    SS.Inv(k.sched, clock) && O.Inv(k.memory) && Same(k)
  }

  // --------------------------------------------------- what the reaper removes

  lemma PrepareIds(s: S.Sched, now: nat, id: S.TaskId)
    requires s.current < |s.tasks|
    ensures SS.HasId(S.Prepare(s, now).tasks, id) ==> SS.HasId(s.tasks, id)
    ensures s.unloaded <= S.Prepare(s, now).unloaded
  {
    hide S.Keep, S.FinishedCount, S.FinishedIds, S.Wake, SS.HasId;
    SS.SameIds(s.tasks, S.Wake(s.tasks, now));
    KeepIds(S.Wake(s.tasks, now), id);
  }

  lemma KeepIds(l: seq<S.Task>, id: S.TaskId)
    ensures SS.HasId(S.Keep(l), id) ==> SS.HasId(l, id)
  {
    hide S.Keep;
    if SS.HasId(S.Keep(l), id) {
      var i :| 0 <= i < |S.Keep(l)| && S.Keep(l)[i].id == id;
      assert S.Keep(l)[i] in S.Keep(l) && S.Keep(l)[i] in l;
    }
  }

  lemma SwitchIds(s: S.Sched, id: S.TaskId)
    requires s.current < |s.tasks|
    ensures SS.HasId(S.TrySwitch(s).tasks, id) <==> SS.HasId(s.tasks, id)
    ensures S.TrySwitch(s).unloaded == s.unloaded
  {
    hide S.FindNextReady, SS.HasId;
    SS.NextIsReady(s);
    SS.SameIds(s.tasks, S.TrySwitch(s).tasks);
  }

  lemma RequestIds(s: S.Sched, e: S.Event, id: S.TaskId)
    requires s.current < |s.tasks|
    ensures SS.HasId(S.Request(s, e).tasks, id) <==> SS.HasId(s.tasks, id)
    ensures S.Request(s, e).unloaded == s.unloaded && S.Request(s, e).nextId == s.nextId
  {
    hide SS.HasId;
    SS.SameIds(s.tasks, S.Request(s, e).tasks);
  }

  lemma StepIds(s: S.Sched, e: S.Event, id: S.TaskId)
    requires s.current < |s.tasks| && Acts(e)
    ensures SS.HasId(S.Step(s, e).tasks, id) ==> SS.HasId(s.tasks, id)
    ensures s.unloaded <= S.Step(s, e).unloaded
  {
    hide S.Request, S.Prepare, S.TrySwitch, S.Wake, SS.HasId;
    if e.Tick? {
      SS.SameIds(s.tasks, S.Wake(s.tasks, e.now));
      SwitchIds(s.(tasks := S.Wake(s.tasks, e.now)), id);
    } else if !s.waiting {
      RequestIds(s, e, id);
      SS.RequestInRange(s, e);
      PrepareIds(S.Request(s, e), e.now, id);
      var p := S.Prepare(S.Request(s, e), e.now);
      if p.current < |p.tasks| {
        SwitchIds(p, id);
      }
    }
  }

  /** A step of the scheduler removes exactly the tasks it unloads. */
  lemma StepRemoves(s: S.Sched, e: S.Event, clock: nat, id: S.TaskId)
    requires SS.Inv(s, clock) && Acts(e) && clock <= SS.Clock(e, clock)
    ensures s.current < |s.tasks| && s.unloaded <= S.Step(s, e).unloaded
    ensures SS.HasId(S.Step(s, e).tasks, id) <==>
            SS.HasId(s.tasks, id) && id !in S.Step(s, e).unloaded[|s.unloaded|..]
  {
    hide S.Step, SS.HasId, SS.Inv;
    SS.CurrentInRange(s, clock);
    StepIds(s, e, id);
    var r := S.Step(s, e);
    SS.StepKeeps(s, e, clock);
    UnloadedAreGone(r, SS.Clock(e, clock));
    UnloadedAreGone(s, clock);
    assert r.unloaded == s.unloaded + r.unloaded[|s.unloaded|..];
    if SS.HasId(s.tasks, id) && !SS.HasId(r.tasks, id) {
      var i := IndexOf(s.tasks, id);
      SS.GoneMeansUnloaded(s, e, i, clock);
    }
  }

  lemma IndexOf(l: seq<S.Task>, id: S.TaskId) returns (i: nat)
    requires SS.HasId(l, id)
    ensures i < |l| && l[i].id == id
  {
    i :| 0 <= i < |l| && l[i].id == id;
  }

  lemma UnloadedAreGone(s: S.Sched, clock: nat)
    requires SS.Inv(s, clock)
    ensures forall id :: id in s.unloaded ==> !SS.HasId(s.tasks, id)
  {
    hide SS.HasId, SS.Contexts, SS.Rested;
  }

  lemma {:induction false} UnloadAllKeeps(s: O.System, ids: seq<S.TaskId>)
    requires O.Inv(s)
    ensures var r := UnloadAll(s, ids);
      && O.Inv(r) && O.Orphans(r) == O.Orphans(s)
      && forall id :: id in r.tasks <==> id in s.tasks && id !in ids
    decreases |ids|
  {
    hide O.Inv, O.Orphans;
    if ids != [] {
      O.UnloadKeeps(s, ids[0]);
      UnloadAllKeeps(O.UnloadTask(s, ids[0]), ids[1..]);
    }
  }

  // ------------------------------------------------------------- each event

  lemma SpawnSame(k: Kernel, clock: nat, stackOk: bool, memory: O.System)
    requires Inv(k, clock) && !k.sched.waiting && O.Inv(memory)
    requires forall id :: id in memory.tasks <==> id in k.memory.tasks || (stackOk && id == k.sched.nextId)
    ensures Inv(Kernel(S.Spawn(k.sched, stackOk), memory), clock)
  {
    hide SS.Inv, O.Inv, SS.HasId;
    SS.SpawnKeeps(k.sched, stackOk, clock);
    forall id
      ensures SS.HasId(S.Spawn(k.sched, stackOk).tasks, id) <==>
              SS.HasId(k.sched.tasks, id) || (stackOk && id == k.sched.nextId)
    {
      SpawnedIds(k.sched, stackOk, id);
    }
  }

  lemma SpawnedIds(s: S.Sched, stackOk: bool, id: S.TaskId)
    ensures SS.HasId(S.Spawn(s, stackOk).tasks, id) <==> SS.HasId(s.tasks, id) || (stackOk && id == s.nextId)
  {
    var r := S.Spawn(s, stackOk);
    if SS.HasId(s.tasks, id) {
      var i :| 0 <= i < |s.tasks| && s.tasks[i].id == id;
      assert r.tasks[i].id == id;
    }
    if stackOk {
      assert r.tasks[|s.tasks|].id == s.nextId;
    }
  }

  lemma NextIdIsNew(s: S.Sched, clock: nat)
    requires SS.Inv(s, clock)
    ensures !SS.HasId(s.tasks, s.nextId)
  {
  }

  lemma RunningIsRegistered(k: Kernel, clock: nat)
    requires Inv(k, clock)
    ensures k.sched.cpu in k.memory.tasks
  {
    hide SS.Rested, SS.Registered, O.Inv;
    SS.HasIdAt(k.sched.tasks, k.sched.current);
  }

  function Clock(e: Event, clock: nat): nat {
    if e.Schedule? then SS.Clock(e.e, clock) else clock
  }

  /** The memory an event takes for good: that of a program for which there is no stack. */
  ghost predicate Leaks(k: Kernel, e: Event) {
    e.Launch? && !k.sched.waiting && O.SpawnLeaks(k.memory, e.size)
  }

  lemma SpawnStep(k: Kernel, clock: nat)
    requires Inv(k, clock) && !k.sched.waiting
    ensures Inv(Spawn(k), clock) && O.Orphans(Spawn(k).memory) == O.Orphans(k.memory)
  {
    hide SS.Inv, O.Inv, SS.HasId, O.Orphans, Acquired;
    var id := k.sched.nextId;
    NextIdIsNew(k.sched, clock);
    O.SpawnTaskKeeps(k.memory, id);
    O.SpawnedOrNot(k.memory, id);
    SpawnSame(k, clock, RoomForStack(k.memory), O.SpawnTask(k.memory, id));
  }

  lemma ProgramTasks(s: O.System, id: O.TaskId, size: nat, args: nat)
    requires Fits(s.region, Rounded(size)) && id !in s.tasks
    ensures var loaded := O.System(Acquired(s.region, Rounded(size)), s.tasks);
      forall j :: j in O.SpawnProgram(s, id, size, args).tasks <==> j in s.tasks || (RoomForStack(loaded) && j == id)
  {
    hide Acquired, Chosen, Fits;
  }

  lemma LaunchStep(k: Kernel, size: nat, args: nat, clock: nat)
    requires Inv(k, clock) && !k.sched.waiting
    ensures var r := LaunchProgram(k, size, args);
      && Inv(r, clock) && O.Orphans(k.memory) <= O.Orphans(r.memory)
      && (O.Orphans(r.memory) != O.Orphans(k.memory) <==> O.SpawnLeaks(k.memory, size))
  {
    hide SS.Inv, O.Inv, SS.HasId, O.Orphans, O.SpawnProgram, Acquired, Fits;
    var id := k.sched.nextId;
    NextIdIsNew(k.sched, clock);
    O.StepKeeps(k.memory, O.Load(id, size, args));
    if Fits(k.memory.region, Rounded(size)) {
      var loaded := O.System(Acquired(k.memory.region, Rounded(size)), k.memory.tasks);
      ProgramTasks(k.memory, id, size, args);
      SpawnSame(k, clock, RoomForStack(loaded), O.SpawnProgram(k.memory, id, size, args));
    }
  }

  lemma MemoryStep(k: Kernel, e: Event, clock: nat)
    requires Inv(k, clock) && !k.sched.waiting && (e.Alloc? || e.Free?)
    ensures Inv(Step(k, e), clock) && O.Orphans(Step(k, e).memory) == O.Orphans(k.memory)
  {
    hide SS.Inv, O.Inv, SS.HasId, O.Orphans, Acquired, Chosen, Fits, O.Position, Returned;
    RunningIsRegistered(k, clock);
    if e.Alloc? {
      O.TaskAllocKeeps(k.memory, k.sched.cpu, e.size);
    } else {
      O.TaskFreeKeeps(k.memory, k.sched.cpu, e.ptr);
    }
  }

  lemma ScheduleStep(k: Kernel, e: S.Event, clock: nat)
    requires Inv(k, clock) && Acts(e) && clock <= SS.Clock(e, clock)
    ensures k.sched.current < |k.sched.tasks|
    ensures var r := Step(k, Schedule(e));
      Inv(r, SS.Clock(e, clock)) && O.Orphans(r.memory) == O.Orphans(k.memory)
  {
    hide S.Step, SS.Inv, O.Inv, SS.HasId, O.Orphans, UnloadAll;
    SS.CurrentInRange(k.sched, clock);
    SS.StepKeeps(k.sched, e, clock);
    var r := S.Step(k.sched, e);
    StepRemoves(k.sched, e, clock, 0);
    var gone := r.unloaded[|k.sched.unloaded|..];
    UnloadAllKeeps(k.memory, gone);
    forall id
      ensures id in UnloadAll(k.memory, gone).tasks <==> SS.HasId(r.tasks, id)
    {
      StepRemoves(k.sched, e, clock, id);
    }
  }

  /** Every event keeps registry and task list together, and leaks exactly when a program is
      loaded for which there is no stack. */
  lemma StepKeeps(k: Kernel, e: Event, clock: nat)
    requires Inv(k, clock) && clock <= Clock(e, clock) && (e.Schedule? ==> Acts(e.e))
    ensures k.sched.current < |k.sched.tasks|
    ensures var r := Step(k, e);
      && Inv(r, Clock(e, clock)) && O.Orphans(k.memory) <= O.Orphans(r.memory)
      && (O.Orphans(r.memory) != O.Orphans(k.memory) <==> Leaks(k, e))
  {
    hide S.Step, SS.Inv, O.Inv, Same, O.Orphans, UnloadAll, Spawn, LaunchProgram, Acquired, Fits;
    SS.CurrentInRange(k.sched, clock);
    match e
    case Schedule(a) => ScheduleStep(k, a, clock);
    case NewTask =>
      if !k.sched.waiting {
        SpawnStep(k, clock);
      }
    case Launch(size, args) =>
      if !k.sched.waiting {
        LaunchStep(k, size, args, clock);
      }
    case _ =>
      if !k.sched.waiting {
        MemoryStep(k, e, clock);
      }
  }

  // ------------------------------------------------------------- whole runs

  /** Time does not run backwards, and tasks are created through the kernel. */
  predicate Monotone(events: seq<Event>, clock: nat)
    decreases |events|
  {
    events != [] ==>
      && clock <= Clock(events[0], clock) && (events[0].Schedule? ==> Acts(events[0].e))
      && Monotone(events[1..], Clock(events[0], clock))
  }

  function Run(k: Kernel, events: seq<Event>): Kernel
    decreases |events|
  {
    if events == [] || k.sched.current >= |k.sched.tasks| || (events[0].Schedule? && !Acts(events[0].e)) then k
    else Run(Step(k, events[0]), events[1..])
  }

  function LastTick(events: seq<Event>, clock: nat): nat
    decreases |events|
  {
    if events == [] then clock else LastTick(events[1..], Clock(events[0], clock))
  }

  ghost predicate EverLeaks(k: Kernel, events: seq<Event>)
    decreases |events|
  {
    events != [] && k.sched.current < |k.sched.tasks| && (events[0].Schedule? ==> Acts(events[0].e))
    && (Leaks(k, events[0]) || EverLeaks(Step(k, events[0]), events[1..]))
  }

  lemma {:induction false} RunKeeps(k: Kernel, events: seq<Event>, clock: nat)
    requires Inv(k, clock) && Monotone(events, clock)
    ensures Inv(Run(k, events), LastTick(events, clock))
    ensures O.Orphans(k.memory) <= O.Orphans(Run(k, events).memory)
    ensures O.Orphans(Run(k, events).memory) != O.Orphans(k.memory) <==> EverLeaks(k, events)
    decreases |events|
  {
    hide Inv, Step, O.Orphans, Leaks, Clock;
    if events != [] {
      StepKeeps(k, events[0], clock);
      RunKeeps(Step(k, events[0]), events[1..], Clock(events[0], clock));
    }
  }

  // ------------------------------------------------------------------- boot

  /** Tasks spawned before the scheduler starts, as far as there is room for their stacks. */
  function Boot(n: nat): Kernel {
    if n == 0 then Kernel(S.Sched([], 0, 0, 0, false, []), O.BOOT) else Spawn(Boot(n - 1))
  }

  ghost predicate Seeded(k: Kernel) {
    && k.sched.current == 0 && !k.sched.waiting && k.sched.unloaded == []
    && SS.Increasing(k.sched.tasks)
    && (forall i :: 0 <= i < |k.sched.tasks| ==>
          k.sched.tasks[i].id < k.sched.nextId
          && k.sched.tasks[i] == S.Task(k.sched.tasks[i].id, S.Ready, 0, k.sched.tasks[i].id))
    && O.Inv(k.memory) && Same(k) && O.Orphans(k.memory) == {}
  }

  lemma SpawnSeeded(k: Kernel)
    requires Seeded(k)
    ensures Seeded(Spawn(k))
  {
    hide O.Inv, O.Orphans, O.SpawnTask, SS.HasId;
    var id := k.sched.nextId;
    NotListed(k.sched.tasks, id);
    O.SpawnTaskKeeps(k.memory, id);
    O.SpawnedOrNot(k.memory, id);
    SpawnTaskAdds(k.memory, id);
    forall j
      ensures SS.HasId(Spawn(k).sched.tasks, j) <==> j in Spawn(k).memory.tasks
    {
      SpawnedIds(k.sched, RoomForStack(k.memory), j);
    }
  }

  lemma SpawnTaskAdds(s: O.System, id: O.TaskId)
    ensures forall j :: j in O.SpawnTask(s, id).tasks <==> j in s.tasks || (RoomForStack(s) && j == id)
  {
    hide Acquired, Fits;
  }

  lemma NotListed(l: seq<S.Task>, id: S.TaskId)
    requires forall i :: 0 <= i < |l| ==> l[i].id < id
    ensures !SS.HasId(l, id)
  {
  }

  lemma {:induction false} BootSeeded(n: nat)
    ensures Seeded(Boot(n)) && (n > 0 ==> Boot(n).sched.tasks != [])
  {
    hide Seeded, Spawn;
    if n == 0 {
      NothingSeeded();
    } else {
      BootSeeded(n - 1);
      SpawnSeeded(Boot(n - 1));
      if n == 1 {
        FirstFits();
      } else {
        SpawnGrows(Boot(n - 1));
      }
    }
  }

  lemma NothingSeeded()
    ensures Seeded(Boot(0))
  {
    O.BootInv();
  }

  lemma FirstFits()
    ensures Spawn(Boot(0)).sched.tasks != []
  {
    assert RoomForStack(O.BOOT);
  }

  lemma SpawnGrows(k: Kernel)
    ensures |Spawn(k).sched.tasks| >= |k.sched.tasks|
  {
  }

  lemma StartInv(k: Kernel)
    requires Seeded(k) && k.sched.tasks != []
    ensures Inv(k.(sched := S.Start(k.sched)), 0)
  {
    hide O.Inv, O.Orphans;
    var r := S.Start(k.sched);
    SS.SameIds(k.sched.tasks, r.tasks);
  }

  /** In every run of the kernel a block is live if and only if a task in the scheduler's list
      holds it or it leaked; exactly the listed tasks are registered; the list is never empty,
      since the last task is never reaped, and so the region is never whole again; and blocks
      leak exactly when a program is loaded for which there is no stack. */
  lemma MemoryFollowsTasks(n: nat, events: seq<Event>)
    requires n > 0 && Monotone(events, 0)
    ensures Boot(n).sched.tasks != []
    ensures var start := Boot(n).(sched := S.Start(Boot(n).sched)); var k := Run(start, events);
      && k.sched.tasks != [] && O.Inv(k.memory) && Same(k)
      && (forall b :: b in k.memory.region.live <==> O.Registered(k.memory, b) || b in O.Orphans(k.memory))
      && (O.Orphans(k.memory) == {} <==> !EverLeaks(start, events))
      && k.memory.region.free != [Block(REGION_START, REGION_SIZE)]
  {
    hide Run, LastTick, Boot, O.Inv, SS.Inv, Monotone, EverLeaks, Same, O.Registered, S.Start;
    BootSeeded(n);
    var start := Boot(n).(sched := S.Start(Boot(n).sched));
    StartInv(Boot(n));
    SeededClean(Boot(n));
    RunKeeps(start, events, 0);
    var k := Run(start, events);
    SS.CurrentInRange(k.sched, LastTick(events, 0));
    forall b
      ensures b in k.memory.region.live <==> O.Registered(k.memory, b) || b in O.Orphans(k.memory)
    {
      RegisteredIsLive(k.memory, b);
    }
    var id := k.sched.tasks[k.sched.current].id;
    SS.HasIdAt(k.sched.tasks, k.sched.current);
    ListedHoldsStack(k, id);
    O.InvSound(k.memory);
    O.WholeMeansNothingLive(k.memory.region);
  }

  lemma ListedHoldsStack(k: Kernel, id: S.TaskId)
    requires O.Inv(k.memory) && Same(k) && SS.HasId(k.sched.tasks, id)
    ensures k.memory.region.live != {}
  {
    hide Sound;
    var t := k.memory.tasks[id];
    assert O.HoldsLive(t, k.memory.region.live);
    assert O.Held(t.stack) in O.Owned(t);
  }

  lemma SeededClean(k: Kernel)
    requires Seeded(k)
    ensures O.Orphans(k.memory) == {}
  {
    hide O.Inv, O.Orphans, Same;
  }

  lemma RegisteredIsLive(s: O.System, b: Block)
    requires O.Inv(s)
    ensures O.Registered(s, b) ==> b in s.region.live
  {
    hide O.Owned, Sound;
    if O.Registered(s, b) {
      var id :| id in s.tasks && b in O.Owned(s.tasks[id]);
      assert O.HoldsLive(s.tasks[id], s.region.live);
    }
  }

  /** Once all tasks but one have been reaped, in a run without leaks, the live blocks are
      those of that task: everything else of the region has come back. */
  lemma OneTaskLeft(n: nat, events: seq<Event>)
    requires n > 0 && Monotone(events, 0)
    ensures Boot(n).sched.tasks != []
    ensures var start := Boot(n).(sched := S.Start(Boot(n).sched)); var k := Run(start, events);
      |k.sched.tasks| == 1 && !EverLeaks(start, events) ==>
        && k.sched.tasks[0].id in k.memory.tasks
        && k.memory.region.live == set b | b in O.Owned(k.memory.tasks[k.sched.tasks[0].id])
  {
    hide Run, Boot, O.Inv, Monotone, EverLeaks, O.Orphans, S.Start, O.Owned;
    MemoryFollowsTasks(n, events);
    var start := Boot(n).(sched := S.Start(Boot(n).sched));
    var k := Run(start, events);
    if |k.sched.tasks| == 1 && !EverLeaks(start, events) {
      var id := k.sched.tasks[0].id;
      SS.HasIdAt(k.sched.tasks, 0);
      assert forall j :: j in k.memory.tasks ==> j == id;
      forall b
        ensures b in k.memory.region.live <==> b in O.Owned(k.memory.tasks[id])
      {
        assert b !in O.Orphans(k.memory);
      }
    }
  }
}
