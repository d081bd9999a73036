/** Safety of the scheduler over every run. */
module SchedulerSafety {
  import opened Scheduler

  // ------------------------------------------------------ the task list

  ghost predicate Increasing(l: seq<Task>) {
    forall i, j :: 0 <= i < j < |l| ==> l[i].id < l[j].id
  }

  ghost predicate HasId(l: seq<Task>, id: TaskId) {
    exists i :: 0 <= i < |l| && l[i].id == id
  }

  lemma {:induction false} KeepAt(l: seq<Task>, i: nat)
    requires i < |l| && l[i].state != Finished
    ensures var r := i - FinishedCount(l[..i]); 0 <= r < |Keep(l)| && Keep(l)[r] == l[i]
  {
    if i > 0 {
      KeepAt(l[1..], i - 1);
      assert l[..i][1..] == l[1..][..i - 1];
    }
  }

  lemma {:induction false} KeepIncreasing(l: seq<Task>)
    requires Increasing(l)
    ensures Increasing(Keep(l))
  {
    if l != [] {
      var k := Keep(l[1..]);
      KeepIncreasing(l[1..]);
      forall j | 0 <= j < |k|
        ensures l[0].id < k[j].id
      {
        assert k[j] in l[1..];
      }
    }
  }

  lemma {:induction false} FinishedIdsAre(l: seq<Task>, id: TaskId)
    ensures id in FinishedIds(l) <==> exists t :: t in l && t.state == Finished && t.id == id
  {
    if l != [] {
      FinishedIdsAre(l[1..], id);
      assert l == [l[0]] + l[1..];
    }
  }

  ghost predicate Distinct(ids: seq<TaskId>) {
    forall i, j :: 0 <= i < j < |ids| ==> ids[i] != ids[j]
  }

  lemma {:induction false} FinishedIdsDistinct(l: seq<Task>)
    requires Increasing(l)
    ensures Distinct(FinishedIds(l))
  {
    if l != [] {
      FinishedIdsDistinct(l[1..]);
      FinishedIdsAre(l[1..], l[0].id);
    }
  }

  // ---------------------------------------------------------- the invariant

  ghost predicate Registered(s: Sched) {
    && Increasing(s.tasks)
    && (forall i :: 0 <= i < |s.tasks| ==> s.tasks[i].id < s.nextId)
    && Distinct(s.unloaded)
    && (forall i :: 0 <= i < |s.unloaded| ==> s.unloaded[i] < s.nextId && !HasId(s.tasks, s.unloaded[i]))
  }

  /** The processor runs the current task; every other slot holds its own task's context. */
  ghost predicate Contexts(s: Sched) {
    && s.current < |s.tasks|
    && s.cpu == s.tasks[s.current].id
    && forall i :: 0 <= i < |s.tasks| && i != s.current ==> s.tasks[i].context == s.tasks[i].id
  }

  /** No task that is ready or running has a wake tick in the future. */
  ghost predicate Rested(s: Sched, clock: nat) {
    forall i :: 0 <= i < |s.tasks| && s.tasks[i].state in {Ready, Running} ==> s.tasks[i].wakeAt <= clock
  }

  ghost predicate NoneRunning(s: Sched) {
    forall i :: 0 <= i < |s.tasks| ==> s.tasks[i].state != Running
  }

  ghost predicate NoneReady(s: Sched) {
    forall i :: 0 <= i < |s.tasks| ==> s.tasks[i].state != Ready
  }

  ghost predicate OnlyCurrentRuns(s: Sched) {
    s.current < |s.tasks| && forall i :: 0 <= i < |s.tasks| ==> (s.tasks[i].state == Running <==> i == s.current)
  }

  /** What holds inside `schedule`, between the request and the switch. */
  ghost predicate Between(s: Sched, clock: nat) {
    Registered(s) && Contexts(s) && Rested(s, clock) && NoneRunning(s)
  }

  ghost predicate Inv(s: Sched, clock: nat) {
    && Registered(s) && Contexts(s) && Rested(s, clock)
    && (if s.waiting then NoneRunning(s) && NoneReady(s) else OnlyCurrentRuns(s))
  }

  lemma RequestKeeps(s: Sched, e: Event, clock: nat)
    requires Inv(s, clock) && !s.waiting && (e.Yield? || e.Sleep? || e.Exit?)
    ensures Between(Request(s, e), clock)
  {
    var r := Request(s, e);
    assert forall i :: 0 <= i < |s.tasks| ==>
      r.tasks[i].id == s.tasks[i].id && r.tasks[i].context == s.tasks[i].context;
    SameIds(s.tasks, r.tasks);
  }

  lemma SameIds(l: seq<Task>, m: seq<Task>)
    requires |l| == |m| && forall i :: 0 <= i < |l| ==> m[i].id == l[i].id
    ensures forall id :: HasId(l, id) <==> HasId(m, id)
  {
    forall id
      ensures HasId(l, id) <==> HasId(m, id)
    {
      if HasId(l, id) {
        var i :| 0 <= i < |l| && l[i].id == id;
        assert m[i].id == id;
      }
    }
  }

  lemma WakeKeeps(s: Sched, now: nat, clock: nat)
    requires Between(s, clock) && clock <= now
    ensures Between(s.(tasks := Wake(s.tasks, now)), now)
  {
    hide Wake;
    var w := Wake(s.tasks, now);
    assert forall i :: 0 <= i < |w| ==> w[i].id == s.tasks[i].id && w[i].context == s.tasks[i].context;
    SameIds(s.tasks, w);
  }

  /** Reaping removes tasks other than the current one; `current` follows it. */
  lemma ReapKeepsCurrent(s: Sched)
    requires s.current < |s.tasks| && !CurrentFinished(s)
    ensures var r := Reap(s);
      && r.current < |r.tasks|
      && r.tasks[r.current] == s.tasks[s.current]
      && r.current == s.current - FinishedCount(s.tasks[..s.current])
  {
    hide Keep, FinishedCount, FinishedIds;
    KeepAt(s.tasks, s.current);
  }

  /** The search always starts from a task in the list. */
  lemma PrepareInRange(s: Sched, now: nat)
    requires s.current < |s.tasks|
    ensures Prepare(s, now).current < |Prepare(s, now).tasks|
  {
    hide Reap, FinishedCount, Wake;
    var woken := s.(tasks := Wake(s.tasks, now));
    if !CurrentFinished(woken) {
      ReapKeepsCurrent(woken);
    }
  }

  lemma ReapKeepsRegistered(s: Sched)
    requires Registered(s) && s.current <= |s.tasks|
    ensures Registered(Reap(s))
  {
    hide Keep, FinishedCount, FinishedIds;
    var r := Reap(s);
    KeepIncreasing(s.tasks);
    FinishedIdsDistinct(s.tasks);
    forall i | 0 <= i < |r.tasks|
      ensures r.tasks[i].id < s.nextId
    {
      assert r.tasks[i] in s.tasks;
    }
    forall id: TaskId
      ensures HasId(r.tasks, id) ==> HasId(s.tasks, id) && id !in FinishedIds(s.tasks)
      ensures id in FinishedIds(s.tasks) ==> id < s.nextId && HasId(s.tasks, id)
    {
      FinishedIdsAre(s.tasks, id);
      KeptIsUnfinished(s.tasks, id);
    }
    UnloadedAppend(s, r);
  }

  lemma KeptIsUnfinished(l: seq<Task>, id: TaskId)
    requires Increasing(l)
    ensures HasId(Keep(l), id) ==> HasId(l, id) && forall t :: t in l && t.id == id ==> t.state != Finished
  {
    hide Keep;
    if HasId(Keep(l), id) {
      var i :| 0 <= i < |Keep(l)| && Keep(l)[i].id == id;
      assert Keep(l)[i] in Keep(l);
      var k :| 0 <= k < |l| && l[k] == Keep(l)[i];
      forall t | t in l && t.id == id
        ensures t.state != Finished
      {
        var j :| 0 <= j < |l| && l[j] == t;
        assert j == k;
      }
    }
  }

  lemma UnloadedAppend(s: Sched, r: Sched)
    requires Registered(s) && Distinct(FinishedIds(s.tasks)) && r.unloaded == s.unloaded + FinishedIds(s.tasks)
    requires forall id: TaskId :: HasId(r.tasks, id) ==> HasId(s.tasks, id) && id !in FinishedIds(s.tasks)
    requires forall id: TaskId :: id in FinishedIds(s.tasks) ==> id < s.nextId && HasId(s.tasks, id)
    ensures Distinct(r.unloaded)
    ensures forall i :: 0 <= i < |r.unloaded| ==> r.unloaded[i] < s.nextId && !HasId(r.tasks, r.unloaded[i])
  {
    hide FinishedIds, HasId;
    var f := FinishedIds(s.tasks);
    forall i | 0 <= i < |r.unloaded|
      ensures r.unloaded[i] < s.nextId && !HasId(r.tasks, r.unloaded[i])
    {
      if i >= |s.unloaded| {
        assert r.unloaded[i] == f[i - |s.unloaded|];
        assert r.unloaded[i] in f;
      }
    }
    forall i, j | 0 <= i < j < |r.unloaded|
      ensures r.unloaded[i] != r.unloaded[j]
    {
      if j >= |s.unloaded| {
        assert r.unloaded[j] == f[j - |s.unloaded|];
        assert r.unloaded[j] in f;
      }
      if i >= |s.unloaded| {
        assert r.unloaded[i] == f[i - |s.unloaded|];
      }
    }
  }

  lemma ReapKeeps(s: Sched, clock: nat)
    requires Between(s, clock) && !CurrentFinished(s)
    ensures Between(Reap(s), clock)
  {
    hide Keep, FinishedCount, FinishedIds, Registered;
    ReapKeepsCurrent(s);
    ReapKeepsRegistered(s);
    var r := Reap(s);
    IncreasingTasks(r);
    forall i | 0 <= i < |r.tasks|
      ensures r.tasks[i].state in {Ready, Running} ==> r.tasks[i].wakeAt <= clock
      ensures r.tasks[i].state != Running
      ensures i != r.current ==> r.tasks[i].context == r.tasks[i].id
    {
      assert r.tasks[i] in s.tasks;
      var k :| 0 <= k < |s.tasks| && s.tasks[k] == r.tasks[i];
      if i != r.current {
        assert k != s.current;
      }
    }
  }

  lemma IncreasingTasks(s: Sched)
    requires Registered(s)
    ensures forall i, j :: 0 <= i < |s.tasks| && 0 <= j < |s.tasks| && i != j ==> s.tasks[i].id != s.tasks[j].id
  {
  }

  lemma NextIsReady(s: Sched)
    ensures var r := FindNextReady(s);
      r.Some? ==> r.value < |s.tasks| && s.tasks[r.value].state == Ready
  {
    hide NextReady;
  }

  lemma AroundIs(current: nat, d: nat, len: nat)
    requires current < len && d <= len
    ensures Around(current, d, len) == if current + d < len then current + d else current + d - len
  {
  }

  /** The search goes once around: if it finds nothing, nothing is ready. */
  lemma SearchIsComplete(s: Sched)
    requires s.current < |s.tasks| && FindNextReady(s).None?
    ensures NoneReady(s)
  {
    hide NextReady, Around;
    var len := |s.tasks|;
    forall i | 0 <= i < len
      ensures s.tasks[i].state != Ready
    {
      var d := if i > s.current then i - s.current else i + len - s.current;
      AroundIs(s.current, d, len);
      assert s.tasks[Around(s.current, d, len)].state != Ready;
    }
  }

  lemma SwitchKeeps(s: Sched, next: nat, clock: nat)
    requires Between(s, clock) && next < |s.tasks| && s.tasks[next].state == Ready
    ensures Inv(Switch(s, next), clock) && !Switch(s, next).waiting
  {
    var r := Switch(s, next);
    assert forall i :: 0 <= i < |s.tasks| ==> r.tasks[i].id == s.tasks[i].id;
    SameIds(s.tasks, r.tasks);
  }

  lemma TrySwitchKeeps(s: Sched, clock: nat)
    requires Between(s, clock)
    ensures Inv(TrySwitch(s), clock)
  {
    hide FindNextReady, Switch, Registered;
    NextIsReady(s);
    var r := FindNextReady(s);
    if r.Some? {
      SwitchKeeps(s, r.value, clock);
    } else {
      WaitingRegistered(s);
      SearchIsComplete(s);
    }
  }

  lemma WaitingRegistered(s: Sched)
    requires Registered(s)
    ensures Registered(s.(waiting := true))
  {
  }

  lemma PrepareKeeps(s: Sched, now: nat, clock: nat)
    requires Between(s, clock) && clock <= now
    ensures Between(Prepare(s, now), now)
  {
    hide Wake, Reap, FinishedCount, Registered;
    WakeKeeps(s, now, clock);
    var woken := s.(tasks := Wake(s.tasks, now));
    if !CurrentFinished(woken) {
      ReapKeeps(woken, now);
    }
  }

  lemma SpawnKeeps(s: Sched, stackOk: bool, clock: nat)
    requires Inv(s, clock) && !s.waiting
    ensures Inv(Spawn(s, stackOk), clock)
  {
    var r := Spawn(s, stackOk);
    forall i | 0 <= i < |r.unloaded|
      ensures !HasId(r.tasks, r.unloaded[i])
    {
      assert !HasId(s.tasks, s.unloaded[i]);
      assert forall k :: 0 <= k < |s.tasks| ==> s.tasks[k].id != s.unloaded[i];
    }
  }

  function Clock(e: Event, clock: nat): nat {
    if e.NewTask? then clock else e.now
  }

  lemma StepKeeps(s: Sched, e: Event, clock: nat)
    requires Inv(s, clock) && clock <= Clock(e, clock)
    ensures Inv(Step(s, e), Clock(e, clock))
  {
    hide Registered, Rested, Request, Prepare, TrySwitch, Wake, Spawn;
    IdleKeeps(s, clock, Clock(e, clock));
    match e
    case NewTask(stackOk) =>
      if !s.waiting {
        SpawnKeeps(s, stackOk, clock);
      }
    case Tick(now) =>
      if s.waiting {
        WakeKeeps(s, now, clock);
        TrySwitchKeeps(s.(tasks := Wake(s.tasks, now)), now);
      }
    case _ =>
      if !s.waiting {
        RequestKeeps(s, e, clock);
        PrepareKeeps(Request(s, e), e.now, clock);
        TrySwitchKeeps(Prepare(Request(s, e), e.now), e.now);
      }
  }

  lemma IdleKeeps(s: Sched, clock: nat, later: nat)
    requires Inv(s, clock) && clock <= later
    ensures Inv(s, later)
  {
  }

  // ------------------------------------------------------------- whole runs

  /** The clock never runs backwards. */
  predicate Monotone(events: seq<Event>, clock: nat)
    decreases |events|
  {
    events != [] ==> clock <= Clock(events[0], clock) && Monotone(events[1..], Clock(events[0], clock))
  }

  ghost function Run(s: Sched, events: seq<Event>): Sched
    decreases |events|
  {
    if events == [] || s.current >= |s.tasks| then s else Run(Step(s, events[0]), events[1..])
  }

  function LastTick(events: seq<Event>, clock: nat): nat
    decreases |events|
  {
    if events == [] then clock else LastTick(events[1..], Clock(events[0], clock))
  }

  lemma {:induction false} RunKeeps(s: Sched, events: seq<Event>, clock: nat)
    requires Inv(s, clock) && Monotone(events, clock)
    ensures Inv(Run(s, events), LastTick(events, clock))
    decreases |events|
  {
    hide Registered, Rested, Step, Clock;
    if events != [] {
      StepKeeps(s, events[0], clock);
      RunKeeps(Step(s, events[0]), events[1..], Clock(events[0], clock));
    }
  }

  /** Spawning before the scheduler starts. */
  function Boot(n: nat): Sched {
    if n == 0 then Sched([], 0, 0, 0, false, []) else Spawn(Boot(n - 1), true)
  }

  lemma {:induction false} BootShape(n: nat)
    ensures var s := Boot(n);
      && |s.tasks| == n && s.nextId == n && s.unloaded == []
      && forall i :: 0 <= i < n ==> s.tasks[i] == Task(i, Ready, 0, i)
  {
    if n > 0 {
      BootShape(n - 1);
    }
  }

  lemma StartInv(n: nat)
    requires n > 0
    ensures Boot(n).tasks != [] && Inv(Start(Boot(n)), 0)
  {
    hide Boot;
    BootShape(n);
  }

  /** Scheduler safety. In every run, whenever a task runs it is the only one running, the
      processor holds its own context and so does every other slot, its wake tick has
      passed, it is not finished, and nothing that was unloaded is in the list; the scheduler
      waits only while no task is ready; and no task is ever unloaded twice. */
  lemma RunsAreSafe(n: nat, events: seq<Event>)
    requires n > 0 && Monotone(events, 0)
    ensures Boot(n).tasks != []
    ensures var s := Run(Start(Boot(n)), events);
      && s.current < |s.tasks|
      && s.cpu == s.tasks[s.current].id
      && (forall i :: 0 <= i < |s.tasks| && i != s.current ==> s.tasks[i].context == s.tasks[i].id)
      && (!s.waiting ==>
            && s.tasks[s.current].state == Running && s.tasks[s.current].wakeAt <= LastTick(events, 0)
            && (forall i :: 0 <= i < |s.tasks| && i != s.current ==> s.tasks[i].state != Running))
      && (s.waiting ==> forall i :: 0 <= i < |s.tasks| ==> s.tasks[i].state !in {Ready, Running})
      && (forall i, j :: 0 <= i < j < |s.unloaded| ==> s.unloaded[i] != s.unloaded[j])
      && (forall i, j :: 0 <= i < |s.unloaded| && 0 <= j < |s.tasks| ==> s.tasks[j].id != s.unloaded[i])
  {
    hide Run, Boot, Start, Monotone, LastTick;
    StartInv(n);
    RunKeeps(Start(Boot(n)), events, 0);
    Unpack(Run(Start(Boot(n)), events), LastTick(events, 0));
  }

  lemma Unpack(s: Sched, clock: nat)
    requires Inv(s, clock)
    ensures forall i, j :: 0 <= i < j < |s.unloaded| ==> s.unloaded[i] != s.unloaded[j]
    ensures forall i, j :: 0 <= i < |s.unloaded| && 0 <= j < |s.tasks| ==> s.tasks[j].id != s.unloaded[i]
  {
  }

  // ------------------------------------------------- finished is for good

  /** Task `id` existed and is finished or gone. */
  ghost predicate Dead(s: Sched, id: TaskId) {
    id < s.nextId && forall i :: 0 <= i < |s.tasks| && s.tasks[i].id == id ==> s.tasks[i].state == Finished
  }

  lemma RequestDead(s: Sched, e: Event, id: TaskId, clock: nat)
    requires Inv(s, clock) && !s.waiting && Dead(s, id) && (e.Yield? || e.Sleep? || e.Exit?)
    ensures Dead(Request(s, e), id)
  {
  }

  lemma PrepareDead(s: Sched, now: nat, id: TaskId)
    requires s.current < |s.tasks| && Dead(s, id)
    ensures Dead(Prepare(s, now), id)
  {
    hide Wake, Keep, FinishedCount, FinishedIds;
    var woken := s.(tasks := Wake(s.tasks, now));
    assert Dead(woken, id);
    var p := Prepare(s, now);
    forall i | 0 <= i < |p.tasks| && p.tasks[i].id == id
      ensures p.tasks[i].state == Finished
    {
      assert p.tasks[i] in p.tasks;
      assert p.tasks[i] in woken.tasks;
    }
  }

  lemma TrySwitchDead(s: Sched, id: TaskId)
    requires s.current < |s.tasks| && Dead(s, id)
    ensures Dead(TrySwitch(s), id)
  {
    hide FindNextReady;
    NextIsReady(s);
  }

  lemma StepDead(s: Sched, e: Event, id: TaskId, clock: nat)
    requires Inv(s, clock) && Dead(s, id)
    ensures Dead(Step(s, e), id)
  {
    hide Inv, Request, Prepare, TrySwitch, Wake;
    CurrentInRange(s, clock);
    match e
    case NewTask(stackOk) =>
    case Tick(now) =>
      TrySwitchDead(s.(tasks := Wake(s.tasks, now)), id);
    case _ =>
      if !s.waiting {
        RequestDead(s, e, id, clock);
        RequestInRange(s, e);
        PrepareDead(Request(s, e), e.now, id);
        var p := Prepare(Request(s, e), e.now);
        if p.current < |p.tasks| {
          TrySwitchDead(p, id);
        }
      }
  }

  lemma CurrentInRange(s: Sched, clock: nat)
    requires Inv(s, clock)
    ensures s.current < |s.tasks|
  {
  }

  lemma RequestInRange(s: Sched, e: Event)
    requires s.current < |s.tasks|
    ensures Request(s, e).current < |Request(s, e).tasks|
  {
  }

  /** A task that has finished is never running again. */
  lemma {:induction false} FinishedStaysFinished(s: Sched, events: seq<Event>, clock: nat, id: TaskId)
    requires Inv(s, clock) && Monotone(events, clock) && Dead(s, id)
    ensures Dead(Run(s, events), id)
    decreases |events|
  {
    hide Inv, Step, Clock, Dead;
    if events != [] {
      CurrentInRange(s, clock);
      StepDead(s, events[0], id, clock);
      StepKeeps(s, events[0], clock);
      FinishedStaysFinished(Step(s, events[0]), events[1..], Clock(events[0], clock), id);
    }
  }

  lemma HasIdAt(l: seq<Task>, i: nat)
    requires i < |l|
    ensures HasId(l, l[i].id)
  {
  }

  lemma PrepareAccounts(s: Sched, now: nat, i: nat)
    requires s.current < |s.tasks| && i < |s.tasks|
    ensures var p := Prepare(s, now);
      || HasId(p.tasks, s.tasks[i].id)
      || (s.tasks[i].state == Finished && i != s.current && s.tasks[i].id in p.unloaded)
  {
    hide Wake, Keep, FinishedCount, FinishedIds, HasId;
    var w := Wake(s.tasks, now);
    HasIdAt(w, i);
    if w[i].state == Finished {
      FinishedIdsAre(w, w[i].id);
      assert w[i] in w && w[i] == s.tasks[i];
      assert w[i].id in s.unloaded + FinishedIds(w);
    } else {
      KeepAt(w, i);
      HasIdAt(Keep(w), i - FinishedCount(w[..i]));
    }
  }

  lemma TrySwitchIds(s: Sched, id: TaskId)
    requires s.current < |s.tasks|
    ensures HasId(s.tasks, id) ==> HasId(TrySwitch(s).tasks, id)
    ensures TrySwitch(s).unloaded == s.unloaded
  {
    hide FindNextReady, HasId;
    NextIsReady(s);
    SameIds(s.tasks, TrySwitch(s).tasks);
  }

  lemma RequestAccounts(s: Sched, e: Event, i: nat)
    requires s.current < |s.tasks| && i < |s.tasks|
    ensures var r := Request(s, e);
      && r.current == s.current && |r.tasks| == |s.tasks| && r.tasks[i].id == s.tasks[i].id
      && (i != s.current ==> r.tasks[i] == s.tasks[i])
  {
  }

  /** A task leaves the list only by being reaped: it had finished, it was not the current
      task, and its memory is unloaded in the same step. */
  lemma GoneMeansUnloaded(s: Sched, e: Event, i: nat, clock: nat)
    requires Inv(s, clock) && i < |s.tasks|
    ensures var r := Step(s, e);
      || HasId(r.tasks, s.tasks[i].id)
      || (s.tasks[i].state == Finished && i != s.current && s.tasks[i].id in r.unloaded)
  {
    hide Inv, Request, Prepare, TrySwitch, HasId;
    CurrentInRange(s, clock);
    var id := s.tasks[i].id;
    HasIdAt(s.tasks, i);
    match e
    case NewTask(stackOk) =>
      SpawnIds(s, stackOk, id);
    case Tick(now) =>
      SameIds(s.tasks, Wake(s.tasks, now));
      TrySwitchIds(s.(tasks := Wake(s.tasks, now)), id);
    case _ =>
      RequestAccounts(s, e, i);
      PrepareAccounts(Request(s, e), e.now, i);
      var p := Prepare(Request(s, e), e.now);
      if p.current < |p.tasks| {
        TrySwitchIds(p, id);
      }
  }

  lemma SpawnIds(s: Sched, stackOk: bool, id: TaskId)
    ensures HasId(s.tasks, id) ==> HasId(Spawn(s, stackOk).tasks, id)
  {
    if HasId(s.tasks, id) {
      var i :| 0 <= i < |s.tasks| && s.tasks[i].id == id;
      assert Spawn(s, stackOk).tasks[i].id == id;
    }
  }
}
