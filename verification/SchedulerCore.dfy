/** The scheduler of src/scheduler.rs with its fields updated in place, each method proved
    to do what its function in Scheduler says. */
module SchedulerCore {
  import opened Options
  import S = Scheduler
  import SchedulerSafety

  /** The state after the given tick readings while waiting. */
  function Ticks(s: S.Sched, readings: seq<nat>): S.Sched
    decreases |readings|
  {
    if readings == [] || s.current >= |s.tasks| then s
    else Ticks(S.Step(s, S.Tick(readings[0])), readings[1..])
  }

  lemma {:induction false} TicksAppend(s: S.Sched, readings: seq<nat>, now: nat)
    requires s.current < |s.tasks| && Ticks(s, readings).current < |Ticks(s, readings).tasks|
    ensures Ticks(s, readings + [now]) == S.Step(Ticks(s, readings), S.Tick(now))
    decreases |readings|
  {
    hide S.Step;
    if readings == [] {
      assert readings + [now] == [now];
    } else {
      var r := readings + [now];
      assert r[1..] == readings[1..] + [now] && r[0] == readings[0];
      if S.Step(s, S.Tick(r[0])).current < |S.Step(s, S.Tick(r[0])).tasks| {
        TicksAppend(S.Step(s, S.Tick(r[0])), readings[1..], now);
      }
    }
  }

  class TaskScheduler {
    var tasks: seq<S.Task>
    var current: nat
    var nextId: S.TaskId
    /** The context on the processor, and the tasks whose memory has been unloaded. */
    var cpu: S.TaskId
    var unloaded: seq<S.TaskId>
    /** Whether `schedule` is still looking for a ready task. */
    var waiting: bool

    ghost function View(): S.Sched
      reads this
    {
      S.Sched(tasks, current, nextId, cpu, waiting, unloaded)
    }

    method Spawn(stackOk: bool) returns (r: Option<S.TaskId>)
      modifies this
      ensures View() == S.Spawn(old(View()), stackOk)
      ensures r == if stackOk then Some(old(nextId)) else None
    {
      var id := nextId;
      nextId := nextId + 1;
      if !stackOk {
        return None;
      }
      tasks := tasks + [S.Task(id, S.Ready, 0, id)];
      return Some(id);
    }

    method WakeSleepingTasks(now: nat)
      modifies this`tasks
      ensures tasks == S.Wake(old(tasks), now)
    {
      for i := 0 to |tasks|
        invariant |tasks| == |old(tasks)|
        invariant forall k :: 0 <= k < i ==> tasks[k] == S.WakeTask(old(tasks)[k], now)
        invariant forall k :: i <= k < |tasks| ==> tasks[k] == old(tasks)[k]
      {
        if tasks[i].state == S.Sleeping && now >= tasks[i].wakeAt {
          tasks := tasks[i := tasks[i].(state := S.Ready)];
        }
      }
    }

    method FindNextReady() returns (r: Option<nat>)
      ensures r == S.FindNextReady(View())
    {
      var len := |tasks|;
      if len == 0 {
        return None;
      }
      var i := 1;
      while i <= len
        invariant 1 <= i <= len + 1
        invariant S.NextReady(tasks, current, 1) == S.NextReady(tasks, current, i)
      {
        var idx := (current + i) % len;
        if tasks[idx].state == S.Ready {
          return Some(idx);
        }
        i := i + 1;
      }
      return None;
    }

    method ReapFinishedTasks()
      requires current <= |tasks|
      modifies this
      ensures View() == S.Reap(old(View()))
    {
      hide S.Keep, S.FinishedCount, S.FinishedIds;
      var finishedIds := CollectFinished();
      for i := 0 to |finishedIds|
        invariant unchanged(this`tasks, this`current, this`nextId, this`cpu, this`waiting)
        invariant unloaded == old(unloaded) + finishedIds[..i]
      {
        unloaded := unloaded + [finishedIds[i]];
      }
      assert finishedIds[..|finishedIds|] == finishedIds;
      var finishedBefore := CountFinished(current);
      RetainUnfinished();
      if current >= finishedBefore {
        current := current - finishedBefore;
      }
      if current >= |tasks| && tasks != [] {
        current := 0;
      }
    }

    method CollectFinished() returns (ids: seq<S.TaskId>)
      ensures ids == S.FinishedIds(tasks)
    {
      ids := [];
      for i := 0 to |tasks|
        invariant ids + S.FinishedIds(tasks[i..]) == S.FinishedIds(tasks)
      {
        assert tasks[i..][1..] == tasks[i + 1..];
        if tasks[i].state == S.Finished {
          ids := ids + [tasks[i].id];
        }
      }
    }

    method CountFinished(n: nat) returns (count: nat)
      requires n <= |tasks|
      ensures count == S.FinishedCount(tasks[..n])
    {
      count := 0;
      for i := 0 to n
        invariant count + S.FinishedCount(tasks[i..n]) == S.FinishedCount(tasks[..n])
      {
        assert tasks[i..n][1..] == tasks[i + 1..n];
        if tasks[i].state == S.Finished {
          count := count + 1;
        }
      }
    }

    method RetainUnfinished()
      modifies this`tasks
      ensures tasks == S.Keep(old(tasks))
    {
      hide S.Keep;
      var kept: seq<S.Task> := [];
      assert tasks[0..] == tasks;
      for i := 0 to |tasks|
        invariant tasks == old(tasks)
        invariant kept + S.Keep(tasks[i..]) == S.Keep(tasks)
      {
        KeepStep(tasks, i);
        if tasks[i].state != S.Finished {
          kept := kept + [tasks[i]];
        }
      }
      assert S.Keep(tasks[|tasks|..]) == [];
      tasks := kept;
    }

    /** Saves the processor context into the outgoing task's slot and resumes the next. */
    method SwitchTo(next: nat)
      requires current < |tasks| && next < |tasks|
      modifies this
      ensures View() == S.Switch(old(View()), next)
    {
      var outgoing := current;
      current := next;
      tasks := tasks[next := tasks[next].(state := S.Running)];
      tasks := tasks[outgoing := tasks[outgoing].(context := cpu)];
      cpu := tasks[next].context;
      waiting := false;
    }

    /** One round of the search loop. */
    method Search()
      requires current < |tasks|
      modifies this
      ensures View() == S.TrySwitch(old(View())) && current < |tasks|
    {
      hide S.FindNextReady, S.Switch;
      TrySwitchInRange(View());
      var next := FindNextReady();
      if next.Some? {
        SwitchTo(next.value);
      } else {
        waiting := true;
      }
    }

    method HasState(state: S.TaskState) returns (found: bool)
      ensures found <==> exists i :: 0 <= i < |tasks| && tasks[i].state == state
    {
      for i := 0 to |tasks|
        invariant forall k :: 0 <= k < i ==> tasks[k].state != state
      {
        if tasks[i].state == state {
          return true;
        }
      }
      return false;
    }

    /** Wakes, reaps unless the current task is exiting, then searches until a task is ready;
        `readings` are the tick counts at the interrupts that end each wait. */
    method Schedule(now: nat, readings: seq<nat>) returns (k: nat)
      requires current < |tasks|
      modifies this
      ensures k <= |readings|
      ensures var p := S.Prepare(old(View()), now);
        p.current < |p.tasks| && View() == Ticks(S.TrySwitch(p), readings[..k])
      ensures !waiting || k == |readings| || (forall i :: 0 <= i < |tasks| ==> tasks[i].state != S.Sleeping)
    {
      hide S.Reap, S.Wake, S.TrySwitch, S.FinishedCount;
      SchedulerSafety.PrepareInRange(View(), now);
      WakeSleepingTasks(now);
      var anyFinished := HasState(S.Finished);
      SomeFinished(tasks);
      if tasks[current].state != S.Finished && anyFinished {
        ReapFinishedTasks();
      }
      TrySwitchInRange(View());
      Search();
      k := Await(readings);
    }

    /** Waits for ticks while no task is ready and some sleep. */
    method Await(readings: seq<nat>) returns (k: nat)
      requires current < |tasks|
      modifies this
      ensures k <= |readings| && View() == Ticks(old(View()), readings[..k])
      ensures !waiting || k == |readings| || (forall i :: 0 <= i < |tasks| ==> tasks[i].state != S.Sleeping)
    {
      hide S.Wake, S.TrySwitch;
      ghost var first := View();
      k := 0;
      assert readings[..0] == [];
      while waiting && k < |readings|
        invariant k <= |readings| && current < |tasks|
        invariant View() == Ticks(first, readings[..k])
        decreases |readings| - k
      {
        var sleeping := HasState(S.Sleeping);
        if !sleeping {
          return;
        }
        TicksAppend(first, readings[..k], readings[k]);
        assert readings[..k + 1] == readings[..k] + [readings[k]];
        WakeSleepingTasks(readings[k]);
        Search();
        k := k + 1;
      }
    }

    /** The running task gives way, sleeps or exits. */
    method Act(e: S.Event, readings: seq<nat>) returns (k: nat)
      requires current < |tasks| && !waiting && (e.Yield? || e.Sleep? || e.Exit?)
      modifies this
      ensures k <= |readings| && View() == Ticks(S.Step(old(View()), e), readings[..k])
    {
      hide S.Prepare, S.TrySwitch;
      match e {
        case Yield(_) =>
          tasks := tasks[current := tasks[current].(state := S.Ready)];
        case Sleep(ticks, now) =>
          tasks := tasks[current := tasks[current].(wakeAt := now + ticks, state := S.Sleeping)];
        case Exit(_) =>
          tasks := tasks[current := tasks[current].(state := S.Finished)];
      }
      SchedulerSafety.PrepareInRange(View(), e.now);
      k := Schedule(e.now, readings);
    }
  }

  lemma {:induction false} SomeFinished(l: seq<S.Task>)
    ensures S.FinishedCount(l) > 0 <==> exists i :: 0 <= i < |l| && l[i].state == S.Finished
  {
    if l != [] {
      SomeFinished(l[1..]);
      if S.FinishedCount(l[1..]) > 0 {
        var i :| 0 <= i < |l[1..]| && l[1..][i].state == S.Finished;
        assert l[i + 1].state == S.Finished;
      }
    }
  }

  lemma TrySwitchInRange(s: S.Sched)
    requires s.current < |s.tasks|
    ensures S.FindNextReady(s).Some? ==> S.FindNextReady(s).value < |s.tasks|
    ensures S.TrySwitch(s).current < |S.TrySwitch(s).tasks|
  {
  }

  lemma KeepStep(l: seq<S.Task>, i: nat)
    requires i < |l|
    ensures S.Keep(l[i..]) == (if l[i].state != S.Finished then [l[i]] else []) + S.Keep(l[i + 1..])
  {
    assert l[i..][1..] == l[i + 1..];
  }
}
