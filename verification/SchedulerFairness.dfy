/** Round-robin fairness: how long a ready task can be passed over. */
module SchedulerFairness {
  import opened Scheduler
  import opened SchedulerSafety

  /** How many places after `current` index `i` lies in a round of `len` tasks. */
  function Distance(len: nat, current: nat, i: nat): nat
    requires current < len && i < len
  {
    if i > current then i - current else i + len - current
  }

  lemma AroundDistance(len: nat, current: nat, i: nat, d: nat)
    requires current < len && i < len && 1 <= d <= Distance(len, current, i)
    ensures Around(current, Distance(len, current, i), len) == i
    ensures Around(current, d, len) < len
    ensures d < Distance(len, current, i) ==>
              Distance(len, Around(current, d, len), i) == Distance(len, current, i) - d
  {
    AroundIs(current, d, len);
    AroundIs(current, Distance(len, current, i), len);
  }

  /** Task `id` is ready at index `i`. */
  ghost predicate Waits(s: Sched, id: TaskId, i: nat) {
    i < |s.tasks| && s.tasks[i].id == id && s.tasks[i].state == Ready
  }

  ghost predicate Runs(s: Sched, id: TaskId) {
    !s.waiting && s.current < |s.tasks| && s.tasks[s.current].id == id
  }

  /** A search dispatches the waiting task or comes closer to it. */
  lemma TrySwitchApproaches(s: Sched, id: TaskId, i: nat)
    requires s.current < |s.tasks| && Waits(s, id, i)
    ensures var r := TrySwitch(s);
      && !r.waiting && r.current < |r.tasks| && |r.tasks| == |s.tasks|
      && (Runs(r, id) || (Waits(r, id, i) && r.current != i
                          && Distance(|r.tasks|, r.current, i) < Distance(|s.tasks|, s.current, i)))
  {
    hide NextReady, Around, Distance;
    var len, dist := |s.tasks|, Distance(|s.tasks|, s.current, i);
    var d := NextReady(s.tasks, s.current, 1);
    DistanceRange(len, s.current, i);
    AroundDistance(len, s.current, i, dist);
    assert d <= dist;
    AroundDistance(len, s.current, i, d);
  }

  lemma DistanceRange(len: nat, current: nat, i: nat)
    requires current < len && i < len
    ensures 1 <= Distance(len, current, i) <= len
  {
  }

  lemma {:induction false} FinishedCountConcat(k: seq<Task>, l: seq<Task>)
    ensures FinishedCount(k + l) == FinishedCount(k) + FinishedCount(l)
  {
    if k == [] {
      assert k + l == l;
    } else {
      FinishedCountConcat(k[1..], l);
      assert (k + l)[1..] == k[1..] + l;
    }
  }

  lemma {:induction false} KeepLength(l: seq<Task>)
    ensures |Keep(l)| == |l| - FinishedCount(l)
  {
    if l != [] {
      KeepLength(l[1..]);
    }
  }

  /** Reaping never moves a task away from the current one. */
  lemma ReapApproaches(s: Sched, i: nat)
    requires s.current < |s.tasks| && i < |s.tasks| && i != s.current && Increasing(s.tasks)
    requires s.tasks[s.current].state != Finished && s.tasks[i].state != Finished
    ensures var r, j := Reap(s), i - FinishedCount(s.tasks[..i]);
      && 0 <= j < |r.tasks| && r.tasks[j] == s.tasks[i] && r.current < |r.tasks| && r.current != j
      && Distance(|r.tasks|, r.current, j) <= Distance(|s.tasks|, s.current, i)
  {
    hide Keep, FinishedCount, FinishedIds;
    var l, c := s.tasks, s.current;
    ReapKeepsCurrent(s);
    KeepAt(l, i);
    KeepAt(l, c);
    KeepLength(l);
    KeepIncreasing(l);
    CountsBetween(l, i, c);
    CountsBetween(l, c, i);
    CountsBetween(l, i, |l|);
    CountsBetween(l, c, |l|);
    assert l[..|l|] == l;
  }

  lemma CountsBetween(l: seq<Task>, a: nat, b: nat)
    requires a <= |l| && b <= |l|
    ensures a <= b ==> FinishedCount(l[..a]) <= FinishedCount(l[..b]) <= FinishedCount(l[..a]) + (b - a)
  {
    hide FinishedCount;
    if a <= b {
      assert l[..b] == l[..a] + l[a..b];
      FinishedCountConcat(l[..a], l[a..b]);
    }
  }

  /** `schedule` up to its search keeps a waiting task ready and no farther away. */
  lemma PrepareApproaches(s: Sched, now: nat, id: TaskId, i: nat)
    requires s.current < |s.tasks| && Waits(s, id, i) && Increasing(s.tasks)
    ensures var p := Prepare(s, now);
      && p.current < |p.tasks|
      && exists j :: Waits(p, id, j) && Distance(|p.tasks|, p.current, j) <= Distance(|s.tasks|, s.current, i)
  {
    hide Reap, Wake, FinishedCount, Distance;
    var w := s.(tasks := Wake(s.tasks, now));
    assert Waits(w, id, i);
    if !CurrentFinished(w) && FinishedCount(w.tasks) > 0 {
      if i == s.current {
        ReapKeepsCurrent(w);
        ReapShrinks(w);
        DistanceToSelf(|w.tasks|, w.current, |Reap(w).tasks|, Reap(w).current);
        assert Waits(Reap(w), id, Reap(w).current);
      } else {
        ReapApproaches(w, i);
        assert Waits(Reap(w), id, i - FinishedCount(w.tasks[..i]));
      }
    }
  }

  lemma ReapShrinks(s: Sched)
    requires s.current <= |s.tasks|
    ensures |Reap(s).tasks| <= |s.tasks|
  {
  }

  lemma DistanceToSelf(len: nat, current: nat, len': nat, current': nat)
    requires current < len && current' < len' <= len
    ensures Distance(len', current', current') <= Distance(len, current, current)
  {
  }

  /** Whether an event of a running task ends in a switch; whether it adds a task. */
  function Switches(e: Event): nat {
    if e.Yield? || e.Sleep? || e.Exit? then 1 else 0
  }

  function Spawns(e: Event): nat {
    if e.NewTask? && e.stackOk then 1 else 0
  }

  lemma RequestApproaches(s: Sched, e: Event, id: TaskId, i: nat, clock: nat)
    requires Inv(s, clock) && !s.waiting && Waits(s, id, i)
    ensures var r := Request(s, e);
      && Waits(r, id, i) && Increasing(r.tasks) && r.current == s.current && |r.tasks| == |s.tasks|
  {
  }

  lemma SpawnApproaches(s: Sched, stackOk: bool, id: TaskId, i: nat)
    requires s.current < |s.tasks| && Waits(s, id, i)
    ensures var r := Spawn(s, stackOk);
      && Waits(r, id, i) && r.current == s.current && r.waiting == s.waiting && |r.tasks| >= |s.tasks|
      && Distance(|r.tasks|, r.current, i) <= Distance(|s.tasks|, s.current, i) + (if stackOk then 1 else 0)
  {
  }

  /** While a task is ready the scheduler does not wait. */
  lemma ReadyMeansBusy(s: Sched, id: TaskId, i: nat, clock: nat)
    requires Inv(s, clock) && Waits(s, id, i)
    ensures !s.waiting
  {
  }

  /** Each event either dispatches the waiting task or pays for itself in
      distance. */
  lemma StepApproaches(s: Sched, e: Event, id: TaskId, i: nat, clock: nat)
    requires Inv(s, clock) && Waits(s, id, i)
    ensures var r := Step(s, e);
      && !r.waiting && r.current < |r.tasks|
      && (|| Runs(r, id)
          || exists j :: Waits(r, id, j) && Distance(|r.tasks|, r.current, j) + Switches(e)
                                            <= Distance(|s.tasks|, s.current, i) + Spawns(e))
  {
    hide Inv, Request, Prepare, TrySwitch, Spawn, Distance, Wake;
    CurrentInRange(s, clock);
    ReadyMeansBusy(s, id, i, clock);
    match e
    case NewTask(stackOk) =>
      SpawnApproaches(s, stackOk, id, i);
    case Tick(now) =>
    case _ =>
      RequestApproaches(s, e, id, i, clock);
      var q := Request(s, e);
      PrepareApproaches(q, e.now, id, i);
      var p := Prepare(q, e.now);
      var j :| Waits(p, id, j) && Distance(|p.tasks|, p.current, j) <= Distance(|q.tasks|, q.current, i);
      TrySwitchApproaches(p, id, j);
  }

  function SwitchCount(events: seq<Event>): nat {
    if events == [] then 0 else Switches(events[0]) + SwitchCount(events[1..])
  }

  function SpawnCount(events: seq<Event>): nat {
    if events == [] then 0 else Spawns(events[0]) + SpawnCount(events[1..])
  }

  /** Task `id` gets the processor at some point of the run. */
  ghost predicate Dispatched(s: Sched, events: seq<Event>, id: TaskId)
    decreases |events|
  {
    || Runs(s, id)
    || (events != [] && s.current < |s.tasks| && Dispatched(Step(s, events[0]), events[1..], id))
  }

  /** Bounded bypass. A ready task at distance d gets the processor within d switches plus
      one for every task spawned meanwhile, through any sleeping, waking, exiting and
      reaping of the others. */
  lemma {:induction false} BoundedBypass(s: Sched, events: seq<Event>, id: TaskId, i: nat, clock: nat)
    requires Inv(s, clock) && Waits(s, id, i) && Monotone(events, clock)
    requires s.current < |s.tasks| && SwitchCount(events) >= Distance(|s.tasks|, s.current, i) + SpawnCount(events)
    ensures Dispatched(s, events, id)
    decreases |events|
  {
    hide Inv, Step, Distance, Clock, Switches, Spawns, Runs;
    DistanceRange(|s.tasks|, s.current, i);
    assert events != [];
    var e := events[0];
    StepApproaches(s, e, id, i, clock);
    StepKeeps(s, e, clock);
    var r := Step(s, e);
    if Runs(r, id) {
    } else {
      var j :| Waits(r, id, j) &&
        Distance(|r.tasks|, r.current, j) + Switches(e) <= Distance(|s.tasks|, s.current, i) + Spawns(e);
      BoundedBypass(r, events[1..], id, j, Clock(e, clock));
    }
  }
}
