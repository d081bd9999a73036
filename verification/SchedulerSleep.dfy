/** What the requests of a task come to, told from the events alone: a task that sleeps, yields,
    exits or is new. */
module SchedulerSleep {
  import opened Scheduler
  import opened SchedulerSafety

  /** Task `id` is in the list, asleep until the given tick. */
  ghost predicate Asleep(s: Sched, id: TaskId, until: nat) {
    exists i: nat :: AsleepAt(s, id, until, i)
  }

  predicate AsleepAt(s: Sched, id: TaskId, until: nat, i: nat) {
    i < |s.tasks| && s.tasks[i].id == id && s.tasks[i].state == Sleeping && s.tasks[i].wakeAt == until
  }

  /** Task `id` is in the list and can run, or does. */
  ghost predicate Awake(s: Sched, id: TaskId) {
    exists i: nat :: AwakeAt(s, id, i)
  }

  predicate AwakeAt(s: Sched, id: TaskId, i: nat) {
    i < |s.tasks| && s.tasks[i].id == id && s.tasks[i].state in {Ready, Running}
  }

  /** The event is one at which sleepers are woken. */
  predicate Wakes(s: Sched, e: Event) {
    if s.waiting then e.Tick? else e.Yield? || e.Sleep? || e.Exit?
  }

  // ------------------------------------------------------------ inside a step

  lemma PrepareWakes(s: Sched, now: nat, id: TaskId, until: nat, i: nat)
    requires s.current < |s.tasks| && AsleepAt(s, id, until, i)
    ensures var p := Prepare(s, now); if now >= until then ReadyAgain(p, id) else Asleep(p, id, until)
  {
    hide Wake, Keep, FinishedCount, FinishedIds;
    var w := s.(tasks := Wake(s.tasks, now));
    assert w.tasks[i] == WakeTask(s.tasks[i], now);
    var p := Prepare(s, now);
    if p == w {
      Sits(p, id, until, i);
    } else {
      KeepAt(w.tasks, i);
      Sits(p, id, until, i - FinishedCount(w.tasks[..i]));
    }
  }

  ghost predicate ReadyAgain(s: Sched, id: TaskId) {
    exists i: nat :: ReadyAt(s, id, i)
  }

  predicate ReadyAt(s: Sched, id: TaskId, i: nat) {
    i < |s.tasks| && s.tasks[i].id == id && s.tasks[i].state == Ready
  }

  lemma Sits(s: Sched, id: TaskId, until: nat, i: nat)
    ensures AsleepAt(s, id, until, i) ==> Asleep(s, id, until)
    ensures ReadyAt(s, id, i) ==> ReadyAgain(s, id)
  {
  }

  lemma TrySwitchLeaves(s: Sched, id: TaskId, until: nat)
    requires s.current < |s.tasks|
    ensures Asleep(s, id, until) ==> Asleep(TrySwitch(s), id, until)
    ensures ReadyAgain(s, id) ==> Awake(TrySwitch(s), id)
  {
    hide FindNextReady;
    NextIsReady(s);
    var r := TrySwitch(s);
    if i: nat :| AsleepAt(s, id, until, i) {
      assert AsleepAt(r, id, until, i);
    }
    if i: nat :| ReadyAt(s, id, i) {
      assert AwakeAt(r, id, i);
    }
  }

  lemma TickWakes(s: Sched, now: nat, id: TaskId, until: nat)
    requires Asleep(s, id, until)
    ensures var w := s.(tasks := Wake(s.tasks, now)); if now >= until then ReadyAgain(w, id) else Asleep(w, id, until)
  {
    hide Wake;
    var i: nat :| AsleepAt(s, id, until, i);
    var w := s.(tasks := Wake(s.tasks, now));
    assert w.tasks[i] == WakeTask(s.tasks[i], now);
    Sits(w, id, until, i);
  }

  lemma RequestLeaves(s: Sched, e: Event, id: TaskId, until: nat, clock: nat) returns (i: nat)
    requires Inv(s, clock) && !s.waiting && Asleep(s, id, until)
    ensures Request(s, e).current < |Request(s, e).tasks| && AsleepAt(Request(s, e), id, until, i)
  {
    i :| AsleepAt(s, id, until, i);
    assert i != s.current;
  }

  lemma NewTaskLeaves(s: Sched, stackOk: bool, id: TaskId, until: nat)
    requires Asleep(s, id, until)
    ensures Asleep(Spawn(s, stackOk), id, until)
  {
    var i: nat :| AsleepAt(s, id, until, i);
    assert AsleepAt(Spawn(s, stackOk), id, until, i);
  }

  /** A sleeper is woken exactly by a waking event at or after its tick. */
  lemma SleeperStep(s: Sched, e: Event, id: TaskId, until: nat, clock: nat)
    requires Inv(s, clock) && Asleep(s, id, until)
    ensures s.current < |s.tasks|
    ensures var r := Step(s, e); if Wakes(s, e) && e.now >= until then Awake(r, id) else Asleep(r, id, until)
  {
    hide Inv, Request, Prepare, TrySwitch, Spawn, Asleep, Awake, ReadyAgain, Wake;
    CurrentInRange(s, clock);
    match e
    case NewTask(stackOk) =>
      NewTaskLeaves(s, stackOk, id, until);
    case Tick(now) =>
      TickWakes(s, now, id, until);
      TrySwitchLeaves(s.(tasks := Wake(s.tasks, now)), id, until);
    case _ =>
      if !s.waiting {
        var i := RequestLeaves(s, e, id, until, clock);
        PrepareWakes(Request(s, e), e.now, id, until, i);
        PrepareInRange(Request(s, e), e.now);
        TrySwitchLeaves(Prepare(Request(s, e), e.now), id, until);
      }
  }

  // ------------------------------------------------------------------ sleeping

  /** No event of the run wakes sleepers at the tick or after it. */
  ghost predicate Undisturbed(s: Sched, events: seq<Event>, until: nat)
    decreases |events|
  {
    events == [] || s.current >= |s.tasks| ||
    (!(Wakes(s, events[0]) && events[0].now >= until) && Undisturbed(Step(s, events[0]), events[1..], until))
  }

  lemma {:induction false} SleepsOn(s: Sched, events: seq<Event>, id: TaskId, until: nat, clock: nat)
    requires Inv(s, clock) && Monotone(events, clock) && Asleep(s, id, until) && Undisturbed(s, events, until)
    ensures Asleep(Run(s, events), id, until)
    decreases |events|
  {
    hide Inv, Step, Asleep, Wakes, Clock;
    if events != [] {
      SleeperStep(s, events[0], id, until, clock);
      StepKeeps(s, events[0], clock);
      SleepsOn(Step(s, events[0]), events[1..], id, until, Clock(events[0], clock));
    }
  }

  lemma {:induction false} EarlyIsUndisturbed(s: Sched, events: seq<Event>, until: nat, clock: nat)
    requires Monotone(events, clock) && LastTick(events, clock) < until
    ensures Undisturbed(s, events, until)
    decreases |events|
  {
    hide Step;
    if events != [] && s.current < |s.tasks| {
      TicksGrow(events[1..], Clock(events[0], clock));
      EarlyIsUndisturbed(Step(s, events[0]), events[1..], until, Clock(events[0], clock));
    }
  }

  lemma {:induction false} TicksGrow(events: seq<Event>, clock: nat)
    requires Monotone(events, clock)
    ensures clock <= LastTick(events, clock)
    decreases |events|
  {
    if events != [] {
      TicksGrow(events[1..], Clock(events[0], clock));
    }
  }

  /** The step in which the running task goes to sleep: it is asleep afterwards, or awake again
      at once if it asked for no time at all. */
  lemma GoesToSleep(s: Sched, ticks: nat, now: nat, clock: nat)
    requires Inv(s, clock) && !s.waiting && clock <= now
    ensures s.current < |s.tasks|
    ensures var id, r := s.tasks[s.current].id, Step(s, Sleep(ticks, now));
      if ticks == 0 then Awake(r, id) else Asleep(r, id, now + ticks)
  {
    hide Registered, Rested, Prepare, TrySwitch, Asleep, Awake, ReadyAgain;
    var e, id := Sleep(ticks, now), s.tasks[s.current].id;
    var q := Request(s, e);
    PrepareWakes(q, now, id, now + ticks, s.current);
    PrepareInRange(q, now);
    TrySwitchLeaves(Prepare(q, now), id, now + ticks);
  }

  /** A task that sleeps for some ticks at tick `now` is neither ready nor running, in any run,
      as long as the clock is below `now + ticks`, and after that until the next event at which
      sleepers are woken, which leaves it ready or running. */
  lemma SleepsAsAsked(s: Sched, ticks: nat, now: nat, events: seq<Event>, clock: nat)
    requires Inv(s, clock) && !s.waiting && clock <= now && Monotone(events, now) && ticks > 0
    ensures s.current < |s.tasks|
    ensures var id, after := s.tasks[s.current].id, Step(s, Sleep(ticks, now));
      && (LastTick(events, now) < now + ticks ==> Undisturbed(after, events, now + ticks))
      && (Undisturbed(after, events, now + ticks) ==>
            var r := Run(after, events);
            && !Awake(r, id) && r.current < |r.tasks|
            && forall e: Event :: Wakes(r, e) && e.now >= now + ticks ==> Awake(Step(r, e), id))
  {
    hide Inv, Step, Asleep, Awake, Undisturbed, Run;
    GoesToSleep(s, ticks, now, clock);
    var id, e := s.tasks[s.current].id, Sleep(ticks, now);
    var after := Step(s, e);
    StepKeeps(s, e, clock);
    if LastTick(events, now) < now + ticks {
      EarlyIsUndisturbed(after, events, now + ticks, now);
    }
    if Undisturbed(after, events, now + ticks) {
      SleepsOn(after, events, id, now + ticks, now);
      RunKeeps(after, events, now);
      var r, last := Run(after, events), LastTick(events, now);
      NotAwake(r, id, now + ticks, last);
      forall f: Event | Wakes(r, f) && f.now >= now + ticks
        ensures Awake(Step(r, f), id)
      {
        SleeperStep(r, f, id, now + ticks, last);
      }
    }
  }

  lemma NotAwake(s: Sched, id: TaskId, until: nat, clock: nat)
    requires Inv(s, clock) && Asleep(s, id, until)
    ensures !Awake(s, id) && s.current < |s.tasks|
  {
    var i: nat :| AsleepAt(s, id, until, i);
    forall j: nat
      ensures !AwakeAt(s, id, j)
    {
      if j < |s.tasks| && j != i {
        assert s.tasks[j].id != s.tasks[i].id;
      }
    }
  }

  // ------------------------------------------------- yielding, exiting, spawning

  /** A task that yields can run on, or does. */
  lemma YieldStaysAwake(s: Sched, now: nat, clock: nat)
    requires Inv(s, clock) && !s.waiting && clock <= now
    ensures s.current < |s.tasks| && Awake(Step(s, Yield(now)), s.tasks[s.current].id)
  {
    hide Registered, Rested, Prepare, TrySwitch, Awake, ReadyAgain;
    var id, q := s.tasks[s.current].id, Request(s, Yield(now));
    PrepareReady(q, now, id, s.current);
    PrepareInRange(q, now);
    TrySwitchLeaves(Prepare(q, now), id, 0);
  }

  lemma PrepareReady(s: Sched, now: nat, id: TaskId, i: nat)
    requires s.current < |s.tasks| && ReadyAt(s, id, i)
    ensures ReadyAgain(Prepare(s, now), id)
  {
    hide Wake, Keep, FinishedCount, FinishedIds;
    var w := s.(tasks := Wake(s.tasks, now));
    assert w.tasks[i] == WakeTask(s.tasks[i], now);
    var p := Prepare(s, now);
    if p == w {
      Sits(p, id, 0, i);
    } else {
      KeepAt(w.tasks, i);
      Sits(p, id, 0, i - FinishedCount(w.tasks[..i]));
    }
  }

  /** A task that exits never runs again, whatever happens after. */
  lemma ExitIsForGood(s: Sched, now: nat, events: seq<Event>, clock: nat)
    requires Inv(s, clock) && !s.waiting && clock <= now && Monotone(events, now)
    ensures s.current < |s.tasks| && Dead(Run(Step(s, Exit(now)), events), s.tasks[s.current].id)
  {
    hide Inv, Step, Run, Dead;
    ExitEnds(s, now, clock);
    var e := Exit(now);
    StepKeeps(s, e, clock);
    FinishedStaysFinished(Step(s, e), events, now, s.tasks[s.current].id);
  }

  lemma ExitEnds(s: Sched, now: nat, clock: nat)
    requires Inv(s, clock) && !s.waiting
    ensures s.current < |s.tasks| && Dead(Step(s, Exit(now)), s.tasks[s.current].id)
  {
    hide Prepare, TrySwitch;
    var id, q := s.tasks[s.current].id, Request(s, Exit(now));
    assert Dead(q, id);
    PrepareDead(q, now, id);
    PrepareInRange(q, now);
    TrySwitchDead(Prepare(q, now), id);
  }

  /** A new task has a new name, waits at the end of the list and leaves the others alone. */
  lemma SpawnAddsReady(s: Sched, clock: nat)
    requires Inv(s, clock) && !s.waiting
    ensures var r := Step(s, NewTask(true)); var n := |s.tasks|;
      && |r.tasks| == n + 1 && r.tasks[..n] == s.tasks && r.current == s.current && r.cpu == s.cpu
      && r.tasks[n].state == Ready && r.tasks[n].context == r.tasks[n].id
      && !HasId(s.tasks, r.tasks[n].id) && r.tasks[n].id !in s.unloaded
  {
  }
}
