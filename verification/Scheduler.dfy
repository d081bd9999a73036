/** The cooperative scheduler of src/scheduler.rs. A context is identified with the task
    whose execution it continues; `cpu` is the context on the processor. While no task is
    ready, `schedule` waits for ticks inside the outgoing task: then `waiting` holds. */
module Scheduler {
  import opened Options

  type TaskId = nat

  datatype TaskState = Ready | Running | Sleeping | Finished

  datatype Task = Task(id: TaskId, state: TaskState, wakeAt: nat, context: TaskId)

  datatype Sched = Sched(tasks: seq<Task>, current: nat, nextId: TaskId, cpu: TaskId,
                         waiting: bool, unloaded: seq<TaskId>)

  // ------------------------------------------------------------- operations

  /** A new task, unless its stack cannot be allocated; the identifier is used up either way. */
  function Spawn(s: Sched, stackOk: bool): Sched {
    var id := s.nextId;
    if stackOk then s.(nextId := id + 1, tasks := s.tasks + [Task(id, Ready, 0, id)])
    else s.(nextId := id + 1)
  }

  function WakeTask(t: Task, now: nat): Task {
    if t.state == Sleeping && now >= t.wakeAt then t.(state := Ready) else t
  }

  function Wake(tasks: seq<Task>, now: nat): (r: seq<Task>)
    ensures |r| == |tasks| && forall i :: 0 <= i < |tasks| ==> r[i] == WakeTask(tasks[i], now)
  {
    seq(|tasks|, i requires 0 <= i < |tasks| => WakeTask(tasks[i], now))
  }

  /** The index `d` places after `current` in the round. */
  function Around(current: nat, d: nat, len: nat): nat
    requires len > 0
  {
    (current + d) % len
  }

  /** The first distance from `d` on at which a ready task lies; beyond the length if none. */
  function NextReady(tasks: seq<Task>, current: nat, d: nat): (r: nat)
    requires |tasks| > 0 && 1 <= d <= |tasks| + 1
    ensures d <= r <= |tasks| + 1
    ensures forall k :: d <= k < r ==> tasks[Around(current, k, |tasks|)].state != Ready
    ensures r <= |tasks| ==> tasks[Around(current, r, |tasks|)].state == Ready
    decreases |tasks| + 1 - d
  {
    if d > |tasks| then d
    else if tasks[Around(current, d, |tasks|)].state == Ready then d
    else NextReady(tasks, current, d + 1)
  }

  /** The round-robin choice. */
  function FindNextReady(s: Sched): Option<nat> {
    if s.tasks == [] then None
    else
      var d := NextReady(s.tasks, s.current, 1);
      if d <= |s.tasks| then Some(Around(s.current, d, |s.tasks|)) else None
  }

  /** The unfinished tasks, in order. */
  function Keep(tasks: seq<Task>): (r: seq<Task>)
    ensures |r| <= |tasks|
    ensures forall t :: t in r <==> t in tasks && t.state != Finished
  {
    if tasks == [] then []
    else (if tasks[0].state != Finished then [tasks[0]] else []) + Keep(tasks[1..])
  }

  /** The identifiers of the finished tasks, in order. */
  function FinishedIds(tasks: seq<Task>): seq<TaskId> {
    if tasks == [] then []
    else (if tasks[0].state == Finished then [tasks[0].id] else []) + FinishedIds(tasks[1..])
  }

  function FinishedCount(tasks: seq<Task>): (n: nat)
    ensures n <= |tasks|
  {
    if tasks == [] then 0 else (if tasks[0].state == Finished then 1 else 0) + FinishedCount(tasks[1..])
  }

  /** Unloads and removes the finished tasks, moving `current` along. */
  function Reap(s: Sched): Sched
    requires s.current <= |s.tasks|
  {
    var before := FinishedCount(s.tasks[..s.current]);
    var tasks := Keep(s.tasks);
    var current := if s.current >= before then s.current - before else s.current;
    s.(tasks := tasks, unloaded := s.unloaded + FinishedIds(s.tasks),
       current := if current >= |tasks| && tasks != [] then 0 else current)
  }

  /** Saves the processor context into the outgoing task's slot and resumes task `next`. */
  function Switch(s: Sched, next: nat): Sched
    requires s.current < |s.tasks| && next < |s.tasks|
  {
    var running := s.tasks[next := s.tasks[next].(state := Running)];
    var saved := running[s.current := running[s.current].(context := s.cpu)];
    s.(tasks := saved, current := next, cpu := saved[next].context, waiting := false)
  }

  /** One round of the search loop: switch if a task is ready, otherwise wait. */
  function TrySwitch(s: Sched): Sched
    requires s.current < |s.tasks|
  {
    match FindNextReady(s)
    case Some(next) => Switch(s, next)
    case None => s.(waiting := true)
  }

  predicate CurrentFinished(s: Sched) {
    s.current < |s.tasks| && s.tasks[s.current].state == Finished
  }

  /** `schedule` up to its first search. */
  function Prepare(s: Sched, now: nat): Sched
    requires s.current < |s.tasks|
  {
    var woken := s.(tasks := Wake(s.tasks, now));
    if !CurrentFinished(woken) && FinishedCount(woken.tasks) > 0 then Reap(woken) else woken
  }

  function SetState(s: Sched, state: TaskState): Sched
    requires s.current < |s.tasks|
  {
    s.(tasks := s.tasks[s.current := s.tasks[s.current].(state := state)])
  }

  datatype Event =
    | Yield(now: nat)
    | Sleep(ticks: nat, now: nat)
    | Exit(now: nat)
    | NewTask(stackOk: bool)
    | Tick(now: nat)

  /** What the running task does before it calls `schedule`. */
  function Request(s: Sched, e: Event): Sched
    requires s.current < |s.tasks|
  {
    match e
    case Yield(_) => SetState(s, Ready)
    case Sleep(ticks, now) =>
      var t := s.tasks[s.current];
      s.(tasks := s.tasks[s.current := t.(wakeAt := now + ticks, state := Sleeping)])
    case Exit(_) => SetState(s, Finished)
    case _ => s
  }

  /** A running task yields, sleeps, exits or spawns; while waiting, a tick wakes sleepers
      and the search is repeated. */
  function Step(s: Sched, e: Event): Sched
    requires s.current < |s.tasks|
  {
    match e
    case NewTask(stackOk) => if s.waiting then s else Spawn(s, stackOk)
    case Tick(now) => if s.waiting then TrySwitch(s.(tasks := Wake(s.tasks, now))) else s
    case _ =>
      if s.waiting then s
      else
        var p := Prepare(Request(s, e), e.now);
        if p.current < |p.tasks| then TrySwitch(p) else p
  }

  /** The first task is started directly. */
  function Start(s: Sched): Sched
    requires s.tasks != []
  {
    s.(current := 0, tasks := s.tasks[0 := s.tasks[0].(state := Running)], cpu := s.tasks[0].context, waiting := false)
  }
}
