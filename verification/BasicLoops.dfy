/** How often a FOR loop runs. */
module BasicLoops {
  import opened Options
  import opened Bytes
  import opened BasicSyntax
  import opened BasicMachine

  /** Statements that go on to the next line and leave the loop over x alone. */
  predicate StraightLine(s: Statement, x: string) {
    s.Print? || s.Rem? || s.Sleep? || s.Spawn? || s.Send? || s.Close?
    || ((s.Let? || s.Dim? || s.ArrayAssign?) && s.name != x)
  }

  predicate Increasing(order: seq<u32>) {
    forall i, j :: 0 <= i < j < |order| ==> order[i] < order[j]
  }

  ghost predicate Stored(c: Setting) {
    Increasing(c.order) && forall i :: 0 <= i < |c.order| ==> c.order[i] in c.program
  }

  function At(c: Setting, i: nat): Statement
    requires Stored(c) && i < |c.order|
  {
    c.program[c.order[i]]
  }

  /** A loop over x from position i to position j whose body is straight-line code. */
  ghost predicate Loop(c: Setting, i: nat, j: nat, x: string) {
    && Stored(c) && i < j < |c.order|
    && At(c, i).For? && At(c, i).name == x
    && At(c, j) == Statement.Next(x)
    && forall k :: i < k < j ==> StraightLine(At(c, k), x)
  }

  /** Execution has failed for good. */
  predicate Broken(m: Machine) {
    !m.running && m.status == Error
  }

  /** About to execute position k with x at v and the given loops and calls open. */
  ghost predicate Running(m: Machine, k: nat, x: string, v: int, loops: seq<ForState>, calls: seq<nat>) {
    && m.running && m.idx == Some(k)
    && x in m.store.vars && m.store.vars[x].Int? && m.store.vars[x].n == v
    && m.store.forStack == loops && m.store.returnStack == calls
  }

  /** In the next n steps the positions from lo up to hi are executed so many times each, and
      no others are. */
  ghost predicate Visited(c: Setting, m: Machine, n: nat, lo: nat, hi: nat, times: nat) {
    forall p: nat :: Visits(c, m, n, p) == if lo <= p < hi then times else 0
  }

  // ------------------------------------------------------------------ steps

  lemma {:induction false} StepsAdd(c: Setting, m: Machine, n: nat, k: nat)
    ensures Steps(c, m, n + k) == Steps(c, Steps(c, m, n), k)
    decreases n
  {
    hide StepOnce;
    if n > 0 {
      StepsAdd(c, StepOnce(c, m), n - 1, k);
    }
  }

  lemma {:induction false} VisitsAdd(c: Setting, m: Machine, n: nat, k: nat, p: nat)
    ensures Visits(c, m, n + k, p) == Visits(c, m, n, p) + Visits(c, Steps(c, m, n), k, p)
    decreases n
  {
    hide StepOnce;
    if n > 0 {
      VisitsAdd(c, StepOnce(c, m), n - 1, k, p);
    }
  }

  lemma {:induction false} BrokenStays(c: Setting, m: Machine, n: nat)
    requires Broken(m)
    ensures Steps(c, m, n) == m
    decreases n
  {
    if n > 0 {
      BrokenStays(c, m, n - 1);
    }
  }

  // --------------------------------------------------------------- the body

  lemma StraightLineExecutes(w: World, now: nat, order: seq<u32>, s: Statement, line: u32, i: nat, st: Store, x: string)
    requires StraightLine(s, x) && x in st.vars
    ensures var r := Execute(w, now, order, s, line, i, st);
      r.Done? ==> (
        && (r.action.Continue? || r.action.Pause?)
        && x in r.store.vars && r.store.vars[x] == st.vars[x]
        && r.store.forStack == st.forStack && r.store.returnStack == st.returnStack)
  {
    hide NewArray, EvalInt, EvaluatesAll;
  }

  lemma BodyStep(c: Setting, m: Machine, k: nat, x: string, v: int, loops: seq<ForState>, calls: seq<nat>)
    requires Stored(c) && k + 1 < |c.order| && StraightLine(At(c, k), x)
    requires Running(m, k, x, v, loops, calls)
    ensures Broken(StepOnce(c, m)) || Running(StepOnce(c, m), k + 1, x, v, loops, calls)
  {
    hide Execute;
    StraightLineExecutes(c.world, m.now, c.order, At(c, k), c.order[k], k, m.store, x);
  }

  /** The body runs to the NEXT, visiting each of its lines once. */
  lemma {:induction false} BodyRuns(c: Setting, m: Machine, i: nat, k: nat, j: nat, x: string, v: int,
                                    loops: seq<ForState>, calls: seq<nat>)
    requires Loop(c, i, j, x) && i < k <= j && Running(m, k, x, v, loops, calls)
    ensures var r := Steps(c, m, j - k);
      Broken(r) || (Running(r, j, x, v, loops, calls) && Visited(c, m, j - k, k, j, 1))
    decreases j - k
  {
    hide StepOnce, At;
    if k < j {
      BodyStep(c, m, k, x, v, loops, calls);
      var next := StepOnce(c, m);
      if Broken(next) {
        BrokenStays(c, next, j - k - 1);
      } else {
        BodyRuns(c, next, i, k + 1, j, x, v, loops, calls);
        var n, rest := j - k, j - k - 1;
        if !Broken(Steps(c, next, rest)) {
          forall p: nat
            ensures Visits(c, m, n, p) == if k <= p < j then 1 else 0
          {
            assert Visits(c, next, rest, p) == if k + 1 <= p < j then 1 else 0;
          }
        }
      }
    }
  }

  // --------------------------------------------------------------- the NEXT

  lemma {:induction false} PositionOf(order: seq<u32>, k: nat)
    requires Increasing(order) && k < |order|
    ensures Position(order, order[k]) == Some(k)
  {
    if k > 0 {
      assert order[1..][k - 1] == order[k];
      PositionOf(order[1..], k - 1);
    }
  }

  lemma {:induction false} LineAfterIs(order: seq<u32>, k: nat)
    requires Increasing(order) && k + 1 < |order|
    ensures LineAfter(order, order[k]) == order[k + 1]
  {
    if k > 0 {
      assert order[1..][k - 1] == order[k] && order[1..][k] == order[k + 1];
      LineAfterIs(order[1..], k - 1);
    } else {
      assert order[1..][0] == order[1];
    }
  }

  /** NEXT either starts another round with x advanced or leaves the loop behind. */
  lemma NextStep(c: Setting, m: Machine, i: nat, j: nat, x: string, v: int,
                 outer: seq<ForState>, loop: ForState, calls: seq<nat>)
    requires Loop(c, i, j, x) && loop.name == x && loop.bodyLine == c.order[i + 1]
    requires Running(m, j, x, v, outer + [loop], calls)
    ensures var r := StepOnce(c, m);
      if Continues(Wrap64(v + loop.step), loop) then Running(r, i + 1, x, Wrap64(v + loop.step), outer + [loop], calls)
      else r.idx == Some(j + 1) && r.store.vars == m.store.vars && r.store.forStack == outer
           && r.store.returnStack == calls && !r.status.Error?
  {
    hide Continues, Wrap64;
    var stack := outer + [loop];
    assert stack[|outer|] == loop && stack[..|outer|] + stack[|outer| + 1..] == outer;
    PositionOf(c.order, i + 1);
  }

  /** One round: the body and the NEXT, each line visited once. */
  lemma Round(c: Setting, m: Machine, i: nat, j: nat, x: string, v: int,
              outer: seq<ForState>, loop: ForState, calls: seq<nat>)
    requires Loop(c, i, j, x) && loop.name == x && loop.bodyLine == c.order[i + 1]
    requires Running(m, i + 1, x, v, outer + [loop], calls)
    ensures var r := Steps(c, m, j - i);
      Broken(r) || (Visited(c, m, j - i, i + 1, j + 1, 1)
        && if Continues(Wrap64(v + loop.step), loop) then
             Running(r, i + 1, x, Wrap64(v + loop.step), outer + [loop], calls)
           else Exited(r, j, x, v, outer, calls))
  {
    hide StepOnce, Continues, Wrap64, At;
    BodyRuns(c, m, i, i + 1, j, x, v, outer + [loop], calls);
    var mid := Steps(c, m, j - i - 1);
    StepsAdd(c, m, j - i - 1, 1);
    if Broken(mid) {
      BrokenStays(c, mid, 1);
    } else {
      NextStep(c, mid, i, j, x, v, outer, loop, calls);
      assert Steps(c, mid, 1) == StepOnce(c, mid);
      var n, body := j - i, j - i - 1;
      forall p: nat
        ensures Visits(c, m, n, p) == if i < p <= j then 1 else 0
      {
        VisitsAdd(c, m, body, 1, p);
        assert Visits(c, mid, 1, p) == if p == j then 1 else 0;
        assert Visits(c, m, body, p) == if i < p < j then 1 else 0;
      }
    }
  }

  /** Past the NEXT, with the loop closed and x at its last value. */
  ghost predicate Exited(m: Machine, j: nat, x: string, v: int, outer: seq<ForState>, calls: seq<nat>) {
    && m.idx == Some(j + 1) && !m.status.Error?
    && x in m.store.vars && m.store.vars[x].Int? && m.store.vars[x].n == v
    && m.store.forStack == outer && m.store.returnStack == calls
  }

  // ---------------------------------------------------------------- the count

  /** The loop moves, or already starts past its end. */
  predicate Ends(a: int, b: int, s: int) {
    s != 0 || a < b
  }

  /** The value after the last round, cut to 64 bits, is past the end. */
  predicate Leaves(last: int, b: int, s: int) {
    var next := Wrap64(last + s);
    if s > 0 then next > b else next < b
  }

  /** The number of rounds from a to b in steps of s, at least one. */
  function Trips(a: int, b: int, s: int): (n: nat)
    requires Ends(a, b, s)
    ensures n >= 1
  {
    var n := if s > 0 then (b - a) / s + 1 else if s < 0 then (a - b) / -s + 1 else 1;
    if n > 1 then n else 1
  }

  lemma Distribute(s: int, a: int, b: int)
    ensures s * (a - b) == s * a - s * b
  {
  }

  lemma Multiple(s: int, k: int)
    requires s > 0 && k >= 1
    ensures s * k >= s
  {
  }

  lemma DivUnique(x: int, s: int, q: int, r: int)
    requires s > 0 && x == s * q + r && 0 <= r < s
    ensures x / s == q
  {
    var d := x / s;
    assert x == s * d + x % s;
    Distribute(s, d, q);
    Distribute(s, q, d);
    if d > q {
      Multiple(s, d - q);
    } else if d < q {
      Multiple(s, q - d);
    }
  }

  lemma DivStep(x: int, s: int)
    requires s > 0
    ensures (x - s) / s == x / s - 1 && (x >= 0 <==> x / s >= 0)
  {
    var q := x / s;
    assert x == s * q + x % s;
    Distribute(s, q, 1);
    DivUnique(x - s, s, q - 1, x % s);
    if q < 0 {
      Multiple(s, -q);
      Distribute(s, 0, q);
    } else if q > 0 {
      Multiple(s, q);
    }
  }

  lemma TripsStep(a: int, b: int, s: int)
    requires Ends(a, b, s)
    ensures var more := if s > 0 then a + s <= b else a + s >= b;
      Trips(a, b, s) == if more then 1 + Trips(a + s, b, s) else 1
  {
    if s > 0 {
      DivStep(b - a, s);
      assert b - (a + s) == b - a - s;
    } else if s < 0 {
      DivStep(a - b, -s);
      assert a + s - b == a - b - -s;
    }
  }

  // ---------------------------------------------------------------- the loop

  /** What the last NEXT leads to: out of the loop, or around again with the value cut off. */
  ghost predicate Concluded(m: Machine, i: nat, j: nat, x: string, last: int,
                            outer: seq<ForState>, loop: ForState, calls: seq<nat>) {
    if Leaves(last, loop.end, loop.step) then Exited(m, j, x, last, outer, calls)
    else Running(m, i + 1, x, Wrap64(last + loop.step), outer + [loop], calls)
  }

  /** From the first line of the body, the remaining rounds run. */
  lemma {:induction false} Rounds(c: Setting, m: Machine, i: nat, j: nat, x: string, v: int,
                                  outer: seq<ForState>, loop: ForState, calls: seq<nat>)
    requires Loop(c, i, j, x) && loop.name == x && loop.bodyLine == c.order[i + 1] && Ends(v, loop.end, loop.step)
    requires Running(m, i + 1, x, v, outer + [loop], calls)
    ensures var trips := Trips(v, loop.end, loop.step);
      var n := Total(trips, j - i);
      Broken(Steps(c, m, n))
      || (Concluded(Steps(c, m, n), i, j, x, Last(v, loop.step, trips), outer, loop, calls)
          && Visited(c, m, n, i + 1, j + 1, trips))
    decreases Trips(v, loop.end, loop.step)
  {
    hide Trips, StepOnce, At, Stored, Exited;
    var trips := Trips(v, loop.end, loop.step);
    var next := Steps(c, m, j - i);
    TripsStep(v, loop.end, loop.step);
    Round(c, m, i, j, x, v, outer, loop, calls);
    if trips > 1 {
      var n := Total(trips - 1, j - i);
      StepsAdd(c, m, j - i, n);
      if Broken(next) {
        BrokenStays(c, next, n);
      } else {
        Rounds(c, next, i, j, x, v + loop.step, outer, loop, calls);
        if !Broken(Steps(c, next, n)) {
          VisitsSum(c, m, j - i, n, i + 1, j + 1, trips - 1);
        }
      }
    }
  }

  lemma VisitsSum(c: Setting, m: Machine, a: nat, b: nat, lo: nat, hi: nat, times: nat)
    requires Visited(c, m, a, lo, hi, 1) && Visited(c, Steps(c, m, a), b, lo, hi, times)
    ensures Visited(c, m, a + b, lo, hi, times + 1)
  {
    hide StepOnce, Steps, Visits;
    var n := a + b;
    forall p: nat
      ensures Visits(c, m, n, p) == if lo <= p < hi then times + 1 else 0
    {
      VisitsAdd(c, m, a, b, p);
      assert Visits(c, m, a, p) == if lo <= p < hi then 1 else 0;
    }
  }

  /** The steps that so many rounds of a given length take. */
  function Total(trips: nat, length: nat): nat {
    if trips == 0 then 0 else length + Total(trips - 1, length)
  }

  /** The value of the variable in the last of so many rounds. */
  function Last(v: int, step: int, trips: nat): int
    decreases trips
  {
    if trips <= 1 then v else Last(v + step, step, trips - 1)
  }

  lemma {:induction false} TotalIs(trips: nat, length: nat)
    ensures Total(trips, length) == trips * length
  {
    if trips > 0 {
      TotalIs(trips - 1, length);
    }
  }

  lemma {:induction false} LastIs(v: int, step: int, trips: nat)
    requires trips >= 1
    ensures Last(v, step, trips) == v + (trips - 1) * step
    decreases trips
  {
    if trips > 1 {
      LastIs(v + step, step, trips - 1);
    }
  }

  /** FOR sets the variable and opens the loop. */
  lemma ForStep(c: Setting, m: Machine, i: nat, j: nat, x: string, a: i64, b: i64, s: i64)
    requires Loop(c, i, j, x) && m.running && m.idx == Some(i)
    requires EvalInt(c.world, m.now, m.store.vars, At(c, i).start) == Some(a)
    requires EvalInt(c.world, m.now, m.store.vars, At(c, i).end) == Some(b)
    requires EvalInt(c.world, m.now, m.store.vars, At(c, i).step) == Some(s)
    ensures var loop := ForState(x, b, s, c.order[i + 1]);
      Running(StepOnce(c, m), i + 1, x, a, m.store.forStack + [loop], m.store.returnStack)
  {
    hide EvalInt, LineAfter;
    LineAfterIs(c.order, i);
  }

  /** From the FOR, unless a statement of the body fails: after exactly 1 + trips * (j - i)
      steps FOR ran once and every line of the body and the NEXT ran `trips` times. Then the
      loop is left, with the FOR and GOSUB stacks as before, if and only if the last value plus
      the step, cut to 64 bits, is past the end; otherwise it starts over from that value. */
  lemma TripCount(c: Setting, m: Machine, i: nat, j: nat, x: string, a: i64, b: i64, s: i64)
    requires Loop(c, i, j, x) && m.running && m.idx == Some(i) && Ends(a, b, s)
    requires EvalInt(c.world, m.now, m.store.vars, At(c, i).start) == Some(a)
    requires EvalInt(c.world, m.now, m.store.vars, At(c, i).end) == Some(b)
    requires EvalInt(c.world, m.now, m.store.vars, At(c, i).step) == Some(s)
    ensures var trips := Trips(a, b, s); var last := a + (trips - 1) * s;
      var n := 1 + trips * (j - i);
      var r := Steps(c, m, n);
      Broken(r)
      || ((forall p: nat :: Visits(c, m, n, p) == if p == i then 1 else if i < p <= j then trips else 0)
          && if Leaves(last, b, s) then Exited(r, j, x, last, m.store.forStack, m.store.returnStack)
             else Running(r, i + 1, x, Wrap64(last + s),
                          m.store.forStack + [ForState(x, b, s, c.order[i + 1])], m.store.returnStack))
  {
    hide StepOnce, Trips, At, Stored, EvalInt, Running, Exited, Leaves;
    var trips := Trips(a, b, s);
    var n := 1 + trips * (j - i);
    var loop := ForState(x, b, s, c.order[i + 1]);
    var body := StepOnce(c, m);
    ForStep(c, m, i, j, x, a, b, s);
    Rounds(c, body, i, j, x, a, m.store.forStack, loop, m.store.returnStack);
    TotalIs(trips, j - i);
    LastIs(a, s, trips);
    if !Broken(Steps(c, m, n)) {
      forall p: nat
        ensures Visits(c, m, n, p) == if p == i then 1 else if i < p <= j then trips else 0
      {
        var rest := n - 1;
        assert Visits(c, body, rest, p) == if i + 1 <= p < j + 1 then trips else 0;
      }
    }
  }

  /** The condition read off the bounds. A loop that does not start past its end is left exactly
      when its last value plus the step fits 64 bits; one that does start past it, after its
      single round, also when the sum wraps around to a value that is past the end again. */
  lemma LeavesWhenItFits(a: i64, b: i64, s: i64)
    requires Ends(a, b, s)
    ensures var last := a + (Trips(a, b, s) - 1) * s; var fits := -TWO_63 <= last + s < TWO_63;
      && ((s > 0 && a <= b) || (s < 0 && a >= b) ==> (Leaves(last, b, s) <==> fits))
      && ((s > 0 && a > b) || (s <= 0 && a < b) ==>
            last == a && (Leaves(last, b, s) <==> fits || (if s > 0 then a + s - TWO_64 > b else a + s + TWO_64 < b)))
  {
    hide Trips;
    var trips := Trips(a, b, s);
    LastIs(a, s, trips);
    LastRound(a, b, s);
    WrapOnce(Last(a, s, trips), s);
  }

  /** In its last round the loop is at or before its end, unless it started past it, and a
      further step would pass it. */
  lemma {:induction false} LastRound(a: int, b: int, s: int)
    requires Ends(a, b, s)
    ensures var last := Last(a, s, Trips(a, b, s));
      && (s > 0 ==> last + s > b && (if a <= b then a <= last <= b else last == a))
      && (s < 0 ==> last + s < b && (if a >= b then b <= last <= a else last == a))
      && (s == 0 ==> last == a)
    decreases Trips(a, b, s)
  {
    hide Trips;
    TripsStep(a, b, s);
    if Trips(a, b, s) > 1 {
      LastRound(a + s, b, s);
    } else if s == 0 {
      TripsOne(a, b);
    }
  }

  lemma TripsOne(a: int, b: int)
    requires a < b
    ensures Trips(a, b, 0) == 1
  {
  }

  lemma WrapOnce(v: int, s: i64)
    requires -TWO_63 <= v < TWO_63
    ensures Wrap64(v + s) == if v + s >= TWO_63 then v + s - TWO_64
                             else if v + s < -TWO_63 then v + s + TWO_64 else v + s
  {
  }

  // ------------------------------------------------------- loops without end

  /** A loop with step 0 that does not start past its end never comes to one: after any number
      of rounds the body is about to start again with the same value. */
  lemma {:induction false} EndlessRounds(c: Setting, m: Machine, i: nat, j: nat, x: string, v: int,
                                         outer: seq<ForState>, loop: ForState, calls: seq<nat>, rounds: nat)
    requires Loop(c, i, j, x) && loop.name == x && loop.bodyLine == c.order[i + 1] && !Ends(v, loop.end, loop.step)
    requires Running(m, i + 1, x, v, outer + [loop], calls)
    ensures var r := Steps(c, m, Total(rounds, j - i)); Broken(r) || Running(r, i + 1, x, v, outer + [loop], calls)
    decreases rounds
  {
    hide StepOnce, At, Stored, Exited;
    if rounds > 0 {
      var next := Steps(c, m, j - i);
      var n := Total(rounds - 1, j - i);
      Round(c, m, i, j, x, v, outer, loop, calls);
      StepsAdd(c, m, j - i, n);
      if Broken(next) {
        BrokenStays(c, next, n);
      } else {
        EndlessRounds(c, next, i, j, x, v, outer, loop, calls, rounds - 1);
      }
    }
  }

  /** Literals have their values. */
  ghost predicate Literal(w: World) {
    forall now: nat, vars: Variables, n: i64 :: w.eval(now, vars, Number(n)) == Some(Int(n))
  }

  /** The program 10 FOR I = a TO b STEP s, 20 NEXT I. */
  function EmptyLoop(w: World, a: i64, b: i64, s: i64): Setting {
    Setting(map[10 := Statement.For("I", Number(a), Number(b), Number(s)), 20 := Statement.Next("I")], [10, 20], w)
  }

  /** The interpreter as RUN leaves it. */
  const STARTED: Machine := Machine(Store(map[], [], []), Some(0), true, Ready, 0)

  lemma EmptyLoopIsLoop(w: World, a: i64, b: i64, s: i64)
    ensures Loop(EmptyLoop(w, a, b, s), 0, 1, "I") && EmptyLoop(w, a, b, s).order[1] == 20
  {
  }

  lemma EmptyLoopStarts(w: World, a: i64, b: i64, s: i64)
    requires Literal(w)
    ensures Running(StepOnce(EmptyLoop(w, a, b, s), STARTED), 1, "I", a, [ForState("I", b, s, 20)], [])
  {
    hide StepOnce;
    var c := EmptyLoop(w, a, b, s);
    EmptyLoopIsLoop(w, a, b, s);
    ForStep(c, STARTED, 0, 1, "I", a, b, s);
    assert [] + [ForState("I", b, s, 20)] == [ForState("I", b, s, 20)];
  }

  lemma EmptyLoopNext(w: World, a: i64, b: i64, s: i64, m: Machine, v: int)
    requires Running(m, 1, "I", v, [ForState("I", b, s, 20)], []) && Continues(Wrap64(v + s), ForState("I", b, s, 20))
    ensures Running(StepOnce(EmptyLoop(w, a, b, s), m), 1, "I", Wrap64(v + s), [ForState("I", b, s, 20)], [])
  {
    hide StepOnce, Continues, Wrap64;
    EmptyLoopIsLoop(w, a, b, s);
    assert [] + [ForState("I", b, s, 20)] == [ForState("I", b, s, 20)];
    NextStep(EmptyLoop(w, a, b, s), m, 0, 1, "I", v, [], ForState("I", b, s, 20), []);
  }

  /** FOR I = 1 TO 1 STEP 0 is running at its NEXT after any number of rounds. */
  lemma {:induction false} EndlessExample(w: World, rounds: nat)
    requires Literal(w)
    ensures Running(Steps(EmptyLoop(w, 1, 1, 0), STARTED, 1 + rounds), 1, "I", 1, [ForState("I", 1, 0, 20)], [])
  {
    hide StepOnce, Running, Wrap64;
    var c := EmptyLoop(w, 1, 1, 0);
    if rounds == 0 {
      EmptyLoopStarts(w, 1, 1, 0);
      assert Steps(c, STARTED, 1) == StepOnce(c, STARTED);
    } else {
      EndlessExample(w, rounds - 1);
      var m := Steps(c, STARTED, rounds);
      EmptyLoopNext(w, 1, 1, 0, m, 1);
      StepsAdd(c, STARTED, rounds, 1);
      assert Steps(c, m, 1) == StepOnce(c, m);
    }
  }

  /** FOR I from the largest number to itself starts over at the smallest. */
  lemma OverflowExample(w: World)
    requires Literal(w)
    ensures var top: i64 := TWO_63 - 1; var r := Steps(EmptyLoop(w, top, top, 1), STARTED, 2);
      Trips(top, top, 1) == 1 && Running(r, 1, "I", -TWO_63, [ForState("I", top, 1, 20)], [])
  {
    hide StepOnce, Running;
    var top: i64 := TWO_63 - 1;
    var c := EmptyLoop(w, top, top, 1);
    EmptyLoopStarts(w, top, top, 1);
    EmptyLoopNext(w, top, top, 1, StepOnce(c, STARTED), top);
    StepsAdd(c, STARTED, 1, 1);
    assert Steps(c, STARTED, 1) == StepOnce(c, STARTED);
    assert Steps(c, StepOnce(c, STARTED), 1) == StepOnce(c, StepOnce(c, STARTED));
  }
}
