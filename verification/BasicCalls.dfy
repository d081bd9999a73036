/** Branches and subroutines: what IF, GOTO, GOSUB and RETURN do to the flow of a program. */
module BasicCalls {
  import opened Options
  import opened Bytes
  import opened BasicSyntax
  import opened BasicMachine
  import opened BasicLoops

  /** Statements that go on to the next line. */
  predicate Simple(s: Statement) {
    s.Print? || s.Rem? || s.Sleep? || s.Spawn? || s.Send? || s.Close? || s.Let? || s.Dim? || s.ArrayAssign?
  }

  /** About to execute position k with the given loops and calls open. */
  predicate Stands(m: Machine, k: nat, loops: seq<ForState>, calls: seq<nat>) {
    m.running && m.idx == Some(k) && m.store.forStack == loops && m.store.returnStack == calls
  }

  lemma SimpleExecutes(w: World, now: nat, order: seq<u32>, s: Statement, line: u32, i: nat, st: Store)
    requires Simple(s)
    ensures var r := Execute(w, now, order, s, line, i, st);
      r.Done? ==> (
        && (r.action.Continue? || r.action.Pause?)
        && r.store.forStack == st.forStack && r.store.returnStack == st.returnStack)
  {
    hide NewArray, EvalInt, EvaluatesAll, StoreElement;
  }

  lemma SimpleStep(c: Setting, m: Machine, k: nat, loops: seq<ForState>, calls: seq<nat>)
    requires Stored(c) && k + 1 < |c.order| && Simple(At(c, k)) && Stands(m, k, loops, calls)
    ensures Broken(StepOnce(c, m)) || Stands(StepOnce(c, m), k + 1, loops, calls)
  {
    hide Execute;
    SimpleExecutes(c.world, m.now, c.order, At(c, k), c.order[k], k, m.store);
  }

  /** Positions k up to j hold statements that go on to the next line. */
  ghost predicate Straight(c: Setting, k: nat, j: nat) {
    Stored(c) && k <= j < |c.order| && forall p :: k <= p < j ==> Simple(At(c, p))
  }

  /** Straight-line code runs to its end, visiting each line once. */
  lemma {:induction false} LinesRun(c: Setting, m: Machine, k: nat, j: nat, loops: seq<ForState>, calls: seq<nat>)
    requires Straight(c, k, j) && Stands(m, k, loops, calls)
    ensures var r := Steps(c, m, j - k);
      Broken(r) || (Stands(r, j, loops, calls) && Visited(c, m, j - k, k, j, 1))
    decreases j - k
  {
    hide StepOnce, At;
    if k < j {
      SimpleStep(c, m, k, loops, calls);
      var next, rest := StepOnce(c, m), j - k - 1;
      if Broken(next) {
        BrokenStays(c, next, rest);
      } else {
        LinesRun(c, next, k + 1, j, loops, calls);
        if !Broken(Steps(c, next, rest)) {
          VisitsFirst(c, m, rest, k, k + 1, j);
        }
      }
    }
  }

  /** In the next n steps position i is executed so many times, each of the positions from lo
      up to hi so many, and no others are. */
  ghost predicate VisitedAt(c: Setting, m: Machine, n: nat, i: nat, first: nat, lo: nat, hi: nat, times: nat) {
    forall p: nat :: Visits(c, m, n, p) == if p == i then first else if lo <= p < hi then times else 0
  }

  /** One step at position k and then each of the positions from lo to hi once. */
  lemma VisitsFirst(c: Setting, m: Machine, rest: nat, k: nat, lo: nat, hi: nat)
    requires m.running && m.idx == Some(k) && !(lo <= k < hi) && Visited(c, StepOnce(c, m), rest, lo, hi, 1)
    ensures VisitedAt(c, m, rest + 1, k, 1, lo, hi, 1)
    ensures lo == k + 1 && lo <= hi ==> Visited(c, m, rest + 1, k, hi, 1)
  {
    hide StepOnce;
    var n := rest + 1;
    forall p: nat
      ensures Visits(c, m, n, p) == if p == k then 1 else if lo <= p < hi then 1 else 0
    {
      assert Visits(c, StepOnce(c, m), rest, p) == if lo <= p < hi then 1 else 0;
    }
  }

  // --------------------------------------------------------------- branches

  /** The value of the condition of the IF at position i, if it has one. */
  function Condition(c: Setting, m: Machine, i: nat): Option<Value>
    requires Stored(c) && i < |c.order| && At(c, i).If?
  {
    c.world.eval(m.now, m.store.vars, At(c, i).condition)
  }

  /** Zero, the empty string and empty arrays. */
  predicate Fails(v: Option<Value>) {
    v in {Some(Int(0)), Some(Value.Str("")), Some(IntArray([])), Some(StrArray([]))}
  }

  /** The machine is about to execute the given line, or has failed because it is not stored. */
  predicate AtLine(c: Setting, m: Machine, line: u32) {
    if line in c.order then m.running && m.idx.Some? && m.idx.value < |c.order| && c.order[m.idx.value] == line
    else Broken(m)
  }

  /** IF goes to its line exactly for a nonzero number, a nonempty string or a nonempty array,
      and otherwise to the next position; a line that is not stored, or a condition without a
      value, is an error. Nothing is stored either way. */
  lemma Branch(c: Setting, m: Machine, i: nat)
    requires Stored(c) && i < |c.order| && At(c, i).If? && m.running && m.idx == Some(i)
    ensures var r := StepOnce(c, m); var v := Condition(c, m, i);
      r.store == m.store
      && if v == None then Broken(r)
         else if Fails(v) then r.idx == Some(i + 1) && !r.status.Error? && (r.running <==> i + 1 < |c.order|)
         else AtLine(c, r, At(c, i).line)
  {
    LineStored(c.order, At(c, i).line);
  }

  lemma {:induction false} LineStored(order: seq<u32>, line: u32)
    ensures Position(order, line).Some? <==> line in order
  {
    if order != [] {
      LineStored(order[1..], line);
    }
  }

  /** GOTO goes to its line and stores nothing. */
  lemma Jumps(c: Setting, m: Machine, i: nat)
    requires Stored(c) && i < |c.order| && At(c, i).Goto? && m.running && m.idx == Some(i)
    ensures AtLine(c, StepOnce(c, m), At(c, i).line) && StepOnce(c, m).store == m.store
  {
    LineStored(c.order, At(c, i).line);
  }

  /** Lines are stored once. */
  lemma AtPosition(c: Setting, m: Machine, k: nat)
    requires Stored(c) && k < |c.order| && AtLine(c, m, c.order[k])
    ensures m.running && m.idx == Some(k)
  {
  }

  /** A loop made of branches: an IF at position i that leaves it, straight-line code and, at
      position j, a GOTO back. */
  ghost predicate BranchLoop(c: Setting, i: nat, j: nat, exit: nat) {
    && i < j && Straight(c, i + 1, j) && exit < |c.order|
    && At(c, i).If? && At(c, i).line == c.order[exit]
    && At(c, j) == Statement.Goto(c.order[i])
  }

  /** One round: when the condition fails, every line of the loop runs once, the IF is next
      again and the loops and calls are as before. */
  lemma BranchRound(c: Setting, m: Machine, i: nat, j: nat, exit: nat)
    requires BranchLoop(c, i, j, exit) && m.running && m.idx == Some(i) && Fails(Condition(c, m, i))
    ensures var n := j - i + 1; var r := Steps(c, m, n);
      Broken(r) || (Stands(r, i, m.store.forStack, m.store.returnStack) && Visited(c, m, n, i, j + 1, 1))
  {
    hide StepOnce, At;
    var loops, calls := m.store.forStack, m.store.returnStack;
    Branch(c, m, i);
    var body := StepOnce(c, m);
    LinesRun(c, body, i + 1, j, loops, calls);
    var length := j - i - 1;
    var last := Steps(c, body, length);
    StepsAdd(c, body, length, 1);
    assert Steps(c, last, 1) == StepOnce(c, last);
    if Broken(last) {
      BrokenStays(c, last, 1);
    } else {
      Jumps(c, last, j);
      AtPosition(c, StepOnce(c, last), i);
      VisitsLast(c, body, length, i + 1, j);
      VisitsFirst(c, m, length + 1, i, i + 1, j + 1);
    }
  }

  /** Each of the positions from lo to j once and then one step at position j. */
  lemma VisitsLast(c: Setting, m: Machine, n: nat, lo: nat, j: nat)
    requires lo <= j && Visited(c, m, n, lo, j, 1) && Steps(c, m, n).running && Steps(c, m, n).idx == Some(j)
    ensures Visited(c, m, n + 1, lo, j + 1, 1)
  {
    hide StepOnce;
    var all := n + 1;
    forall p: nat
      ensures Visits(c, m, all, p) == if lo <= p < j + 1 then 1 else 0
    {
      VisitsAdd(c, m, n, 1, p);
      assert Visits(c, m, n, p) == if lo <= p < j then 1 else 0;
      assert Visits(c, Steps(c, m, n), 1, p) == if p == j then 1 else 0;
    }
  }

  /** From here the condition fails in so many rounds and then holds, unless a statement of the
      loop fails before. */
  ghost predicate FailsTimes(c: Setting, m: Machine, i: nat, length: nat, rounds: nat)
    requires Stored(c) && i < |c.order| && At(c, i).If?
    decreases rounds
  {
    var v := Condition(c, m, i);
    if rounds == 0 then v.Some? && !Fails(v)
    else Fails(v) && (Broken(Steps(c, m, length)) || FailsTimes(c, Steps(c, m, length), i, length, rounds - 1))
  }

  /** The loop is left, after so many rounds of it. */
  ghost predicate LoopLeft(c: Setting, m: Machine, i: nat, j: nat, exit: nat, rounds: nat, n: nat) {
    var r := Steps(c, m, n);
    Broken(r) || (Stands(r, exit, m.store.forStack, m.store.returnStack)
      && VisitedAt(c, m, n, i, rounds + 1, i + 1, j + 1, rounds))
  }

  /** If the condition fails `rounds` times and then holds, the loop is left right then: every
      line of it ran `rounds` times, the IF once more, and the loops and calls are as before. */
  lemma BranchLoopRuns(c: Setting, m: Machine, i: nat, j: nat, exit: nat, rounds: nat)
    requires BranchLoop(c, i, j, exit) && m.running && m.idx == Some(i) && FailsTimes(c, m, i, j - i + 1, rounds)
    ensures var n := rounds * (j - i + 1) + 1; var r := Steps(c, m, n);
      Broken(r) || (Stands(r, exit, m.store.forStack, m.store.returnStack)
        && VisitedAt(c, m, n, i, rounds + 1, i + 1, j + 1, rounds))
  {
    hide Steps, VisitedAt, FailsTimes, At, Straight;
    RoundsRun(c, m, i, j, exit, rounds);
    TotalIs(rounds, j - i + 1);
  }

  lemma {:induction false} RoundsRun(c: Setting, m: Machine, i: nat, j: nat, exit: nat, rounds: nat)
    requires BranchLoop(c, i, j, exit) && m.running && m.idx == Some(i) && FailsTimes(c, m, i, j - i + 1, rounds)
    ensures LoopLeft(c, m, i, j, exit, rounds, Total(rounds, j - i + 1) + 1)
    decreases rounds
  {
    hide Steps, StepOnce, At, Condition, Fails, Straight, VisitedAt, Visited, LoopLeft;
    var length := j - i + 1;
    if rounds == 0 {
      LeavesLoop(c, m, i, j, exit);
    } else {
      BranchRound(c, m, i, j, exit);
      var next := Steps(c, m, length);
      if !Broken(next) {
        RoundsRun(c, next, i, j, exit, rounds - 1);
      }
      AnotherRound(c, m, i, j, exit, rounds - 1, Total(rounds - 1, length) + 1);
    }
  }

  lemma AnotherRound(c: Setting, m: Machine, i: nat, j: nat, exit: nat, rounds: nat, n: nat)
    requires i <= j && var r := Steps(c, m, j - i + 1);
      Broken(r) || (Stands(r, i, m.store.forStack, m.store.returnStack) && Visited(c, m, j - i + 1, i, j + 1, 1)
        && LoopLeft(c, r, i, j, exit, rounds, n))
    ensures LoopLeft(c, m, i, j, exit, rounds + 1, j - i + 1 + n)
  {
    hide Steps, VisitedAt, Visited;
    var length := j - i + 1;
    var next := Steps(c, m, length);
    StepsAdd(c, m, length, n);
    if Broken(next) {
      BrokenStays(c, next, n);
    } else if !Broken(Steps(c, next, n)) {
      VisitsRound(c, m, i, j, length, n, rounds);
    }
  }

  lemma LeavesLoop(c: Setting, m: Machine, i: nat, j: nat, exit: nat)
    requires BranchLoop(c, i, j, exit) && m.running && m.idx == Some(i)
    requires Condition(c, m, i).Some? && !Fails(Condition(c, m, i))
    ensures LoopLeft(c, m, i, j, exit, 0, 1)
  {
    hide StepOnce;
    Branch(c, m, i);
    AtPosition(c, StepOnce(c, m), exit);
    assert Steps(c, m, 1) == StepOnce(c, m);
  }

  lemma VisitsRound(c: Setting, m: Machine, i: nat, j: nat, length: nat, n: nat, rounds: nat)
    requires i <= j && Visited(c, m, length, i, j + 1, 1)
    requires VisitedAt(c, Steps(c, m, length), n, i, rounds + 1, i + 1, j + 1, rounds)
    ensures VisitedAt(c, m, length + n, i, rounds + 2, i + 1, j + 1, rounds + 1)
  {
    hide StepOnce, Steps, Visits;
    var all := length + n;
    forall p: nat
      ensures Visits(c, m, all, p) == if p == i then rounds + 2 else if i < p <= j then rounds + 1 else 0
    {
      VisitsAdd(c, m, length, n, p);
      assert Visits(c, m, length, p) == if i <= p < j + 1 then 1 else 0;
    }
  }

  // ------------------------------------------------------------ subroutines

  /** From position p on, every line goes on to the next one or calls a subroutine of this kind
      with calls nested less deep, up to a RETURN. */
  ghost predicate Returns(c: Setting, depth: nat, p: nat)
    decreases depth, |c.order| - p
  {
    Stored(c) && p < |c.order| &&
    match At(c, p)
    case Return => true
    case Gosub(line) =>
      var target := Position(c.order, line);
      depth > 0 && target.Some? && Returns(c, depth - 1, target.value) && Returns(c, depth, p + 1)
    case s => Simple(s) && Returns(c, depth, p + 1)
  }

  /** How many statements that is, up to and with the RETURN. */
  ghost function Length(c: Setting, depth: nat, p: nat): nat
    requires Returns(c, depth, p)
    decreases depth, |c.order| - p
  {
    var s := At(c, p);
    if s.Return? then 1
    else if s.Gosub? then 1 + Length(c, depth - 1, Position(c.order, s.line).value) + Length(c, depth, p + 1)
    else 1 + Length(c, depth, p + 1)
  }

  /** RETURN goes back to the last position noted, and fails if none is. */
  lemma ReturnStep(c: Setting, m: Machine, p: nat)
    requires Stored(c) && p < |c.order| && At(c, p).Return? && m.running && m.idx == Some(p)
    ensures var r := StepOnce(c, m); var calls := m.store.returnStack;
      if calls == [] then Broken(r)
      else Stands(r, calls[|calls| - 1], m.store.forStack, calls[..|calls| - 1]) && r.store.vars == m.store.vars
  {
  }

  /** GOSUB goes to its line and notes the position after itself. */
  lemma GosubStep(c: Setting, m: Machine, i: nat)
    requires Stored(c) && i < |c.order| && At(c, i).Gosub? && m.running && m.idx == Some(i)
    ensures var r := StepOnce(c, m);
      AtLine(c, r, At(c, i).line) && r.store == m.store.(returnStack := m.store.returnStack + [i + 1])
  {
    LineStored(c.order, At(c, i).line);
  }

  /** A subroutine, unless one of its statements fails, comes back after `Length` steps to where
      it was called from, with the loops and the outer calls as they were. */
  lemma {:induction false} ComesBack(c: Setting, m: Machine, depth: nat, p: nat, back: nat,
                                     loops: seq<ForState>, calls: seq<nat>)
    requires Returns(c, depth, p) && Stands(m, p, loops, calls + [back])
    ensures var r := Steps(c, m, Length(c, depth, p)); Broken(r) || Stands(r, back, loops, calls)
    decreases depth, |c.order| - p, 0
  {
    hide StepOnce;
    var next, n := StepOnce(c, m), Length(c, depth, p) - 1;
    assert Steps(c, m, n + 1) == Steps(c, next, n);
    if At(c, p).Return? {
      ReturnStep(c, m, p);
      assert (calls + [back])[..|calls|] == calls;
    } else if At(c, p).Gosub? {
      GosubStep(c, m, p);
      var q := Position(c.order, At(c, p).line).value;
      AtPosition(c, next, q);
      ComesBack(c, next, depth - 1, q, p + 1, loops, calls + [back]);
      var inner := Length(c, depth - 1, q);
      GoesOn(c, next, depth, p + 1, inner, back, loops, calls);
    } else {
      SimpleStep(c, m, p, loops, calls + [back]);
      GoesOn(c, next, depth, p + 1, 0, back, loops, calls);
    }
  }

  /** The rest of a subroutine, after n steps that lead to it. */
  lemma GoesOn(c: Setting, m: Machine, depth: nat, p: nat, n: nat, back: nat, loops: seq<ForState>, calls: seq<nat>)
    requires Returns(c, depth, p)
    requires Broken(Steps(c, m, n)) || Stands(Steps(c, m, n), p, loops, calls + [back])
    ensures var r := Steps(c, m, n + Length(c, depth, p)); Broken(r) || Stands(r, back, loops, calls)
    decreases depth, |c.order| - p, 1
  {
    hide StepOnce, Steps, Returns, Length;
    var rest := Length(c, depth, p);
    StepsAdd(c, m, n, rest);
    if Broken(Steps(c, m, n)) {
      BrokenStays(c, Steps(c, m, n), rest);
    } else {
      ComesBack(c, Steps(c, m, n), depth, p, back, loops, calls);
    }
  }

  /** A call: from the GOSUB at position i, with calls nested to any depth, the flow comes to
      position i + 1 with both stacks as before. */
  lemma CallReturns(c: Setting, m: Machine, i: nat, depth: nat, q: nat)
    requires Stored(c) && i < |c.order| && q < |c.order| && At(c, i) == Statement.Gosub(c.order[q])
    requires Returns(c, depth, q) && m.running && m.idx == Some(i)
    ensures var r := Steps(c, m, 1 + Length(c, depth, q));
      Broken(r) || Stands(r, i + 1, m.store.forStack, m.store.returnStack)
  {
    hide StepOnce, Returns, Length;
    GosubStep(c, m, i);
    AtPosition(c, StepOnce(c, m), q);
    ComesBack(c, StepOnce(c, m), depth, q, i + 1, m.store.forStack, m.store.returnStack);
  }

  /** A call of straight-line code from position q to a RETURN at position j: the GOSUB and
      each of those lines run once, and nothing else does. */
  lemma CallVisits(c: Setting, m: Machine, i: nat, q: nat, j: nat)
    requires Straight(c, q, j) && i < |c.order| && At(c, i) == Statement.Gosub(c.order[q]) && At(c, j).Return?
    requires m.running && m.idx == Some(i)
    ensures var n := j - q + 2; var r := Steps(c, m, n);
      Broken(r) || (Stands(r, i + 1, m.store.forStack, m.store.returnStack) && VisitedAt(c, m, n, i, 1, q, j + 1, 1))
  {
    hide StepOnce, At;
    var loops, calls := m.store.forStack, m.store.returnStack;
    GosubStep(c, m, i);
    var body, length := StepOnce(c, m), j - q;
    AtPosition(c, body, q);
    LinesRun(c, body, q, j, loops, calls + [i + 1]);
    var last := Steps(c, body, length);
    StepsAdd(c, body, length, 1);
    assert Steps(c, last, 1) == StepOnce(c, last);
    if Broken(last) {
      BrokenStays(c, last, 1);
    } else {
      ReturnStep(c, last, j);
      assert (calls + [i + 1])[..|calls|] == calls;
      VisitsLast(c, body, length, q, j);
      VisitsFirst(c, m, length + 1, i, q, j + 1);
    }
  }

  /** END stops the program where it is. */
  lemma EndStep(c: Setting, m: Machine, i: nat)
    requires Stored(c) && i < |c.order| && At(c, i).End? && m.running && m.idx == Some(i)
    ensures var r := StepOnce(c, m); !r.running && r.status == Finished && r.store == m.store
  {
  }

  // --------------------------------------------------------------- variables

  /** Nothing but the variable x may differ. */
  ghost predicate OnlyChanges(x: string, before: Store, after: Store) {
    && after.forStack == before.forStack && after.returnStack == before.returnStack
    && forall y :: y != x ==> (y in after.vars <==> y in before.vars)
                              && (y in after.vars && y in before.vars ==> after.vars[y] == before.vars[y])
  }

  /** LET gives its variable the value of the expression, if it has one, and changes no other. */
  lemma LetStep(c: Setting, m: Machine, i: nat)
    requires Stored(c) && i < |c.order| && At(c, i).Let? && m.running && m.idx == Some(i)
    ensures var r := StepOnce(c, m); var x := At(c, i).name;
      var v := c.world.eval(m.now, m.store.vars, At(c, i).value);
      && (Broken(r) <==> v == None) && OnlyChanges(x, m.store, r.store)
      && (v.Some? ==> r.idx == Some(i + 1) && x in r.store.vars && r.store.vars[x] == v.value)
  {
  }

  /** DIM makes elements 0 to the size given, none for -1, all zero or all empty as the name
      ends in a dollar sign or not, and changes no other variable. */
  lemma DimStep(c: Setting, m: Machine, i: nat, size: i64)
    requires Stored(c) && i < |c.order| && At(c, i).Dim? && m.running && m.idx == Some(i)
    requires EvalInt(c.world, m.now, m.store.vars, At(c, i).size) == Some(size) && size >= -1
    ensures var r := StepOnce(c, m); var x := At(c, i).name;
      && r.idx == Some(i + 1) && !Broken(r) && OnlyChanges(x, m.store, r.store) && x in r.store.vars
      && if "$" <= x[if x == "" then 0 else |x| - 1..] then
           r.store.vars[x].StrArray? && |r.store.vars[x].ss| == size + 1 && forall s :: s in r.store.vars[x].ss ==> s == ""
         else
           r.store.vars[x].IntArray? && |r.store.vars[x].ns| == size + 1 && forall n :: n in r.store.vars[x].ns ==> n == 0
  {
    hide EvalInt;
  }

  /** The number of elements of an array. */
  function Elements(v: Value): nat {
    if v.IntArray? then |v.ns| else if v.StrArray? then |v.ss| else 0
  }

  /** Assigning to an element fails exactly if there is no such element; otherwise that element
      alone changes, to the value or, if that is of the other kind, to zero or the empty string. */
  lemma ElementStep(c: Setting, m: Machine, i: nat, index: i64, v: Value)
    requires Stored(c) && i < |c.order| && At(c, i).ArrayAssign? && m.running && m.idx == Some(i)
    requires EvalInt(c.world, m.now, m.store.vars, At(c, i).index) == Some(index)
    requires c.world.eval(m.now, m.store.vars, At(c, i).value) == Some(v)
    requires At(c, i).name in m.store.vars ==> Elements(m.store.vars[At(c, i).name]) <= TWO_63
    ensures var r := StepOnce(c, m); var x := At(c, i).name; var was := m.store.vars;
      && (Broken(r) <==> x !in was || !(0 <= index < Elements(was[x]))) && OnlyChanges(x, m.store, r.store)
      && (!Broken(r) ==>
            && r.idx == Some(i + 1) && x in r.store.vars
            && (was[x].IntArray? ==> r.store.vars[x] == IntArray(was[x].ns[index := if v.Int? then v.n else 0]))
            && (was[x].StrArray? ==> r.store.vars[x] == StrArray(was[x].ss[index := if v.Str? then v.s else ""])))
  {
    hide EvalInt;
    IndexUnsigned(index);
  }

  /** A negative index becomes a number no array reaches. */
  lemma IndexUnsigned(index: i64)
    ensures index % TWO_64 == if index >= 0 then index as int else index + TWO_64
  {
  }

  /** SLEEP goes on to the next position and asks for a pause of that many milliseconds; a
      negative number is taken for a large one. */
  lemma SleepStep(c: Setting, m: Machine, i: nat, ms: i64)
    requires Stored(c) && i < |c.order| && At(c, i).Sleep? && m.running && m.idx == Some(i)
    requires EvalInt(c.world, m.now, m.store.vars, At(c, i).value) == Some(ms)
    ensures var r := StepOnce(c, m);
      && r.running && r.idx == Some(i + 1) && r.store == m.store
      && r.status == Sleeping(if ms >= 0 then ms else ms + TWO_64)
  {
    hide EvalInt;
    IndexUnsigned(ms);
  }

  /** PRINT, REM, SPAWN, SEND and CLOSE store nothing; they fail exactly if something they print
      has no value, the program cannot be started, the socket is no number or what is to be
      sent no string. */
  lemma EffectFreeStep(c: Setting, m: Machine, i: nat)
    requires Stored(c) && i < |c.order| && m.running && m.idx == Some(i)
    requires var s := At(c, i); s.Print? || s.Rem? || s.Spawn? || s.Send? || s.Close?
    ensures var r, s := StepOnce(c, m), At(c, i);
      && r.store == m.store && (!Broken(r) ==> r.idx == Some(i + 1))
      && (Broken(r) <==>
            || (s.Print? && exists k :: 0 <= k < |s.items| && c.world.eval(m.now, m.store.vars, s.items[k]).None?)
            || (s.Spawn? && !c.world.spawns(m.now))
            || ((s.Send? || s.Close?) && EvalInt(c.world, m.now, m.store.vars, s.sock).None?)
            || (s.Send? && !HasText(c.world.eval(m.now, m.store.vars, s.data))))
  {
    hide EvalInt;
  }

  predicate HasText(v: Option<Value>) {
    v.Some? && v.value.Str?
  }
}
