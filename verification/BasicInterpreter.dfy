/** The interpreter of src/basic/interpreter.rs. */
module BasicInterpreter {
  import opened Options
  import opened Bytes
  import opened BasicSyntax
  import opened BasicGrammar
  import opened BasicParser
  import opened BasicListing
  import opened BasicProgram
  import opened BasicMachine
  import L = BasicLoops

  predicate IsLeast(m: u32, s: set<u32>) {
    m in s && forall x :: x in s ==> m <= x
  }

  lemma LesserIsLeast(k: u32, n: u32, s: set<u32>)
    requires k in s && IsLeast(n, s - {k})
    ensures IsLeast(if k < n then k else n, s)
  {
    assert forall x :: x in s ==> x == k || x in s - {k};
  }

  lemma {:induction false} HasLeast(s: set<u32>)
    requires s != {}
    ensures exists m :: IsLeast(m, s)
  {
    hide IsLeast;
    var k :| k in s;
    if s == {k} {
      OnlyIsLeast(k, s);
    } else {
      HasLeast(s - {k});
      var n :| IsLeast(n, s - {k});
      LesserIsLeast(k, n, s);
    }
  }

  lemma OnlyIsLeast(k: u32, s: set<u32>)
    requires s == {k}
    ensures IsLeast(k, s)
  {
  }

  function Least(s: set<u32>): (m: u32)
    requires s != {}
    ensures IsLeast(m, s)
  {
    HasLeast(s);
    var m :| m in s && IsLeast(m, s);
    m
  }

  /** The elements in increasing order, as an ordered map delivers its keys. */
  function Sorted(s: set<u32>): (order: seq<u32>)
    ensures L.Increasing(order) && forall x :: x in s <==> x in order
  {
    if s == {} then []
    else
      var m := Least(s);
      var rest := Sorted(s - {m});
      assert forall i :: 0 <= i < |rest| ==> rest[i] in s - {m};
      [m] + rest
  }

  /** The action a method chose and the storage it left agree with an outcome; a failure
      leaves the storage as it was. */
  ghost predicate Matches(r: Outcome, action: Option<Action>, before: BasicMachine.Store, after: BasicMachine.Store) {
    if action.Some? then r == Done(action.value, after) else r.Failed? && after == before
  }

  class Interpreter {
    var program: Program
    var lineOrder: seq<u32>
    var currentIdx: Option<nat>
    var variables: Variables
    var forStack: seq<ForState>
    var returnStack: seq<nat>
    var status: Status
    var running: bool
    /** Counts executed statements, as the moment at which the world is consulted. */
    var now: nat

    /** The line order is increasing and within the program at all times. */
    ghost predicate Valid()
      reads this
    {
      L.Increasing(lineOrder) && forall i :: 0 <= i < |lineOrder| ==> lineOrder[i] in program
    }

    ghost function View(): Machine
      reads this
    {
      Machine(BasicMachine.Store(variables, forStack, returnStack), currentIdx, running, status, now)
    }

    constructor ()
      ensures Valid() && program == map[] && lineOrder == [] && !running
    {
      program, lineOrder, currentIdx, variables := map[], [], None, map[];
      forStack, returnStack, status, running, now := [], [], Ready, false, 0;
    }

    method RebuildLineOrder()
      modifies this`lineOrder
      ensures Valid() && Ordered(lineOrder, program)
    {
      lineOrder := Sorted(program.Keys);
    }

    /** Stores every numbered line of the source. A syntax error ends the load: the lines before
        it are stored, but the line order is not rebuilt. */
    method LoadProgram(source: seq<Token>) returns (loaded: Option<nat>)
      requires Valid() && Eof !in source
      modifies this
      ensures Valid() && View() == old(View())
      ensures program == BasicProgram.Store(old(program), ReadLines(source))
      ensures if ParseProgram(source).Ok? then loaded == Some(|ReadLines(source)|) && Ordered(lineOrder, program)
              else loaded == None && lineOrder == old(lineOrder)
    {
      hide ParseLine, ParseProgram, ReadLines, Ordered;
      var parser := new Parser(source);
      var count := 0;
      ghost var stored: seq<Numbered> := [];
      while true
        invariant Valid() && View() == old(View()) && lineOrder == old(lineOrder)
        invariant parser.Valid() && fresh(parser)
        invariant ParseProgram(source).Ok? <==> ParseProgram(parser.Left()).Ok?
        invariant ReadLines(source) == stored + ReadLines(parser.Left())
        invariant count == |stored| && program == BasicProgram.Store(old(program), stored)
        decreases |parser.Left()|
      {
        ghost var here := parser.Left();
        var line := parser.ParseLine();
        if line.None? || line.value.None? {
          LoadEnds(here);
          assert stored + [] == stored;
          if line.None? {
            return None;
          }
          break;
        }
        LoadGoesOn(stored, here, line.value.value, parser.Left());
        StoreKept(old(program), stored, line.value.value);
        stored := stored + Kept(line.value.value);
        var stores := StoreLine(line.value.value);
        count := if stores then count + 1 else count;
      }
      RebuildLineOrder();
      loaded := Some(count);
    }

    /** Stores a line if it is numbered. */
    method StoreLine(line: Line) returns (stores: bool)
      requires Valid()
      modifies this`program
      ensures Valid() && stores == line.number.Some?
      ensures program == BasicProgram.Store(old(program), Kept(line))
    {
      stores := line.number.Some?;
      if stores {
        program := program[line.number.value := line.statement];
      }
    }

    method SetLine(number: u32, s: Statement)
      requires Valid()
      modifies this`program, this`lineOrder
      ensures Valid() && program == old(program)[number := s] && Ordered(lineOrder, program)
    {
      program := program[number := s];
      RebuildLineOrder();
    }

    method DeleteLine(number: u32)
      requires Valid()
      modifies this`program, this`lineOrder
      ensures Valid() && program == old(program) - {number} && Ordered(lineOrder, program)
    {
      program := program - {number};
      RebuildLineOrder();
    }

    method Clear()
      modifies this
      ensures Valid() && program == map[] && lineOrder == [] && variables == map[] && forStack == []
      ensures currentIdx == None && !running && returnStack == old(returnStack) && status == old(status)
    {
      program, lineOrder, variables, forStack, currentIdx, running := map[], [], map[], [], None, false;
    }

    method Run()
      requires Valid()
      modifies this
      ensures Valid() && program == old(program) && lineOrder == old(lineOrder)
      ensures if lineOrder == [] then View() == old(View()).(status := Error)
              else View() == Machine(BasicMachine.Store(map[], [], []), Some(0), true, Ready, now)
    {
      if lineOrder == [] {
        status := Error;
        return;
      }
      currentIdx, variables, forStack, returnStack := Some(0), map[], [], [];
      running, status := true, Ready;
    }

    // -------------------------------------------------------------- execution

    ghost function Storage(): BasicMachine.Store
      reads this
    {
      BasicMachine.Store(variables, forStack, returnStack)
    }

    /** The first line number after the given one. */
    method FindLineAfter(line: u32) returns (next: u32)
      ensures next == LineAfter(lineOrder, line)
    {
      for i := 0 to |lineOrder|
        invariant LineAfter(lineOrder, line) == LineAfter(lineOrder[i..], line)
      {
        if lineOrder[i] > line {
          return lineOrder[i];
        }
        assert lineOrder[i..][1..] == lineOrder[i + 1..];
      }
      next := line;
    }

    method FindPosition(line: u32) returns (at: Option<nat>)
      ensures at == Position(lineOrder, line)
    {
      for i := 0 to |lineOrder|
        invariant Position(lineOrder, line)
               == var r := Position(lineOrder[i..], line); if r.None? then None else Some(r.value + i)
      {
        assert lineOrder[i..][1..] == lineOrder[i + 1..];
        if lineOrder[i] == line {
          return Some(i);
        }
      }
      at := None;
    }

    method FindInnermost(x: string) returns (at: Option<nat>)
      ensures at == InnermostFor(forStack, x)
    {
      var i := |forStack|;
      assert forStack[..i] == forStack;
      while i > 0
        invariant 0 <= i <= |forStack| && InnermostFor(forStack, x) == InnermostFor(forStack[..i], x)
      {
        assert forStack[..i][..i - 1] == forStack[..i - 1];
        i := i - 1;
        if forStack[i].name == x {
          return Some(i);
        }
      }
      at := None;
    }

    method ExecuteFor(w: World, s: Statement, line: u32) returns (action: Option<Action>)
      requires s.For?
      modifies this`variables, this`forStack
      ensures Matches(BasicMachine.ExecuteFor(w, now, lineOrder, s, line, old(Storage())),
                      action, old(Storage()), Storage())
    {
      var start := EvalInt(w, now, variables, s.start);
      if start.None? {
        return None;
      }
      var end := EvalInt(w, now, variables, s.end);
      if end.None? {
        return None;
      }
      var step := EvalInt(w, now, variables, s.step);
      if step.None? {
        return None;
      }
      variables := variables[s.name := Int(start.value)];
      var body := FindLineAfter(line);
      forStack := forStack + [ForState(s.name, end.value, step.value, body)];
      action := Some(Continue);
    }

    method ExecuteNext(x: string) returns (action: Option<Action>)
      modifies this`variables, this`forStack
      ensures Matches(BasicMachine.ExecuteNext(x, old(Storage())), action, old(Storage()), Storage())
    {
      var at := FindInnermost(x);
      if at.None? {
        return None;
      }
      var loop := forStack[at.value];
      if x !in variables || !variables[x].Int? {
        return None;
      }
      var next := Wrap64(variables[x].n + loop.step);
      if Continues(next, loop) {
        variables := variables[x := Int(next)];
        action := Some(Jump(loop.bodyLine));
      } else {
        forStack := forStack[..at.value] + forStack[at.value + 1..];
        action := Some(Continue);
      }
    }

    method EvaluateAll(w: World, items: seq<Expr>) returns (ok: bool)
      ensures ok == EvaluatesAll(w, now, variables, items)
    {
      for i := 0 to |items|
        invariant forall k :: 0 <= k < i ==> w.eval(now, variables, items[k]).Some?
      {
        var v := w.eval(now, variables, items[i]);
        if v.None? {
          return false;
        }
      }
      ok := true;
    }

    method ExecuteStatement(w: World, s: Statement, line: u32, idx: nat) returns (action: Option<Action>)
      modifies this`variables, this`forStack, this`returnStack
      ensures Matches(Execute(w, now, lineOrder, s, line, idx, old(Storage())), action, old(Storage()), Storage())
    {
      hide BasicMachine.ExecuteFor, BasicMachine.ExecuteNext, NewArray, StoreElement, EvaluatesAll;
      match s
      case Print(items) =>
        var ok := EvaluateAll(w, items);
        action := if ok then Some(Continue) else None;
      case Let(x, e) =>
        var v := w.eval(now, variables, e);
        if v.None? {
          return None;
        }
        variables := variables[x := v.value];
        action := Some(Continue);
      case If(e, n) =>
        var v := w.eval(now, variables, e);
        action := if v.None? then None else if Truthy(v.value) then Some(Jump(n)) else Some(Continue);
      case Goto(n) => action := Some(Jump(n));
      case Gosub(n) =>
        returnStack := returnStack + [idx + 1];
        action := Some(Jump(n));
      case Return =>
        if returnStack == [] {
          return None;
        }
        var target := returnStack[|returnStack| - 1];
        returnStack := returnStack[..|returnStack| - 1];
        action := Some(JumpToIndex(target));
      case For(_, _, _, _) => action := ExecuteFor(w, s, line);
      case Next(x) => action := ExecuteNext(x);
      case Sleep(e) =>
        var ms := EvalInt(w, now, variables, e);
        action := if ms.None? then None else Some(Pause(ms.value % TWO_64));
      case Rem => action := Some(Continue);
      case End => action := Some(Stop);
      case Spawn(_, _) => action := if w.spawns(now) then Some(Continue) else None;
      case Dim(_, _) => action := ExecuteArray(w, s);
      case ArrayAssign(_, _, _) => action := ExecuteArray(w, s);
      case Send(sock, data) =>
        var handle := EvalInt(w, now, variables, sock);
        var text := w.eval(now, variables, data);
        action := if handle.Some? && text.Some? && text.value.Str? then Some(Continue) else None;
      case Close(sock) =>
        var handle := EvalInt(w, now, variables, sock);
        action := if handle.Some? then Some(Continue) else None;
    }

    method ExecuteArray(w: World, s: Statement) returns (action: Option<Action>)
      requires s.Dim? || s.ArrayAssign?
      modifies this`variables
      ensures Matches(BasicMachine.ExecuteArray(w, now, s, old(Storage())), action, old(Storage()), Storage())
    {
      hide NewArray, StoreElement;
      if s.Dim? {
        var n := EvalInt(w, now, variables, s.size);
        if n.None? {
          return None;
        }
        variables := variables[s.name := NewArray(s.name, n.value)];
      } else {
        var i := EvalInt(w, now, variables, s.index);
        var v := w.eval(now, variables, s.value);
        if i.None? || v.None? {
          return None;
        }
        var changed := StoreElement(variables, s.name, i.value, v.value);
        if changed.None? {
          return None;
        }
        variables := changed.value;
      }
      action := Some(Continue);
    }

    /** Executes one statement and moves on. */
    method Step(w: World)
      requires Valid()
      modifies this`variables, this`forStack, this`returnStack, this`currentIdx, this`status, this`running, this`now
      ensures Valid() && View() == StepOnce(Setting(program, lineOrder, w), old(View()))
    {
      hide Execute;
      if !running {
        return;
      }
      if currentIdx.None? {
        running := false;
        return;
      }
      var idx := currentIdx.value;
      if idx >= |lineOrder| {
        running, status := false, Finished;
        return;
      }
      var line := lineOrder[idx];
      var action := ExecuteStatement(w, program[line], line, idx);
      now := now + 1;
      if action.None? {
        running, status := false, Error;
      } else {
        MoveOn(w, idx, action.value);
      }
    }

    method MoveOn(ghost w: World, idx: nat, action: Action)
      requires Valid()
      modifies this`currentIdx, this`status, this`running
      ensures Valid() && View() == Follow(Setting(program, lineOrder, w), old(View()), idx, action)
    {
      match action
      case Continue =>
        currentIdx := Some(idx + 1);
        if idx + 1 >= |lineOrder| {
          running, status := false, Finished;
        } else {
          status := Ready;
        }
      case Jump(line) =>
        var target := FindPosition(line);
        if target.Some? {
          currentIdx, status := target, Ready;
        } else {
          running, status := false, Error;
        }
      case JumpToIndex(k) =>
        currentIdx, status := Some(k), Ready;
      case Pause(ms) =>
        currentIdx, status := Some(idx + 1), Sleeping(ms);
      case Stop =>
        running, status := false, Finished;
    }

    /** Prints the stored lines in order. */
    method ListProgram() returns (out: seq<Token>)
      requires Valid()
      ensures out == Listing(LinesOf(program, lineOrder))
    {
      hide ListLine;
      ghost var lines := LinesOf(program, lineOrder);
      out := [];
      for i := 0 to |lineOrder|
        invariant out + Listing(lines[i..]) == Listing(lines)
      {
        var line := Numbered(lineOrder[i], program[lineOrder[i]]);
        out := out + ListLine(line);
        assert lines[i..][0] == line && lines[i..][1..] == lines[i + 1..];
      }
      assert lines[|lineOrder|..] == [];
    }
  }

  lemma LoadEnds(ts: seq<Token>)
    requires ParseLine(ts).Ok? ==> ParseLine(ts).value.None?
    ensures ReadLines(ts) == [] && (ParseProgram(ts).Ok? <==> ParseLine(ts).Ok?)
  {
    hide ParseLine;
  }

  lemma StoreKept(p: Program, before: seq<Numbered>, line: Line)
    ensures BasicProgram.Store(p, before + Kept(line)) == BasicProgram.Store(BasicProgram.Store(p, before), Kept(line))
  {
    var kept := Kept(line);
    if kept == [] {
      assert before + kept == before;
    } else {
      assert (before + kept)[..|before|] == before && kept[..0] == [];
    }
  }

  lemma LoadGoesOn(before: seq<Numbered>, here: seq<Token>, line: Line, rest: seq<Token>)
    requires ParseLine(here) == Ok(Some(line), rest)
    ensures before + ReadLines(here) == before + Kept(line) + ReadLines(rest)
    ensures ParseProgram(here).Ok? <==> ParseProgram(rest).Ok?
  {
    hide ParseLine;
    assert before + (Kept(line) + ReadLines(rest)) == before + Kept(line) + ReadLines(rest);
  }
}
