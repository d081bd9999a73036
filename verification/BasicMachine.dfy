/** Execution of BASIC programs, one statement at a time (src/basic/interpreter.rs). */
module BasicMachine {
  import opened Options
  import opened Bytes
  import opened BasicSyntax

  const TWO_63: int := 0x8000_0000_0000_0000
  const TWO_64: nat := 0x1_0000_0000_0000_0000

  type i64 = n: int | -0x8000_0000_0000_0000 <= n < 0x8000_0000_0000_0000

  /** A sum as the optimised build computes it: the low 64 bits, signed. */
  function Wrap64(n: int): (r: i64)
    ensures -TWO_63 <= n < TWO_63 ==> r == n
  {
    (n + TWO_63) % TWO_64 - TWO_63
  }

  datatype Value = Int(n: i64) | Str(s: string) | IntArray(ns: seq<i64>) | StrArray(ss: seq<string>)

  type Variables = map<string, Value>

  /** Evaluation of expressions and the fate of SPAWN, both of which may depend on the moment;
      no value is an error. */
  datatype World = World(eval: (nat, Variables, Expr) -> Option<Value>, spawns: nat -> bool)

  datatype ForState = ForState(name: string, end: i64, step: i64, bodyLine: u32)

  datatype Store = Store(vars: Variables, forStack: seq<ForState>, returnStack: seq<nat>)

  datatype Action = Continue | Jump(line: u32) | JumpToIndex(target: nat) | Pause(ms: nat) | Stop

  datatype Outcome = Done(action: Action, store: Store) | Failed

  function EvalInt(w: World, now: nat, vars: Variables, e: Expr): Option<i64> {
    match w.eval(now, vars, e)
    case Some(Int(n)) => Some(n)
    case _ => None
  }

  predicate Truthy(v: Value) {
    match v
    case Int(n) => n != 0
    case Str(s) => s != ""
    case IntArray(ns) => ns != []
    case StrArray(ss) => ss != []
  }

  /** The first line after the given one, or that line itself when there is none. */
  function LineAfter(order: seq<u32>, line: u32): u32 {
    if order == [] then line else if order[0] > line then order[0] else LineAfter(order[1..], line)
  }

  /** The position of the innermost loop over a variable. */
  function InnermostFor(stack: seq<ForState>, x: string): (r: Option<nat>)
    ensures r.Some? ==> r.value < |stack| && stack[r.value].name == x
  {
    if stack == [] then None
    else if stack[|stack| - 1].name == x then Some(|stack| - 1)
    else InnermostFor(stack[..|stack| - 1], x)
  }

  predicate Continues(next: int, loop: ForState) {
    if loop.step > 0 then next <= loop.end else next >= loop.end
  }

  function ExecuteFor(w: World, now: nat, order: seq<u32>, s: Statement, line: u32, st: Store): Outcome
    requires s.For?
  {
    var a := EvalInt(w, now, st.vars, s.start);
    var b := EvalInt(w, now, st.vars, s.end);
    var c := EvalInt(w, now, st.vars, s.step);
    if a.None? || b.None? || c.None? then Failed
    else
      var vars := st.vars[s.name := Int(a.value)];
      var loop := ForState(s.name, b.value, c.value, LineAfter(order, line));
      Done(Continue, st.(vars := vars, forStack := st.forStack + [loop]))
  }

  function ExecuteNext(x: string, st: Store): Outcome {
    match InnermostFor(st.forStack, x)
    case None => Failed
    case Some(i) =>
      if x !in st.vars || !st.vars[x].Int? then Failed
      else
        var loop := st.forStack[i];
        var next := Wrap64(st.vars[x].n + loop.step);
        if Continues(next, loop) then
          var vars := st.vars[x := Int(next)];
          Done(Jump(loop.bodyLine), st.(vars := vars))
        else Done(Continue, st.(forStack := st.forStack[..i] + st.forStack[i + 1..]))
  }

  function EvaluatesAll(w: World, now: nat, vars: Variables, items: seq<Expr>): bool {
    forall i :: 0 <= i < |items| ==> w.eval(now, vars, items[i]).Some?
  }

  /** Storing in an array that exists, at an index within it. */
  function StoreElement(vars: Variables, x: string, index: int, v: Value): Option<Variables> {
    var i := index % TWO_64;
    if x !in vars then None
    else
      match vars[x]
      case IntArray(ns) =>
        if i < |ns| then
          var element := if v.Int? then v.n else 0;
          Some(vars[x := IntArray(ns[i := element])])
        else None
      case StrArray(ss) =>
        if i < |ss| then
          var element := if v.Str? then v.s else "";
          Some(vars[x := StrArray(ss[i := element])])
        else None
      case _ => None
  }

  function NewArray(x: string, size: int): Value {
    var n := (size % TWO_64 + 1) % TWO_64;
    if x != "" && x[|x| - 1] == '$' then StrArray(seq(n, _ => "")) else IntArray(seq(n, _ => 0))
  }

  function ExecuteArray(w: World, now: nat, s: Statement, st: Store): Outcome
    requires s.Dim? || s.ArrayAssign?
  {
    if s.Dim? then
      var n := EvalInt(w, now, st.vars, s.size);
      if n.None? then Failed
      else
        var vars := st.vars[s.name := NewArray(s.name, n.value)];
        Done(Continue, st.(vars := vars))
    else
      var i := EvalInt(w, now, st.vars, s.index);
      var v := w.eval(now, st.vars, s.value);
      if i.None? || v.None? then Failed
      else
        var vars := StoreElement(st.vars, s.name, i.value, v.value);
        if vars.None? then Failed else Done(Continue, st.(vars := vars.value))
  }

  function ExecuteNet(w: World, now: nat, s: Statement, st: Store): Outcome
    requires s.Send? || s.Close?
  {
    if EvalInt(w, now, st.vars, s.sock).None? then Failed
    else if s.Send? then
      var data := w.eval(now, st.vars, s.data);
      if data.Some? && data.value.Str? then Done(Continue, st) else Failed
    else Done(Continue, st)
  }

  function Execute(w: World, now: nat, order: seq<u32>, s: Statement, line: u32, idx: nat, st: Store): Outcome {
    match s
    case Print(items) => if EvaluatesAll(w, now, st.vars, items) then Done(Continue, st) else Failed
    case Let(x, e) =>
      var v := w.eval(now, st.vars, e);
      if v.None? then Failed
      else
        var vars := st.vars[x := v.value];
        Done(Continue, st.(vars := vars))
    case If(e, n) =>
      var v := w.eval(now, st.vars, e);
      if v.None? then Failed else Done(if Truthy(v.value) then Jump(n) else Continue, st)
    case Goto(n) => Done(Jump(n), st)
    case Gosub(n) => Done(Jump(n), st.(returnStack := st.returnStack + [idx + 1]))
    case Return =>
      var k := |st.returnStack|;
      if k == 0 then Failed
      else Done(JumpToIndex(st.returnStack[k - 1]), st.(returnStack := st.returnStack[..k - 1]))
    case For(_, _, _, _) => ExecuteFor(w, now, order, s, line, st)
    case Next(x) => ExecuteNext(x, st)
    case Sleep(e) =>
      var ms := EvalInt(w, now, st.vars, e);
      if ms.None? then Failed else Done(Pause(ms.value % TWO_64), st)
    case Rem => Done(Continue, st)
    case End => Done(Stop, st)
    case Spawn(_, _) => if w.spawns(now) then Done(Continue, st) else Failed
    case Dim(_, _) => ExecuteArray(w, now, s, st)
    case ArrayAssign(_, _, _) => ExecuteArray(w, now, s, st)
    case Send(_, _) => ExecuteNet(w, now, s, st)
    case Close(_) => ExecuteNet(w, now, s, st)
  }

  // -------------------------------------------------------------------- steps

  datatype Status = Ready | Sleeping(ms: nat) | Finished | Error

  datatype Machine = Machine(store: Store, idx: Option<nat>, running: bool, status: Status, now: nat)

  /** The program, its lines in order and the world around it. */
  datatype Setting = Setting(program: map<u32, Statement>, order: seq<u32>, world: World)

  function Position(order: seq<u32>, line: u32): (r: Option<nat>)
    ensures r.Some? ==> r.value < |order| && order[r.value] == line
  {
    if order == [] then None
    else if order[0] == line then Some(0)
    else
      var r := Position(order[1..], line);
      if r.None? then None else Some(r.value + 1)
  }

  function Follow(c: Setting, m: Machine, i: nat, action: Action): Machine {
    match action
    case Continue =>
      if i + 1 >= |c.order| then m.(idx := Some(i + 1), running := false, status := Finished)
      else m.(idx := Some(i + 1), status := Ready)
    case Jump(line) =>
      var target := Position(c.order, line);
      if target.Some? then m.(idx := target, status := Ready) else m.(running := false, status := Error)
    case JumpToIndex(k) => m.(idx := Some(k), status := Ready)
    case Pause(ms) => m.(idx := Some(i + 1), status := Sleeping(ms))
    case Stop => m.(running := false, status := Finished)
  }

  function StepOnce(c: Setting, m: Machine): Machine {
    if !m.running then m
    else if m.idx.None? then m.(running := false)
    else
      var i := m.idx.value;
      if i >= |c.order| then m.(running := false, status := Finished)
      else if c.order[i] !in c.program then m.(running := false, status := Error)
      else
        var line := c.order[i];
        match Execute(c.world, m.now, c.order, c.program[line], line, i, m.store)
        case Failed => m.(running := false, status := Error, now := m.now + 1)
        case Done(action, store) => Follow(c, m.(store := store, now := m.now + 1), i, action)
  }

  function Steps(c: Setting, m: Machine, n: nat): Machine
    decreases n
  {
    if n == 0 then m else Steps(c, StepOnce(c, m), n - 1)
  }

  /** How often the statement at a position is executed in the next n steps. */
  function Visits(c: Setting, m: Machine, n: nat, k: nat): nat
    decreases n
  {
    if n == 0 then 0
    else (if m.running && m.idx == Some(k) then 1 else 0) + Visits(c, StepOnce(c, m), n - 1, k)
  }
}
