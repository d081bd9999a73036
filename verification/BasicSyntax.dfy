/** Tokens, expressions and statements of the BASIC dialect (src/basic/lexer.rs,
    src/basic/parser.rs) and the printer behind LIST (src/basic/interpreter.rs), which this
    model follows at the level of tokens. */
module BasicSyntax {
  import opened Bytes

  datatype BinaryOp = Add | Sub | Mul | Div | Eq | Ne | Lt | Gt | Le | Ge

  /** The built-in functions, by number of arguments; MID$ takes three and SOCKET none. */
  datatype Function1 = Mem | Chr | Asc | Len | Str | Val | Accept | Recv | Sockstate
  datatype Function2 = Left | Instr | Listen

  /** The ten operator tokens are one constructor, since `=` and `-` have a second role. */
  datatype Token =
    | Integer(n: int) | StringLit(text: string) | Identifier(name: string)
    | Operator(op: BinaryOp) | Name1(f1: Function1) | Name2(f2: Function2) | NameMid | NameSocket
    | LParen | RParen | Semicolon | Comma | Newline | Eof
    | Print | Let | If | Then | Goto | For | To | Step | Next | Sleep | Rem | End | Spawn
    | Gosub | Return | Dim | Send | Close | Run | List | New | Load | Memstats

  datatype Expr =
    | Number(n: int)
    | Text(text: string)
    | Variable(name: string)
    | Binary(left: Expr, op: BinaryOp, right: Expr)
    | Negate(inner: Expr)
    | Call1(f1: Function1, arg: Expr)
    | Call2(f2: Function2, arg: Expr, arg2: Expr)
    | Mid(arg: Expr, arg2: Expr, arg3: Expr)
    | Socket
    | ArrayAccess(name: string, index: Expr)

  datatype Statement =
    | Print(items: seq<Expr>)
    | Let(name: string, value: Expr)
    | If(condition: Expr, line: u32)
    | Goto(line: u32)
    | Gosub(line: u32)
    | Return
    | For(name: string, start: Expr, end: Expr, step: Expr)
    | Next(name: string)
    | Sleep(value: Expr)
    | Rem
    | End
    | Spawn(program: string, args: seq<string>)
    | Dim(name: string, size: Expr)
    | ArrayAssign(name: string, index: Expr, value: Expr)
    | Send(sock: Expr, data: Expr)
    | Close(sock: Expr)

  // ---------------------------------------------------------------- printing

  /** A negative literal prints as a minus sign and a literal; nothing is parenthesised. */
  function FormatExpr(e: Expr): seq<Token> {
    match e
    case Number(n) => if n < 0 then [Operator(Sub), Integer(-n)] else [Integer(n)]
    case Text(s) => [StringLit(s)]
    case Variable(x) => [Identifier(x)]
    case Binary(l, op, r) => FormatExpr(l) + [Operator(op)] + FormatExpr(r)
    case Negate(x) => [Operator(Sub)] + FormatExpr(x)
    case Call1(f, a) => [Name1(f), LParen] + FormatExpr(a) + [RParen]
    case Call2(f, a, b) => [Name2(f), LParen] + FormatExpr(a) + [Comma] + FormatExpr(b) + [RParen]
    case Mid(a, b, c) =>
      [NameMid, LParen] + FormatExpr(a) + [Comma] + FormatExpr(b) + [Comma] + FormatExpr(c) + [RParen]
    case Socket => [NameSocket, LParen, RParen]
    case ArrayAccess(x, i) => [Identifier(x), LParen] + FormatExpr(i) + [RParen]
  }

  function FormatItems(items: seq<Expr>): seq<Token>
    decreases |items|, 0
  {
    if items == [] then []
    else FormatExpr(items[0]) + FormatMoreItems(items[1..])
  }

  function FormatMoreItems(items: seq<Expr>): seq<Token>
    decreases |items|, 1
  {
    if items == [] then [] else [Semicolon] + FormatItems(items)
  }

  function FormatArgs(args: seq<string>): seq<Token> {
    if args == [] then [] else [Comma, StringLit(args[0])] + FormatArgs(args[1..])
  }

  function FormatStatement(s: Statement): seq<Token> {
    match s
    case Print(items) => [Token.Print] + FormatItems(items)
    case Let(x, e) => [Token.Let, Identifier(x), Operator(Eq)] + FormatExpr(e)
    case If(e, n) => [Token.If] + FormatExpr(e) + [Then, Integer(n)]
    case Goto(n) => [Token.Goto, Integer(n)]
    case Gosub(n) => [Token.Gosub, Integer(n)]
    case Return => [Token.Return]
    case For(x, a, b, c) =>
      [Token.For, Identifier(x), Operator(Eq)] + FormatExpr(a) + [To] + FormatExpr(b) + [Step] + FormatExpr(c)
    case Next(x) => [Token.Next, Identifier(x)]
    case Sleep(e) => [Token.Sleep] + FormatExpr(e)
    case Rem => [Token.Rem]
    case End => [Token.End]
    case Spawn(p, args) => [Token.Spawn, StringLit(p)] + FormatArgs(args)
    case Dim(x, e) => [Token.Dim, Identifier(x), LParen] + FormatExpr(e) + [RParen]
    case ArrayAssign(x, i, e) =>
      [Identifier(x), LParen] + FormatExpr(i) + [RParen, Operator(Eq)] + FormatExpr(e)
    case Send(a, b) => [Token.Send] + FormatExpr(a) + [Comma] + FormatExpr(b)
    case Close(e) => [Token.Close] + FormatExpr(e)
  }

  // -------------------------------------------------- what can be read back

  /** Comparisons bind loosest, then addition, then multiplication. */
  function Precedence(op: BinaryOp): (k: nat)
    ensures k <= 2
  {
    match op
    case Add | Sub => 1
    case Mul | Div => 2
    case _ => 0
  }

  /** The tree can stand, without parentheses, where the grammar expects level k: 0 to 2 the
      binary operators, 3 a negation, 4 a primary. Operators associate to the left, only
      primaries are negated and literals are not negative. */
  predicate Fits(k: nat, e: Expr)
    decreases e
  {
    match e
    case Number(n) => n >= 0
    case Text(_) => true
    case Variable(_) => true
    case Binary(l, op, r) => k <= Precedence(op) && Fits(Precedence(op), l) && Fits(Precedence(op) + 1, r)
    case Negate(x) => k <= 3 && Fits(4, x)
    case Call1(_, a) => Fits(0, a)
    case Call2(_, a, b) => Fits(0, a) && Fits(0, b)
    case Mid(a, b, c) => Fits(0, a) && Fits(0, b) && Fits(0, c)
    case Socket => true
    case ArrayAccess(_, i) => Fits(0, i)
  }

  predicate Printable(s: Statement) {
    match s
    case Print(items) => forall i :: 0 <= i < |items| ==> Fits(0, items[i])
    case Let(_, e) => Fits(0, e)
    case If(e, _) => Fits(0, e)
    case For(_, a, b, c) => Fits(0, a) && Fits(0, b) && Fits(0, c)
    case Sleep(e) => Fits(0, e)
    case Dim(_, e) => Fits(0, e)
    case ArrayAssign(_, i, e) => Fits(0, i) && Fits(0, e)
    case Send(a, b) => Fits(0, a) && Fits(0, b)
    case Close(e) => Fits(0, e)
    case _ => true
  }
}
