/** The grammar of src/basic/parser.rs as functions on the remaining tokens: each either
    fails or gives a tree and the tokens left. */
module BasicGrammar {
  import opened Options
  import opened Bytes
  import opened BasicSyntax

  datatype Parsed<T> = Ok(value: T, rest: seq<Token>) | Err

  function Peek(ts: seq<Token>): Token {
    if ts == [] then Eof else ts[0]
  }

  /** Levels 0 to 2 are the loops over comparison, additive and multiplicative operators,
      level 3 an optional minus sign before a primary, level 4 a primary. */
  function ParseLevel(k: nat, ts: seq<Token>): (r: Parsed<Expr>)
    requires k <= 4
    ensures r.Ok? ==> |r.rest| < |ts|
    decreases |ts|, 6 - k
  {
    if k == 4 then ParsePrimary(ts)
    else if k == 3 then
      if Peek(ts) == Operator(Sub) then
        var x := ParsePrimary(ts[1..]);
        if x.Err? then Err else Ok(Negate(x.value), x.rest)
      else ParsePrimary(ts)
    else
      var left := ParseLevel(k + 1, ts);
      if left.Err? then Err else ParseLoop(k, left.value, left.rest)
  }

  function ParseLoop(k: nat, left: Expr, ts: seq<Token>): (r: Parsed<Expr>)
    requires k <= 2
    ensures r.Ok? ==> |r.rest| <= |ts|
    decreases |ts|, 0
  {
    if Peek(ts).Operator? && Precedence(Peek(ts).op) == k then
      var right := ParseLevel(k + 1, ts[1..]);
      if right.Err? then Err else ParseLoop(k, Binary(left, Peek(ts).op, right.value), right.rest)
    else Ok(left, ts)
  }

  function ParseExpr(ts: seq<Token>): (r: Parsed<Expr>)
    ensures r.Ok? ==> |r.rest| < |ts|
    decreases |ts|, 7
  {
    ParseLevel(0, ts)
  }

  /** An expression and the token that has to follow it. */
  function ParseUntil(stop: Token, ts: seq<Token>): (r: Parsed<Expr>)
    requires stop != Eof
    ensures r.Ok? ==> |r.rest| < |ts|
    decreases |ts|, 8
  {
    var e := ParseExpr(ts);
    if e.Err? || Peek(e.rest) != stop then Err else Ok(e.value, e.rest[1..])
  }

  function ParsePrimary(ts: seq<Token>): (r: Parsed<Expr>)
    ensures r.Ok? ==> |r.rest| < |ts|
    decreases |ts|, 1
  {
    match Peek(ts)
    case Integer(n) => Ok(Number(n), ts[1..])
    case StringLit(s) => Ok(Text(s), ts[1..])
    case Identifier(x) =>
      if Peek(ts[1..]) != LParen then Ok(Variable(x), ts[1..])
      else
        var i := ParseUntil(RParen, ts[2..]);
        if i.Err? then Err else Ok(ArrayAccess(x, i.value), i.rest)
    case Name1(f) =>
      if Peek(ts[1..]) != LParen then Err
      else
        var a := ParseUntil(RParen, ts[2..]);
        if a.Err? then Err else Ok(Call1(f, a.value), a.rest)
    case Name2(f) =>
      if Peek(ts[1..]) != LParen then Err else ParsePair(f, ts[2..])
    case NameMid =>
      if Peek(ts[1..]) != LParen then Err else ParseTriple(ts[2..])
    case NameSocket =>
      if Peek(ts[1..]) != LParen || Peek(ts[2..]) != RParen then Err else Ok(Socket, ts[3..])
    case LParen => ParseUntil(RParen, ts[1..])
    case _ => Err
  }

  /** The arguments of a function of two. */
  function ParsePair(f: Function2, ts: seq<Token>): (r: Parsed<Expr>)
    ensures r.Ok? ==> |r.rest| < |ts|
    decreases |ts|, 9
  {
    var a := ParseUntil(Comma, ts);
    if a.Err? then Err
    else
      var b := ParseUntil(RParen, a.rest);
      if b.Err? then Err else Ok(Call2(f, a.value, b.value), b.rest)
  }

  /** The arguments of MID$. */
  function ParseTriple(ts: seq<Token>): (r: Parsed<Expr>)
    ensures r.Ok? ==> |r.rest| < |ts|
    decreases |ts|, 9
  {
    var a := ParseUntil(Comma, ts);
    if a.Err? then Err
    else
      var b := ParseUntil(Comma, a.rest);
      if b.Err? then Err
      else
        var c := ParseUntil(RParen, b.rest);
        if c.Err? then Err else Ok(Mid(a.value, b.value, c.value), c.rest)
  }

  // -------------------------------------------------------------- statements

  /** Items up to the end of the line; a semicolon asks for another one. */
  function ParseItems(ts: seq<Token>): (r: Parsed<seq<Expr>>)
    ensures r.Ok? ==> |r.rest| <= |ts|
    decreases |ts|
  {
    if Peek(ts) == Newline || Peek(ts) == Eof then Ok([], ts)
    else
      var e := ParseExpr(ts);
      if e.Err? then Err
      else if Peek(e.rest) != Semicolon then Ok([e.value], e.rest)
      else
        var more := ParseItems(e.rest[1..]);
        if more.Err? then Err else Ok([e.value] + more.value, more.rest)
  }

  function ParseArgs(ts: seq<Token>): (r: Parsed<seq<string>>)
    ensures r.Ok? ==> |r.rest| <= |ts|
    decreases |ts|
  {
    if Peek(ts) != Comma then Ok([], ts)
    else if !Peek(ts[1..]).StringLit? then Err
    else
      var more := ParseArgs(ts[2..]);
      if more.Err? then Err else Ok([ts[1].text] + more.value, more.rest)
  }

  /** A line number is the low 32 bits of the literal. */
  function ParseLineNumber(ts: seq<Token>): (r: Parsed<u32>)
    ensures r.Ok? ==> |r.rest| < |ts|
  {
    if Peek(ts).Integer? then Ok(ts[0].n % TWO_32, ts[1..]) else Err
  }

  /** What follows FOR: the variable, an equals sign and the range. */
  function ParseFor(ts: seq<Token>): (r: Parsed<Statement>)
    ensures r.Ok? ==> |r.rest| < |ts|
  {
    if !Peek(ts).Identifier? || Peek(ts[1..]) != Operator(Eq) then Err
    else ParseRange(ts[0].name, ts[2..])
  }

  /** What follows DIM: a name and a size in parentheses. */
  function ParseDim(ts: seq<Token>): (r: Parsed<Statement>)
    ensures r.Ok? ==> |r.rest| < |ts|
  {
    if !Peek(ts).Identifier? || Peek(ts[1..]) != LParen then Err
    else
      var e := ParseUntil(RParen, ts[2..]);
      if e.Err? then Err else Ok(Statement.Dim(ts[0].name, e.value), e.rest)
  }

  function ParseRange(x: string, ts: seq<Token>): (r: Parsed<Statement>)
    ensures r.Ok? ==> |r.rest| <= |ts|
  {
    var a := ParseUntil(To, ts);
    if a.Err? then Err
    else
      var b := ParseExpr(a.rest);
      if b.Err? then Err
      else if Peek(b.rest) != Step then Ok(Statement.For(x, a.value, b.value, Number(1)), b.rest)
      else
        var c := ParseExpr(b.rest[1..]);
        if c.Err? then Err else Ok(Statement.For(x, a.value, b.value, c.value), c.rest)
  }

  function ParseLet(x: string, ts: seq<Token>): (r: Parsed<Statement>)
    ensures r.Ok? ==> |r.rest| <= |ts|
  {
    if Peek(ts) != Operator(Eq) then Err
    else
      var e := ParseExpr(ts[1..]);
      if e.Err? then Err else Ok(Statement.Let(x, e.value), e.rest)
  }

  function ParseArrayAssign(x: string, ts: seq<Token>): (r: Parsed<Statement>)
    ensures r.Ok? ==> |r.rest| <= |ts|
  {
    var i := ParseUntil(RParen, ts);
    if i.Err? || Peek(i.rest) != Operator(Eq) then Err
    else
      var e := ParseExpr(i.rest[1..]);
      if e.Err? then Err else Ok(ArrayAssign(x, i.value, e.value), e.rest)
  }

  function ToEndOfLine(ts: seq<Token>): (r: seq<Token>)
    ensures |r| <= |ts|
  {
    if Peek(ts) == Newline || Peek(ts) == Eof then ts else ToEndOfLine(ts[1..])
  }

  /** REM fetches the token after it before it skips to the end of the line, so that the skip
      starts one token late: on the next line when the remark is empty. */
  function AfterRem(ts: seq<Token>): (r: seq<Token>)
    ensures |r| <= |ts|
  {
    if ts == [] then [] else ToEndOfLine(ts[1..])
  }

  function ParseStatement(ts: seq<Token>): (r: Parsed<Statement>)
    ensures r.Ok? ==> |r.rest| < |ts|
  {
    match Peek(ts)
    case Print =>
      var items := ParseItems(ts[1..]);
      if items.Err? then Err else Ok(Statement.Print(items.value), items.rest)
    case Let => if Peek(ts[1..]).Identifier? then ParseLet(ts[1].name, ts[2..]) else Err
    case If =>
      var e := ParseUntil(Then, ts[1..]);
      if e.Err? then Err
      else
        var n := ParseLineNumber(e.rest);
        if n.Err? then Err else Ok(Statement.If(e.value, n.value), n.rest)
    case Goto =>
      var n := ParseLineNumber(ts[1..]);
      if n.Err? then Err else Ok(Statement.Goto(n.value), n.rest)
    case Gosub =>
      var n := ParseLineNumber(ts[1..]);
      if n.Err? then Err else Ok(Statement.Gosub(n.value), n.rest)
    case For => ParseFor(ts[1..])
    case Next => if Peek(ts[1..]).Identifier? then Ok(Statement.Next(ts[1].name), ts[2..]) else Err
    case Sleep =>
      var e := ParseExpr(ts[1..]);
      if e.Err? then Err else Ok(Statement.Sleep(e.value), e.rest)
    case Spawn =>
      if !Peek(ts[1..]).StringLit? then Err
      else
        var args := ParseArgs(ts[2..]);
        if args.Err? then Err else Ok(Statement.Spawn(ts[1].text, args.value), args.rest)
    case Return => Ok(Statement.Return, ts[1..])
    case Dim => ParseDim(ts[1..])
    case Send =>
      var a := ParseUntil(Comma, ts[1..]);
      if a.Err? then Err
      else
        var b := ParseExpr(a.rest);
        if b.Err? then Err else Ok(Statement.Send(a.value, b.value), b.rest)
    case Close =>
      var e := ParseExpr(ts[1..]);
      if e.Err? then Err else Ok(Statement.Close(e.value), e.rest)
    case Rem => Ok(Statement.Rem, AfterRem(ts[1..]))
    case End => Ok(Statement.End, ts[1..])
    case Identifier(x) =>
      if Peek(ts[1..]) == LParen then ParseArrayAssign(x, ts[2..]) else ParseLet(x, ts[1..])
    case _ => Err
  }

  // ------------------------------------------------------------------- lines

  datatype Line = Line(number: Option<u32>, statement: Statement)

  function SkipNewlines(ts: seq<Token>): (r: seq<Token>)
    ensures |r| <= |ts| && Peek(r) != Newline
  {
    if Peek(ts) == Newline then SkipNewlines(ts[1..]) else ts
  }

  /** One line, numbered or not; None at the end of the input. */
  function ParseLine(ts: seq<Token>): (r: Parsed<Option<Line>>)
    ensures r.Ok? && r.value.Some? ==> |r.rest| < |ts|
  {
    var from := SkipNewlines(ts);
    if Peek(from) == Eof then Ok(None, from)
    else
      var n := ParseLineNumber(from);
      var s := ParseStatement(if n.Ok? then n.rest else from);
      if s.Err? then Err
      else
        var number := if n.Ok? then Some(n.value) else None;
        Ok(Some(Line(number, s.value)), if Peek(s.rest) == Newline then s.rest[1..] else s.rest)
  }
}
