/** The round trip for statements. */
module BasicStatements {
  import opened Bytes
  import opened BasicSyntax
  import opened BasicGrammar
  import opened BasicGrouping
  import opened BasicRoundTrip

  /** The end of a line or of the input. */
  predicate Ends(ts: seq<Token>) {
    Peek(ts) == Newline || Peek(ts) == Eof
  }

  lemma EndReadBack(e: Expr, rest: seq<Token>)
    requires Fits(0, e) && Ends(rest)
    ensures ParseExpr(FormatExpr(e) + rest) == Ok(e, rest)
  {
    hide FormatExpr, ParseLevel, Fits;
    ExprReadBack(0, e, rest);
  }

  // ------------------------------------------------------------------- lists

  lemma {:induction false} FirstToken(e: Expr)
    ensures FormatExpr(e) != [] && FormatExpr(e)[0] != Newline && FormatExpr(e)[0] != Eof
  {
    if e.Binary? {
      FirstToken(e.left);
    }
  }

  lemma ItemsEnd(ts: seq<Token>, e: Expr, rest: seq<Token>)
    requires !Ends(ts) && ParseExpr(ts) == Ok(e, rest) && Ends(rest)
    ensures ParseItems(ts) == Ok([e], rest)
  {
    hide ParseExpr;
  }

  lemma ItemsStep(ts: seq<Token>, e: Expr, from: seq<Token>, more: seq<Expr>, rest: seq<Token>)
    requires !Ends(ts) && ParseExpr(ts) == Ok(e, [Semicolon] + from) && ParseItems(from) == Ok(more, rest)
    ensures ParseItems(ts) == Ok([e] + more, rest)
  {
    hide ParseExpr;
    assert ([Semicolon] + from)[1..] == from;
  }

  lemma {:induction false} ItemsReadBack(items: seq<Expr>, rest: seq<Token>)
    requires (forall i :: 0 <= i < |items| ==> Fits(0, items[i])) && Ends(rest)
    ensures ParseItems(FormatItems(items) + rest) == Ok(items, rest)
    decreases |items|
  {
    hide FormatExpr, ParseExpr, ParseItems, Fits;
    if items == [] {
      assert FormatItems(items) + rest == rest;
      NoItems(rest);
    } else if |items| == 1 {
      FirstToken(items[0]);
      assert FormatItems(items) == FormatExpr(items[0]);
      EndReadBack(items[0], rest);
      ItemsEnd(FormatItems(items) + rest, items[0], rest);
      assert items == [items[0]];
    } else {
      var from := FormatItems(items[1..]) + rest;
      FirstToken(items[0]);
      ItemsReadBack(items[1..], rest);
      ItemsConcat(items, rest);
      BeforeSemicolon(items[0], from);
      ItemsStep(FormatItems(items) + rest, items[0], from, items[1..], rest);
      assert items == [items[0]] + items[1..];
    }
  }

  lemma NoItems(rest: seq<Token>)
    requires Ends(rest)
    ensures ParseItems(rest) == Ok([], rest)
  {
  }

  lemma ItemsConcat(items: seq<Expr>, rest: seq<Token>)
    requires |items| > 1
    ensures FormatItems(items) + rest == FormatExpr(items[0]) + ([Semicolon] + (FormatItems(items[1..]) + rest))
  {
    hide FormatExpr;
    Assoc(FormatExpr(items[0]), FormatMoreItems(items[1..]), rest);
    Assoc([Semicolon], FormatItems(items[1..]), rest);
  }

  lemma BeforeSemicolon(e: Expr, from: seq<Token>)
    requires Fits(0, e)
    ensures ParseExpr(FormatExpr(e) + ([Semicolon] + from)) == Ok(e, [Semicolon] + from)
  {
    hide FormatExpr, ParseLevel, Fits;
    ExprReadBack(0, e, [Semicolon] + from);
  }

  lemma ArgsStep(s: string, from: seq<Token>, more: seq<string>, rest: seq<Token>)
    requires ParseArgs(from) == Ok(more, rest)
    ensures ParseArgs([Comma, StringLit(s)] + from) == Ok([s] + more, rest)
  {
    assert ([Comma, StringLit(s)] + from)[2..] == from;
  }

  lemma {:induction false} ArgsReadBack(args: seq<string>, rest: seq<Token>)
    requires Ends(rest)
    ensures ParseArgs(FormatArgs(args) + rest) == Ok(args, rest)
  {
    hide ParseArgs;
    if args == [] {
      assert FormatArgs(args) + rest == rest;
      NoArgs(rest);
    } else {
      ArgsReadBack(args[1..], rest);
      ArgsStep(args[0], FormatArgs(args[1..]) + rest, args[1..], rest);
      Assoc([Comma, StringLit(args[0])], FormatArgs(args[1..]), rest);
      assert [args[0]] + args[1..] == args;
    }
  }

  lemma NoArgs(rest: seq<Token>)
    requires Ends(rest)
    ensures ParseArgs(rest) == Ok([], rest)
  {
  }

  // -------------------------------------------------------------- statements

  lemma RangeReadBack(x: string, a: Expr, b: Expr, c: Expr, rest: seq<Token>)
    requires Fits(0, a) && Fits(0, b) && Fits(0, c) && Ends(rest)
    ensures ParseRange(x, FormatExpr(a) + ([To] + (FormatExpr(b) + ([Step] + (FormatExpr(c) + rest)))))
         == Ok(Statement.For(x, a, b, c), rest)
  {
    hide FormatExpr, ParseLevel, ParseUntil, Fits;
    var last := FormatExpr(c) + rest;
    UntilReadBack(To, a, FormatExpr(b) + ([Step] + last));
    ExprReadBack(0, b, [Step] + last);
    assert ([Step] + last)[1..] == last;
    EndReadBack(c, rest);
  }

  lemma FormatFor(x: string, a: Expr, b: Expr, c: Expr, rest: seq<Token>)
    ensures FormatStatement(Statement.For(x, a, b, c)) + rest
         == [Token.For, Identifier(x), Operator(Eq)]
            + (FormatExpr(a) + ([To] + (FormatExpr(b) + ([Step] + (FormatExpr(c) + rest)))))
  {
    hide FormatExpr;
    var head := [Token.For, Identifier(x), Operator(Eq)];
    var last := FormatExpr(c) + rest;
    var head2 := head + FormatExpr(a) + [To] + FormatExpr(b);
    Assoc(head2 + [Step], FormatExpr(c), rest);
    Assoc(head2, [Step], last);
    Assoc(head + FormatExpr(a) + [To], FormatExpr(b), [Step] + last);
    Assoc(head + FormatExpr(a), [To], FormatExpr(b) + ([Step] + last));
    Assoc(head, FormatExpr(a), [To] + (FormatExpr(b) + ([Step] + last)));
  }

  lemma ArrayAssignReadBack(x: string, i: Expr, e: Expr, rest: seq<Token>)
    requires Fits(0, i) && Fits(0, e) && Ends(rest)
    ensures ParseStatement(FormatStatement(ArrayAssign(x, i, e)) + rest) == Ok(ArrayAssign(x, i, e), rest)
  {
    hide FormatExpr, ParseExpr, ParseUntil, Fits;
    var value := FormatExpr(e) + rest;
    var after := [Operator(Eq)] + value;
    var ts := FormatStatement(ArrayAssign(x, i, e)) + rest;
    UntilReadBack(RParen, i, after);
    EndReadBack(e, rest);
    assert after[1..] == value;
    FormatArrayAssign(x, i, e, rest);
    assert ts[2..] == FormatExpr(i) + ([RParen] + after);
  }

  lemma FormatArrayAssign(x: string, i: Expr, e: Expr, rest: seq<Token>)
    ensures FormatStatement(ArrayAssign(x, i, e)) + rest
         == [Identifier(x), LParen] + (FormatExpr(i) + ([RParen] + ([Operator(Eq)] + (FormatExpr(e) + rest))))
  {
    hide FormatExpr;
    var head := [Identifier(x), LParen];
    var value := FormatExpr(e) + rest;
    Assoc(head + FormatExpr(i) + [RParen, Operator(Eq)], FormatExpr(e), rest);
    Assoc(head + FormatExpr(i), [RParen, Operator(Eq)], value);
    Assoc(head, FormatExpr(i), [RParen, Operator(Eq)] + value);
    assert [RParen, Operator(Eq)] + value == [RParen] + ([Operator(Eq)] + value);
  }

  lemma IfReadBack(e: Expr, n: u32, rest: seq<Token>)
    requires Fits(0, e)
    ensures ParseStatement(FormatStatement(Statement.If(e, n)) + rest) == Ok(Statement.If(e, n), rest)
  {
    hide FormatExpr, ParseExpr, ParseUntil, Fits;
    var s, after := Statement.If(e, n), [Integer(n)] + rest;
    UntilReadBack(Then, e, after);
    Assoc([Token.If] + FormatExpr(e), [Then, Integer(n)], rest);
    Assoc([Token.If], FormatExpr(e), [Then, Integer(n)] + rest);
    assert [Then, Integer(n)] + rest == [Then] + after;
    assert (FormatStatement(s) + rest)[1..] == FormatExpr(e) + ([Then] + after);
    assert after[1..] == rest;
  }

  lemma SendReadBack(a: Expr, b: Expr, rest: seq<Token>)
    requires Fits(0, a) && Fits(0, b) && Ends(rest)
    ensures ParseStatement(FormatStatement(Statement.Send(a, b)) + rest) == Ok(Statement.Send(a, b), rest)
  {
    hide FormatExpr, ParseExpr, ParseUntil, Fits;
    var after := FormatExpr(b) + rest;
    UntilReadBack(Comma, a, after);
    EndReadBack(b, rest);
    Assoc([Token.Send] + FormatExpr(a) + [Comma], FormatExpr(b), rest);
    Assoc([Token.Send] + FormatExpr(a), [Comma], after);
    Assoc([Token.Send], FormatExpr(a), [Comma] + after);
    assert (FormatStatement(Statement.Send(a, b)) + rest)[1..] == FormatExpr(a) + ([Comma] + after);
  }

  lemma DimReadBack(x: string, e: Expr, rest: seq<Token>)
    requires Fits(0, e)
    ensures ParseStatement(FormatStatement(Statement.Dim(x, e)) + rest) == Ok(Statement.Dim(x, e), rest)
  {
    hide FormatExpr, ParseExpr, ParseUntil, Fits;
    var head := [Token.Dim, Identifier(x), LParen];
    UntilReadBack(RParen, e, rest);
    Assoc(head + FormatExpr(e), [RParen], rest);
    Assoc(head, FormatExpr(e), [RParen] + rest);
    assert (FormatStatement(Statement.Dim(x, e)) + rest)[1..][2..] == FormatExpr(e) + ([RParen] + rest);
  }

  /** SLEEP and CLOSE: a keyword and an expression. */
  lemma UnaryStatementReadBack(s: Statement, rest: seq<Token>)
    requires (s.Sleep? || s.Close?) && Printable(s) && Ends(rest)
    ensures ParseStatement(FormatStatement(s) + rest) == Ok(s, rest)
  {
    hide FormatExpr, ParseExpr, Fits;
    var e := if s.Sleep? then s.value else s.sock;
    EndReadBack(e, rest);
    assert (FormatStatement(s) + rest)[1..] == FormatExpr(e) + rest;
  }

  lemma LetReadBack(x: string, e: Expr, rest: seq<Token>)
    requires Fits(0, e) && Ends(rest)
    ensures ParseStatement(FormatStatement(Statement.Let(x, e)) + rest) == Ok(Statement.Let(x, e), rest)
  {
    hide FormatExpr, ParseExpr, Fits;
    var ts := FormatStatement(Statement.Let(x, e)) + rest;
    EndReadBack(e, rest);
    assert ts[2..][1..] == FormatExpr(e) + rest;
  }

  lemma ListStatementReadBack(s: Statement, rest: seq<Token>)
    requires (s.Print? || s.Spawn?) && Printable(s) && Ends(rest)
    ensures ParseStatement(FormatStatement(s) + rest) == Ok(s, rest)
  {
    hide FormatItems, FormatArgs, ParseItems, ParseArgs, Fits;
    var ts := FormatStatement(s) + rest;
    if s.Print? {
      ItemsReadBack(s.items, rest);
      assert ts[1..] == FormatItems(s.items) + rest;
    } else {
      ArgsReadBack(s.args, rest);
      assert ts[2..] == FormatArgs(s.args) + rest;
    }
  }

  /** Parsing a printed statement gives it back, for every form but REM. */
  lemma StatementReadBack(s: Statement, rest: seq<Token>)
    requires Printable(s) && !s.Rem? && Ends(rest)
    ensures ParseStatement(FormatStatement(s) + rest) == Ok(s, rest)
  {
    hide FormatExpr, ParseExpr, ParseStatement, FormatStatement, Fits;
    match s
    case Print(_) => ListStatementReadBack(s, rest);
    case Let(x, e) => LetReadBack(x, e, rest);
    case If(e, n) => IfReadBack(e, n, rest);
    case For(x, a, b, c) => ForStatementReadBack(x, a, b, c, rest);
    case Sleep(_) => UnaryStatementReadBack(s, rest);
    case Spawn(_, _) => ListStatementReadBack(s, rest);
    case Dim(x, e) => DimReadBack(x, e, rest);
    case ArrayAssign(x, i, e) => ArrayAssignReadBack(x, i, e, rest);
    case Send(a, b) => SendReadBack(a, b, rest);
    case Close(_) => UnaryStatementReadBack(s, rest);
    case _ => FixedReadBack(s, rest);
  }

  lemma ForStatementReadBack(x: string, a: Expr, b: Expr, c: Expr, rest: seq<Token>)
    requires Fits(0, a) && Fits(0, b) && Fits(0, c) && Ends(rest)
    ensures ParseStatement(FormatStatement(Statement.For(x, a, b, c)) + rest) == Ok(Statement.For(x, a, b, c), rest)
  {
    hide FormatExpr, ParseExpr, ParseRange, Fits;
    var tail := FormatExpr(a) + ([To] + (FormatExpr(b) + ([Step] + (FormatExpr(c) + rest))));
    RangeReadBack(x, a, b, c, rest);
    FormatFor(x, a, b, c, rest);
    assert (FormatStatement(Statement.For(x, a, b, c)) + rest)[1..][2..] == tail;
  }

  /** The forms without expressions. */
  lemma FixedReadBack(s: Statement, rest: seq<Token>)
    requires s.Goto? || s.Gosub? || s.Return? || s.Next? || s.End?
    ensures ParseStatement(FormatStatement(s) + rest) == Ok(s, rest)
  {
    hide FormatExpr, ParseExpr, ParseUntil, ParseFor, ParseItems;
    var ts := FormatStatement(s) + rest;
    if s.Goto? || s.Gosub? {
      assert ts[1..] == [Integer(s.line)] + rest && ts[1..][1..] == rest;
    } else if s.Next? {
      assert ts[2..] == rest;
    } else {
      assert ts[1..] == rest;
    }
  }

  // -------------------------------------------------- what may be left unwritten

  /** LET may be left out. */
  lemma LetOptional(x: string, ts: seq<Token>)
    requires Peek(ts) != LParen
    ensures ParseStatement([Identifier(x)] + ts) == ParseStatement([Token.Let, Identifier(x)] + ts)
  {
    hide ParseExpr;
    var bare, full := [Identifier(x)] + ts, [Token.Let, Identifier(x)] + ts;
    assert bare[1..] == ts && full[2..] == ts;
  }

  /** Without a STEP the step is 1, whatever expressions, with whatever parentheses, give the
      bounds. */
  lemma StepOptional(x: string, a: Written, b: Written, rest: seq<Token>)
    requires Binds(0, a) && Binds(0, b) && Ends(rest)
    ensures ParseStatement([Token.For, Identifier(x), Operator(Eq)] + (Spelled(a) + ([To] + (Spelled(b) + rest))))
         == Ok(Statement.For(x, Meaning(a), Meaning(b), Number(1)), rest)
  {
    hide Spelled, Binds, Meaning, ParseLevel, ParseUntil;
    var head, range := [Token.For, Identifier(x), Operator(Eq)], Spelled(a) + ([To] + (Spelled(b) + rest));
    UntilReads(To, a, Spelled(b) + rest);
    LevelReads(0, b, rest);
    assert (head + range)[1..][2..] == range;
  }

  /** PRINT may end in a semicolon. */
  lemma {:induction false} SemicolonOptional(items: seq<Expr>, rest: seq<Token>)
    requires items != [] && (forall i :: 0 <= i < |items| ==> Fits(0, items[i])) && Ends(rest)
    ensures ParseItems(FormatItems(items) + ([Semicolon] + rest)) == Ok(items, rest)
    decreases |items|
  {
    hide FormatExpr, ParseExpr, ParseItems, Fits;
    FirstToken(items[0]);
    if |items| == 1 {
      assert FormatItems(items) == FormatExpr(items[0]);
      BeforeSemicolon(items[0], rest);
      NoItems(rest);
      ItemsStep(FormatItems(items) + ([Semicolon] + rest), items[0], rest, [], rest);
      assert items == [items[0]] + [];
    } else {
      var after := [Semicolon] + rest;
      SemicolonOptional(items[1..], rest);
      ItemsConcat(items, after);
      BeforeSemicolon(items[0], FormatItems(items[1..]) + after);
      ItemsStep(FormatItems(items) + after, items[0], FormatItems(items[1..]) + after, items[1..], rest);
      assert items == [items[0]] + items[1..];
    }
  }
}
