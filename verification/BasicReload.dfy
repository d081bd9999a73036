/** Which programs survive LIST and a reload: exactly the printable ones in which nothing
    follows a remark. */
module BasicReload {
  import opened BasicSyntax
  import opened BasicGrammar
  import opened BasicPlain
  import opened BasicStatements
  import opened BasicListing

  // ----------------------------------------------- listings are free of groups

  lemma PlainKeyword(head: seq<Token>, e: Expr)
    requires Plain(head)
    ensures Plain(head + FormatExpr(e))
  {
    FormatExprPlain(e);
    PlainConcat(head, FormatExpr(e));
  }

  lemma PlainThen(head: seq<Token>, t: Token)
    requires Plain(head) && t != LParen && (t.Integer? ==> t.n >= 0)
    ensures Plain(head + [t])
  {
    PlainToken(t);
    PlainConcat(head, [t]);
  }

  lemma {:induction false} FormatItemsPlain(items: seq<Expr>)
    ensures Plain(FormatItems(items))
    decreases |items|
  {
    hide Plain, FormatExpr;
    if items == [] {
      PlainNothing();
    } else {
      FormatExprPlain(items[0]);
      if |items| > 1 {
        FormatItemsPlain(items[1..]);
        PlainToken(Semicolon);
        PlainConcat([Semicolon], FormatItems(items[1..]));
      } else {
        PlainNothing();
      }
      PlainConcat(FormatExpr(items[0]), FormatMoreItems(items[1..]));
    }
  }

  lemma PlainNothing()
    ensures Plain([])
  {
  }

  lemma {:induction false} FormatArgsPlain(args: seq<string>)
    ensures Plain(FormatArgs(args))
  {
    if args != [] {
      FormatArgsPlain(args[1..]);
      assert Plain([Comma, StringLit(args[0])]);
      PlainConcat([Comma, StringLit(args[0])], FormatArgs(args[1..]));
    }
  }

  lemma FormatStatementPlain(s: Statement)
    ensures Plain(FormatStatement(s))
  {
    hide FormatExpr, FormatItems, FormatArgs, Plain;
    if s.Print? || s.Spawn? {
      FormatListPlain(s);
    } else if s.For? {
      FormatForPlain(s);
    } else if s.ArrayAssign? || s.Send? || s.If? || s.Dim? {
      FormatLongPlain(s);
    } else {
      FormatShortPlain(s);
    }
  }

  lemma FormatListPlain(s: Statement)
    requires s.Print? || s.Spawn?
    ensures Plain(FormatStatement(s))
  {
    hide FormatItems, FormatArgs;
    if s.Print? {
      FormatItemsPlain(s.items);
      PlainToken(Token.Print);
      PlainConcat([Token.Print], FormatItems(s.items));
    } else {
      FormatArgsPlain(s.args);
      assert Plain([Token.Spawn, StringLit(s.program)]);
      PlainConcat([Token.Spawn, StringLit(s.program)], FormatArgs(s.args));
    }
  }

  lemma FormatForPlain(s: Statement)
    requires s.For?
    ensures Plain(FormatStatement(s))
  {
    hide FormatExpr;
    var head := [Token.For, Identifier(s.name), Operator(Eq)];
    assert Plain(head);
    PlainKeyword(head, s.start);
    PlainThen(head + FormatExpr(s.start), To);
    PlainKeyword(head + FormatExpr(s.start) + [To], s.end);
    PlainThen(head + FormatExpr(s.start) + [To] + FormatExpr(s.end), Step);
    PlainKeyword(head + FormatExpr(s.start) + [To] + FormatExpr(s.end) + [Step], s.step);
  }

  lemma FormatLongPlain(s: Statement)
    requires s.ArrayAssign? || s.Send? || s.If? || s.Dim?
    ensures Plain(FormatStatement(s))
  {
    hide FormatExpr;
    if s.ArrayAssign? {
      var head := [Identifier(s.name), LParen];
      assert Plain(head) && Plain([RParen, Operator(Eq)]);
      PlainKeyword(head, s.index);
      PlainConcat(head + FormatExpr(s.index), [RParen, Operator(Eq)]);
      PlainKeyword(head + FormatExpr(s.index) + [RParen, Operator(Eq)], s.value);
    } else if s.Send? {
      PlainToken(Token.Send);
      PlainKeyword([Token.Send], s.sock);
      PlainThen([Token.Send] + FormatExpr(s.sock), Comma);
      PlainKeyword([Token.Send] + FormatExpr(s.sock) + [Comma], s.data);
    } else if s.If? {
      PlainToken(Token.If);
      PlainKeyword([Token.If], s.condition);
      assert Plain([Then, Integer(s.line)]);
      PlainConcat([Token.If] + FormatExpr(s.condition), [Then, Integer(s.line)]);
    } else {
      var head := [Token.Dim, Identifier(s.name), LParen];
      assert Plain(head);
      PlainKeyword(head, s.size);
      PlainThen(head + FormatExpr(s.size), RParen);
    }
  }

  lemma FormatShortPlain(s: Statement)
    requires !s.Print? && !s.Spawn? && !s.For? && !s.ArrayAssign? && !s.Send? && !s.If? && !s.Dim?
    ensures Plain(FormatStatement(s))
  {
    hide FormatExpr;
    if s.Let? {
      var head := [Token.Let, Identifier(s.name), Operator(Eq)];
      assert Plain(head);
      PlainKeyword(head, s.value);
    } else if s.Sleep? {
      PlainToken(Token.Sleep);
      PlainKeyword([Token.Sleep], s.value);
    } else if s.Close? {
      PlainToken(Token.Close);
      PlainKeyword([Token.Close], s.sock);
    }
  }

  lemma {:induction false} ListingPlain(lines: seq<Numbered>)
    ensures Plain(Listing(lines))
  {
    hide FormatStatement, Plain;
    if lines == [] {
      PlainNothing();
    } else {
      var line := lines[0];
      ListingPlain(lines[1..]);
      FormatStatementPlain(line.statement);
      PlainToken(Integer(line.number));
      PlainConcat([Integer(line.number)], FormatStatement(line.statement));
      PlainThen([Integer(line.number)] + FormatStatement(line.statement), Newline);
      PlainConcat(ListLine(line), Listing(lines[1..]));
    }
  }

  // ---------------------------------------- what is parsed from such tokens

  lemma {:induction false} ItemsFit(ts: seq<Token>)
    requires Plain(ts) && ParseItems(ts).Ok?
    ensures var r := ParseItems(ts);
      (forall i :: 0 <= i < |r.value| ==> Fits(0, r.value[i])) && Plain(r.rest)
    decreases |ts|
  {
    hide Plain, ParseExpr;
    if Peek(ts) != Newline && Peek(ts) != Eof {
      ExprFits(ts);
      var e := ParseExpr(ts);
      if Peek(e.rest) == Semicolon {
        PlainAfter(e.rest, 1);
        ItemsFit(e.rest[1..]);
      }
    }
  }

  lemma {:induction false} ArgsPlain(ts: seq<Token>)
    requires Plain(ts) && ParseArgs(ts).Ok?
    ensures Plain(ParseArgs(ts).rest)
    decreases |ts|
  {
    hide Plain;
    if Peek(ts) == Comma {
      PlainAfter(ts, 2);
      ArgsPlain(ts[2..]);
    }
  }

  lemma LineNumberPlain(ts: seq<Token>)
    requires Plain(ts) && ParseLineNumber(ts).Ok?
    ensures Plain(ParseLineNumber(ts).rest)
  {
    PlainAfter(ts, 1);
  }

  lemma RangeFits(x: string, ts: seq<Token>)
    requires Plain(ts) && ParseRange(x, ts).Ok?
    ensures var r := ParseRange(x, ts); Printable(r.value) && Plain(r.rest)
  {
    hide Plain, ParseExpr, ParseUntil;
    UntilFits(To, ts);
    var a := ParseUntil(To, ts);
    ExprFits(a.rest);
    var b := ParseExpr(a.rest);
    if Peek(b.rest) == Step {
      PlainAfter(b.rest, 1);
      ExprFits(b.rest[1..]);
    }
  }

  lemma ForFits(ts: seq<Token>)
    requires Plain(ts) && ParseFor(ts).Ok?
    ensures var r := ParseFor(ts); Printable(r.value) && Plain(r.rest)
  {
    hide Plain, ParseRange, Printable;
    PlainAfter(ts, 2);
    RangeFits(ts[0].name, ts[2..]);
  }

  lemma DimFits(ts: seq<Token>)
    requires Plain(ts) && ParseDim(ts).Ok?
    ensures var r := ParseDim(ts); Printable(r.value) && Plain(r.rest)
  {
    hide Plain, ParseUntil;
    PlainAfter(ts, 2);
    UntilFits(RParen, ts[2..]);
  }

  lemma LetFits(x: string, ts: seq<Token>)
    requires Plain(ts) && ParseLet(x, ts).Ok?
    ensures var r := ParseLet(x, ts); Printable(r.value) && Plain(r.rest)
  {
    hide Plain, ParseExpr;
    PlainAfter(ts, 1);
    ExprFits(ts[1..]);
  }

  lemma ArrayAssignFits(x: string, ts: seq<Token>)
    requires Plain(ts) && ParseArrayAssign(x, ts).Ok?
    ensures var r := ParseArrayAssign(x, ts); Printable(r.value) && Plain(r.rest)
  {
    hide Plain, ParseExpr, ParseUntil;
    UntilFits(RParen, ts);
    var i := ParseUntil(RParen, ts);
    PlainAfter(i.rest, 1);
    ExprFits(i.rest[1..]);
  }

  lemma {:induction false} EndOfLinePlain(ts: seq<Token>, i: nat)
    requires Plain(ts) && i <= |ts|
    ensures Plain(ToEndOfLine(ts[i..]))
    decreases |ts| - i
  {
    if Peek(ts[i..]) == Newline || Peek(ts[i..]) == Eof {
      PlainSuffix(ts, i);
    } else {
      EndOfLinePlain(ts, i + 1);
      assert ts[i..][1..] == ts[i + 1..];
    }
  }

  /** Every statement read from tokens without groups is printable, and so are the tokens
      left, unless they start with a parenthesis, from which nothing more can be read. */
  lemma StatementFits(ts: seq<Token>)
    requires Plain(ts) && ParseStatement(ts).Ok?
    ensures var r := ParseStatement(ts);
      Printable(r.value) && (Peek(r.rest) == LParen || Plain(r.rest))
  {
    hide Plain, Printable, ParseStatement, PlainAt;
    var t := ts[0];
    KeywordKinds(ts);
    if t.Identifier? {
      AssignmentFits(ts);
    } else if t.Let? || t.For? || t.Dim? || t.Next? || t.Spawn? {
      NamedFits(ts);
    } else {
      PlainAfter(ts, 1);
      if t.Rem? || t.Return? || t.End? || t.Goto? || t.Gosub? {
        FixedFits(ts);
      } else {
        KeywordFits(ts);
      }
    }
  }

  lemma KeywordKinds(ts: seq<Token>)
    requires ParseStatement(ts).Ok?
    ensures ts[0].Identifier? || ts[0].Let? || ts[0].For? || ts[0].Dim? || ts[0].Next? || ts[0].Spawn?
      || ts[0].Rem? || ts[0].Return? || ts[0].End? || ts[0].Goto? || ts[0].Gosub?
      || ts[0].Print? || ts[0].If? || ts[0].Sleep? || ts[0].Send? || ts[0].Close?
  {
  }

  lemma AssignmentFits(ts: seq<Token>)
    requires Plain(ts) && Peek(ts).Identifier? && ParseStatement(ts).Ok?
    ensures var r := ParseStatement(ts); Printable(r.value) && Plain(r.rest)
  {
    hide Plain, ParseLet, ParseArrayAssign, Printable;
    if Peek(ts[1..]) == LParen {
      PlainAfter(ts, 2);
      ArrayAssignFits(ts[0].name, ts[2..]);
    } else {
      PlainSuffix(ts, 1);
      LetFits(ts[0].name, ts[1..]);
    }
  }

  lemma NamedFits(ts: seq<Token>)
    requires Plain(ts) && ParseStatement(ts).Ok?
    requires Peek(ts).Let? || Peek(ts).For? || Peek(ts).Dim? || Peek(ts).Next? || Peek(ts).Spawn?
    ensures var r := ParseStatement(ts);
      Printable(r.value) && (Peek(r.rest) == LParen || Plain(r.rest))
  {
    hide Plain, PlainAt, ParseFor, ParseDim, ParseArgs;
    if ts[0].Let? {
      PlainSuffix(ts, 2);
      LetFits(ts[1].name, ts[2..]);
    } else if ts[0].For? {
      PlainAfter(ts, 1);
      ForFits(ts[1..]);
    } else if ts[0].Dim? {
      PlainAfter(ts, 1);
      DimFits(ts[1..]);
    } else if ts[0].Next? {
      if Peek(ts[2..]) != LParen {
        PlainSuffix(ts, 2);
      }
    } else {
      PlainAfter(ts, 2);
      ArgsPlain(ts[2..]);
    }
  }

  lemma FixedFits(ts: seq<Token>)
    requires ts != [] && Plain(ts[1..]) && ParseStatement(ts).Ok?
    requires ts[0].Rem? || ts[0].Return? || ts[0].End? || ts[0].Goto? || ts[0].Gosub?
    ensures var r := ParseStatement(ts); Printable(r.value) && Plain(r.rest)
  {
    hide Plain, PlainAt, ToEndOfLine, ParseExpr, ParseItems;
    if ts[0].Goto? || ts[0].Gosub? {
      LineNumberPlain(ts[1..]);
    } else if ts[0].Rem? && |ts| > 1 {
      EndOfLinePlain(ts[1..], 1);
    }
  }

  lemma KeywordFits(ts: seq<Token>)
    requires ts != [] && Plain(ts[1..]) && ParseStatement(ts).Ok?
    requires ts[0].Print? || ts[0].If? || ts[0].Sleep? || ts[0].Send? || ts[0].Close?
    ensures var r := ParseStatement(ts); Printable(r.value) && Plain(r.rest)
  {
    hide Plain, PlainAt, ParseExpr, ParseUntil, ParseItems, Fits;
    if ts[0].Print? {
      ItemsFit(ts[1..]);
    } else if ts[0].If? {
      UntilFits(Then, ts[1..]);
      LineNumberPlain(ParseUntil(Then, ts[1..]).rest);
    } else if ts[0].Send? {
      UntilFits(Comma, ts[1..]);
      ExprFits(ParseUntil(Comma, ts[1..]).rest);
    } else {
      ExprFits(ts[1..]);
    }
  }

  /** For every form but REM, a printed statement is read back exactly when it is printable. */
  lemma StatementRoundTrip(s: Statement, rest: seq<Token>)
    requires !s.Rem? && Ends(rest) && Plain(rest)
    ensures ParseStatement(FormatStatement(s) + rest) == Ok(s, rest) <==> Printable(s)
  {
    hide Plain, Printable, ParseStatement, FormatStatement;
    if Printable(s) {
      StatementReadBack(s, rest);
    }
    if ParseStatement(FormatStatement(s) + rest) == Ok(s, rest) {
      FormatStatementPlain(s);
      PlainConcat(FormatStatement(s), rest);
      StatementFits(FormatStatement(s) + rest);
    }
  }

  // --------------------------------------------------------- whole programs

  lemma {:induction false} SkipNewlinesPlain(ts: seq<Token>)
    requires Plain(ts)
    ensures Plain(SkipNewlines(ts))
  {
    hide Plain;
    if Peek(ts) == Newline {
      PlainAfter(ts, 1);
      SkipNewlinesPlain(ts[1..]);
    }
  }

  lemma LineFits(ts: seq<Token>)
    requires Plain(ts) && ParseLine(ts).Ok? && ParseLine(ts).value.Some?
    ensures var r := ParseLine(ts);
      Printable(r.value.value.statement) && (Peek(r.rest) == LParen || Plain(r.rest))
  {
    hide Plain, Printable, ParseStatement, SkipNewlines;
    SkipNewlinesPlain(ts);
    var from := SkipNewlines(ts);
    var n := ParseLineNumber(from);
    if n.Ok? {
      LineNumberPlain(from);
    }
    var body := if n.Ok? then n.rest else from;
    StatementFits(body);
    var rest := ParseStatement(body).rest;
    if Peek(rest) == Newline {
      PlainAfter(rest, 1);
    }
  }

  lemma ParenthesisFails(ts: seq<Token>)
    requires Peek(ts) == LParen
    ensures ParseProgram(ts).Err?
  {
    assert SkipNewlines(ts) == ts;
    assert ParseStatement(ts).Err?;
  }

  lemma {:induction false} ProgramFits(ts: seq<Token>)
    requires Plain(ts) && ParseProgram(ts).Ok?
    ensures AllPrintable(ParseProgram(ts).value)
    decreases |ts|
  {
    hide Plain, Printable, ParseLine;
    var line := ParseLine(ts);
    if line.value.Some? {
      LineFits(ts);
      if Peek(line.rest) == LParen {
        ParenthesisFails(line.rest);
      } else {
        ProgramFits(line.rest);
      }
    }
  }

  /** A listing loads to the very same lines exactly when all of them are printable and
      nothing follows a remark. */
  lemma LinesReload(lines: seq<Numbered>)
    ensures ParseProgram(Listing(lines)) == Ok(lines, []) <==> AllPrintable(lines) && RemarkOnlyLast(lines)
  {
    hide *;
    AllSurvive(lines);
    if AllPrintable(lines) {
      ListingLoads(lines);
    }
    if ParseProgram(Listing(lines)) == Ok(lines, []) {
      ListingPlain(lines);
      ProgramFits(Listing(lines));
    }
  }

  /** The second line of a remark followed by END is not loaded. */
  lemma LineLost()
    ensures var lines := [Numbered(10, Statement.Rem), Numbered(20, Statement.End)];
      ParseProgram(Listing(lines)) == Ok([lines[0]], [])
  {
    hide ParseProgram, Listing;
    var lines := [Numbered(10, Statement.Rem), Numbered(20, Statement.End)];
    ListingLoads(lines);
    assert lines[2..] == [] && Survivors(lines) == [lines[0]] + Survivors(lines[2..]);
    assert [lines[0]] + [] == [lines[0]];
  }
}
