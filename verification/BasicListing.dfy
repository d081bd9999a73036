/** Listing a program and loading the listing again. */
module BasicListing {
  import opened Options
  import opened Bytes
  import opened BasicSyntax
  import opened BasicGrammar
  import opened BasicGrouping
  import opened BasicStatements

  datatype Numbered = Numbered(number: u32, statement: Statement)

  function ListLine(line: Numbered): seq<Token> {
    [Integer(line.number)] + FormatStatement(line.statement) + [Newline]
  }

  function Listing(lines: seq<Numbered>): seq<Token> {
    if lines == [] then [] else ListLine(lines[0]) + Listing(lines[1..])
  }

  /** Reads lines to the end of the input and keeps the numbered ones, in order. */
  function ParseProgram(ts: seq<Token>): Parsed<seq<Numbered>>
    decreases |ts|
  {
    var line := ParseLine(ts);
    if line.Err? then Err
    else if line.value.None? then Ok([], line.rest)
    else
      var more := ParseProgram(line.rest);
      if more.Err? then Err else Ok(Kept(line.value.value) + more.value, more.rest)
  }

  function Kept(line: Line): seq<Numbered> {
    if line.number.Some? then [Numbered(line.number.value, line.statement)] else []
  }

  /** The numbered lines that are read before the input ends or cannot be parsed. */
  function ReadLines(ts: seq<Token>): seq<Numbered>
    decreases |ts|
  {
    var line := ParseLine(ts);
    if line.Err? || line.value.None? then [] else Kept(line.value.value) + ReadLines(line.rest)
  }

  lemma {:induction false} ReadLinesAre(ts: seq<Token>)
    ensures ParseProgram(ts).Ok? ==> ParseProgram(ts).value == ReadLines(ts)
    decreases |ts|
  {
    hide ParseLine;
    var line := ParseLine(ts);
    if line.Ok? && line.value.Some? {
      ReadLinesAre(line.rest);
    }
  }

  /** The lines that come back: the line after a remark is lost. */
  function Survivors(lines: seq<Numbered>): (kept: seq<Numbered>)
    ensures |kept| <= |lines|
  {
    if lines == [] then []
    else if lines[0].statement.Rem? && |lines| > 1 then [lines[0]] + Survivors(lines[2..])
    else [lines[0]] + Survivors(lines[1..])
  }

  predicate AllPrintable(lines: seq<Numbered>) {
    forall i :: 0 <= i < |lines| ==> Printable(lines[i].statement)
  }

  /** Nothing follows a remark. */
  predicate RemarkOnlyLast(lines: seq<Numbered>) {
    forall i :: 0 <= i < |lines| - 1 ==> !lines[i].statement.Rem?
  }

  // ------------------------------------------------------------ single lines

  predicate OneLine(ts: seq<Token>) {
    forall i :: 0 <= i < |ts| ==> ts[i] != Newline && ts[i] != Eof
  }

  lemma {:induction false} FormatExprOneLine(e: Expr)
    ensures OneLine(FormatExpr(e))
  {
    match e
    case Binary(l, _, r) => FormatExprOneLine(l); FormatExprOneLine(r);
    case Negate(x) => FormatExprOneLine(x);
    case Call1(_, a) => FormatExprOneLine(a);
    case ArrayAccess(_, i) => FormatExprOneLine(i);
    case Call2(_, a, b) => FormatExprOneLine(a); FormatExprOneLine(b);
    case Mid(a, b, c) =>
      FormatExprOneLine(a);
      FormatExprOneLine(b);
      FormatExprOneLine(c);
      MidOneLine(a, b, c);
    case _ =>
  }

  lemma MidOneLine(a: Expr, b: Expr, c: Expr)
    requires OneLine(FormatExpr(a)) && OneLine(FormatExpr(b)) && OneLine(FormatExpr(c))
    ensures OneLine(FormatExpr(Mid(a, b, c)))
  {
    hide OneLine;
    var head := [NameMid, LParen] + FormatExpr(a) + [Comma];
    Punctuation();
    OneLineConcat([NameMid, LParen], FormatExpr(a));
    OneLineConcat([NameMid, LParen] + FormatExpr(a), [Comma]);
    OneLineConcat(head, FormatExpr(b));
    OneLineConcat(head + FormatExpr(b), [Comma]);
    OneLineConcat(head + FormatExpr(b) + [Comma], FormatExpr(c));
    OneLineConcat(head + FormatExpr(b) + [Comma] + FormatExpr(c), [RParen]);
  }

  lemma Punctuation()
    ensures OneLine([NameMid, LParen]) && OneLine([Comma]) && OneLine([RParen])
  {
  }

  lemma OneLineConcat(a: seq<Token>, b: seq<Token>)
    requires OneLine(a) && OneLine(b)
    ensures OneLine(a + b)
  {
  }

  lemma {:induction false} FormatItemsOneLine(items: seq<Expr>)
    ensures OneLine(FormatItems(items))
  {
    hide FormatExpr;
    if items != [] {
      FormatExprOneLine(items[0]);
      FormatItemsOneLine(items[1..]);
    }
  }

  lemma {:induction false} FormatArgsOneLine(args: seq<string>)
    ensures OneLine(FormatArgs(args))
  {
    if args != [] {
      FormatArgsOneLine(args[1..]);
    }
  }

  lemma FormatStatementOneLine(s: Statement)
    ensures OneLine(FormatStatement(s))
  {
    hide FormatExpr, FormatItems, FormatArgs;
    match s
    case Print(items) => FormatItemsOneLine(items);
    case Let(_, e) => FormatExprOneLine(e);
    case If(e, _) => FormatExprOneLine(e);
    case For(_, _, _, _) => LongStatementOneLine(s);
    case Sleep(e) => FormatExprOneLine(e);
    case Spawn(_, args) => FormatArgsOneLine(args);
    case Dim(_, e) => FormatExprOneLine(e);
    case ArrayAssign(_, _, _) => LongStatementOneLine(s);
    case Send(_, _) => LongStatementOneLine(s);
    case Close(e) => FormatExprOneLine(e);
    case _ =>
  }

  lemma LongStatementOneLine(s: Statement)
    requires s.For? || s.ArrayAssign? || s.Send?
    ensures OneLine(FormatStatement(s))
  {
    hide FormatExpr;
    if s.For? {
      FormatExprOneLine(s.start);
      FormatExprOneLine(s.end);
      FormatExprOneLine(s.step);
    } else if s.ArrayAssign? {
      FormatExprOneLine(s.index);
      FormatExprOneLine(s.value);
    } else {
      FormatExprOneLine(s.sock);
      FormatExprOneLine(s.data);
    }
  }

  lemma {:induction false} SkipsLine(a: seq<Token>, rest: seq<Token>)
    requires OneLine(a) && Peek(rest) == Newline
    ensures ToEndOfLine(a + rest) == rest
  {
    if a == [] {
      assert a + rest == rest;
    } else {
      SkipsLine(a[1..], rest);
      assert (a + rest)[1..] == a[1..] + rest;
    }
  }

  /** A line is a number, a statement that parses and a newline. */
  lemma LineParses(n: u32, body: seq<Token>, s: Statement, rest: seq<Token>)
    requires ParseStatement(body) == Ok(s, [Newline] + rest)
    ensures ParseLine([Integer(n)] + body) == Ok(Some(Line(Some(n), s)), rest)
  {
    hide ParseStatement;
    assert ([Integer(n)] + body)[1..] == body;
    assert ([Newline] + rest)[1..] == rest;
  }

  lemma ListedLine(line: Numbered, rest: seq<Token>)
    ensures ListLine(line) + rest == [Integer(line.number)] + (FormatStatement(line.statement) + ([Newline] + rest))
  {
    hide FormatStatement;
    var body := FormatStatement(line.statement);
    Assoc([Integer(line.number)] + body, [Newline], rest);
    Assoc([Integer(line.number)], body, [Newline] + rest);
  }

  lemma LineReadBack(line: Numbered, rest: seq<Token>)
    requires Printable(line.statement) && !line.statement.Rem?
    ensures ParseLine(ListLine(line) + rest) == Ok(Some(Line(Some(line.number), line.statement)), rest)
  {
    hide FormatStatement, ParseStatement, ParseLine, Printable;
    var s := line.statement;
    ListedLine(line, rest);
    StatementReadBack(s, [Newline] + rest);
    LineParses(line.number, FormatStatement(s) + ([Newline] + rest), s, rest);
  }

  /** A remark at the end of the program comes back alone. */
  lemma LastRemark(line: Numbered)
    requires line.statement.Rem?
    ensures ParseLine(ListLine(line)) == Ok(Some(Line(Some(line.number), Statement.Rem)), [])
  {
    hide ParseStatement;
    var ts := ListLine(line);
    assert ts == [Integer(line.number), Token.Rem, Newline];
    assert ts[1..] == [Token.Rem, Newline] + [];
    RemarkParses([]);
  }

  /** Any other remark takes the following line with it. */
  lemma RemarkSwallows(line: Numbered, next: Numbered, rest: seq<Token>)
    requires line.statement.Rem?
    ensures ParseLine(ListLine(line) + (ListLine(next) + rest))
         == Ok(Some(Line(Some(line.number), Statement.Rem)), rest)
  {
    hide ParseLine, ParseStatement;
    var after := ListLine(next) + rest;
    var body := [Integer(next.number)] + FormatStatement(next.statement);
    FormatStatementOneLine(next.statement);
    Assoc(body, [Newline], rest);
    SkipsLine(body, [Newline] + rest);
    assert ToEndOfLine(after) == [Newline] + rest;
    RemarkParses(after);
    LineParses(line.number, [Token.Rem, Newline] + after, Statement.Rem, rest);
    assert ListLine(line) == [Integer(line.number)] + [Token.Rem, Newline];
    Assoc([Integer(line.number)], [Token.Rem, Newline], after);
  }

  lemma RemarkParses(after: seq<Token>)
    ensures ParseStatement([Token.Rem, Newline] + after) == Ok(Statement.Rem, ToEndOfLine(after))
  {
    hide ToEndOfLine;
    var ts := [Token.Rem, Newline] + after;
    assert ts[1..][1..] == after;
  }

  // --------------------------------------------------------- whole programs

  lemma ProgramStep(ts: seq<Token>, line: Line, rest: seq<Token>, more: seq<Numbered>)
    requires ParseLine(ts) == Ok(Some(line), rest) && ParseProgram(rest) == Ok(more, [])
    ensures ParseProgram(ts) == Ok(Kept(line) + more, [])
  {
    hide ParseLine;
  }

  /** Loading a listing of printable lines gives exactly the surviving ones. */
  lemma {:induction false} ListingLoads(lines: seq<Numbered>)
    requires AllPrintable(lines)
    ensures ParseProgram(Listing(lines)) == Ok(Survivors(lines), [])
    decreases |lines|
  {
    hide ParseLine, ParseProgram, ListLine, Printable;
    if lines == [] {
      NothingLoads();
    } else if !lines[0].statement.Rem? {
      ListingLoads(lines[1..]);
      LineReadBack(lines[0], Listing(lines[1..]));
      var line := Line(Some(lines[0].number), lines[0].statement);
      ProgramStep(Listing(lines), line, Listing(lines[1..]), Survivors(lines[1..]));
    } else if |lines| == 1 {
      LastRemark(lines[0]);
      NothingLoads();
      assert Listing(lines[1..]) == [] && Listing(lines) == ListLine(lines[0]);
      ProgramStep(Listing(lines), Line(Some(lines[0].number), Statement.Rem), [], []);
    } else {
      var rest := Listing(lines[2..]);
      ListingLoads(lines[2..]);
      RemarkSwallows(lines[0], lines[1], rest);
      assert lines[1..][1..] == lines[2..];
      assert Listing(lines[1..]) == ListLine(lines[1]) + rest;
      ProgramStep(Listing(lines), Line(Some(lines[0].number), Statement.Rem), rest, Survivors(lines[2..]));
    }
  }

  lemma NothingLoads()
    ensures ParseProgram([]) == Ok([], [])
  {
  }

  lemma {:induction false} AllSurvive(lines: seq<Numbered>)
    ensures RemarkOnlyLast(lines) ==> Survivors(lines) == lines
    ensures !RemarkOnlyLast(lines) ==> |Survivors(lines)| < |lines|
    decreases |lines|
  {
    if lines != [] {
      assert lines == [lines[0]] + lines[1..];
      AllSurvive(lines[1..]);
      assert RemarkOnlyLast(lines) ==> RemarkOnlyLast(lines[1..]) by {
        assert forall i :: 0 <= i < |lines[1..]| ==> lines[1..][i] == lines[i + 1];
      }
      if !lines[0].statement.Rem? && RemarkOnlyLast(lines[1..]) {
        assert forall i :: 0 < i < |lines| ==> lines[i] == lines[1..][i - 1];
      }
    }
  }
}
