/** The recursive-descent parser of src/basic/parser.rs, which advances through the tokens in
    place. Every method does what the grammar functions say of the tokens it starts from. */
module BasicParser {
  import opened Options
  import opened Bytes
  import opened BasicSyntax
  import opened G = BasicGrammar

  /** The result of a method and the tokens it leaves agree with the grammar. */
  ghost predicate Agrees<T(!new)>(p: Parsed<T>, r: Option<T>, left: seq<Token>) {
    if r.Some? then p == Ok(r.value, left) else p.Err?
  }

  lemma DropTwo(ts: seq<Token>)
    requires |ts| >= 2
    ensures ts[1..][1..] == ts[2..]
  {
  }

  lemma DropThree(ts: seq<Token>)
    requires |ts| >= 3
    ensures ts[1..][1..][1..] == ts[3..]
  {
  }

  class Parser {
    /** The token looked at, and the tokens the lexer still has to deliver. */
    var current: Token
    var pending: seq<Token>

    ghost predicate Valid()
      reads this
    {
      Eof !in pending && (current == Eof ==> pending == [])
    }

    ghost function Left(): (ts: seq<Token>)
      reads this
      ensures Peek(ts) == current
    {
      if current == Eof then [] else [current] + pending
    }

    constructor (tokens: seq<Token>)
      requires Eof !in tokens
      ensures Valid() && Left() == tokens
    {
      if tokens == [] {
        current, pending := Eof, [];
      } else {
        current, pending := tokens[0], tokens[1..];
      }
    }

    method Advance()
      requires Valid()
      modifies this
      ensures Valid() && Left() == if old(Left()) == [] then [] else old(Left())[1..]
    {
      if pending == [] {
        current := Eof;
      } else {
        current, pending := pending[0], pending[1..];
      }
    }

    /** Advances past a token that has to be there. */
    method Expect(t: Token) returns (ok: bool)
      requires Valid() && t != Eof
      modifies this
      ensures Valid() && ok == (Peek(old(Left())) == t)
      ensures ok ==> old(Left()) != [] && Left() == old(Left())[1..]
    {
      ok := current == t;
      if ok {
        Advance();
      }
    }

    // ----------------------------------------------------------- expressions

    method ParseExpression() returns (r: Option<Expr>)
      requires Valid()
      modifies this
      ensures Valid() && Agrees(G.ParseExpr(old(Left())), r, Left())
      decreases |Left()|, 7
    {
      hide G.ParseLevel;
      r := ParseComparison();
    }

    method ParseComparison() returns (r: Option<Expr>)
      requires Valid()
      modifies this
      ensures Valid() && Agrees(G.ParseLevel(0, old(Left())), r, Left())
      decreases |Left()|, 6
    {
      hide G.ParsePrimary;
      r := ParseAdditive();
      if r.None? {
        return;
      }
      var left := r.value;
      while current.Operator? && (current.op == Eq || current.op == Ne || current.op == Lt
                                  || current.op == Gt || current.op == Le || current.op == Ge)
        invariant Valid() && |Left()| < |old(Left())|
        invariant G.ParseLevel(0, old(Left())) == G.ParseLoop(0, left, Left())
        decreases |Left()|
      {
        var op := current.op;
        Advance();
        var right := ParseAdditive();
        if right.None? {
          return None;
        }
        left := Binary(left, op, right.value);
      }
      r := Some(left);
    }

    method ParseAdditive() returns (r: Option<Expr>)
      requires Valid()
      modifies this
      ensures Valid() && Agrees(G.ParseLevel(1, old(Left())), r, Left())
      decreases |Left()|, 5
    {
      hide G.ParsePrimary;
      r := ParseMultiplicative();
      if r.None? {
        return;
      }
      var left := r.value;
      while current.Operator? && (current.op == Add || current.op == Sub)
        invariant Valid() && |Left()| < |old(Left())|
        invariant G.ParseLevel(1, old(Left())) == G.ParseLoop(1, left, Left())
        decreases |Left()|
      {
        var op := current.op;
        Advance();
        var right := ParseMultiplicative();
        if right.None? {
          return None;
        }
        left := Binary(left, op, right.value);
      }
      r := Some(left);
    }

    method ParseMultiplicative() returns (r: Option<Expr>)
      requires Valid()
      modifies this
      ensures Valid() && Agrees(G.ParseLevel(2, old(Left())), r, Left())
      decreases |Left()|, 4
    {
      hide G.ParsePrimary;
      r := ParseUnary();
      if r.None? {
        return;
      }
      var left := r.value;
      while current.Operator? && (current.op == Mul || current.op == Div)
        invariant Valid() && |Left()| < |old(Left())|
        invariant G.ParseLevel(2, old(Left())) == G.ParseLoop(2, left, Left())
        decreases |Left()|
      {
        var op := current.op;
        Advance();
        var right := ParseUnary();
        if right.None? {
          return None;
        }
        left := Binary(left, op, right.value);
      }
      r := Some(left);
    }

    method ParseUnary() returns (r: Option<Expr>)
      requires Valid()
      modifies this
      ensures Valid() && Agrees(G.ParseLevel(3, old(Left())), r, Left())
      decreases |Left()|, 3
    {
      hide G.ParsePrimary;
      if current == Operator(Sub) {
        Advance();
        r := ParsePrimary();
        if r.Some? {
          r := Some(Negate(r.value));
        }
      } else {
        r := ParsePrimary();
      }
    }

    /** An expression and the token that has to follow it. */
    method ParseUntil(stop: Token) returns (r: Option<Expr>)
      requires Valid() && stop != Eof
      modifies this
      ensures Valid() && Agrees(G.ParseUntil(stop, old(Left())), r, Left())
      decreases |Left()|, 8
    {
      hide G.ParseLevel, G.ParseExpr;
      r := ParseExpression();
      if r.Some? {
        var ok := Expect(stop);
        if !ok {
          r := None;
        }
      }
    }

    method ParsePrimary() returns (r: Option<Expr>)
      requires Valid()
      modifies this
      ensures Valid() && Agrees(G.ParsePrimary(old(Left())), r, Left())
      decreases |Left()|, 2
    {
      hide G.ParseUntil;
      if current.Integer? {
        r := Some(Number(current.n));
        Advance();
      } else if current.StringLit? {
        r := Some(Text(current.text));
        Advance();
      } else if current == LParen {
        Advance();
        r := ParseUntil(RParen);
      } else if current.Identifier? {
        r := ParseVariable();
      } else if current.Name1? {
        r := ParseCall1();
      } else if current.Name2? {
        r := ParseCall2();
      } else if current.NameMid? {
        r := ParseMid();
      } else if current.NameSocket? {
        r := ParseSocket();
      } else {
        r := None;
      }
    }

    method ParseVariable() returns (r: Option<Expr>)
      requires Valid() && current.Identifier?
      modifies this
      ensures Valid() && Agrees(G.ParsePrimary(old(Left())), r, Left())
      decreases |Left()|, 1
    {
      hide G.ParseUntil;
      var name := current.name;
      Advance();
      if current == LParen {
        DropTwo(old(Left()));
        Advance();
        r := ParseUntil(RParen);
        if r.Some? {
          r := Some(ArrayAccess(name, r.value));
        }
      } else {
        r := Some(Variable(name));
      }
    }

    method ParseCall1() returns (r: Option<Expr>)
      requires Valid() && current.Name1?
      modifies this
      ensures Valid() && Agrees(G.ParsePrimary(old(Left())), r, Left())
      decreases |Left()|, 1
    {
      hide G.ParseUntil;
      var f := current.f1;
      Advance();
      var ok := Expect(LParen);
      if !ok {
        return None;
      }
      DropTwo(old(Left()));
      r := ParseUntil(RParen);
      if r.Some? {
        r := Some(Call1(f, r.value));
      }
    }

    method ParseCall2() returns (r: Option<Expr>)
      requires Valid() && current.Name2?
      modifies this
      ensures Valid() && Agrees(G.ParsePrimary(old(Left())), r, Left())
      decreases |Left()|, 1
    {
      hide G.ParsePair;
      var f := current.f2;
      Advance();
      var ok := Expect(LParen);
      if !ok {
        return None;
      }
      DropTwo(old(Left()));
      r := ParsePair(f);
    }

    method ParsePair(f: Function2) returns (r: Option<Expr>)
      requires Valid()
      modifies this
      ensures Valid() && Agrees(G.ParsePair(f, old(Left())), r, Left())
      decreases |Left()|, 9
    {
      hide G.ParseUntil;
      r := ParseUntil(Comma);
      if r.Some? {
        var second := ParseUntil(RParen);
        r := if second.Some? then Some(Call2(f, r.value, second.value)) else None;
      }
    }

    method ParseMid() returns (r: Option<Expr>)
      requires Valid() && current.NameMid?
      modifies this
      ensures Valid() && Agrees(G.ParsePrimary(old(Left())), r, Left())
      decreases |Left()|, 1
    {
      hide G.ParseTriple;
      Advance();
      var ok := Expect(LParen);
      if !ok {
        return None;
      }
      DropTwo(old(Left()));
      r := ParseTriple();
    }

    method ParseTriple() returns (r: Option<Expr>)
      requires Valid()
      modifies this
      ensures Valid() && Agrees(G.ParseTriple(old(Left())), r, Left())
      decreases |Left()|, 9
    {
      hide G.ParseUntil;
      var s := ParseUntil(Comma);
      if s.None? {
        return None;
      }
      var start := ParseUntil(Comma);
      if start.None? {
        return None;
      }
      var len := ParseUntil(RParen);
      r := if len.Some? then Some(Mid(s.value, start.value, len.value)) else None;
    }

    method ParseSocket() returns (r: Option<Expr>)
      requires Valid() && current.NameSocket?
      modifies this
      ensures Valid() && Agrees(G.ParsePrimary(old(Left())), r, Left())
    {
      hide G.ParseUntil;
      Advance();
      var ok := Expect(LParen);
      if !ok {
        return None;
      }
      DropTwo(old(Left()));
      ok := Expect(RParen);
      if !ok {
        return None;
      }
      DropThree(old(Left()));
      r := Some(Socket);
    }

    // ------------------------------------------------------------ statements

    method ParseStatement() returns (r: Option<Statement>)
      requires Valid()
      modifies this
      ensures Valid() && Agrees(G.ParseStatement(old(Left())), r, Left())
    {
      hide G.ParseItems, G.ParseUntil, G.ParseExpr, G.ParseLet, G.ParseFor, G.ParseArgs, G.ParseDim, G.AfterRem;
      hide G.ParseArrayAssign, G.ParseLineNumber;
      match current
      case Print => r := ParsePrint();
      case Let => r := ParseLet();
      case If => r := ParseIf();
      case Goto => r := ParseGoto();
      case For => r := ParseFor();
      case Next => r := ParseNext();
      case Sleep => r := ParseSleep();
      case Spawn => r := ParseSpawn();
      case Gosub => r := ParseGosub();
      case Return =>
        r := Some(Statement.Return);
        Advance();
      case Dim => r := ParseDim();
      case Send => r := ParseSend();
      case Close => r := ParseClose();
      case Rem => r := ParseRem();
      case End =>
        r := Some(Statement.End);
        Advance();
      case Identifier(_) => r := ParseAssignment();
      case _ => r := None;
    }

    method ParsePrint() returns (r: Option<Statement>)
      requires Valid() && current == Token.Print
      modifies this
      ensures Valid() && Agrees(G.ParseStatement(old(Left())), r, Left())
    {
      hide G.ParseItems;
      Advance();
      var items := ParseItems();
      r := if items.Some? then Some(Statement.Print(items.value)) else None;
    }

    method ParseItems() returns (r: Option<seq<Expr>>)
      requires Valid()
      modifies this
      ensures Valid() && Agrees(G.ParseItems(old(Left())), r, Left())
    {
      hide G.ParseExpr;
      var items: seq<Expr> := [];
      PrefixNothing(G.ParseItems(Left()));
      while current != Newline && current != Eof
        invariant Valid() && G.ParseItems(old(Left())) == Prefixed(items, G.ParseItems(Left()))
        decreases |Left()|
      {
        var e := ParseExpression();
        if e.None? {
          return None;
        }
        ghost var before := items;
        items := items + [e.value];
        if current != Semicolon {
          return Some(items);
        }
        Advance();
        PrefixMore(before, e.value, G.ParseItems(Left()));
      }
      assert items + [] == items;
      r := Some(items);
    }

    /** An assignment to a variable or to an array element. */
    method ParseAssignment() returns (r: Option<Statement>)
      requires Valid() && current.Identifier?
      modifies this
      ensures Valid() && Agrees(G.ParseStatement(old(Left())), r, Left())
    {
      hide G.ParseLet, G.ParseArrayAssign;
      var name := current.name;
      Advance();
      if current == LParen {
        DropTwo(old(Left()));
        Advance();
        r := ParseElement(name);
      } else {
        r := ParseValue(name);
      }
    }

    /** The rest of an assignment to an array element. */
    method ParseElement(name: string) returns (r: Option<Statement>)
      requires Valid()
      modifies this
      ensures Valid() && Agrees(G.ParseArrayAssign(name, old(Left())), r, Left())
    {
      hide G.ParseExpr, G.ParseUntil;
      var index := ParseUntil(RParen);
      if index.None? {
        return None;
      }
      var ok := Expect(Operator(Eq));
      if !ok {
        return None;
      }
      var value := ParseExpression();
      r := if value.Some? then Some(ArrayAssign(name, index.value, value.value)) else None;
    }

    /** The `= value` of an assignment to a variable. */
    method ParseValue(name: string) returns (r: Option<Statement>)
      requires Valid()
      modifies this
      ensures Valid() && Agrees(G.ParseLet(name, old(Left())), r, Left())
    {
      hide G.ParseExpr;
      var ok := Expect(Operator(Eq));
      if !ok {
        return None;
      }
      var value := ParseExpression();
      r := if value.Some? then Some(Statement.Let(name, value.value)) else None;
    }

    method ParseLet() returns (r: Option<Statement>)
      requires Valid() && current == Token.Let
      modifies this
      ensures Valid() && Agrees(G.ParseStatement(old(Left())), r, Left())
    {
      hide G.ParseLet;
      Advance();
      if !current.Identifier? {
        return None;
      }
      var name := current.name;
      DropTwo(old(Left()));
      Advance();
      r := ParseValue(name);
    }

    /** A line number: the literal cut to 32 bits. */
    method ParseLineNumber() returns (r: Option<u32>)
      requires Valid()
      modifies this
      ensures Valid() && Agrees(G.ParseLineNumber(old(Left())), r, Left())
    {
      if !current.Integer? {
        return None;
      }
      r := Some(current.n % TWO_32);
      Advance();
    }

    method ParseIf() returns (r: Option<Statement>)
      requires Valid() && current == Token.If
      modifies this
      ensures Valid() && Agrees(G.ParseStatement(old(Left())), r, Left())
    {
      hide G.ParseUntil, G.ParseLineNumber;
      Advance();
      var e := ParseUntil(Then);
      if e.None? {
        return None;
      }
      var n := ParseLineNumber();
      r := if n.Some? then Some(Statement.If(e.value, n.value)) else None;
    }

    method ParseGoto() returns (r: Option<Statement>)
      requires Valid() && current == Token.Goto
      modifies this
      ensures Valid() && Agrees(G.ParseStatement(old(Left())), r, Left())
    {
      hide G.ParseLineNumber;
      Advance();
      var n := ParseLineNumber();
      r := if n.Some? then Some(Statement.Goto(n.value)) else None;
    }

    method ParseGosub() returns (r: Option<Statement>)
      requires Valid() && current == Token.Gosub
      modifies this
      ensures Valid() && Agrees(G.ParseStatement(old(Left())), r, Left())
    {
      hide G.ParseLineNumber;
      Advance();
      var n := ParseLineNumber();
      r := if n.Some? then Some(Statement.Gosub(n.value)) else None;
    }

    method ParseFor() returns (r: Option<Statement>)
      requires Valid() && current == Token.For
      modifies this
      ensures Valid() && Agrees(G.ParseStatement(old(Left())), r, Left())
    {
      hide G.ParseFor;
      Advance();
      r := ParseForHeader();
    }

    method ParseForHeader() returns (r: Option<Statement>)
      requires Valid()
      modifies this
      ensures Valid() && Agrees(G.ParseFor(old(Left())), r, Left())
    {
      hide G.ParseRange;
      if !current.Identifier? {
        return None;
      }
      var name := current.name;
      Advance();
      var ok := Expect(Operator(Eq));
      if !ok {
        return None;
      }
      DropTwo(old(Left()));
      r := ParseRange(name);
    }

    /** The bounds of a FOR and its optional STEP. */
    method ParseRange(name: string) returns (r: Option<Statement>)
      requires Valid()
      modifies this
      ensures Valid() && Agrees(G.ParseRange(name, old(Left())), r, Left())
    {
      hide G.ParseUntil, G.ParseExpr;
      var start := ParseUntil(To);
      if start.None? {
        return None;
      }
      var end := ParseExpression();
      if end.None? {
        return None;
      }
      var step := Some(Number(1));
      if current == Step {
        Advance();
        step := ParseExpression();
        if step.None? {
          return None;
        }
      }
      r := Some(Statement.For(name, start.value, end.value, step.value));
    }

    method ParseNext() returns (r: Option<Statement>)
      requires Valid() && current == Token.Next
      modifies this
      ensures Valid() && Agrees(G.ParseStatement(old(Left())), r, Left())
    {
      Advance();
      if !current.Identifier? {
        return None;
      }
      DropTwo(old(Left()));
      r := Some(Statement.Next(current.name));
      Advance();
    }

    method ParseSleep() returns (r: Option<Statement>)
      requires Valid() && current == Token.Sleep
      modifies this
      ensures Valid() && Agrees(G.ParseStatement(old(Left())), r, Left())
    {
      hide G.ParseExpr;
      Advance();
      var e := ParseExpression();
      r := if e.Some? then Some(Statement.Sleep(e.value)) else None;
    }

    method ParseClose() returns (r: Option<Statement>)
      requires Valid() && current == Token.Close
      modifies this
      ensures Valid() && Agrees(G.ParseStatement(old(Left())), r, Left())
    {
      hide G.ParseExpr;
      Advance();
      var e := ParseExpression();
      r := if e.Some? then Some(Statement.Close(e.value)) else None;
    }

    method ParseSpawn() returns (r: Option<Statement>)
      requires Valid() && current == Token.Spawn
      modifies this
      ensures Valid() && Agrees(G.ParseStatement(old(Left())), r, Left())
    {
      hide G.ParseArgs;
      Advance();
      if !current.StringLit? {
        return None;
      }
      var name := current.text;
      DropTwo(old(Left()));
      Advance();
      var args := ParseArgs();
      r := if args.Some? then Some(Statement.Spawn(name, args.value)) else None;
    }

    method ParseArgs() returns (r: Option<seq<string>>)
      requires Valid()
      modifies this
      ensures Valid() && Agrees(G.ParseArgs(old(Left())), r, Left())
    {
      var args: seq<string> := [];
      PrefixNothing(G.ParseArgs(Left()));
      while current == Comma
        invariant Valid() && G.ParseArgs(old(Left())) == Prefixed(args, G.ParseArgs(Left()))
        decreases |Left()|
      {
        ghost var here := Left();
        Advance();
        if !current.StringLit? {
          return None;
        }
        ghost var before := args;
        ghost var arg := current.text;
        args := args + [current.text];
        DropTwo(here);
        Advance();
        PrefixMore(before, arg, G.ParseArgs(Left()));
      }
      assert args + [] == args;
      r := Some(args);
    }

    method ParseDim() returns (r: Option<Statement>)
      requires Valid() && current == Token.Dim
      modifies this
      ensures Valid() && Agrees(G.ParseStatement(old(Left())), r, Left())
    {
      hide G.ParseDim;
      Advance();
      r := ParseSize();
    }

    /** The name and size of an array. */
    method ParseSize() returns (r: Option<Statement>)
      requires Valid()
      modifies this
      ensures Valid() && Agrees(G.ParseDim(old(Left())), r, Left())
    {
      hide G.ParseUntil;
      if !current.Identifier? {
        return None;
      }
      var name := current.name;
      Advance();
      var ok := Expect(LParen);
      if !ok {
        return None;
      }
      DropTwo(old(Left()));
      var e := ParseUntil(RParen);
      r := if e.Some? then Some(Statement.Dim(name, e.value)) else None;
    }

    method ParseSend() returns (r: Option<Statement>)
      requires Valid() && current == Token.Send
      modifies this
      ensures Valid() && Agrees(G.ParseStatement(old(Left())), r, Left())
    {
      hide G.ParseUntil, G.ParseExpr;
      Advance();
      var sock := ParseUntil(Comma);
      if sock.None? {
        return None;
      }
      var data := ParseExpression();
      r := if data.Some? then Some(Statement.Send(sock.value, data.value)) else None;
    }

    /** Fetches one more token, skips the lexer to the end of the line and fetches again. */
    method ParseRem() returns (r: Option<Statement>)
      requires Valid() && current == Token.Rem
      modifies this
      ensures Valid() && Agrees(G.ParseStatement(old(Left())), r, Left())
    {
      hide G.ToEndOfLine;
      Advance();
      ghost var after := Left();
      assert after != [] ==> after[1..] == pending;
      SkipToEol();
      NothingToSkip();
      Advance();
      r := Some(Statement.Rem);
    }

    method SkipToEol()
      requires Valid()
      modifies this`pending
      ensures Valid() && pending == G.ToEndOfLine(old(pending))
    {
      while pending != [] && pending[0] != Newline
        invariant Valid() && G.ToEndOfLine(old(pending)) == G.ToEndOfLine(pending)
        decreases |pending|
      {
        pending := pending[1..];
      }
    }

    // ----------------------------------------------------------------- lines

    /** One line of a program; None inside when the input has ended. */
    method ParseLine() returns (r: Option<Option<Line>>)
      requires Valid()
      modifies this
      ensures Valid() && Agrees(G.ParseLine(old(Left())), r, Left())
    {
      hide G.ParseStatement;
      while current == Newline
        invariant Valid() && G.SkipNewlines(old(Left())) == G.SkipNewlines(Left())
        decreases |Left()|
      {
        Advance();
      }
      if current == Eof {
        return Some(None);
      }
      var number := None;
      if current.Integer? {
        number := ParseLineNumber();
      }
      var s := ParseStatement();
      if s.None? {
        return None;
      }
      if current == Newline {
        Advance();
      }
      r := Some(Some(Line(number, s.value)));
    }
  }

  lemma NothingToSkip()
    ensures G.ToEndOfLine([]) == []
  {
  }

  /** Elements already read, followed by those a parser still finds. */
  ghost function Prefixed<T>(done: seq<T>, p: Parsed<seq<T>>): Parsed<seq<T>> {
    if p.Err? then Err else Ok(done + p.value, p.rest)
  }

  lemma PrefixNothing<T>(p: Parsed<seq<T>>)
    ensures Prefixed([], p) == p
  {
    if p.Ok? {
      assert [] + p.value == p.value;
    }
  }

  lemma PrefixMore<T>(done: seq<T>, x: T, p: Parsed<seq<T>>)
    ensures Prefixed(done, Prefixed([x], p)) == Prefixed(done + [x], p)
  {
    if p.Ok? {
      assert done + ([x] + p.value) == done + [x] + p.value;
    }
  }
}
