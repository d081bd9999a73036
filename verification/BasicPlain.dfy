/** The converse of the round trip: the printer never groups, and whatever is parsed from
    tokens without grouping needs no parentheses. */
module BasicPlain {
  import opened BasicSyntax
  import opened BasicGrammar
  import opened BasicRoundTrip

  predicate IsName(t: Token) {
    t.Identifier? || t.Name1? || t.Name2? || t.NameMid? || t.NameSocket?
  }

  /** Parentheses only enclose arguments and indices, and literals are not negative. */
  predicate Plain(ts: seq<Token>) {
    forall i :: 0 <= i < |ts| ==> PlainAt(ts, i)
  }

  predicate PlainAt(ts: seq<Token>, i: nat)
    requires i < |ts|
  {
    (ts[i] == LParen ==> i > 0 && IsName(ts[i - 1])) && (ts[i].Integer? ==> ts[i].n >= 0)
  }

  lemma PlainSuffix(ts: seq<Token>, i: nat)
    requires Plain(ts) && i <= |ts| && Peek(ts[i..]) != LParen
    ensures Plain(ts[i..])
  {
    forall j | 0 <= j < |ts[i..]|
      ensures PlainAt(ts[i..], j)
    {
      assert PlainAt(ts, i + j);
    }
  }

  /** After anything but a name no parenthesis can open. */
  lemma PlainAfter(ts: seq<Token>, i: nat)
    requires Plain(ts) && 0 < i <= |ts| && !IsName(ts[i - 1])
    ensures Plain(ts[i..])
  {
    if i < |ts| {
      assert PlainAt(ts, i);
    }
    PlainSuffix(ts, i);
  }

  lemma PlainConcat(a: seq<Token>, b: seq<Token>)
    requires Plain(a) && Plain(b)
    ensures Plain(a + b)
  {
    forall i | 0 <= i < |a + b|
      ensures PlainAt(a + b, i)
    {
      if i < |a| {
        assert PlainAt(a, i);
      } else {
        assert PlainAt(b, i - |a|);
      }
    }
  }

  lemma {:induction false} FormatExprPlain(e: Expr)
    ensures Plain(FormatExpr(e))
    decreases e, 0
  {
    hide Plain;
    match e
    case Binary(l, op, r) =>
      FormatExprPlain(l);
      FormatExprPlain(r);
      PlainToken(Operator(op));
      PlainConcat(FormatExpr(l), [Operator(op)]);
      PlainConcat(FormatExpr(l) + [Operator(op)], FormatExpr(r));
    case Negate(x) =>
      FormatExprPlain(x);
      PlainToken(Operator(Sub));
      PlainConcat([Operator(Sub)], FormatExpr(x));
    case Call1(f, a) => PlainCall(Name1(f), a);
    case ArrayAccess(x, i) => PlainCall(Identifier(x), i);
    case Call2(f, a, b) =>
      PlainArgument(Name2(f), a);
      PlainLast([Name2(f), LParen] + FormatExpr(a), b);
    case Mid(a, b, c) =>
      PlainArgument(NameMid, a);
      PlainMore([NameMid, LParen] + FormatExpr(a), b);
      PlainLast([NameMid, LParen] + FormatExpr(a) + [Comma] + FormatExpr(b), c);
    case _ => FormatSimplePlain(e);
  }

  lemma FormatSimplePlain(e: Expr)
    requires e.Number? || e.Text? || e.Variable? || e.Socket?
    ensures Plain(FormatExpr(e))
  {
  }

  lemma PlainToken(t: Token)
    requires t != LParen && (t.Integer? ==> t.n >= 0)
    ensures Plain([t])
  {
  }

  lemma PlainArgument(name: Token, a: Expr)
    requires IsName(name)
    ensures Plain([name, LParen] + FormatExpr(a))
    decreases a, 1
  {
    FormatExprPlain(a);
    assert Plain([name, LParen]);
    PlainConcat([name, LParen], FormatExpr(a));
  }

  lemma PlainCall(name: Token, a: Expr)
    requires IsName(name)
    ensures Plain([name, LParen] + FormatExpr(a) + [RParen])
    decreases a, 2
  {
    PlainArgument(name, a);
    PlainToken(RParen);
    PlainConcat([name, LParen] + FormatExpr(a), [RParen]);
  }

  lemma PlainMore(from: seq<Token>, a: Expr)
    requires Plain(from)
    ensures Plain(from + [Comma] + FormatExpr(a))
    decreases a, 2
  {
    FormatExprPlain(a);
    PlainToken(Comma);
    PlainConcat(from, [Comma]);
    PlainConcat(from + [Comma], FormatExpr(a));
  }

  lemma PlainLast(from: seq<Token>, a: Expr)
    requires Plain(from)
    ensures Plain(from + [Comma] + FormatExpr(a) + [RParen])
    decreases a, 3
  {
    PlainMore(from, a);
    PlainToken(RParen);
    PlainConcat(from + [Comma] + FormatExpr(a), [RParen]);
  }

  // ---------------------------------------------------------- parsed trees

  lemma FitsLooser(k: nat, e: Expr)
    requires k <= 3 && Fits(k + 1, e)
    ensures Fits(k, e)
  {
  }

  lemma {:induction false} LevelFits(k: nat, ts: seq<Token>)
    requires k <= 4 && Plain(ts) && ParseLevel(k, ts).Ok?
    ensures var r := ParseLevel(k, ts); Fits(k, r.value) && Plain(r.rest)
    decreases |ts|, 6 - k
  {
    hide Plain, ParsePrimary, ParseLoop;
    if k == 4 {
      PrimaryFits(ts);
    } else if k == 3 {
      if Peek(ts) == Operator(Sub) {
        PlainAfter(ts, 1);
        PrimaryFits(ts[1..]);
      } else {
        PrimaryFits(ts);
        FitsLooser(3, ParsePrimary(ts).value);
      }
    } else {
      LevelFits(k + 1, ts);
      var left := ParseLevel(k + 1, ts);
      FitsLooser(k, left.value);
      LoopFits(k, left.value, left.rest);
    }
  }

  lemma {:induction false} LoopFits(k: nat, left: Expr, ts: seq<Token>)
    requires k <= 2 && Plain(ts) && Fits(k, left) && ParseLoop(k, left, ts).Ok?
    ensures var r := ParseLoop(k, left, ts); Fits(k, r.value) && Plain(r.rest)
    decreases |ts|, 0
  {
    hide Plain, ParseLevel;
    if Peek(ts).Operator? && Precedence(Peek(ts).op) == k {
      PlainAfter(ts, 1);
      LevelFits(k + 1, ts[1..]);
      var right := ParseLevel(k + 1, ts[1..]);
      LoopFits(k, Binary(left, Peek(ts).op, right.value), right.rest);
    }
  }

  lemma {:induction false} ExprFits(ts: seq<Token>)
    requires Plain(ts) && ParseExpr(ts).Ok?
    ensures var r := ParseExpr(ts); Fits(0, r.value) && Plain(r.rest)
    decreases |ts|, 7
  {
    hide Plain, ParseLevel;
    LevelFits(0, ts);
  }

  lemma {:induction false} UntilFits(stop: Token, ts: seq<Token>)
    requires stop != Eof && !IsName(stop) && Plain(ts) && ParseUntil(stop, ts).Ok?
    ensures var r := ParseUntil(stop, ts); Fits(0, r.value) && Plain(r.rest)
    decreases |ts|, 8
  {
    hide Plain, ParseExpr;
    ExprFits(ts);
    PlainAfter(ParseExpr(ts).rest, 1);
  }

  lemma {:induction false} PrimaryFits(ts: seq<Token>)
    requires Plain(ts) && ParsePrimary(ts).Ok?
    ensures var r := ParsePrimary(ts); Fits(4, r.value) && Plain(r.rest)
    decreases |ts|, 1
  {
    hide Plain, PlainAt, ParseUntil;
    var t := ts[0];
    if t == LParen {
      NoGroup(ts);
    } else if t.Integer? || t.StringLit? {
      PlainLiteral(ts);
      PlainAfter(ts, 1);
    } else if t.NameSocket? {
      PlainAfter(ts, 3);
    } else if Peek(ts[1..]) != LParen {
      PlainSuffix(ts, 1);
    } else {
      PlainAfter(ts, 2);
      CallFits(ts);
    }
  }

  lemma {:induction false} CallFits(ts: seq<Token>)
    requires |ts| >= 2 && ts[1] == LParen && Plain(ts[2..]) && ParsePrimary(ts).Ok?
    requires ts[0].Identifier? || ts[0].Name1? || ts[0].Name2? || ts[0].NameMid?
    ensures var r := ParsePrimary(ts); Fits(4, r.value) && Plain(r.rest)
    decreases |ts|, 0
  {
    hide Plain, PlainAt, ParseUntil;
    var from := ts[2..];
    if ts[0].Identifier? || ts[0].Name1? {
      UntilFits(RParen, from);
    } else {
      UntilFits(Comma, from);
      var a := ParseUntil(Comma, from);
      if ts[0].Name2? {
        UntilFits(RParen, a.rest);
      } else {
        UntilFits(Comma, a.rest);
        UntilFits(RParen, ParseUntil(Comma, a.rest).rest);
      }
    }
  }

  lemma PlainLiteral(ts: seq<Token>)
    requires Plain(ts) && ts != []
    ensures ts[0].Integer? ==> ts[0].n >= 0
  {
    assert PlainAt(ts, 0);
  }

  lemma NoGroup(ts: seq<Token>)
    requires Plain(ts) && ts != []
    ensures ts[0] != LParen
  {
    assert PlainAt(ts, 0);
  }

  /** Printing an expression and parsing it again, before any tokens that do not continue it,
      is the identity exactly when the tree needs no parentheses. */
  lemma ExprRoundTrip(e: Expr, rest: seq<Token>)
    requires Stops(0, rest) && Plain(rest)
    ensures ParseExpr(FormatExpr(e) + rest) == Ok(e, rest) <==> Fits(0, e)
  {
    hide Plain, FormatExpr, ParseLevel, Fits;
    if Fits(0, e) {
      ExprReadBack(0, e, rest);
    }
    if ParseExpr(FormatExpr(e) + rest) == Ok(e, rest) {
      FormatExprPlain(e);
      PlainConcat(FormatExpr(e), rest);
      ExprFits(FormatExpr(e) + rest);
    }
  }

  /** The product A * (B + C) prints as A * B + C and comes back as a sum. */
  lemma GroupingLost()
    ensures var a, b, c := Variable("A"), Variable("B"), Variable("C");
      ParseExpr(FormatExpr(Binary(a, Mul, Binary(b, Add, c)))) == Ok(Binary(Binary(a, Mul, b), Add, c), [])
  {
    hide ParseLevel;
    var a, b, c := Variable("A"), Variable("B"), Variable("C");
    var sum := Binary(Binary(a, Mul, b), Add, c);
    assert FormatExpr(sum) + [] == FormatExpr(Binary(a, Mul, Binary(b, Add, c)));
    ExprReadBack(0, sum, []);
  }
}
