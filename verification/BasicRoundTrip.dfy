/** What LIST prints can be read back: the printer writes no parentheses, so parsing inverts
    it on exactly the trees that need none. */
module BasicRoundTrip {
  import opened BasicSyntax
  import opened BasicGrammar
  import opened BasicGrouping

  /** These tokens do not continue an expression of level k. */
  predicate Stops(k: nat, ts: seq<Token>) {
    Peek(ts) != LParen && (Peek(ts).Operator? ==> Precedence(Peek(ts).op) < k)
  }

  /** The tree as it is written without any parentheses. */
  function Ungrouped(e: Expr): (w: Written)
    ensures Meaning(w) == e
  {
    match e
    case Number(n) => Literal(n)
    case Text(s) => Quoted(s)
    case Variable(x) => Name(x)
    case Binary(l, op, r) => Chain(Ungrouped(l), op, Ungrouped(r))
    case Negate(x) => Minus(Ungrouped(x))
    case Call1(f, a) => One(f, Ungrouped(a))
    case Call2(f, a, b) => Two(f, Ungrouped(a), Ungrouped(b))
    case Mid(a, b, c) => Three(Ungrouped(a), Ungrouped(b), Ungrouped(c))
    case Socket => NewSocket
    case ArrayAccess(x, i) => Element(x, Ungrouped(i))
  }

  /** A tree that needs no parentheses is printed as it is written. */
  lemma {:induction false} PrintedAsWritten(k: nat, e: Expr)
    requires Fits(k, e)
    ensures Binds(k, Ungrouped(e)) && Spelled(Ungrouped(e)) == FormatExpr(e)
    decreases e
  {
    match e
    case Binary(l, op, r) =>
      PrintedAsWritten(Precedence(op), l);
      PrintedAsWritten(Precedence(op) + 1, r);
    case Negate(x) => PrintedAsWritten(4, x);
    case Call1(_, a) => PrintedAsWritten(0, a);
    case Call2(_, a, b) =>
      PrintedAsWritten(0, a);
      PrintedAsWritten(0, b);
    case Mid(a, b, c) =>
      PrintedAsWritten(0, a);
      PrintedAsWritten(0, b);
      PrintedAsWritten(0, c);
    case ArrayAccess(_, i) => PrintedAsWritten(0, i);
    case _ =>
  }

  /** Parsing what was printed gives the tree back and leaves the rest alone. */
  lemma ExprReadBack(k: nat, e: Expr, rest: seq<Token>)
    requires k <= 4 && Fits(k, e) && Stops(k, rest)
    ensures ParseLevel(k, FormatExpr(e) + rest) == Ok(e, rest)
  {
    hide FormatExpr, ParseLevel, Spelled, Binds, Fits;
    PrintedAsWritten(k, e);
    LevelReads(k, Ungrouped(e), rest);
  }

  lemma UntilReadBack(stop: Token, e: Expr, rest: seq<Token>)
    requires Fits(0, e) && stop != Eof && Stops(0, [stop])
    ensures ParseUntil(stop, FormatExpr(e) + ([stop] + rest)) == Ok(e, rest)
  {
    hide FormatExpr, ParseUntil, Spelled, Binds, Fits;
    PrintedAsWritten(0, e);
    UntilReads(stop, Ungrouped(e), rest);
  }
}
