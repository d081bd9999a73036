/** What the expression parser accepts and what it makes of it, said without the parser: an
    expression as it is written, with its parentheses, the tokens it consists of and the tree
    it stands for. */
module BasicGrouping {
  import opened BasicSyntax
  import opened BasicGrammar

  datatype Written =
    | Literal(n: int)
    | Quoted(text: string)
    | Name(name: string)
    | Group(inner: Written)
    | Chain(left: Written, op: BinaryOp, right: Written)
    | Minus(inner: Written)
    | One(f1: Function1, arg: Written)
    | Two(f2: Function2, arg: Written, arg2: Written)
    | Three(arg: Written, arg2: Written, arg3: Written)
    | NewSocket
    | Element(name: string, index: Written)

  function Spelled(w: Written): (ts: seq<Token>)
    ensures ts != []
  {
    match w
    case Literal(n) => [Integer(n)]
    case Quoted(s) => [StringLit(s)]
    case Name(x) => [Identifier(x)]
    case Group(v) => [LParen] + Spelled(v) + [RParen]
    case Chain(l, op, r) => Spelled(l) + [Operator(op)] + Spelled(r)
    case Minus(v) => [Operator(Sub)] + Spelled(v)
    case One(f, a) => [Name1(f), LParen] + Spelled(a) + [RParen]
    case Two(f, a, b) => [Name2(f), LParen] + Spelled(a) + [Comma] + Spelled(b) + [RParen]
    case Three(a, b, c) =>
      [NameMid, LParen] + Spelled(a) + [Comma] + Spelled(b) + [Comma] + Spelled(c) + [RParen]
    case NewSocket => [NameSocket, LParen, RParen]
    case Element(x, i) => [Identifier(x), LParen] + Spelled(i) + [RParen]
  }

  /** Parentheses group and mean nothing else. */
  function Meaning(w: Written): Expr {
    match w
    case Literal(n) => Number(n)
    case Quoted(s) => Text(s)
    case Name(x) => Variable(x)
    case Group(v) => Meaning(v)
    case Chain(l, op, r) => Binary(Meaning(l), op, Meaning(r))
    case Minus(v) => Negate(Meaning(v))
    case One(f, a) => Call1(f, Meaning(a))
    case Two(f, a, b) => Call2(f, Meaning(a), Meaning(b))
    case Three(a, b, c) => Mid(Meaning(a), Meaning(b), Meaning(c))
    case NewSocket => Socket
    case Element(x, i) => ArrayAccess(x, Meaning(i))
  }

  /** Operators bind by precedence and to the left, a minus sign takes a primary, and anything
      may stand in parentheses: 0 to 2 are the binary operators, 3 a negation, 4 a primary. */
  predicate Binds(k: nat, w: Written)
    decreases w
  {
    match w
    case Group(v) => Binds(0, v)
    case Chain(l, op, r) => k <= Precedence(op) && Binds(Precedence(op), l) && Binds(Precedence(op) + 1, r)
    case Minus(v) => k <= 3 && Binds(4, v)
    case One(_, a) => Binds(0, a)
    case Two(_, a, b) => Binds(0, a) && Binds(0, b)
    case Three(a, b, c) => Binds(0, a) && Binds(0, b) && Binds(0, c)
    case Element(_, i) => Binds(0, i)
    case _ => true
  }

  predicate EndsInName(w: Written) {
    match w
    case Name(_) => true
    case Chain(_, _, r) => EndsInName(r)
    case Minus(v) => EndsInName(v)
    case _ => false
  }

  /** The tokens after an expression of level k do not continue it. */
  predicate EndsAt(k: nat, w: Written, rest: seq<Token>) {
    (EndsInName(w) ==> Peek(rest) != LParen) && (Peek(rest).Operator? ==> Precedence(Peek(rest).op) < k)
  }

  lemma Assoc<T>(a: seq<T>, b: seq<T>, c: seq<T>)
    ensures (a + b) + c == a + (b + c)
  {
  }

  // -------------------------------------------- what is written is understood

  lemma {:induction false} LevelReads(k: nat, w: Written, rest: seq<Token>)
    requires k <= 4 && Binds(k, w) && EndsAt(k, w, rest)
    ensures ParseLevel(k, Spelled(w) + rest) == Ok(Meaning(w), rest)
    decreases w, 2 * (5 - k) + 1
  {
    hide Spelled, Meaning, ParsePrimary;
    if k == 4 {
      PrimaryReads(w, rest);
    } else if k == 3 {
      UnaryReads(w, rest);
    } else {
      LoopReads(k, w, rest);
    }
  }

  /** At a binary level the parser reads what is written and goes on with its loop. */
  lemma {:induction false} LoopReads(k: nat, w: Written, rest: seq<Token>)
    requires k <= 2 && Binds(k, w) && EndsAt(k + 1, w, rest)
    ensures ParseLevel(k, Spelled(w) + rest) == ParseLoop(k, Meaning(w), rest)
    decreases w, 2 * (5 - k)
  {
    hide ParsePrimary, ParseLoop, Spelled;
    if w.Chain? && Precedence(w.op) == k {
      var tail := Spelled(w.right) + rest;
      LoopReads(k, w.left, [Operator(w.op)] + tail);
      LevelReads(k + 1, w.right, rest);
      LoopStep(k, Meaning(w.left), w.op, Meaning(w.right), tail, rest);
      SpelledChain(w.left, w.op, w.right, rest);
    } else {
      LevelReads(k + 1, w, rest);
    }
  }

  lemma LoopStep(k: nat, left: Expr, op: BinaryOp, right: Expr, tail: seq<Token>, rest: seq<Token>)
    requires k <= 2 && Precedence(op) == k && ParseLevel(k + 1, tail) == Ok(right, rest)
    ensures ParseLoop(k, left, [Operator(op)] + tail) == ParseLoop(k, Binary(left, op, right), rest)
  {
    hide ParsePrimary, ParseLevel, Precedence;
    assert ([Operator(op)] + tail)[1..] == tail;
  }

  lemma {:induction false} UnaryReads(w: Written, rest: seq<Token>)
    requires Binds(3, w) && EndsAt(3, w, rest)
    ensures ParseLevel(3, Spelled(w) + rest) == Ok(Meaning(w), rest)
    decreases w, 4
  {
    hide ParsePrimary;
    var ts := Spelled(w) + rest;
    if w.Minus? {
      LevelReads(4, w.inner, rest);
      assert ts[1..] == Spelled(w.inner) + rest;
    } else {
      LevelReads(4, w, rest);
      assert ts[0] == Spelled(w)[0] != Operator(Sub);
    }
  }

  lemma {:induction false} UntilReads(stop: Token, w: Written, rest: seq<Token>)
    requires Binds(0, w) && stop != Eof && stop != LParen && !stop.Operator?
    ensures ParseUntil(stop, Spelled(w) + ([stop] + rest)) == Ok(Meaning(w), rest)
    decreases w, 12
  {
    hide Spelled, Meaning, ParseLevel;
    LevelReads(0, w, [stop] + rest);
    assert ([stop] + rest)[1..] == rest;
  }

  lemma {:induction false} PrimaryReads(w: Written, rest: seq<Token>)
    requires Binds(4, w) && EndsAt(4, w, rest)
    ensures ParsePrimary(Spelled(w) + rest) == Ok(Meaning(w), rest)
    decreases w, 2
  {
    hide ParseUntil, ParsePrimary, Spelled;
    match w
    case Group(v) =>
      UntilReads(RParen, v, rest);
      GroupParses(Meaning(v), Spelled(v) + ([RParen] + rest), rest);
      SpelledCall([LParen], v, rest);
    case One(f, a) =>
      UntilReads(RParen, a, rest);
      Call1Parses(f, Meaning(a), Spelled(a) + ([RParen] + rest), rest);
      SpelledCall([Name1(f), LParen], a, rest);
    case Element(x, i) =>
      UntilReads(RParen, i, rest);
      ArrayAccessParses(x, Meaning(i), Spelled(i) + ([RParen] + rest), rest);
      SpelledCall([Identifier(x), LParen], i, rest);
    case Two(f, a, b) =>
      var afterA := Spelled(b) + ([RParen] + rest);
      UntilReads(Comma, a, afterA);
      UntilReads(RParen, b, rest);
      Call2Parses(f, Meaning(a), Meaning(b), Spelled(a) + ([Comma] + afterA), afterA, rest);
      SpelledTwo(f, a, b, rest);
    case Three(a, b, c) =>
      var afterB := Spelled(c) + ([RParen] + rest);
      var afterA := Spelled(b) + ([Comma] + afterB);
      UntilReads(Comma, a, afterA);
      UntilReads(Comma, b, afterB);
      UntilReads(RParen, c, rest);
      MidParses(Meaning(a), Meaning(b), Meaning(c), Spelled(a) + ([Comma] + afterA), afterA, afterB, rest);
      SpelledThree(a, b, c, rest);
    case _ =>
      SimpleReads(w, rest);
  }

  lemma SpelledChain(l: Written, op: BinaryOp, r: Written, rest: seq<Token>)
    ensures Spelled(Chain(l, op, r)) + rest == Spelled(l) + ([Operator(op)] + (Spelled(r) + rest))
  {
    Assoc(Spelled(l) + [Operator(op)], Spelled(r), rest);
    Assoc(Spelled(l), [Operator(op)], Spelled(r) + rest);
  }

  lemma SpelledCall(head: seq<Token>, a: Written, rest: seq<Token>)
    ensures (head + Spelled(a) + [RParen]) + rest == head + (Spelled(a) + ([RParen] + rest))
    ensures head == [LParen] ==> Spelled(Group(a)) == head + Spelled(a) + [RParen]
    ensures forall f :: head == [Name1(f), LParen] ==> Spelled(One(f, a)) == head + Spelled(a) + [RParen]
    ensures forall x :: head == [Identifier(x), LParen] ==> Spelled(Element(x, a)) == head + Spelled(a) + [RParen]
  {
    Assoc(head + Spelled(a), [RParen], rest);
    Assoc(head, Spelled(a), [RParen] + rest);
  }

  lemma SpelledTwo(f: Function2, a: Written, b: Written, rest: seq<Token>)
    ensures Spelled(Two(f, a, b)) + rest
         == [Name2(f), LParen] + (Spelled(a) + ([Comma] + (Spelled(b) + ([RParen] + rest))))
  {
    var head := [Name2(f), LParen] + Spelled(a);
    Assoc(head + [Comma] + Spelled(b), [RParen], rest);
    Assoc(head + [Comma], Spelled(b), [RParen] + rest);
    Assoc(head, [Comma], Spelled(b) + ([RParen] + rest));
    Assoc([Name2(f), LParen], Spelled(a), [Comma] + (Spelled(b) + ([RParen] + rest)));
  }

  lemma SpelledThree(a: Written, b: Written, c: Written, rest: seq<Token>)
    ensures Spelled(Three(a, b, c)) + rest
         == [NameMid, LParen] + (Spelled(a) + ([Comma] + (Spelled(b) + ([Comma] + (Spelled(c) + ([RParen] + rest))))))
  {
    var head := [NameMid, LParen] + Spelled(a);
    var head2 := head + [Comma] + Spelled(b);
    var last := Spelled(c) + ([RParen] + rest);
    Assoc(head2 + [Comma] + Spelled(c), [RParen], rest);
    Assoc(head2 + [Comma], Spelled(c), [RParen] + rest);
    Assoc(head2, [Comma], last);
    Assoc(head + [Comma], Spelled(b), [Comma] + last);
    Assoc(head, [Comma], Spelled(b) + ([Comma] + last));
    Assoc([NameMid, LParen], Spelled(a), [Comma] + (Spelled(b) + ([Comma] + last)));
  }

  lemma SimpleReads(w: Written, rest: seq<Token>)
    requires w.Literal? || w.Quoted? || w.Name? || w.NewSocket?
    requires EndsAt(4, w, rest)
    ensures ParsePrimary(Spelled(w) + rest) == Ok(Meaning(w), rest)
  {
    hide ParseUntil;
    var ts := Spelled(w) + rest;
    assert ts[|Spelled(w)|..] == rest;
  }

  lemma GroupParses(e: Expr, from: seq<Token>, rest: seq<Token>)
    requires ParseUntil(RParen, from) == Ok(e, rest)
    ensures ParsePrimary([LParen] + from) == Ok(e, rest)
  {
    hide ParseUntil;
    assert ([LParen] + from)[1..] == from;
  }

  lemma Call1Parses(f: Function1, a: Expr, from: seq<Token>, rest: seq<Token>)
    requires ParseUntil(RParen, from) == Ok(a, rest)
    ensures ParsePrimary([Name1(f), LParen] + from) == Ok(Call1(f, a), rest)
  {
    hide ParseUntil;
    assert ([Name1(f), LParen] + from)[2..] == from;
  }

  lemma ArrayAccessParses(x: string, i: Expr, from: seq<Token>, rest: seq<Token>)
    requires ParseUntil(RParen, from) == Ok(i, rest)
    ensures ParsePrimary([Identifier(x), LParen] + from) == Ok(ArrayAccess(x, i), rest)
  {
    hide ParseUntil;
    assert ([Identifier(x), LParen] + from)[2..] == from;
  }

  lemma Call2Parses(f: Function2, a: Expr, b: Expr, from: seq<Token>, afterA: seq<Token>, rest: seq<Token>)
    requires ParseUntil(Comma, from) == Ok(a, afterA) && ParseUntil(RParen, afterA) == Ok(b, rest)
    ensures ParsePrimary([Name2(f), LParen] + from) == Ok(Call2(f, a, b), rest)
  {
    hide ParseUntil;
    assert ([Name2(f), LParen] + from)[2..] == from;
  }

  lemma MidParses(a: Expr, b: Expr, c: Expr, from: seq<Token>, afterA: seq<Token>, afterB: seq<Token>, rest: seq<Token>)
    requires ParseUntil(Comma, from) == Ok(a, afterA) && ParseUntil(Comma, afterA) == Ok(b, afterB)
    requires ParseUntil(RParen, afterB) == Ok(c, rest)
    ensures ParsePrimary([NameMid, LParen] + from) == Ok(Mid(a, b, c), rest)
  {
    hide ParseUntil;
    assert ([NameMid, LParen] + from)[2..] == from;
  }

  // ------------------------------------------- what is understood was written

  lemma {:induction false} LevelWritten(k: nat, ts: seq<Token>) returns (w: Written)
    requires k <= 4 && ParseLevel(k, ts).Ok?
    ensures var r := ParseLevel(k, ts);
      Binds(k, w) && EndsAt(k, w, r.rest) && Meaning(w) == r.value && ts == Spelled(w) + r.rest
    decreases |ts|, 6 - k
  {
    hide ParsePrimary, ParseLoop, Spelled;
    if k == 4 {
      w := PrimaryWritten(ts);
    } else if k == 3 {
      if Peek(ts) == Operator(Sub) {
        var v := PrimaryWritten(ts[1..]);
        w := Minus(v);
        SpelledMinus(ts, v, ParsePrimary(ts[1..]).rest);
      } else {
        w := PrimaryWritten(ts);
        Looser(3, w);
      }
    } else {
      var l := LevelWritten(k + 1, ts);
      Looser(k, l);
      w := LoopWritten(k, l, ParseLevel(k + 1, ts).rest);
    }
  }

  lemma Looser(k: nat, w: Written)
    requires k <= 3 && Binds(k + 1, w)
    ensures Binds(k, w)
  {
  }

  lemma SpelledMinus(ts: seq<Token>, v: Written, rest: seq<Token>)
    requires ts != [] && ts[0] == Operator(Sub) && ts[1..] == Spelled(v) + rest
    ensures ts == Spelled(Minus(v)) + rest
  {
    assert ts == [ts[0]] + ts[1..];
  }

  lemma {:induction false} LoopWritten(k: nat, left: Written, ts: seq<Token>) returns (w: Written)
    requires k <= 2 && Binds(k, left) && EndsAt(k + 1, left, ts) && ParseLoop(k, Meaning(left), ts).Ok?
    ensures var r := ParseLoop(k, Meaning(left), ts);
      Binds(k, w) && EndsAt(k, w, r.rest) && Meaning(w) == r.value && Spelled(left) + ts == Spelled(w) + r.rest
    decreases |ts|, 0
  {
    hide ParseLevel, Spelled;
    if Peek(ts).Operator? && Precedence(Peek(ts).op) == k {
      var r := LevelWritten(k + 1, ts[1..]);
      var rest := ParseLevel(k + 1, ts[1..]).rest;
      var longer := Chain(left, Peek(ts).op, r);
      SpelledChain(left, Peek(ts).op, r, rest);
      assert ts == [ts[0]] + ts[1..];
      w := LoopWritten(k, longer, rest);
    } else {
      w := left;
    }
  }

  lemma {:induction false} UntilWritten(stop: Token, ts: seq<Token>) returns (w: Written)
    requires stop != Eof && ParseUntil(stop, ts).Ok?
    ensures var r := ParseUntil(stop, ts);
      Binds(0, w) && Meaning(w) == r.value && ts == Spelled(w) + ([stop] + r.rest)
    decreases |ts|, 8
  {
    hide ParseLevel, Spelled, Meaning, Binds;
    w := LevelWritten(0, ts);
    var after := ParseExpr(ts).rest;
    assert after == [after[0]] + after[1..];
  }

  lemma {:induction false} PrimaryWritten(ts: seq<Token>) returns (w: Written)
    requires ParsePrimary(ts).Ok?
    ensures var r := ParsePrimary(ts);
      Binds(4, w) && EndsAt(4, w, r.rest) && Meaning(w) == r.value && ts == Spelled(w) + r.rest
    decreases |ts|, 1
  {
    hide ParseUntil, Spelled;
    var rest := ParsePrimary(ts).rest;
    var t := ts[0];
    if t == LParen {
      var v := UntilWritten(RParen, ts[1..]);
      w := Group(v);
      SpelledCall([LParen], v, rest);
      assert ts == [LParen] + ts[1..];
    } else if Peek(ts[1..]) == LParen && (t.Identifier? || t.Name1? || t.Name2? || t.NameMid?) {
      w := CallWritten(ts);
    } else {
      w := SimpleWritten(ts);
    }
  }

  lemma SimpleWritten(ts: seq<Token>) returns (w: Written)
    requires ParsePrimary(ts).Ok? && ts[0] != LParen
    requires ts[0].Integer? || ts[0].StringLit? || ts[0].NameSocket? || Peek(ts[1..]) != LParen
    ensures var r := ParsePrimary(ts);
      Binds(4, w) && EndsAt(4, w, r.rest) && Meaning(w) == r.value && ts == Spelled(w) + r.rest
  {
    hide ParseUntil;
    match ts[0]
    case Integer(n) => w := Literal(n);
    case StringLit(s) => w := Quoted(s);
    case Identifier(x) => w := Name(x);
    case _ => w := NewSocket;
  }

  lemma {:induction false} CallWritten(ts: seq<Token>) returns (w: Written)
    requires ParsePrimary(ts).Ok? && |ts| >= 2 && ts[1] == LParen
    requires ts[0].Identifier? || ts[0].Name1? || ts[0].Name2? || ts[0].NameMid?
    ensures var r := ParsePrimary(ts);
      Binds(4, w) && !EndsInName(w) && Meaning(w) == r.value && ts == Spelled(w) + r.rest
    decreases |ts|, 0
  {
    hide ParseUntil, Spelled;
    var rest := ParsePrimary(ts).rest;
    var head, from := [ts[0], LParen], ts[2..];
    assert ts == head + from;
    if ts[0].Identifier? || ts[0].Name1? {
      var a := UntilWritten(RParen, from);
      w := if ts[0].Identifier? then Element(ts[0].name, a) else One(ts[0].f1, a);
      SpelledCall(head, a, rest);
    } else {
      var a := UntilWritten(Comma, from);
      var afterA := ParseUntil(Comma, from).rest;
      if ts[0].Name2? {
        var b := UntilWritten(RParen, afterA);
        w := Two(ts[0].f2, a, b);
        SpelledTwo(ts[0].f2, a, b, rest);
      } else {
        var b := UntilWritten(Comma, afterA);
        var c := UntilWritten(RParen, ParseUntil(Comma, afterA).rest);
        w := Three(a, b, c);
        SpelledThree(a, b, c, rest);
      }
    }
  }

  // ------------------------------------------------------------ the language

  /** `e` is written, by precedence and parentheses, in the tokens before `rest`. */
  ghost predicate Writes(ts: seq<Token>, e: Expr, rest: seq<Token>) {
    exists w :: WrittenAs(w, ts, e, rest)
  }

  predicate WrittenAs(w: Written, ts: seq<Token>, e: Expr, rest: seq<Token>) {
    Binds(0, w) && EndsAt(0, w, rest) && Meaning(w) == e && ts == Spelled(w) + rest
  }

  /** The parser finds a tree exactly where one is written, and finds that one. */
  lemma Recognises(ts: seq<Token>, e: Expr, rest: seq<Token>)
    ensures ParseExpr(ts) == Ok(e, rest) <==> Writes(ts, e, rest)
  {
    hide ParseLevel, Spelled, Meaning, Binds;
    if ParseExpr(ts) == Ok(e, rest) {
      var w := LevelWritten(0, ts);
      assert WrittenAs(w, ts, e, rest);
    }
    if w :| WrittenAs(w, ts, e, rest) {
      LevelReads(0, w, rest);
    }
  }

  /** No two readings: the same tokens never stand for two trees. */
  lemma Unambiguous(v: Written, w: Written)
    requires Binds(0, v) && Binds(0, w) && Spelled(v) == Spelled(w)
    ensures Meaning(v) == Meaning(w)
  {
    hide ParseLevel, Spelled, Meaning, Binds;
    LevelReads(0, v, []);
    LevelReads(0, w, []);
  }

  // ------------------------------------------------------- every tree is reachable

  /** The tree with parentheses around every operation. */
  function Parenthesised(e: Expr): (w: Written)
    ensures Binds(4, w) && Meaning(w) == e
  {
    match e
    case Number(n) => Literal(n)
    case Text(s) => Quoted(s)
    case Variable(x) => Name(x)
    case Binary(l, op, r) => ChainBinds(Parenthesised(l), op, Parenthesised(r));
      Group(Chain(Parenthesised(l), op, Parenthesised(r)))
    case Negate(x) => Group(Minus(Parenthesised(x)))
    case Call1(f, a) => Looser4(Parenthesised(a)); One(f, Parenthesised(a))
    case Call2(f, a, b) =>
      Looser4(Parenthesised(a)); Looser4(Parenthesised(b));
      Two(f, Parenthesised(a), Parenthesised(b))
    case Mid(a, b, c) =>
      Looser4(Parenthesised(a)); Looser4(Parenthesised(b)); Looser4(Parenthesised(c));
      Three(Parenthesised(a), Parenthesised(b), Parenthesised(c))
    case Socket => NewSocket
    case ArrayAccess(x, i) => Looser4(Parenthesised(i)); Element(x, Parenthesised(i))
  }

  /** A primary can stand anywhere. */
  lemma Looser4(w: Written)
    requires Binds(4, w)
    ensures forall k: nat | k <= 4 :: Binds(k, w)
  {
  }

  lemma ChainBinds(l: Written, op: BinaryOp, r: Written)
    requires Binds(4, l) && Binds(4, r)
    ensures Binds(0, Chain(l, op, r))
  {
    Looser4(l);
    Looser4(r);
  }

  /** The lexer delivers no negative literals. */
  predicate Lexical(ts: seq<Token>) {
    forall i :: 0 <= i < |ts| && ts[i].Integer? ==> ts[i].n >= 0
  }

  predicate NonNegative(e: Expr) {
    match e
    case Number(n) => n >= 0
    case Binary(l, _, r) => NonNegative(l) && NonNegative(r)
    case Negate(x) => NonNegative(x)
    case Call1(_, a) => NonNegative(a)
    case Call2(_, a, b) => NonNegative(a) && NonNegative(b)
    case Mid(a, b, c) => NonNegative(a) && NonNegative(b) && NonNegative(c)
    case ArrayAccess(_, i) => NonNegative(i)
    case _ => true
  }

  lemma LexicalConcat(a: seq<Token>, b: seq<Token>)
    ensures Lexical(a + b) <==> Lexical(a) && Lexical(b)
  {
    if Lexical(a + b) {
      assert forall i :: 0 <= i < |a| ==> a[i] == (a + b)[i];
      assert forall i :: 0 <= i < |b| ==> b[i] == (a + b)[|a| + i];
    }
  }

  lemma {:induction false} SpelledLexical(w: Written)
    ensures Lexical(Spelled(w)) <==> NonNegative(Meaning(w))
  {
    hide Lexical;
    match w
    case Group(v) => SpelledLexical(v); LexicalCall([LParen], v);
    case Chain(l, op, r) =>
      SpelledLexical(l);
      SpelledLexical(r);
      LexicalTokens();
      LexicalConcat(Spelled(l), [Operator(op)]);
      LexicalConcat(Spelled(l) + [Operator(op)], Spelled(r));
    case Minus(v) =>
      SpelledLexical(v);
      LexicalTokens();
      LexicalConcat([Operator(Sub)], Spelled(v));
    case One(f, a) => SpelledLexical(a); LexicalCall([Name1(f), LParen], a);
    case Element(x, i) => SpelledLexical(i); LexicalCall([Identifier(x), LParen], i);
    case Two(f, a, b) =>
      SpelledLexical(a);
      SpelledLexical(b);
      LexicalMore([Name2(f), LParen] + Spelled(a), b);
      LexicalCall([Name2(f), LParen], a);
    case Three(a, b, c) =>
      SpelledLexical(a);
      SpelledLexical(b);
      SpelledLexical(c);
      LexicalMore([NameMid, LParen] + Spelled(a) + [Comma] + Spelled(b), c);
      LexicalMore([NameMid, LParen] + Spelled(a), b);
      LexicalCall([NameMid, LParen], a);
    case _ => SpelledSimple(w);
  }

  lemma SpelledSimple(w: Written)
    requires w.Literal? || w.Quoted? || w.Name? || w.NewSocket?
    ensures Lexical(Spelled(w)) <==> NonNegative(Meaning(w))
  {
    if w.Literal? && Lexical(Spelled(w)) {
      assert Spelled(w)[0] == Integer(w.n);
    }
  }

  lemma LexicalTokens()
    ensures forall op :: Lexical([Operator(op)])
    ensures Lexical([Comma]) && Lexical([RParen])
  {
  }

  lemma LexicalCall(head: seq<Token>, a: Written)
    requires head == [LParen] || (|head| == 2 && !head[0].Integer? && head[1] == LParen)
    ensures Lexical(head + Spelled(a)) <==> Lexical(Spelled(a))
    ensures Lexical(head + Spelled(a) + [RParen]) <==> Lexical(Spelled(a))
  {
    hide Spelled;
    LexicalConcat(head, Spelled(a));
    LexicalConcat(head + Spelled(a), [RParen]);
  }

  lemma LexicalMore(from: seq<Token>, a: Written)
    ensures Lexical(from + [Comma] + Spelled(a)) <==> Lexical(from) && Lexical(Spelled(a))
    ensures Lexical(from + [Comma] + Spelled(a) + [RParen]) <==> Lexical(from) && Lexical(Spelled(a))
  {
    hide Lexical, Spelled;
    LexicalTokens();
    LexicalConcat(from, [Comma]);
    LexicalConcat(from + [Comma], Spelled(a));
    LexicalConcat(from + [Comma] + Spelled(a), [RParen]);
  }

  /** With parentheses around every operation every tree is read as it is meant. */
  lemma ParenthesesSuffice(e: Expr, rest: seq<Token>)
    requires Peek(rest) != LParen && !Peek(rest).Operator?
    ensures ParseExpr(Spelled(Parenthesised(e)) + rest) == Ok(e, rest)
  {
    hide ParseLevel, Spelled, Meaning, Binds, Parenthesised;
    Looser4(Parenthesised(e));
    LevelReads(0, Parenthesised(e), rest);
  }

  /** What can be typed are exactly the trees without negative literals. */
  lemma Reachable(e: Expr)
    ensures (exists ts :: Lexical(ts) && ParseExpr(ts) == Ok(e, [])) <==> NonNegative(e)
  {
    hide ParseLevel, Lexical, Spelled, Meaning, Binds, Parenthesised, NonNegative;
    if ts :| Lexical(ts) && ParseExpr(ts) == Ok(e, []) {
      var w := LevelWritten(0, ts);
      assert Spelled(w) + [] == Spelled(w);
      SpelledLexical(w);
    }
    if NonNegative(e) {
      var ts := Spelled(Parenthesised(e));
      assert ts + [] == ts;
      ParenthesesSuffice(e, []);
      SpelledLexical(Parenthesised(e));
    }
  }
}
