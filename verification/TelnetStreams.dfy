/** What the decoder of src/telnet.rs makes of a stream as RFC 854 and RFC 855 describe it: text,
    commands, option negotiation and subnegotiation. */
module TelnetStreams {
  import opened Bytes
  import opened Telnet

  // -------------------------------------------------------------- negotiation

  predicate Negotiates(cmd: byte) {
    cmd in {DO, DONT, WILL, WONT}
  }

  /** Every negotiation command is answered, about its own option: a demand by an offer or a
      refusal and an offer by a demand or a refusal, positively exactly for the options supported
      and never when the other side refuses. */
  lemma ReplyAnswers(cmd: byte, opt: byte)
    ensures Reply(cmd, opt) == [] <==> !Negotiates(cmd)
    ensures Negotiates(cmd) ==>
      var r := Reply(cmd, opt);
      && |r| == 3 && r[0] == IAC && r[2] == opt
      && (cmd in {DO, DONT} ==> r[1] in {WILL, WONT} && (r[1] == WILL <==> cmd == DO && opt in {ECHO, SUPPRESS_GO_AHEAD}))
      && (cmd in {WILL, WONT} ==> r[1] in {DO, DONT} && (r[1] == DO <==> cmd == WILL && opt == SUPPRESS_GO_AHEAD))
  {
  }

  /** The n-th answer when two terminals of this kind answer each other. */
  function Answer(cmd: byte, opt: byte, n: nat): (r: byte)
    requires Negotiates(cmd)
    ensures Negotiates(r)
  {
    if n == 0 then cmd
    else
      ReplyAnswers(Answer(cmd, opt, n - 1), opt);
      Reply(Answer(cmd, opt, n - 1), opt)[1]
  }

  /** Two terminals of this kind never come to an end: they go on refusing each other, or, for
      the suppression of go-ahead, agreeing. */
  lemma {:induction false} NeverSettles(cmd: byte, opt: byte, n: nat)
    requires Negotiates(cmd) && n >= 2
    ensures Reply(Answer(cmd, opt, n), opt) != []
    ensures Answer(cmd, opt, n) in (if opt == SUPPRESS_GO_AHEAD && cmd in {DO, WILL} then {DO, WILL} else {DONT, WONT})
  {
    ReplyAnswers(Answer(cmd, opt, n), opt);
    ReplyAnswers(Answer(cmd, opt, n - 1), opt);
    if n > 2 {
      NeverSettles(cmd, opt, n - 1);
    } else {
      ReplyAnswers(cmd, opt);
      assert Answer(cmd, opt, 0) == cmd;
      assert Answer(cmd, opt, 1) == Reply(cmd, opt)[1];
    }
  }

  // ----------------------------------------------------------- subnegotiation

  /** Parameters as they are sent, 0xFF doubled. */
  function Doubled(p: seq<byte>): seq<byte> {
    if p == [] then [] else (if p[0] == IAC then [IAC, IAC] else [p[0]]) + Doubled(p[1..])
  }

  /** The parameters contain 0xFF followed by 0xF0. */
  predicate HoldsEnd(p: seq<byte>) {
    exists i :: 0 <= i < |p| - 1 && p[i] == IAC && p[i + 1] == SE
  }

  /** The decoder within a subnegotiation, after 0xFF or not. */
  function Within(iac: bool): Decoder {
    Decoder(if iac then SubnegotiationIac else Subnegotiation, false)
  }

  lemma HoldsEndStep(p: seq<byte>)
    requires p != []
    ensures HoldsEnd(p) <==> (|p| > 1 && p[0] == IAC && p[1] == SE) || HoldsEnd(p[1..])
  {
    if HoldsEnd(p) {
      var i :| 0 <= i < |p| - 1 && p[i] == IAC && p[i + 1] == SE;
      assert i > 0 ==> p[1..][i - 1] == IAC && p[1..][i] == SE;
    }
    if HoldsEnd(p[1..]) {
      var i :| 0 <= i < |p[1..]| - 1 && p[1..][i] == IAC && p[1..][i + 1] == SE;
      assert p[i + 1] == IAC && p[i + 2] == SE;
    }
  }

  /** Parameters without that pair are skipped. */
  lemma {:induction false} Skips(iac: bool, p: seq<byte>)
    requires !HoldsEnd(p) && !(iac && p != [] && p[0] == SE)
    ensures DecodeAll(Within(iac), Doubled(p)) == Effect(Within(if p == [] then iac else p[|p| - 1] == IAC), [], [])
    decreases |p|
  {
    if p != [] {
      HoldsEndStep(p);
      var last := p[0] == IAC;
      Skips(last, p[1..]);
      var first: seq<byte> := if last then [IAC, IAC] else [p[0]];
      SkipsOne(iac, p[0], first);
      DecodeConcat(Within(iac), first, Doubled(p[1..]));
    }
  }

  lemma SkipsOne(iac: bool, b: byte, first: seq<byte>)
    requires first == (if b == IAC then [IAC, IAC] else [b]) && !(iac && b == SE)
    ensures DecodeAll(Within(iac), first) == Effect(Within(b == IAC), [], [])
  {
    if b == IAC {
      assert first == [IAC] + [IAC];
      DecodeConcat(Within(iac), [IAC], [IAC]);
    }
  }

  /** Outside a subnegotiation doubled bytes never lead into one. */
  lemma {:induction false} StaysOutside(swallow: bool, p: seq<byte>)
    ensures DecodeAll(Decoder(Data, swallow), Doubled(p)).next.state == Data
    decreases |p|
  {
    if p != [] {
      var first: seq<byte> := if p[0] == IAC then [IAC, IAC] else [p[0]];
      OutsideOne(swallow, p[0], first);
      var next := DecodeAll(Decoder(Data, swallow), first).next;
      StaysOutside(next.swallowLf, p[1..]);
      DecodeConcat(Decoder(Data, swallow), first, Doubled(p[1..]));
    }
  }

  lemma OutsideOne(swallow: bool, b: byte, first: seq<byte>)
    requires first == if b == IAC then [IAC, IAC] else [b]
    ensures DecodeAll(Decoder(Data, swallow), first).next.state == Data
  {
    if b == IAC {
      assert first == [IAC] + [IAC];
      DecodeConcat(Decoder(Data, swallow), [IAC], [IAC]);
    }
  }

  /** The decoder is still within the subnegotiation after its parameters exactly if they do not
      contain 0xFF 0xF0: it takes the second half of a doubled 0xFF for the start of the end. */
  lemma {:induction false} ParametersSkipped(iac: bool, p: seq<byte>)
    requires !(iac && p != [] && p[0] == SE)
    ensures DecodeAll(Within(iac), Doubled(p)).next.state in {Subnegotiation, SubnegotiationIac} <==> !HoldsEnd(p)
    decreases |p|
  {
    if !HoldsEnd(p) {
      Skips(iac, p);
    } else {
      HoldsEndStep(p);
      var first: seq<byte> := if p[0] == IAC then [IAC, IAC] else [p[0]];
      SkipsOne(iac, p[0], first);
      DecodeConcat(Within(iac), first, Doubled(p[1..]));
      if p[0] == IAC && p[1] == SE {
        EndsEarly(p[1..]);
      } else {
        ParametersSkipped(p[0] == IAC, p[1..]);
      }
    }
  }

  lemma EndsEarly(p: seq<byte>)
    requires p != [] && p[0] == SE
    ensures DecodeAll(Within(true), Doubled(p)).next.state == Data
  {
    DecodeConcat(Within(true), [SE], Doubled(p[1..]));
    assert DecodeAll(Within(true), [SE]).next == Decoder(Data, false);
    StaysOutside(false, p[1..]);
  }

  // ------------------------------------------------------------------- streams

  datatype Item =
    | Char(b: byte)
    | NewLine
    | Return
    | Escaped
    | Negotiation(cmd: byte, opt: byte)
    | Command(cmd: byte)
    | Parameters(p: seq<byte>)

  predicate Proper(x: Item) {
    match x
    case Char(b) => b != IAC && b != CR
    case Negotiation(cmd, _) => Negotiates(cmd)
    case Command(cmd) => !Negotiates(cmd) && cmd != IAC && cmd != SB
    case Parameters(p) => !HoldsEnd(p)
    case _ => true
  }

  function Spelled(x: Item): seq<byte> {
    match x
    case Char(b) => [b]
    case NewLine => [CR, LF]
    case Return => [CR, NUL]
    case Escaped => [IAC, IAC]
    case Negotiation(cmd, opt) => [IAC, cmd, opt]
    case Command(cmd) => [IAC, cmd]
    case Parameters(p) => [IAC, SB] + (Doubled(p) + [IAC, SE])
  }

  /** The text produced for an item; a bare carriage return comes out as a line feed and NUL. */
  function TextOf(x: Item): seq<byte> {
    match x
    case Char(b) => [b]
    case NewLine => [LF]
    case Return => [LF, NUL]
    case Escaped => [IAC]
    case _ => []
  }

  function AnswerTo(x: Item): seq<byte> {
    if x.Negotiation? then Reply(x.cmd, x.opt) else []
  }

  lemma ItemDecodes(x: Item)
    requires Proper(x)
    ensures DecodeAll(START, Spelled(x)) == Effect(START, TextOf(x), AnswerTo(x))
  {
    hide DecodeAll, Decode, HoldsEnd, Reply, Doubled;
    match x
    case Char(b) => CharDecodes(b);
    case Negotiation(cmd, opt) => NegotiationDecodes(cmd, opt);
    case Parameters(p) => ParametersDecode(p);
    case _ => PairDecodes(x);
  }

  lemma CharDecodes(b: byte)
    requires Proper(Char(b))
    ensures DecodeAll(START, [b]) == Effect(START, [b], [])
  {
    hide DecodeAll;
    DecodesOne(START, b);
  }

  lemma PairDecodes(x: Item)
    requires Proper(x) && (x.NewLine? || x.Return? || x.Escaped? || x.Command?)
    ensures DecodeAll(START, Spelled(x)) == Effect(START, TextOf(x), [])
  {
    hide DecodeAll;
    var s := Spelled(x);
    DecodesTwo(s[0], s[1]);
    assert s == [s[0], s[1]];
  }

  lemma NegotiationDecodes(cmd: byte, opt: byte)
    requires Negotiates(cmd)
    ensures DecodeAll(START, [IAC, cmd, opt]) == Effect(START, [], Reply(cmd, opt))
  {
    hide DecodeAll, Reply;
    DecodesTwo(IAC, cmd);
    DecodesOne(Decoder(IacCommand(cmd), false), opt);
    DecodeConcat(START, [IAC, cmd], [opt]);
    assert [IAC, cmd, opt] == [IAC, cmd] + [opt];
  }

  lemma DecodesTwo(a: byte, b: byte)
    ensures var e := Decode(START, a); var f := Decode(e.next, b);
      DecodeAll(START, [a, b]) == Effect(f.next, e.produced + f.produced, e.reply + f.reply)
  {
    hide Decode;
    assert [a, b] == [a] + [b];
    DecodeConcat(START, [a], [b]);
    DecodesOne(START, a);
    DecodesOne(Decode(START, a).next, b);
  }

  lemma DecodesOne(d: Decoder, a: byte)
    ensures DecodeAll(d, [a]) == Decode(d, a)
  {
    hide Decode;
    assert [a][1..] == [];
    assert DecodeAll(Decode(d, a).next, []) == Effect(Decode(d, a).next, [], []);
  }

  lemma ParametersDecode(p: seq<byte>)
    requires !HoldsEnd(p)
    ensures DecodeAll(START, Spelled(Parameters(p))) == Effect(START, [], [])
  {
    hide HoldsEnd, Doubled;
    DecodesTwo(IAC, SB);
    Skips(false, p);
    var iac := p != [] && p[|p| - 1] == IAC;
    DecodeConcat(START, [IAC, SB], Doubled(p) + [IAC, SE]);
    DecodeConcat(Within(false), Doubled(p), [IAC, SE]);
    EndFound(iac);
  }

  lemma EndFound(iac: bool)
    ensures DecodeAll(Within(iac), [IAC, SE]) == Effect(START, [], [])
  {
    assert [IAC, SE] == [IAC] + [SE];
    DecodeConcat(Within(iac), [IAC], [SE]);
    DecodesOne(Within(iac), IAC);
    DecodesOne(Within(true), SE);
  }

  function SpelledAll(xs: seq<Item>): seq<byte> {
    if xs == [] then [] else Spelled(xs[0]) + SpelledAll(xs[1..])
  }

  function TextOfAll(xs: seq<Item>): seq<byte> {
    if xs == [] then [] else TextOf(xs[0]) + TextOfAll(xs[1..])
  }

  function AnswersTo(xs: seq<Item>): seq<byte> {
    if xs == [] then [] else AnswerTo(xs[0]) + AnswersTo(xs[1..])
  }

  /** A stream of text, commands, negotiation and subnegotiation in any order: exactly its text
      is produced, exactly the negotiation commands are answered, each in its turn. */
  lemma {:induction false} StreamDecodes(xs: seq<Item>)
    requires forall i :: 0 <= i < |xs| ==> Proper(xs[i])
    ensures DecodeAll(START, SpelledAll(xs)) == Effect(START, TextOfAll(xs), AnswersTo(xs))
  {
    hide Proper, Spelled, TextOf, AnswerTo;
    if xs != [] {
      ItemDecodes(xs[0]);
      StreamDecodes(xs[1..]);
      DecodeConcat(START, Spelled(xs[0]), SpelledAll(xs[1..]));
    }
  }
}
