/** The network virtual terminal of src/telnet.rs (RFC 854): the encoder of `write_str` and
    the decoder of `poll_byte`. */
module Telnet {
  import opened Options
  import opened Bytes

  const IAC: byte := 255
  const DONT: byte := 254
  const DO: byte := 253
  const WONT: byte := 252
  const WILL: byte := 251
  const SB: byte := 250
  const SE: byte := 240
  const ECHO: byte := 1
  const SUPPRESS_GO_AHEAD: byte := 3
  const NUL: byte := 0
  const LF: byte := 10
  const CR: byte := 13

  datatype RxState = Data | Iac | IacCommand(cmd: byte) | Subnegotiation | SubnegotiationIac

  // ---------------------------------------------------------------- encoder

  /** Newline as CR LF, a bare CR as CR NUL, 0xFF doubled. */
  function Encode(b: byte): (r: seq<byte>)
    ensures 1 <= |r| <= 2
  {
    if b == LF then [CR, LF] else if b == CR then [CR, NUL] else if b == IAC then [IAC, IAC] else [b]
  }

  function EncodeAll(s: seq<byte>): seq<byte> {
    if s == [] then [] else Encode(s[0]) + EncodeAll(s[1..])
  }

  lemma {:induction false} EncodeAllConcat(s: seq<byte>, t: seq<byte>)
    ensures EncodeAll(s + t) == EncodeAll(s) + EncodeAll(t)
  {
    hide Encode;
    if s == [] {
      assert s + t == t;
    } else {
      EncodeAllConcat(s[1..], t);
      assert (s + t)[0] == s[0] && (s + t)[1..] == s[1..] + t;
    }
  }

  lemma EncodeAllSnoc(s: seq<byte>, i: nat)
    requires i < |s|
    ensures EncodeAll(s[..i + 1]) == EncodeAll(s[..i]) + Encode(s[i])
  {
    assert s[..i + 1] == s[..i] + [s[i]];
    EncodeAllConcat(s[..i], [s[i]]);
    assert EncodeAll([s[i]]) == Encode(s[i]) + EncodeAll([]);
  }

  // ---------------------------------------------------------------- decoder

  /** The decoder between two bytes: its state and whether a LF is to be swallowed. */
  datatype Decoder = Decoder(state: RxState, swallowLf: bool)

  const START: Decoder := Decoder(Data, false)

  /** The answer to a negotiation command, if any. */
  function Reply(cmd: byte, opt: byte): seq<byte> {
    if cmd == DO then
      if opt == ECHO || opt == SUPPRESS_GO_AHEAD then [IAC, WILL, opt] else [IAC, WONT, opt]
    else if cmd == DONT then [IAC, WONT, opt]
    else if cmd == WILL then
      if opt == SUPPRESS_GO_AHEAD then [IAC, DO, opt] else [IAC, DONT, opt]
    else if cmd == WONT then [IAC, DONT, opt]
    else []
  }

  /** What one received byte does: the new state, the byte produced, the reply sent. */
  datatype Effect = Effect(next: Decoder, produced: seq<byte>, reply: seq<byte>)

  function Decode(d: Decoder, b: byte): Effect {
    if d.swallowLf && b == LF then Effect(d.(swallowLf := false), [], [])
    else
      match d.state
      case Data =>
        if b == IAC then Effect(Decoder(Iac, false), [], [])
        else if b == CR then Effect(Decoder(Data, true), [LF], [])
        else Effect(Decoder(Data, false), [b], [])
      case Iac =>
        if b == IAC then Effect(Decoder(Data, false), [IAC], [])
        else if b in {DO, DONT, WILL, WONT} then Effect(Decoder(IacCommand(b), false), [], [])
        else if b == SB then Effect(Decoder(Subnegotiation, false), [], [])
        else Effect(Decoder(Data, false), [], [])
      case IacCommand(cmd) => Effect(Decoder(Data, false), [], Reply(cmd, b))
      case Subnegotiation =>
        Effect(Decoder(if b == IAC then SubnegotiationIac else Subnegotiation, false), [], [])
      case SubnegotiationIac =>
        var next := if b == SE then Data else if b != IAC then Subnegotiation else SubnegotiationIac;
        Effect(Decoder(next, false), [], [])
  }

  function DecodeAll(d: Decoder, s: seq<byte>): Effect
    decreases |s|
  {
    if s == [] then Effect(d, [], [])
    else
      var e := Decode(d, s[0]);
      var f := DecodeAll(e.next, s[1..]);
      Effect(f.next, e.produced + f.produced, e.reply + f.reply)
  }

  /** However the stream is cut into pieces, decoding them in turn decodes the whole. */
  lemma {:induction false} DecodeConcat(d: Decoder, s: seq<byte>, t: seq<byte>)
    ensures var e := DecodeAll(d, s); var f := DecodeAll(e.next, t);
      DecodeAll(d, s + t) == Effect(f.next, e.produced + f.produced, e.reply + f.reply)
    decreases |s|
  {
    hide Decode;
    if s == [] {
      assert s + t == t;
    } else {
      DecodeConcat(Decode(d, s[0]).next, s[1..], t);
      assert (s + t)[1..] == s[1..] + t;
    }
  }

  // -------------------------------------------------------------- round trip

  /** What a receiver of this kind makes of encoded bytes: a bare CR arrives as LF NUL. */
  function Received(s: seq<byte>): seq<byte> {
    if s == [] then [] else (if s[0] == CR then [LF, NUL] else [s[0]]) + Received(s[1..])
  }

  lemma DecodeEncoded(b: byte)
    ensures DecodeAll(START, Encode(b)) == Effect(START, Received([b]), [])
  {
    var s := Encode(b);
    if |s| == 2 {
      DecodeConcat(START, [s[0]], [s[1]]);
      assert s == [s[0]] + [s[1]];
    }
  }

  lemma {:induction false} DecodeEncodedAll(s: seq<byte>)
    ensures DecodeAll(START, EncodeAll(s)) == Effect(START, Received(s), [])
  {
    if s != [] {
      DecodeEncodedAll(s[1..]);
      DecodeEncoded(s[0]);
      DecodeConcat(START, Encode(s[0]), EncodeAll(s[1..]));
      assert Received([s[0]]) == if s[0] == CR then [LF, NUL] else [s[0]];
    }
  }

  lemma {:induction false} ReceivedLength(s: seq<byte>)
    ensures |Received(s)| >= |s|
    ensures CR in s ==> |Received(s)| > |s|
    ensures CR !in s ==> Received(s) == s
  {
    if s != [] {
      ReceivedLength(s[1..]);
      assert s == [s[0]] + s[1..];
    }
  }

  /** Decoding what was encoded issues no negotiation reply, ends where it began, and gives
      back the original bytes exactly when they contain no CR. */
  lemma {:induction false} RoundTrip(s: seq<byte>)
    ensures var e := DecodeAll(START, EncodeAll(s));
      e.next == START && e.reply == [] && (e.produced == s <==> CR !in s)
  {
    hide EncodeAll, DecodeAll;
    DecodeEncodedAll(s);
    ReceivedLength(s);
  }

  /** A bare CR comes back as two other bytes. */
  lemma CarriageReturnChanges()
    ensures DecodeAll(START, EncodeAll([CR])).produced == [LF, NUL]
  {
    DecodeEncodedAll([CR]);
    assert Received([CR]) == [LF, NUL] + Received([]);
  }

  // ------------------------------------------------------------ the terminal

  datatype ReadStatus = Byte(b: byte) | NoData | Eof

  class TelnetTerminal {
    /** The bytes the connection has accepted, and whether it has failed. */
    var wire: seq<byte>
    var closed: bool
    var rxBuf: seq<byte>
    var rxPos: nat
    var rxState: RxState
    var swallowLf: bool
    /** Everything the connection delivered, the part of it decoded so far, what that
        produced and the negotiation replies it called for. */
    ghost var arrived: seq<byte>
    ghost var consumed: seq<byte>
    ghost var produced: seq<byte>
    ghost var replies: seq<byte>

    ghost predicate Valid()
      reads this
    {
      && rxPos <= |rxBuf|
      && arrived == consumed + rxBuf[rxPos..]
      && DecodeAll(START, consumed) == Effect(Decoder(rxState, swallowLf), produced, replies)
    }

    constructor ()
      ensures Valid() && wire == [] && !closed && arrived == [] && produced == []
    {
      wire, closed, rxBuf, rxPos, rxState, swallowLf := [], false, [], 0, Data, false;
      arrived, consumed, produced, replies := [], [], [], [];
    }

    /** While an encoded CR-free text is arriving, in whatever pieces, what has been produced
        is a prefix of the text and no reply was sent. */
    lemma ProducesPrefix(s: seq<byte>)
      requires Valid() && arrived <= EncodeAll(s) && CR !in s
      ensures produced <= s && replies == []
    {
      hide DecodeAll, EncodeAll;
      RoundTrip(s);
      var rest := EncodeAll(s)[|consumed|..];
      assert EncodeAll(s) == consumed + rest;
      DecodeConcat(START, consumed, rest);
    }

    /** Once all of it has arrived and been consumed, the text is there exactly when it was
        free of CR; no reply was sent either way. */
    lemma ProducesText(s: seq<byte>)
      requires Valid() && arrived == EncodeAll(s) && rxPos == |rxBuf|
      ensures replies == [] && rxState == Data && (produced == s <==> CR !in s)
    {
      hide DecodeAll, EncodeAll;
      assert arrived == consumed;
      RoundTrip(s);
    }

    /** Hands bytes to the connection until all are taken. `answers` are the results of the
        successive send calls: how many bytes were taken, or a negative number for a closed
        connection, as which the end of the answers counts too. */
    method SendBytes(bytes: seq<byte>, answers: seq<int>) returns (ok: bool, rest: seq<int>)
      modifies this`wire, this`closed
      ensures old(wire) <= wire <= old(wire) + bytes
      ensures ok ==> wire == old(wire) + bytes && closed == old(closed)
      ensures (!ok ==> closed) && (old(closed) ==> closed)
    {
      var left := bytes;
      rest := answers;
      while left != []
        invariant wire + left == old(wire) + bytes && old(wire) <= wire && closed == old(closed)
        decreases |rest|
      {
        if rest == [] || rest[0] < 0 {
          closed := true;
          return false, rest;
        }
        var n := Min(rest[0], |left|);
        rest := rest[1..];
        if n == 0 {
          continue;
        }
        wire := wire + left[..n];
        left := left[n..];
      }
      ok := true;
    }

    /** Appends to the output buffer, flushing it first when the bytes would not fit. */
    method Emit(out: seq<byte>, bytes: seq<byte>, answers: seq<int>)
      returns (ok: bool, next: seq<byte>, rest: seq<int>)
      requires |out| <= 256 && |bytes| <= 2
      modifies this`wire, this`closed
      ensures |next| <= 256 && old(wire) <= wire <= old(wire) + out
      ensures ok ==> wire + next == old(wire) + out + bytes
      ensures (!ok ==> closed) && (old(closed) ==> closed)
    {
      ok, next, rest := true, out, answers;
      if |out| + |bytes| > 256 {
        ok, rest := SendBytes(out, answers);
        if !ok {
          return;
        }
        next := [];
      }
      next := next + bytes;
    }

    /** Encodes through a buffer of 256 bytes that is flushed when the next bytes would not
        fit: what the connection takes is a prefix of the encoding, and all of it unless the
        connection fails. */
    method WriteStr(s: seq<byte>, answers: seq<int>) returns (ok: bool)
      modifies this`wire, this`closed
      ensures old(wire) <= wire <= old(wire) + EncodeAll(s)
      ensures ok ==> wire == old(wire) + EncodeAll(s)
      ensures !ok ==> closed
    {
      hide EncodeAll;
      if closed {
        return false;
      }
      var out: seq<byte> := [];
      var rest := answers;
      EncodeNothing();
      for i := 0 to |s|
        invariant |out| <= 256 && wire + out == old(wire) + EncodeAll(s[..i]) && old(wire) <= wire
      {
        EncodeAllSnoc(s, i);
        EncodePrefix(s, i);
        ok, out, rest := Emit(out, Encode(s[i]), rest);
        if !ok {
          return;
        }
      }
      assert s[..|s|] == s;
      ok := true;
      if out != [] {
        ok, rest := SendBytes(out, rest);
      }
    }

    /** Answers a negotiation command, ignoring a failed connection. */
    method ReplyToCommand(cmd: byte, opt: byte, answers: seq<int>) returns (rest: seq<int>)
      modifies this`wire, this`closed
      ensures old(wire) <= wire <= old(wire) + Reply(cmd, opt)
      ensures !closed ==> !old(closed) && wire == old(wire) + Reply(cmd, opt)
    {
      rest := answers;
      var ok;
      if (cmd == DO && opt == ECHO) || (cmd == DO && opt == SUPPRESS_GO_AHEAD) {
        ok, rest := SendBytes([IAC, WILL, opt], rest);
      } else if cmd == WILL && opt == SUPPRESS_GO_AHEAD {
        ok, rest := SendBytes([IAC, DO, opt], rest);
      } else if cmd == DO || cmd == DONT {
        ok, rest := SendBytes([IAC, WONT, opt], rest);
      } else if cmd == WILL || cmd == WONT {
        ok, rest := SendBytes([IAC, DONT, opt], rest);
      }
    }

    /** Feeds one byte to the decoder. */
    method Feed(b: byte, answers: seq<int>) returns (out: Option<byte>, rest: seq<int>)
      modifies this`wire, this`closed, this`rxState, this`swallowLf
      ensures var e := Decode(old(Decoder(rxState, swallowLf)), b);
        && e.next == Decoder(rxState, swallowLf)
        && e.produced == (if out.Some? then [out.value] else [])
        && old(wire) <= wire <= old(wire) + e.reply
        && (!closed ==> !old(closed) && wire == old(wire) + e.reply)
    {
      out, rest := None, answers;
      if swallowLf {
        swallowLf := false;
        if b == LF {
          return;
        }
      }
      match rxState
      case Data =>
        if b == IAC {
          rxState := Iac;
        } else if b == CR {
          swallowLf := true;
          out := Some(LF);
        } else {
          out := Some(b);
        }
      case Iac =>
        if b == IAC {
          rxState := Data;
          out := Some(IAC);
        } else if b == DO || b == DONT || b == WILL || b == WONT {
          rxState := IacCommand(b);
        } else if b == SB {
          rxState := Subnegotiation;
        } else {
          rxState := Data;
        }
      case IacCommand(cmd) =>
        rest := ReplyToCommand(cmd, b, rest);
        rxState := Data;
      case Subnegotiation =>
        if b == IAC {
          rxState := SubnegotiationIac;
        }
      case SubnegotiationIac =>
        if b == SE {
          rxState := Data;
        } else if b != IAC {
          rxState := Subnegotiation;
        }
    }

    /** Takes one byte from the buffer and decodes it. */
    method TakeByte(answers: seq<int>) returns (out: Option<byte>, rest: seq<int>)
      requires Valid() && rxPos < |rxBuf|
      modifies this
      ensures Valid() && arrived == old(arrived) && rxBuf == old(rxBuf) && rxPos == old(rxPos) + 1
      ensures produced == old(produced) + (if out.Some? then [out.value] else [])
      ensures old(replies) <= replies && old(wire) <= wire
      ensures replies == old(replies) ==> wire == old(wire)
      ensures !closed ==> !old(closed) && wire == old(wire) + replies[|old(replies)|..]
    {
      hide Decode, DecodeAll;
      var b := rxBuf[rxPos];
      assert rxBuf[rxPos..] == [b] + rxBuf[rxPos + 1..];
      rxPos := rxPos + 1;
      DecodeOneMore(consumed, b);
      ghost var e := Decode(Decoder(rxState, swallowLf), b);
      out, rest := Feed(b, answers);
      consumed := consumed + [b];
      produced, replies := produced + e.produced, replies + e.reply;
    }

    /** Replaces the used-up buffer by what the connection delivered. */
    method Refill(chunk: seq<byte>)
      requires Valid() && rxPos == |rxBuf|
      modifies this`rxPos, this`rxBuf, this`arrived
      ensures Valid() && rxBuf == chunk && rxPos == 0 && arrived == old(arrived) + chunk
    {
      hide DecodeAll;
      rxPos, rxBuf, arrived := 0, chunk, arrived + chunk;
    }

    /** Produces the next byte: refills the buffer from `chunks`, the results of successive
        receive calls (an empty chunk means no data yet, the end of the list a closed
        connection), and feeds the decoder until it yields a byte. `answers` are the results
        of the send calls that replies make. */
    method PollByte(chunks: seq<seq<byte>>, answers: seq<int>) returns (status: ReadStatus, taken: nat)
      requires Valid()
      modifies this
      ensures Valid() && taken <= |chunks| && old(wire) <= wire && old(replies) <= replies
      ensures !closed ==> wire == old(wire) + replies[|old(replies)|..]
      ensures arrived == old(arrived) + Joined(chunks[..taken])
      ensures produced == old(produced) + (if status.Byte? then [status.b] else [])
      ensures replies == old(replies) ==> wire == old(wire)
      ensures !status.Byte? && !old(closed) ==> rxPos == |rxBuf|
    {
      hide DecodeAll, Joined;
      JoinedNone(chunks);
      taken := 0;
      if closed {
        return Eof, 0;
      }
      var rest := answers;
      while true
        invariant Valid() && taken <= |chunks| && old(wire) <= wire
        invariant arrived == old(arrived) + Joined(chunks[..taken])
        invariant produced == old(produced) && old(replies) <= replies
        invariant replies == old(replies) ==> wire == old(wire)
        invariant !closed ==> wire == old(wire) + replies[|old(replies)|..]
        decreases |chunks| - taken, |rxBuf| - rxPos
      {
        if rxPos >= |rxBuf| {
          if taken == |chunks| {
            Refill([]);
            closed := true;
            return Eof, taken;
          }
          JoinedMore(chunks, taken);
          Refill(chunks[taken]);
          taken := taken + 1;
          if rxBuf == [] {
            return NoData, taken;
          }
        }
        var out;
        out, rest := TakeByte(rest);
        if out.Some? {
          return Byte(out.value), taken;
        }
      }
    }
  }

  function Joined(chunks: seq<seq<byte>>): seq<byte> {
    if chunks == [] then [] else Joined(chunks[..|chunks| - 1]) + chunks[|chunks| - 1]
  }

  lemma JoinedNone(chunks: seq<seq<byte>>)
    ensures Joined(chunks[..0]) == []
  {
  }

  lemma JoinedMore(chunks: seq<seq<byte>>, k: nat)
    requires k < |chunks|
    ensures Joined(chunks[..k + 1]) == Joined(chunks[..k]) + chunks[k]
  {
    assert chunks[..k + 1][..k] == chunks[..k];
  }

  lemma EncodeNothing()
    ensures EncodeAll([]) == []
  {
  }

  lemma EncodePrefix(s: seq<byte>, i: nat)
    requires i <= |s|
    ensures EncodeAll(s[..i]) <= EncodeAll(s)
  {
    assert s == s[..i] + s[i..];
    EncodeAllConcat(s[..i], s[i..]);
  }

  lemma DecodeOneMore(s: seq<byte>, b: byte)
    ensures var e := DecodeAll(START, s); var f := Decode(e.next, b);
      && DecodeAll(START, s + [b]) == Effect(f.next, e.produced + f.produced, e.reply + f.reply)
      && |f.produced| <= 1
  {
    DecodeConcat(START, s, [b]);
  }
}
