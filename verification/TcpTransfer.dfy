/** Two ends of this implementation talking to each other: the handshake, and messages that
    cross from one to the other. */
module TcpTransfer {
  import opened Bytes
  import opened Tcp
  import opened TcpRuns
  import opened TcpExamples

  /** A segment sent by one end, as the other receives it. */
  function Received(s: Sent): Segment {
    Segment(s.syn, s.ack, s.fin, false, s.seqNum, s.ackNum, s.window, s.payload)
  }

  /** The arrival of the segment last sent by the other end. */
  function Delivers(c: Tcb, now: nat, iss: u32): Event
    requires c.out != []
  {
    Arrival(Received(c.out[|c.out| - 1]), now, AcceptsAll, iss)
  }

  const LISTENING: Connection := FRESH.(inUse := true, state := Listen)

  /** Open and in step: nothing is in flight or waiting in either direction. */
  predicate InStep(a: Connection, b: Connection) {
    && a.inUse && b.inUse && a.state == Established && b.state == Established
    && a.snd.una == a.snd.nxt == b.rcv.nxt && b.snd.una == b.snd.nxt == a.rcv.nxt
    && a.tx == [] && b.tx == [] && b.rx == [] && a.snd.wnd == RX_BUFFER_SIZE
    && forall i :: 0 <= i < |b.ooo| ==> !b.ooo[i].valid
  }

  /** Whatever initial numbers they choose, an active and a passive open bring the two ends in
      step, with three segments. */
  lemma Handshake(issA: u32, issB: u32, now: nat)
    ensures var a0 := Step(FRESH.(inUse := true), ActiveOpen(now, AcceptsAll, issA));
      && |a0.out| == 1
      && var b0 := Step(LISTENING, Delivers(a0, now, issB));
      && |b0.out| == 1
      && var a1 := Step(a0, Delivers(b0, now, 0));
      && |a1.out| == 2
      && var b1 := Step(b0, Delivers(a1, now, 0));
      InStep(a1, b1) && a1.snd.nxt == Add32(issA, 1) && b1.snd.nxt == Add32(issB, 1)
  {
    hide Add32, NewRtt, ProcessAck, ProcessTimers, SegmentInEstablished, SegmentInFinWait1;
    var a0 := Step(FRESH.(inUse := true), ActiveOpen(now, AcceptsAll, issA));
    assert a0.state == SynSent && a0.out == [Sent(true, false, false, issA, 0, RX_BUFFER_SIZE, [])];
    var b0 := Step(LISTENING, Delivers(a0, now, issB));
    assert b0.state == SynReceived
        && b0.out == [Sent(true, true, false, issB, Add32(issA, 1), RX_BUFFER_SIZE, [])];
  }

  // ------------------------------------------------------------------- a message

  /** One end writes, its timers run, the segment arrives, the answer arrives, the other end
      reads: the two ends afterwards, and the bytes read. */
  datatype Exchange = Exchange(a: Connection, b: Connection, bytes: seq<byte>)

  function Sends(a: Connection, message: seq<byte>, now: nat): Connection {
    Step(Step(a, Writing(message)), Timers(now, AcceptsAll))
  }

  function Crossing(a: Connection, b: Connection, message: seq<byte>, now: nat): Exchange
    requires Sends(a, message, now).out != []
  {
    var sent := Sends(a, message, now);
    var taken := Step(b, Delivers(sent, now, 0));
    if taken.out == [] then Exchange(sent, taken, [])
    else Exchange(Step(sent, Delivers(taken, now, 0)), Step(taken, Reading(RX_BUFFER_SIZE)), RecvBytes(taken, RX_BUFFER_SIZE))
  }

  /** The timer is not due. */
  predicate Quiet(a: Connection, now: nat) {
    a.rtx.timer == 0 || now < a.rtx.timer
  }

  lemma SendsAll(a: Connection, b: Connection, message: seq<byte>, now: nat)
    requires InStep(a, b) && Quiet(a, now) && 0 < |message| <= RX_BUFFER_SIZE
    ensures var d := Sends(a, message, now);
      && d.out == a.out + [Sent(false, true, false, a.snd.nxt, a.rcv.nxt, a.rcv.wnd, message)]
      && d.tx == message && d.snd == a.snd.(nxt := Add32(a.snd.nxt, |message|))
      && d == a.(tx := d.tx, snd := d.snd, rtx := d.rtx, out := d.out)
  {
    hide Retransmit, ProcessSegment;
    var c := Step(a, Writing(message));
    assert message[..|message|] == message && a.tx + message == message;
    assert c == a.(tx := message);
    Sub32Self(a.snd.nxt);
    assert Sendable(c) == |message| && message[0..|message|] == message;
  }

  lemma TakesAll(a: Connection, b: Connection, seg: Segment, now: nat)
    requires InStep(a, b) && !seg.rst && !seg.syn && !seg.fin && seg.seqNum == b.rcv.nxt
    requires 0 < |seg.payload| <= RX_BUFFER_SIZE && seg.ackNum == b.snd.nxt
    ensures var d := Step(b, Arrival(seg, now, AcceptsAll, 0));
      && d.rx == seg.payload && d.inUse && d.state == Established && d.snd == b.snd && d.tx == b.tx && d.ooo == b.ooo
      && d.rcv.nxt == Add32(b.rcv.nxt, |seg.payload|) && d.out != []
      && d.out[|d.out| - 1] == Sent(false, true, false, b.snd.nxt, d.rcv.nxt, d.rcv.wnd, [])
  {
    hide ProcessAck, ProcessData, Add32;
    var c := if seg.ack then ProcessAck(b, seg.ackNum, now) else b;
    AckIsIdle(b, seg.ackNum, now);
    DataTaken(c, seg);
  }

  /** An acknowledgment of what is acknowledged already changes nothing that is sent. */
  lemma AckIsIdle(b: Connection, ack: u32, now: nat)
    requires ack == b.snd.una == b.snd.nxt
    ensures ProcessAck(b, ack, now).snd == b.snd && ProcessAck(b, ack, now).tx == b.tx
  {
    hide GrownWindow, NewRtt;
    Sub32Self(ack);
  }

  lemma DataTaken(c: Tcb, seg: Segment)
    requires c.rx == [] && 0 < |seg.payload| <= RX_BUFFER_SIZE && seg.seqNum == c.rcv.nxt
    requires forall i :: 0 <= i < |c.ooo| ==> !c.ooo[i].valid
    ensures var d := ProcessData(c, seg);
      && d.rx == seg.payload && d.ooo == c.ooo && d.rcv.nxt == Add32(c.rcv.nxt, |seg.payload|)
      && d.out == c.out + [Sent(false, true, false, c.snd.nxt, d.rcv.nxt, d.rcv.wnd, [])]
  {
    hide Add32;
    var d := UpdateRcvWnd(Deliver(c, seg.payload).(hasData := true));
    assert seg.payload[..|seg.payload|] == seg.payload && c.rx + seg.payload == seg.payload;
    assert FindInOrder(d.ooo, d.rcv.nxt) == |d.ooo|;
    assert DeliverOoo(d) == d;
  }

  lemma AckTaken(a: Connection, seg: Segment, now: nat)
    requires a.inUse && a.state == Established && !seg.rst && seg.ack && !seg.fin && seg.payload == []
    requires 0 < |a.tx| <= RX_BUFFER_SIZE && a.snd.nxt == Add32(a.snd.una, |a.tx|) && seg.ackNum == a.snd.nxt
    ensures var d := Step(a, Arrival(seg, now, AcceptsAll, 0));
      && d.tx == [] && d.snd == a.snd.(una := a.snd.nxt) && d.rtx.timer == 0
      && d.inUse && d.state == Established && d.rcv == a.rcv && d.rx == a.rx && d.ooo == a.ooo
  {
    hide NewRtt, GrownWindow;
    Sub32OfAdd32(a.snd.una, |a.tx|);
    Sub32Self(a.snd.nxt);
    assert AckAdvances(a, seg.ackNum);
  }

  /** A message of up to 1024 bytes crosses: the other end reads exactly it, and the two ends
      are in step again. */
  lemma Crosses(a: Connection, b: Connection, message: seq<byte>, now: nat)
    requires InStep(a, b) && Quiet(a, now) && 0 < |message| <= RX_BUFFER_SIZE
    ensures Sends(a, message, now).out != []
    ensures var x := Crossing(a, b, message, now);
      x.bytes == message && InStep(x.a, x.b) && x.a.rtx.timer == 0
  {
    hide Step, Sends, Add32;
    SendsAll(a, b, message, now);
    var sent := Sends(a, message, now);
    var seg := Received(sent.out[|sent.out| - 1]);
    TakesAll(a, b, seg, now);
    var taken := Step(b, Delivers(sent, now, 0));
    AckTaken(sent, Received(taken.out[|taken.out| - 1]), now);
    ReadAll(taken);
  }

  lemma ReadAll(b: Connection)
    requires b.inUse && b.state == Established
    ensures RecvBytes(b, RX_BUFFER_SIZE) == b.rx
    ensures var d := Step(b, Reading(RX_BUFFER_SIZE));
      d.rx == [] && d == b.(rx := [], rcv := d.rcv) && d.rcv.nxt == b.rcv.nxt
  {
  }

  // ---------------------------------------------------------------- many messages

  ghost function Conversation(a: Connection, b: Connection, messages: seq<seq<byte>>, now: nat): seq<byte>
    requires InStep(a, b) && Quiet(a, now)
    requires forall i :: 0 <= i < |messages| ==> 0 < |messages[i]| <= RX_BUFFER_SIZE
    decreases |messages|
  {
    if messages == [] then []
    else
      Crosses(a, b, messages[0], now);
      var x := Crossing(a, b, messages[0], now);
      x.bytes + Conversation(x.a, x.b, messages[1..], now)
  }

  function Joined(messages: seq<seq<byte>>): seq<byte> {
    if messages == [] then [] else messages[0] + Joined(messages[1..])
  }

  /** Any number of messages, one after the other, arrive complete and in order. */
  lemma {:induction false} AllCross(a: Connection, b: Connection, messages: seq<seq<byte>>, now: nat)
    requires InStep(a, b) && Quiet(a, now)
    requires forall i :: 0 <= i < |messages| ==> 0 < |messages[i]| <= RX_BUFFER_SIZE
    ensures Conversation(a, b, messages, now) == Joined(messages)
    decreases |messages|
  {
    hide InStep, Crossing, Sends;
    if messages != [] {
      Crosses(a, b, messages[0], now);
      var x := Crossing(a, b, messages[0], now);
      AllCross(x.a, x.b, messages[1..], now);
    }
  }
}
