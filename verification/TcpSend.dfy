/** Send safety of a connection: every transmission and retransmission carries the
    application's bytes at their own sequence numbers. */
module TcpSend {
  import opened Bytes
  import opened Tcp

  /** The segment's payload is the application's stream at its sequence number. */
  ghost predicate Faithful(s: Sent, iss: u32, app: seq<byte>) {
    s.payload != [] ==> exists off: nat :: FaithfulAt(s, iss, app, off)
  }

  predicate FaithfulAt(s: Sent, iss: u32, app: seq<byte>, off: nat) {
    off + |s.payload| <= |app| && s.seqNum == Add32(iss, 1 + off) && s.payload == app[off..off + |s.payload|]
  }

  ghost predicate AllFaithful(c: Tcb, app: seq<byte>) {
    forall i :: 0 <= i < |c.out| ==> Faithful(c.out[i], c.snd.iss, app)
  }

  ghost predicate NoPayload(c: Tcb) {
    forall i :: 0 <= i < |c.out| ==> c.out[i].payload == []
  }

  predicate Open(s: State) {
    s in {Established, CloseWait}
  }

  /** The states in which our FIN has been sent and is not known to be acknowledged. */
  predicate FinPending(s: State) {
    s in {FinWait1, Closing, LastAck}
  }

  /** The transmit buffer is the unacknowledged rest of the application's stream, and the
      flight is a prefix of it, plus the FIN once that is sent. */
  predicate Window(c: Tcb, app: seq<byte>) {
    && |c.tx| <= |app|
    && c.tx == app[|app| - |c.tx|..]
    && c.snd.una == Add32(c.snd.iss, 1 + (|app| - |c.tx|))
    && (Open(c.state) ==> InFlight(c) <= |c.tx|)
    && (FinPending(c.state) ==> 1 <= InFlight(c) <= |c.tx| + 1)
  }

  ghost predicate SendInv(c: Tcb, app: seq<byte>) {
    && |c.tx| <= RX_BUFFER_SIZE
    && AllFaithful(c, app)
    && match c.state
       case Closed => c.tx == [] && app == [] && NoPayload(c)
       case Listen => c.tx == [] && app == [] && NoPayload(c)
       case SynSent => c.tx == [] && app == [] && NoPayload(c) && c.snd.nxt == Add32(c.snd.iss, 1)
       case SynReceived => c.tx == [] && app == [] && NoPayload(c) && c.snd.nxt == Add32(c.snd.iss, 1)
       case FinWait2 => c.snd.una == c.snd.nxt
       case TimeWait => true
       case _ => Window(c, app)
  }

  /** The send side of two control blocks is the same. */
  predicate SameSend(c: Tcb, d: Tcb) {
    c.snd.una == d.snd.una && c.snd.nxt == d.snd.nxt && c.snd.iss == d.snd.iss && c.tx == d.tx
  }

  /** `d` has sent what `c` has and then segments without payload. */
  predicate OnlyControl(c: Tcb, d: Tcb) {
    c.out <= d.out && forall i :: |c.out| <= i < |d.out| ==> d.out[i].payload == []
  }

  lemma ControlKeepsFaithful(c: Tcb, d: Tcb, app: seq<byte>)
    requires AllFaithful(c, app) && OnlyControl(c, d) && d.snd.iss == c.snd.iss
    ensures AllFaithful(d, app)
    ensures NoPayload(c) ==> NoPayload(d)
  {
    forall i | 0 <= i < |d.out|
      ensures Faithful(d.out[i], d.snd.iss, app)
    {
      if i < |c.out| {
        assert d.out[i] == c.out[i];
      }
    }
  }

  /** A retransmission carries the head of the unacknowledged stream. */
  lemma RetransmitKeeps(c: Tcb, now: nat, app: seq<byte>)
    requires SendInv(c, app) && c.state != TimeWait
    ensures SendInv(Retransmit(c, now), app)
    ensures SameSend(Retransmit(c, now), c) && Retransmit(c, now).state == c.state
  {
    var d := Retransmit(c, now);
    var unacked := Min(|c.tx|, InFlight(c));
    if unacked > 0 {
      var s := d.out[|c.out|];
      assert FaithfulAt(s, c.snd.iss, app, |app| - |c.tx|);
      assert d.out == c.out + [s];
    }
  }

  /** An acknowledgment that advances never covers unsent bytes. */
  lemma AckWithinFlight(una: u32, nxt: u32, ack: u32)
    requires Sub32(nxt, una) <= RX_BUFFER_SIZE
    requires SeqAfter(ack, una) && !SeqAfter(ack, nxt)
    ensures 1 <= Sub32(ack, una) <= Sub32(nxt, una)
    ensures Sub32(nxt, ack) == Sub32(nxt, una) - Sub32(ack, una)
    ensures ack == Add32(una, Sub32(ack, una))
  {
  }

  lemma AckNewDataKeeps(c: Tcb, ack: u32, now: nat, app: seq<byte>)
    requires SendInv(c, app) && Open(c.state) && c.cc.cwnd > 0 && AckAdvances(c, ack)
    ensures SendInv(AckNewData(c, ack, now), app)
    ensures AckNewData(c, ack, now).state == c.state
  {
    AckWithinFlight(c.snd.una, c.snd.nxt, ack);
    var n := Sub32(ack, c.snd.una);
    Add32OfAdd32(c.snd.iss, 1 + (|app| - |c.tx|), n);
    assert c.tx[n..] == app[|app| - (|c.tx| - n)..];
  }

  lemma AckDuplicateKeeps(c: Tcb, now: nat, app: seq<byte>)
    requires SendInv(c, app) && Open(c.state)
    ensures SendInv(AckDuplicate(c, now), app)
    ensures AckDuplicate(c, now).state == c.state
  {
    hide Retransmit, Faithful;
    var ssthresh := Max(c.cc.cwnd / 2, 2 * MSS);
    var d := c.(cc := c.cc.(dupAckCount := 3, ssthresh := ssthresh, cwnd := ssthresh + 3 * MSS));
    assert SendInv(d, app);
    RetransmitKeeps(d, now, app);
  }

  lemma ProcessAckKeeps(c: Tcb, ack: u32, now: nat, app: seq<byte>)
    requires SendInv(c, app) && Open(c.state) && c.cc.cwnd > 0
    ensures SendInv(ProcessAck(c, ack, now), app)
    ensures ProcessAck(c, ack, now).state == c.state
  {
    hide SendInv, AckNewData, AckDuplicate, AckAdvances;
    if AckAdvances(c, ack) {
      AckNewDataKeeps(c, ack, now, app);
    } else if ack == c.cc.lastAck {
      AckDuplicateKeeps(c, now, app);
    }
  }

  /** The first transmission of pending bytes. */
  lemma SendPendingKeeps(c: Tcb, now: nat, net: nat -> bool, app: seq<byte>)
    requires SendInv(c, app) && c.state == Established
    ensures SendInv(SendPending(c, now, net), app)
    ensures SendPending(c, now, net).state == c.state
  {
    hide Add32, Sub32;
    var d := SendPending(c, now, net);
    var n := Sendable(c);
    if n > 0 {
      var flight := InFlight(c);
      var off := |app| - |c.tx| + flight;
      Add32OfSub32(c.snd.nxt, c.snd.una);
      Add32OfAdd32(c.snd.iss, 1 + (|app| - |c.tx|), flight);
      assert c.tx[flight..flight + n] == app[off..off + n];
      var s := d.out[|c.out|];
      assert FaithfulAt(s, c.snd.iss, app, off);
      assert d.out == c.out + [s];
      Add32OfAdd32(c.snd.una, flight, n);
      Sub32OfAdd32(c.snd.una, flight + n);
    }
  }

  lemma SendKeeps(c: Tcb, data: seq<byte>, app: seq<byte>)
    requires SendInv(c, app)
    ensures SendInv(Send(c, data), app + SendBytes(c, data))
  {
    var more := SendBytes(c, data);
    var d := Send(c, data);
    forall i | 0 <= i < |d.out|
      ensures Faithful(d.out[i], d.snd.iss, app + more)
    {
      var s := c.out[i];
      assert Faithful(s, c.snd.iss, app);
      if s.payload != [] {
        var off: nat :| FaithfulAt(s, c.snd.iss, app, off);
        assert FaithfulAt(s, c.snd.iss, app + more, off);
      }
    }
    assert more == [] ==> app + more == app && d == c;
    assert c.state == d.state;
    if Open(c.state) {
      assert d.tx == (app + more)[|app + more| - |d.tx|..];
    }
  }

  lemma CloseKeeps(c: Tcb, now: nat, net: nat -> bool, app: seq<byte>)
    requires SendInv(c, app)
    ensures SendInv(Close(c, now, net), if Close(c, now, net).state == Closed then [] else app)
  {
    hide Add32, Sub32;
    var d := Close(c, now, net);
    if c.inUse && Open(c.state) {
      ControlKeepsFaithful(c, d, app);
      var flight := InFlight(c);
      Add32OfSub32(c.snd.nxt, c.snd.una);
      Add32OfAdd32(c.snd.una, flight, 1);
      Sub32OfAdd32(c.snd.una, flight + 1);
    }
  }

  /** In an open connection a retransmission repeats only bytes already sent. */
  lemma RetransmitRepeatsSent(c: Tcb, now: nat, app: seq<byte>)
    requires SendInv(c, app) && Open(c.state) && Retransmit(c, now).out != c.out
    ensures var s := Retransmit(c, now).out[|c.out|];
      s.seqNum == c.snd.una && 1 <= |s.payload| <= InFlight(c)
  {
  }

  /** Once the FIN is sent, a retransmission runs into the FIN's own sequence number exactly
      when the ring holds more than was in flight before it: the next byte takes its place. */
  lemma RetransmitMeetsFin(c: Tcb, now: nat, app: seq<byte>)
    requires SendInv(c, app) && FinPending(c.state) && Retransmit(c, now).out != c.out
    ensures var s := Retransmit(c, now).out[|c.out|]; var flight := InFlight(c) - 1;
      && s.seqNum == c.snd.una
      && (|s.payload| > flight <==> |c.tx| > flight)
      && (|c.tx| > flight ==> |s.payload| == flight + 1 && Add32(s.seqNum, flight) == Sub32(c.snd.nxt, 1))
  {
  }
}
