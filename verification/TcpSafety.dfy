/** Safety of both directions of a connection over every run of its slot. */
module TcpSafety {
  import opened Bytes
  import opened Tcp
  import opened TcpReceive
  import opened TcpSend
  import opened TcpRuns

  // -------------------------------------------------------------- receiving

  /** What the events are assumed to bring: payload that reaches a synchronized connection
      is the peer's stream at its sequence number. Nothing is assumed of segments without. */
  ghost predicate Agrees(c: Connection, e: Event, stream: seq<byte>) {
    e.Arrival? && e.seg.payload != [] && c.state in {SynReceived, Established} ==>
      Carries(stream, c.rcv.irs, e.seg.seqNum, e.seg.payload)
  }

  lemma EstablishKeepsReceive(c: Tcb, seg: Segment, now: nat, read: seq<byte>, stream: seq<byte>)
    requires RecvInv(c, read, stream) && c.state == SynReceived
    ensures RecvInv(Establish(c, seg, now), read, stream)
    ensures Establish(c, seg, now).rcv == c.rcv && Establish(c, seg, now).state == Established
  {
    hide NewRtt;
  }

  lemma EstablishedKeepsReceive(c: Tcb, seg: Segment, now: nat, read: seq<byte>, stream: seq<byte>)
    requires |stream| < TWO_32 - 1 && RecvInv(c, read, stream) && c.state == Established && c.cc.cwnd > 0
    requires seg.payload != [] ==> Carries(stream, c.rcv.irs, seg.seqNum, seg.payload)
    ensures RecvInv(SegmentInEstablished(c, seg, now), read, stream)
  {
    hide ProcessAck, ProcessData, Carries, Add32;
    var c1 := if seg.ack then ProcessAck(c, seg.ackNum, now) else c;
    ProcessDataKeeps(c1, seg, read, stream);
    var c2 := ProcessData(c1, seg);
    Add32OfAdd32(c.rcv.irs, 1 + |read + c2.rx|, 1);
  }

  lemma TakeFinKeepsReceive(c: Tcb, d: Tcb, read: seq<byte>, stream: seq<byte>)
    requires RecvInv(c, read, stream) && c.state in {FinWait1, FinWait2}
    requires d.state in {Closing, TimeWait} && d.rcv == TakeFin(c).rcv && d.rx == c.rx && d.ooo == c.ooo
    ensures RecvInv(d, read, stream)
  {
    hide Carries, Add32;
    Add32OfAdd32(c.rcv.irs, 1 + |read + c.rx|, 1);
  }

  /** The receive invariant looks at the state only through its phase. */
  lemma PhaseKeepsReceive(c: Tcb, d: Tcb, read: seq<byte>, stream: seq<byte>)
    requires RecvInv(c, read, stream)
    requires d.rcv.irs == c.rcv.irs && d.rcv.nxt == c.rcv.nxt && d.rx == c.rx && d.ooo == c.ooo
    requires FinTaken(d.state) == FinTaken(c.state) && Unsynchronized(d.state) == Unsynchronized(c.state)
    ensures RecvInv(d, read, stream)
  {
    hide Carries, Add32;
  }

  lemma HandshakeKeepsReceive(c: Tcb, seg: Segment, now: nat, net: nat -> bool, iss: u32,
                              read: seq<byte>, stream: seq<byte>)
    requires RecvInv(c, read, stream) && c.state in {Listen, SynSent} && !seg.rst && c.cc.cwnd > 0
    ensures RecvInv(ProcessSegment(c, seg, now, net, iss), read, stream)
    ensures ProcessSegment(c, seg, now, net, iss).state != Closed
  {
    hide NewRtt, ProcessData, ProcessAck, Add32, Carries;
  }

  lemma SynReceivedKeepsReceive(c: Tcb, seg: Segment, now: nat, net: nat -> bool, iss: u32,
                                read: seq<byte>, stream: seq<byte>)
    requires |stream| < TWO_32 - 1 && RecvInv(c, read, stream) && c.cc.cwnd > 0
    requires c.state == SynReceived && !seg.rst
    requires seg.payload != [] ==> Carries(stream, c.rcv.irs, seg.seqNum, seg.payload)
    ensures RecvInv(ProcessSegment(c, seg, now, net, iss), read, stream)
    ensures ProcessSegment(c, seg, now, net, iss).state != Closed
  {
    hide ProcessAck, ProcessData, Establish, Carries, Prefix, OooCarry, Add32;
    if seg.ack && seg.ackNum == c.snd.nxt {
      EstablishKeepsReceive(c, seg, now, read, stream);
      ProcessDataKeeps(Establish(c, seg, now), seg, read, stream);
    }
  }

  lemma ClosingKeepsReceive(c: Tcb, seg: Segment, now: nat, net: nat -> bool, iss: u32,
                            read: seq<byte>, stream: seq<byte>)
    requires RecvInv(c, read, stream) && c.cc.cwnd > 0 && !seg.rst
    requires c.state in {FinWait1, FinWait2, Closing, CloseWait, LastAck, TimeWait, Closed}
    ensures var d := ProcessSegment(c, seg, now, net, iss);
      RecvInv(d, if d.state == Closed then [] else read, stream)
  {
    hide ProcessAck, ProcessData, Carries, Prefix, OooCarry, Add32;
    var d := ProcessSegment(c, seg, now, net, iss);
    if d.state == Closed {
    } else if c.state in {FinWait1, FinWait2} && d.state in {Closing, TimeWait} {
      TakeFinKeepsReceive(c, d, read, stream);
    } else {
      PhaseKeepsReceive(c, d, read, stream);
    }
  }

  lemma SegmentKeepsReceive(c: Tcb, seg: Segment, now: nat, net: nat -> bool, iss: u32,
                            read: seq<byte>, stream: seq<byte>)
    requires |stream| < TWO_32 - 1 && RecvInv(c, read, stream) && c.cc.cwnd > 0
    requires seg.payload != [] && c.state in {SynReceived, Established} ==>
               Carries(stream, c.rcv.irs, seg.seqNum, seg.payload)
    ensures var d := ProcessSegment(c, seg, now, net, iss);
      RecvInv(d, if d.state == Closed then [] else read, stream)
  {
    hide RecvInv, Carries, SegmentInEstablished, SegmentInListen, SegmentInSynSent, SegmentInFinWait1;
    hide ProcessData, ProcessAck, Establish;
    if seg.rst {
      FreshReceive(FRESH, stream);
    } else if c.state in {Listen, SynSent} {
      HandshakeKeepsReceive(c, seg, now, net, iss, read, stream);
    } else if c.state == SynReceived {
      SynReceivedKeepsReceive(c, seg, now, net, iss, read, stream);
    } else if c.state == Established {
      EstablishedKeepsReceive(c, seg, now, read, stream);
    } else {
      ClosingKeepsReceive(c, seg, now, net, iss, read, stream);
    }
  }

  lemma FreshReceive(c: Tcb, stream: seq<byte>)
    requires c == FRESH || c == FRESH.(inUse := true)
    ensures RecvInv(c, [], stream)
  {
  }

  lemma TimersKeepReceive(c: Tcb, now: nat, net: nat -> bool, read: seq<byte>, stream: seq<byte>)
    requires RecvInv(c, read, stream)
    ensures var d := ProcessTimers(c, now, net);
      RecvInv(d, if d.state == Closed then [] else read, stream)
  {
    hide Carries, Prefix, OooCarry, Add32, Retransmit, SendPending;
    var d := ProcessTimers(c, now, net);
    if d.state != Closed {
      PhaseKeepsReceive(c, d, read, stream);
    }
  }

  lemma SocketKeepsReceive(c: Connection, e: Event, read: seq<byte>, stream: seq<byte>)
    requires RecvInv(c, read, stream) && (e.Socket? || e.ActiveOpen? || e.PassiveOpen? || e.Writing? || e.Shutdown?)
    ensures var d := StepRaw(c, e);
      RecvInv(d, if d.state == Closed then [] else read, stream)
  {
    hide Carries, Prefix, OooCarry, Add32, ProcessSegment, ProcessTimers;
    var d := StepRaw(c, e);
    if d.state != Closed {
      PhaseKeepsReceive(c, d, read, stream);
    }
  }

  lemma ReadingKeepsReceive(c: Connection, count: nat, read: seq<byte>, stream: seq<byte>)
    requires RecvInv(c, read, stream)
    ensures RecvInv(Recv(c, count), read + RecvBytes(c, count), stream)
    ensures Recv(c, count).state == c.state
  {
    hide Carries, Add32;
    assert read + RecvBytes(c, count) + Recv(c, count).rx == read + c.rx;
  }

  lemma StepKeepsReceive(w: Slot, e: Event, stream: seq<byte>)
    requires |stream| < TWO_32 - 1 && RecvInv(w.tcb, w.read, stream) && Agrees(w.tcb, e, stream)
    ensures RecvInv(Next(w, e).tcb, Next(w, e).read, stream)
  {
    hide RecvInv, Carries, ProcessSegment, ProcessTimers, Recv, RecvBytes, Send, Close, Connect;
    assert w.read + [] == w.read;
    match e
    case Arrival(seg, now, net, iss) =>
      if w.tcb.inUse {
        SegmentKeepsReceive(w.tcb, seg, now, net, iss, w.read, stream);
      } else {
        IdleKeepsReceive(w.tcb, w.read, stream);
      }
    case Timers(now, net) =>
      TimersKeepReceive(w.tcb, now, net, w.read, stream);
    case Reading(count) =>
      ReadingKeepsReceive(w.tcb, count, w.read, stream);
      IdleKeepsReceive(Recv(w.tcb, count), w.read + RecvBytes(w.tcb, count), stream);
    case _ =>
      SocketKeepsReceive(w.tcb, e, w.read, stream);
  }

  lemma IdleKeepsReceive(c: Tcb, read: seq<byte>, stream: seq<byte>)
    requires RecvInv(c, read, stream)
    ensures RecvInv(c, if c.state == Closed then [] else read, stream)
  {
  }

  /** The k-th connection of the slot talks to a peer that sends the stream `peers(k)`. */
  ghost predicate AllAgree(w: Slot, events: seq<Event>, peers: nat -> seq<byte>)
    decreases |events|
  {
    events != [] ==> Agrees(w.tcb, events[0], peers(w.life)) && AllAgree(Next(w, events[0]), events[1..], peers)
  }

  lemma {:induction false} RunKeepsReceive(w: Slot, events: seq<Event>, peers: nat -> seq<byte>)
    requires forall k :: |peers(k)| < TWO_32 - 1
    requires RecvInv(w.tcb, w.read, peers(w.life)) && AllAgree(w, events, peers)
    ensures var v := Run(w, events); RecvInv(v.tcb, v.read, peers(v.life))
    decreases |events|
  {
    hide Next, Agrees;
    if events != [] {
      var e := events[0];
      StepKeepsReceive(w, e, peers(w.life));
      NextLife(w, e, peers);
      RunKeepsReceive(Next(w, e), events[1..], peers);
    }
  }

  lemma NextLife(w: Slot, e: Event, peers: nat -> seq<byte>)
    requires RecvInv(Next(w, e).tcb, Next(w, e).read, peers(w.life))
    ensures RecvInv(Next(w, e).tcb, Next(w, e).read, peers(Next(w, e).life))
  {
    hide Step;
  }

  /** Receive safety. Whatever is lost, duplicated, reordered, truncated or refused for lack
      of room: what the application has read, followed by what waits in the receive buffer,
      is a prefix of the peer's stream, and the next expected number accounts for exactly
      that prefix and the FIN. */
  lemma ReadsPrefixOfPeer(events: seq<Event>, peers: nat -> seq<byte>)
    requires forall k :: |peers(k)| < TWO_32 - 1
    requires AllAgree(EMPTY_SLOT, events, peers)
    ensures var v := Run(EMPTY_SLOT, events);
      && v.read + v.tcb.rx <= peers(v.life)
      && (v.tcb.state !in {Closed, Listen, SynSent} ==>
            v.tcb.rcv.nxt == Add32(v.tcb.rcv.irs, 1 + |v.read| + |v.tcb.rx|
                                   + if v.tcb.state in {CloseWait, LastAck, Closing, TimeWait} then 1 else 0))
  {
    hide Run, Add32;
    RunKeepsReceive(EMPTY_SLOT, events, peers);
  }

  // ---------------------------------------------------------------- sending

  lemma HandshakeKeepsSend(c: Connection, seg: Segment, now: nat, net: nat -> bool, iss: u32, app: seq<byte>)
    requires SendInv(c, app) && c.state in {Listen, SynSent} && !seg.rst
    ensures SendInv(ProcessSegment(c, seg, now, net, iss), app)
    ensures ProcessSegment(c, seg, now, net, iss).state != Closed
  {
    hide NewRtt, ProcessData, ProcessAck, FaithfulAt, Add32;
  }

  lemma EstablishKeepsSend(c: Connection, seg: Segment, now: nat, app: seq<byte>)
    requires SendInv(c, app) && c.state == SynReceived && seg.ackNum == c.snd.nxt
    ensures SendInv(Establish(c, seg, now), app)
  {
    hide NewRtt, Faithful, NoPayload, Add32, Sub32;
    Sub32Self(c.snd.nxt);
    assert Establish(c, seg, now).out == c.out && Establish(c, seg, now).snd.iss == c.snd.iss;
  }

  /** A step that sends no payload and keeps the send side within the same phase. */
  lemma ControlKeepsSend(c: Tcb, d: Tcb, app: seq<byte>)
    requires SendInv(c, app) && SameSend(c, d) && OnlyControl(c, d)
    requires c.state == d.state || (Open(c.state) && Open(d.state)) || (FinPending(c.state) && FinPending(d.state))
             || d.state == TimeWait
    ensures SendInv(d, app)
  {
    hide AllFaithful, NoPayload, Window, Add32;
    ControlKeepsFaithful(c, d, app);
    if Open(c.state) || FinPending(c.state) {
      WindowSame(c, d, app);
    }
  }

  lemma WindowSame(c: Tcb, d: Tcb, app: seq<byte>)
    requires Window(c, app) && SameSend(c, d)
    requires (Open(d.state) ==> Open(c.state)) && (FinPending(d.state) ==> FinPending(c.state))
    ensures Window(d, app)
  {
    hide Add32, Sub32;
  }

  lemma SynReceivedKeepsSend(c: Connection, seg: Segment, now: nat, net: nat -> bool, iss: u32, app: seq<byte>)
    requires SendInv(c, app) && c.state == SynReceived && !seg.rst
    ensures SendInv(ProcessSegment(c, seg, now, net, iss), app)
    ensures ProcessSegment(c, seg, now, net, iss).state != Closed
  {
    hide SendInv, Establish, ProcessData, ProcessAck, Add32;
    if seg.ack && seg.ackNum == c.snd.nxt {
      EstablishKeepsSend(c, seg, now, app);
      var c1 := Establish(c, seg, now);
      ControlKeepsSend(c1, ProcessData(c1, seg), app);
    }
  }

  lemma EstablishedKeepsSend(c: Connection, seg: Segment, now: nat, app: seq<byte>)
    requires SendInv(c, app) && c.state == Established
    ensures SendInv(SegmentInEstablished(c, seg, now), app)
  {
    hide SendInv, ProcessData, ProcessAck, Add32;
    ProcessAckKeeps(c, seg.ackNum, now, app);
    var c1 := if seg.ack then ProcessAck(c, seg.ackNum, now) else c;
    ControlKeepsSend(c1, SegmentInEstablished(c, seg, now), app);
  }

  lemma ClosingKeepsSend(c: Connection, seg: Segment, now: nat, net: nat -> bool, iss: u32, app: seq<byte>)
    requires SendInv(c, app) && !seg.rst
    requires c.state in {FinWait1, FinWait2, Closing, CloseWait, LastAck, TimeWait, Closed}
    ensures var d := ProcessSegment(c, seg, now, net, iss);
      SendInv(d, if d.state == Closed then [] else app)
  {
    hide FaithfulAt, ProcessAck, ProcessData, Add32, Window;
    var d := ProcessSegment(c, seg, now, net, iss);
    if c.state == CloseWait {
      ProcessAckKeeps(c, seg.ackNum, now, app);
    } else if c.state in {FinWait1, FinWait2} {
      ControlKeepsFaithful(c, d, app);
      if SameSend(c, d) && d.state != FinWait2 {
        ControlKeepsSend(c, d, app);
      }
    }
  }

  lemma FreshSend(c: Tcb)
    requires c == FRESH || c == FRESH.(inUse := true)
    ensures SendInv(c, [])
  {
  }

  lemma SegmentKeepsSend(c: Connection, seg: Segment, now: nat, net: nat -> bool, iss: u32, app: seq<byte>)
    requires SendInv(c, app)
    ensures var d := ProcessSegment(c, seg, now, net, iss);
      SendInv(d, if d.state == Closed then [] else app)
  {
    hide SendInv, SegmentInEstablished, SegmentInListen, SegmentInSynSent, SegmentInFinWait1;
    hide ProcessData, ProcessAck, Establish;
    if seg.rst {
      FreshSend(FRESH);
    } else if c.state in {Listen, SynSent} {
      HandshakeKeepsSend(c, seg, now, net, iss, app);
    } else if c.state == SynReceived {
      SynReceivedKeepsSend(c, seg, now, net, iss, app);
    } else if c.state == Established {
      EstablishedKeepsSend(c, seg, now, app);
    } else {
      ClosingKeepsSend(c, seg, now, net, iss, app);
    }
  }

  lemma TimeoutKeepsSend(c: Tcb, now: nat, app: seq<byte>)
    requires SendInv(c, app) && c.state != TimeWait
    ensures var d := RetransmitTimeout(c, now);
      && SendInv(d, if d.state == Closed then [] else app)
      && (d.state == c.state || d.state == Closed)
  {
    hide Retransmit, FaithfulAt, Window, Add32;
    if c.rtx.count < 5 {
      var c1 := c.(rtx := c.rtx.(rto := Min(c.rtx.rto * 2, MAX_RTO)),
                   cc := c.cc.(ssthresh := Max(c.cc.cwnd / 2, 2 * MSS), cwnd := MSS));
      ControlKeepsSend(c, c1, app);
      RetransmitKeeps(c1, now, app);
    }
  }

  lemma TimersKeepSend(c: Tcb, now: nat, net: nat -> bool, app: seq<byte>)
    requires SendInv(c, app)
    ensures var d := ProcessTimers(c, now, net);
      SendInv(d, if d.state == Closed then [] else app)
  {
    hide SendInv, RetransmitTimeout, SendPending;
    ClosedSend(c, app);
    FreshSend(FRESH);
    if c.inUse && c.state != TimeWait {
      TimeoutKeepsSend(c, now, app);
      var c1 := if c.rtx.timer > 0 && now >= c.rtx.timer then RetransmitTimeout(c, now) else c;
      if c1.state == Established {
        SendPendingKeeps(c1, now, net, app);
      }
    }
  }

  lemma ClosedSend(c: Tcb, app: seq<byte>)
    requires SendInv(c, app)
    ensures c.state == Closed ==> app == []
  {
  }

  lemma SocketKeepsSend(c: Connection, e: Event, app: seq<byte>)
    requires SendInv(c, app) && (e.Socket? || e.ActiveOpen? || e.PassiveOpen? || e.Reading?)
    ensures var d := StepRaw(c, e);
      SendInv(d, if d.state == Closed then [] else app)
  {
    hide FaithfulAt, Add32, ProcessSegment, ProcessTimers;
    var d := StepRaw(c, e);
    if e.Reading? {
      ControlKeepsSend(c, d, app);
    }
  }

  lemma StepKeepsSend(w: Slot, e: Event)
    requires SendInv(w.tcb, w.written)
    ensures SendInv(Next(w, e).tcb, Next(w, e).written)
  {
    hide SendInv, ProcessSegment, ProcessTimers, Recv, RecvBytes, Send, SendBytes, Close, Connect;
    assert w.written + [] == w.written;
    ClosedSend(w.tcb, w.written);
    match e
    case Arrival(seg, now, net, iss) =>
      SegmentKeepsSend(w.tcb, seg, now, net, iss, w.written);
    case Timers(now, net) =>
      TimersKeepSend(w.tcb, now, net, w.written);
    case Writing(data) =>
      SendKeeps(w.tcb, data, w.written);
      ClosedSend(Send(w.tcb, data), w.written + SendBytes(w.tcb, data));
    case Shutdown(now, net) =>
      CloseKeeps(w.tcb, now, net, w.written);
    case _ =>
      SocketKeepsSend(w.tcb, e, w.written);
  }

  lemma {:induction false} RunKeepsSend(w: Slot, events: seq<Event>)
    requires SendInv(w.tcb, w.written)
    ensures SendInv(Run(w, events).tcb, Run(w, events).written)
    decreases |events|
  {
    hide Next, SendInv;
    if events != [] {
      StepKeepsSend(w, events[0]);
      RunKeepsSend(Next(w, events[0]), events[1..]);
    }
  }

  /** Send safety. In every run every segment the connection has transmitted, first time or
      again, carries the application's bytes at their sequence numbers; and while the
      connection is open the transmit buffer is exactly the unacknowledged rest of what was
      written, of which the flight is a prefix. */
  lemma SendsWhatWasWritten(events: seq<Event>)
    ensures var v := Run(EMPTY_SLOT, events); var c := v.tcb;
      && (forall i :: 0 <= i < |c.out| ==> Faithful(c.out[i], c.snd.iss, v.written))
      && (c.state in {Established, CloseWait} ==>
            && Sub32(c.snd.nxt, c.snd.una) <= |c.tx| <= |v.written|
            && c.tx == v.written[|v.written| - |c.tx|..]
            && c.snd.una == Add32(c.snd.iss, 1 + |v.written| - |c.tx|))
  {
    hide Run, Add32, Sub32, Faithful;
    RunKeepsSend(EMPTY_SLOT, events);
  }
}
