/** The state diagram and the closing handshake of a connection, over every run. */
module TcpClosing {
  import opened Bytes
  import opened Tcp
  import opened TcpSend
  import opened TcpRuns
  import opened TcpSafety

  /** The edges of the diagram in section 3.3.2 of RFC 9293 other than aborts. */
  predicate Edge(s: State, t: State) {
    (s, t) in {
      (Closed, Listen), (Closed, SynSent),
      (Listen, SynReceived), (Listen, Closed),
      (SynSent, SynReceived), (SynSent, Established), (SynSent, Closed),
      (SynReceived, Established),
      (Established, FinWait1), (Established, CloseWait),
      (FinWait1, FinWait2), (FinWait1, Closing), (FinWait1, TimeWait),
      (FinWait2, TimeWait), (Closing, TimeWait),
      (CloseWait, LastAck), (LastAck, Closed), (TimeWait, Closed) }
  }

  /** Why a connection may be thrown away before the diagram says so: a reset from the peer,
      too many retransmissions, or reuse of a closing slot. */
  predicate Aborts(c: Connection, e: Event) {
    || (e.Arrival? && e.seg.rst)
    || (e.Timers? && c.rtx.timer > 0 && e.now >= c.rtx.timer && c.rtx.count >= 5)
    || (e.Socket? && c.state in {TimeWait, FinWait1, FinWait2, Closing, LastAck})
  }

  lemma SegmentFollowsDiagram(c: Connection, seg: Segment, now: nat, net: nat -> bool, iss: u32)
    ensures var d := ProcessSegment(c, seg, now, net, iss);
      d.state == c.state || Edge(c.state, d.state) || (d.state == Closed && seg.rst)
  {
    hide ProcessAck, ProcessData, NewRtt, Add32, Sub32;
  }

  /** Every state change is an edge of the diagram, or an abort to Closed. */
  lemma StepFollowsDiagram(c: Connection, e: Event)
    ensures var d := Step(c, e);
      d.state == c.state || Edge(c.state, d.state) || (d.state == Closed && Aborts(c, e))
  {
    hide ProcessSegment, ProcessTimers, Edge, Connect, Close, Recv, Send;
    match e
    case Arrival(seg, now, net, iss) =>
      SegmentFollowsDiagram(c, seg, now, net, iss);
    case Timers(now, net) =>
      TimersFollowDiagram(c, now, net);
    case _ =>
      LocalFollowsDiagram(c, e);
  }

  lemma TimersFollowDiagram(c: Connection, now: nat, net: nat -> bool)
    ensures var d := ProcessTimers(c, now, net);
      || d.state == c.state || Edge(c.state, d.state)
      || (d.state == Closed && c.rtx.timer > 0 && now >= c.rtx.timer && c.rtx.count >= 5)
  {
    hide Retransmit, SendPending, Add32, Sub32;
  }

  lemma LocalFollowsDiagram(c: Connection, e: Event)
    requires !e.Arrival? && !e.Timers?
    ensures var d := Step(c, e);
      d.state == c.state || Edge(c.state, d.state) || (d.state == Closed && Aborts(c, e))
  {
    hide ProcessSegment, ProcessTimers, Add32, Sub32;
  }

  /** What the history must show in each closing state. */
  predicate ClosingInv(w: Slot) {
    match w.tcb.state
    case FinWait1 => FinOutstanding(w)
    case Closing => FinOutstanding(w) && w.finReceived
    case LastAck => FinOutstanding(w) && w.finReceived
    case FinWait2 => w.finSeq.Some? && w.finAcked
    case TimeWait => w.finSeq.Some? && w.finAcked && w.finReceived
    case CloseWait => w.finReceived
    case _ => true
  }

  /** Our FIN is the last thing sent. */
  predicate FinOutstanding(w: Slot) {
    w.finSeq.Some? && w.tcb.snd.nxt == Add32(w.finSeq.value, 1)
  }

  lemma HandshakeStates(c: Connection, seg: Segment, now: nat, net: nat -> bool, iss: u32)
    requires c.state in {Closed, Listen, SynSent, SynReceived}
    ensures ProcessSegment(c, seg, now, net, iss).state in {Closed, Listen, SynSent, SynReceived, Established}
  {
    hide ProcessData, ProcessAck, NewRtt, Add32, Sub32;
  }

  lemma SegmentKeepsClosing(w: Slot, seg: Segment, now: nat, net: nat -> bool, iss: u32)
    requires ClosingInv(w) && w.tcb.inUse
    ensures ClosingInv(Next(w, Arrival(seg, now, net, iss)))
  {
    hide ProcessData, ProcessAck, Establish, NewRtt, SegmentInListen, SegmentInSynSent, SegmentInEstablished;
    hide Add32, Sub32;
    if w.tcb.state in {Closed, Listen, SynSent, SynReceived} {
      HandshakeStates(w.tcb, seg, now, net, iss);
    }
  }

  lemma LocalKeepsClosing(w: Slot, e: Event)
    requires ClosingInv(w) && !e.Arrival?
    ensures ClosingInv(Next(w, e))
  {
    hide ProcessSegment, Retransmit, SendPending, RecvBytes, SendBytes, Add32, Sub32;
  }

  lemma {:induction false} RunKeepsClosing(w: Slot, events: seq<Event>)
    requires ClosingInv(w)
    ensures ClosingInv(Run(w, events))
    decreases |events|
  {
    hide Next, ClosingInv;
    if events != [] {
      var e := events[0];
      if e.Arrival? {
        if w.tcb.inUse {
          SegmentKeepsClosing(w, e.seg, e.now, e.net, e.iss);
        } else {
          UnusedKeepsClosing(w, e);
        }
      } else {
        LocalKeepsClosing(w, e);
      }
      RunKeepsClosing(Next(w, e), events[1..]);
    }
  }

  lemma UnusedKeepsClosing(w: Slot, e: Event)
    requires !w.tcb.inUse && e.Arrival?
    ensures ClosingInv(Next(w, e))
  {
  }

  /** In every run a connection in TimeWait has sent its FIN, has had it acknowledged, and
      has received the peer's FIN. */
  lemma TimeWaitIsEarned(events: seq<Event>)
    ensures var v := Run(EMPTY_SLOT, events);
      v.tcb.state == TimeWait ==> v.finSeq.Some? && v.finAcked && v.finReceived
  {
    hide Run;
    RunKeepsClosing(EMPTY_SLOT, events);
  }

  /** In every run LastAck is left only for Closed, and only by an acknowledgment of our
      FIN, a reset, a retransmission timeout or reuse of the slot. */
  lemma LastAckEnds(events: seq<Event>, e: Event)
    ensures var v := Run(EMPTY_SLOT, events); var d := Step(v.tcb, e);
      v.tcb.state == LastAck && d.state != LastAck ==>
        && d.state == Closed
        && (Aborts(v.tcb, e)
            || (e.Arrival? && e.seg.ack && v.finSeq.Some? && e.seg.ackNum == Add32(v.finSeq.value, 1)))
  {
    hide Run, Add32, Retransmit, SendPending;
    RunKeepsClosing(EMPTY_SLOT, events);
    var c := Run(EMPTY_SLOT, events).tcb;
    if c.state == LastAck && Step(c, e).state != LastAck {
      LastAckStep(c, e);
    }
  }

  lemma LastAckStep(c: Connection, e: Event)
    requires c.state == LastAck && Step(c, e).state != LastAck
    ensures Step(c, e).state == Closed
    ensures Aborts(c, e) || (e.Arrival? && e.seg.ack && e.seg.ackNum == c.snd.nxt)
  {
    hide Retransmit, SendPending, ProcessAck, ProcessData, Add32, Sub32;
  }

  // ------------------------------------------------- data in place of the FIN

  /** The ring still tells whether bytes were unsent at the close. */
  predicate CloseInv(w: Slot) {
    FinPending(w.tcb.state) ==> (w.unsentAtClose <==> |w.tcb.tx| >= InFlight(w.tcb))
  }

  /** While the FIN is pending, neither the ring nor the flight changes. */
  lemma FinPendingFrame(c: Connection, e: Event)
    requires FinPending(c.state) && FinPending(Step(c, e).state)
    ensures SameSend(c, Step(c, e))
  {
    hide Retransmit, SendPending, ProcessAck, ProcessData, NewRtt, Add32;
  }

  /** The FIN becomes pending only by an accepted close. */
  lemma FinPendingStarts(c: Connection, e: Event)
    requires !FinPending(c.state) && FinPending(Step(c, e).state)
    ensures e.Shutdown? && SendsFin(c, e).Some? && Open(c.state)
    ensures Step(c, e).tx == c.tx && Step(c, e).snd == c.snd.(nxt := Add32(c.snd.nxt, 1))
  {
    hide ProcessAck, ProcessData, NewRtt, Retransmit, SendPending, Add32;
    if e.Arrival? {
      SegmentNeverPends(c, e.seg, e.now, e.net, e.iss);
    }
  }

  lemma SegmentNeverPends(c: Connection, seg: Segment, now: nat, net: nat -> bool, iss: u32)
    requires !FinPending(c.state)
    ensures !FinPending(ProcessSegment(c, seg, now, net, iss).state)
  {
    hide ProcessAck, ProcessData, NewRtt, Add32, Sub32;
  }

  lemma StepKeepsClose(w: Slot, e: Event)
    requires SendInv(w.tcb, w.written) && CloseInv(w)
    ensures CloseInv(Next(w, e))
  {
    hide Step, SendInv, Add32, Sub32;
    var c, d := w.tcb, Step(w.tcb, e);
    if FinPending(d.state) {
      if FinPending(c.state) {
        FinPendingFrame(c, e);
      } else {
        FinPendingStarts(c, e);
        OpenFlight(c, w.written);
        Add32OfSub32(c.snd.nxt, c.snd.una);
        Add32OfAdd32(c.snd.una, InFlight(c), 1);
        Sub32OfAdd32(c.snd.una, InFlight(c) + 1);
      }
    }
  }

  lemma OpenFlight(c: Tcb, app: seq<byte>)
    requires SendInv(c, app) && Open(c.state)
    ensures InFlight(c) <= |c.tx| <= RX_BUFFER_SIZE
  {
  }

  lemma {:induction false} RunKeepsClose(w: Slot, events: seq<Event>)
    requires SendInv(w.tcb, w.written) && CloseInv(w)
    ensures CloseInv(Run(w, events))
    decreases |events|
  {
    hide Next, SendInv, CloseInv;
    if events != [] {
      StepKeepsSend(w, events[0]);
      StepKeepsClose(w, events[0]);
      RunKeepsClose(Next(w, events[0]), events[1..]);
    }
  }

  /** The segment's payload extends over sequence number `n`. */
  predicate Reaches(s: Sent, n: u32) {
    Sub32(n, s.seqNum) < |s.payload|
  }

  /** In every run, whatever happens while our FIN is pending, payload sent then covers the
      FIN's own sequence number if and only if bytes were unsent when the close was accepted. */
  lemma DataMeetsFin(events: seq<Event>, e: Event)
    ensures var v := Run(EMPTY_SLOT, events); var d := Step(v.tcb, e);
      FinPending(v.tcb.state) && d.state != Closed ==>
        && v.finSeq.Some? && v.tcb.out <= d.out
        && forall i :: |v.tcb.out| <= i < |d.out| && d.out[i].payload != [] ==>
             (Reaches(d.out[i], v.finSeq.value) <==> v.unsentAtClose)
  {
    hide Run, Step, SendInv, ClosingInv, Add32, Sub32, Reaches;
    EmptyClosing();
    RunKeepsClosing(EMPTY_SLOT, events);
    FreshSend(FRESH);
    RunKeepsSend(EMPTY_SLOT, events);
    RunKeepsClose(EMPTY_SLOT, events);
    var v := Run(EMPTY_SLOT, events);
    if FinPending(v.tcb.state) && Step(v.tcb, e).state != Closed {
      PendingFin(v);
      PendingStep(v, e);
    }
  }

  lemma EmptyClosing()
    ensures ClosingInv(EMPTY_SLOT) && CloseInv(EMPTY_SLOT)
  {
  }

  lemma PendingFin(w: Slot)
    requires ClosingInv(w) && FinPending(w.tcb.state)
    ensures FinOutstanding(w)
  {
  }

  lemma PendingStep(w: Slot, e: Event)
    requires SendInv(w.tcb, w.written) && CloseInv(w) && FinPending(w.tcb.state) && FinOutstanding(w)
    requires Step(w.tcb, e).state != Closed
    ensures var d := Step(w.tcb, e);
      && w.tcb.out <= d.out
      && forall i :: |w.tcb.out| <= i < |d.out| && d.out[i].payload != [] ==>
           (Reaches(d.out[i], w.finSeq.value) <==> w.unsentAtClose)
  {
    hide SendInv, Retransmit, Add32, Sub32, SendPending, ProcessAck, ProcessData;
    var c := w.tcb;
    if e.Timers? && c.rtx.timer > 0 && e.now >= c.rtx.timer {
      var b := c.(rtx := c.rtx.(rto := Min(c.rtx.rto * 2, MAX_RTO)),
                  cc := c.cc.(ssthresh := Max(c.cc.cwnd / 2, 2 * MSS), cwnd := MSS));
      RetransmitReaches(b, e.now, w.finSeq.value, c, w.written);
    } else if !e.Timers? {
      PendingSendsControl(c, e);
    }
  }

  lemma PendingSendsControl(c: Connection, e: Event)
    requires FinPending(c.state) && !e.Timers? && Step(c, e).state != Closed
    ensures OnlyControl(c, Step(c, e))
  {
    hide Add32, Sub32, SendPending, ProcessAck, ProcessData;
  }

  lemma RetransmitReaches(b: Tcb, now: nat, fin: u32, c: Tcb, app: seq<byte>)
    requires SendInv(c, app) && FinPending(c.state) && b == c.(rtx := b.rtx, cc := b.cc)
    requires c.snd.nxt == Add32(fin, 1)
    ensures var d := Retransmit(b, now);
      && c.out <= d.out
      && forall i :: |c.out| <= i < |d.out| ==> (Reaches(d.out[i], fin) <==> |c.tx| >= InFlight(c))
  {
    FlightToFin(c.snd.una, fin);
    hide Add32, Sub32;
  }

  lemma FlightToFin(una: u32, fin: u32)
    ensures Sub32(Add32(fin, 1), una) >= 1 ==> Sub32(fin, una) == Sub32(Add32(fin, 1), una) - 1
  {
  }
}
