/** What a connection tells its peer: the numbers, flags and window of every segment it sends,
    over every run of its slot. */
module TcpAcks {
  import opened Bytes
  import opened Tcp
  import opened TcpReceive
  import opened TcpSend
  import opened TcpRuns
  import opened TcpSafety

  /** The number after everything the application has read or can read, without the FIN. */
  function AfterData(w: Slot): u32 {
    Add32(w.tcb.rcv.irs, 1 + |w.read| + |w.tcb.rx|)
  }

  /** The number after everything taken from the peer, with the FIN once it is taken. */
  function AfterTaken(w: Slot): u32 {
    if FinTaken(w.tcb.state) then Add32(AfterData(w), 1) else AfterData(w)
  }

  /** The number of a SYN: the initial one, but the one after it when both sides open at the
      same time and the SYN is sent a second time. */
  function SynNumber(c: Tcb, d: Tcb): u32 {
    if c.state == SynSent then Add32(d.snd.iss, 1) else d.snd.iss
  }

  /** What a segment that an event sends says, by the slot before and after the event. Payload,
      new or repeated, goes out before the event takes anything. Other segments tell what it has
      taken; only before the last of them can there be one, in the event that takes the FIN,
      that acknowledges the data alone. */
  predicate Tells(w: Slot, v: Slot, s: Sent, last: bool) {
    if s.payload != [] then
      !s.syn && s.ack && !s.fin && s.ackNum == AfterTaken(w) && s.window == w.tcb.rcv.wnd
    else
      && s.window == v.tcb.rcv.wnd
      && s.seqNum == (if s.syn then SynNumber(w.tcb, v.tcb) else if s.fin then w.tcb.snd.nxt else v.tcb.snd.nxt)
      && (s.ack ==> s.ackNum == if last then AfterTaken(v) else AfterData(v))
      && (!last ==> !FinTaken(w.tcb.state) && FinTaken(v.tcb.state))
  }

  /** The same in terms of the control block alone. */
  predicate Says(c: Tcb, d: Tcb, s: Sent, last: bool) {
    if s.payload != [] then
      !s.syn && s.ack && !s.fin && s.ackNum == c.rcv.nxt && s.window == c.rcv.wnd && c.tx != []
    else
      && s.window == d.rcv.wnd
      && s.seqNum == (if s.syn then SynNumber(c, d) else if s.fin then c.snd.nxt else d.snd.nxt)
      && (s.ack ==> if last then s.ackNum == d.rcv.nxt else Add32(s.ackNum, 1) == d.rcv.nxt)
      && (s.ack && Unsynchronized(d.state) ==> d.rcv.nxt == Add32(d.rcv.irs, 1))
      && (!last ==> !FinTaken(c.state) && FinTaken(d.state))
  }

  predicate SaysAll(c: Tcb, d: Tcb) {
    && (c.out <= d.out || d.out == [])
    && forall i :: |c.out| <= i < |d.out| ==> Says(c, d, d.out[i], i == |d.out| - 1)
  }

  // ------------------------------------------------------------ the control block

  lemma ListenSays(c: Tcb, seg: Segment, now: nat, net: nat -> bool, iss: u32)
    requires c.state == Listen
    ensures SaysAll(c, SegmentInListen(c, seg, now, net, iss))
  {
    hide Add32;
  }

  lemma SynSentSays(c: Tcb, seg: Segment, now: nat, net: nat -> bool)
    requires c.state == SynSent && c.snd.nxt == Add32(c.snd.iss, 1)
    ensures SaysAll(c, SegmentInSynSent(c, seg, now, net))
  {
    hide Add32, NewRtt;
  }

  /** Acknowledgments only ever send payload, as the connection stood. */
  lemma RetransmitSays(c: Tcb, now: nat)
    ensures var d := Retransmit(c, now);
      forall i :: |c.out| <= i < |d.out| ==>
        && c.tx != [] && d.out[i].payload != []
        && d.out[i] == Sent(false, true, false, c.snd.una, c.rcv.nxt, c.rcv.wnd, d.out[i].payload)
  {
  }

  /** All that `d` has sent beyond `c` is payload. */
  predicate SendsData(c: Tcb, d: Tcb) {
    c.out <= d.out && forall i :: |c.out| <= i < |d.out| ==> DataSaid(c, d.out[i])
  }

  predicate DataSaid(c: Tcb, s: Sent) {
    s.payload != [] && !s.syn && s.ack && !s.fin && s.ackNum == c.rcv.nxt && s.window == c.rcv.wnd && c.tx != []
  }

  lemma ProcessAckSays(c: Tcb, ack: u32, now: nat)
    requires c.cc.cwnd > 0
    ensures SendsData(c, ProcessAck(c, ack, now))
  {
    hide AckNewData, Retransmit;
    if !AckAdvances(c, ack) && ack == c.cc.lastAck {
      DuplicateSays(c, now);
    }
  }

  lemma DuplicateSays(c: Tcb, now: nat)
    ensures SendsData(c, AckDuplicate(c, now))
  {
    hide Retransmit;
    var dup, ssthresh := (c.cc.dupAckCount + 1) % 256, Max(c.cc.cwnd / 2, 2 * MSS);
    RetransmitSays(c.(cc := c.cc.(dupAckCount := dup, ssthresh := ssthresh, cwnd := ssthresh + 3 * MSS)), now);
  }

  /** Data that is due or early is answered by one segment, other data by none. */
  lemma ProcessDataSays(c: Tcb, seg: Segment)
    requires |c.rx| <= RX_BUFFER_SIZE
    ensures var d := ProcessData(c, seg);
      d.out == c.out + if seg.payload != [] && (seg.seqNum == c.rcv.nxt || SeqAfter(seg.seqNum, c.rcv.nxt))
                       then [Sent(false, true, false, d.snd.nxt, d.rcv.nxt, d.rcv.wnd, [])] else []
  {
    hide TakeInOrder, BufferOoo, SeqAfter;
  }

  /** An open connection: first what the acknowledgment sends, then the answer to the data, then
      the answer to the FIN. */
  lemma EstablishedSays(c: Tcb, seg: Segment, now: nat)
    requires |c.rx| <= RX_BUFFER_SIZE && c.cc.cwnd > 0 && c.state == Established
    ensures SaysAll(c, SegmentInEstablished(c, seg, now))
  {
    hide ProcessAck, ProcessData, Add32;
    var c1 := if seg.ack then ProcessAck(c, seg.ackNum, now) else c;
    ProcessAckSays(c, seg.ackNum, now);
    ProcessDataSays(c1, seg);
  }

  lemma FinWaitSays(c: Tcb, seg: Segment, now: nat)
    requires c.state in {FinWait1, FinWait2}
    ensures SaysAll(c, SegmentInFinWait1(c, seg, now)) && SaysAll(c, EnterTimeWait(TakeFin(c), now))
  {
    hide Add32;
  }

  lemma SynReceivedSays(c: Tcb, seg: Segment, now: nat)
    requires |c.rx| <= RX_BUFFER_SIZE && c.state == SynReceived
    ensures SaysAll(c, ProcessData(Establish(c, seg, now), seg))
  {
    hide ProcessData, NewRtt, Add32;
    ProcessDataSays(Establish(c, seg, now), seg);
  }

  lemma SegmentSays(c: Connection, seg: Segment, now: nat, net: nat -> bool, iss: u32, app: seq<byte>)
    requires SendInv(c, app)
    ensures SaysAll(c, ProcessSegment(c, seg, now, net, iss))
  {
    hide SegmentInListen, SegmentInSynSent, SegmentInEstablished, SegmentInFinWait1, ProcessAck, ProcessData;
    hide Establish, TakeFin, AllFaithful, NoPayload, Window, Add32, Says;
    if seg.rst {
    } else if c.state == Listen {
      ListenSays(c, seg, now, net, iss);
    } else if c.state == SynSent {
      SynSentSays(c, seg, now, net);
    } else if c.state == SynReceived {
      SynReceivedSays(c, seg, now);
    } else if c.state == Established {
      EstablishedSays(c, seg, now);
    } else if c.state in {FinWait1, FinWait2} {
      FinWaitSays(c, seg, now);
    } else if c.state == CloseWait {
      CloseWaitSays(c, seg, now);
    }
  }

  lemma CloseWaitSays(c: Tcb, seg: Segment, now: nat)
    requires c.cc.cwnd > 0
    ensures SaysAll(c, ProcessAck(c, seg.ackNum, now))
  {
    hide ProcessAck;
    ProcessAckSays(c, seg.ackNum, now);
  }

  /** Timers send payload and nothing else: a SYN or a FIN that is lost is not sent again. */
  lemma TimersSay(c: Tcb, now: nat, net: nat -> bool)
    ensures SendsData(c, ProcessTimers(c, now, net)) || ProcessTimers(c, now, net) == FRESH
  {
    hide Retransmit, SendPending;
    if c.inUse && c.state != TimeWait {
      var c1 := if c.rtx.timer > 0 && now >= c.rtx.timer then RetransmitTimeout(c, now) else c;
      TimeoutSays(c, now);
      PendingSays(c1, now, net);
    }
  }

  lemma TimeoutSays(c: Tcb, now: nat)
    ensures var d := RetransmitTimeout(c, now);
      d == FRESH || (SendsData(c, d) && d.rcv == c.rcv && d.tx == c.tx)
  {
    hide Retransmit;
    RetransmitSays(c.(rtx := c.rtx.(rto := Min(c.rtx.rto * 2, MAX_RTO)),
                      cc := c.cc.(ssthresh := Max(c.cc.cwnd / 2, 2 * MSS), cwnd := MSS)), now);
  }

  lemma PendingSays(c: Tcb, now: nat, net: nat -> bool)
    ensures SendsData(c, SendPending(c, now, net))
  {
    hide Add32;
  }

  lemma LocalSays(c: Connection, e: Event)
    requires e.Socket? || e.ActiveOpen? || e.PassiveOpen? || e.Reading? || e.Writing? || e.Shutdown?
    ensures SaysAll(c, StepRaw(c, e))
  {
    hide Add32, ProcessSegment, ProcessTimers;
  }

  lemma StepSays(c: Connection, e: Event, app: seq<byte>)
    requires SendInv(c, app)
    ensures SaysAll(c, Step(c, e))
  {
    hide SendInv, ProcessSegment, ProcessTimers, Allocate, Connect, StartListening, Recv, Send, Close, Says;
    match e
    case Arrival(seg, now, net, iss) =>
      if c.inUse {
        SegmentSays(c, seg, now, net, iss, app);
      }
    case Timers(now, net) =>
      TimersSay(c, now, net);
      DataIsSaid(c, ProcessTimers(c, now, net));
    case _ =>
      LocalSays(c, e);
  }

  lemma DataIsSaid(c: Tcb, d: Tcb)
    requires SendsData(c, d) || d == FRESH
    ensures SaysAll(c, d)
  {
  }

  // ------------------------------------------------------------------- whole runs

  /** The next expected number says exactly what was taken. */
  lemma NextIsAfterTaken(w: Slot, stream: seq<byte>)
    requires RecvInv(w.tcb, w.read, stream)
    ensures !Unsynchronized(w.tcb.state) ==> w.tcb.rcv.nxt == AfterTaken(w)
    ensures Unsynchronized(w.tcb.state) ==> AfterTaken(w) == Add32(w.tcb.rcv.irs, 1)
  {
    hide Carries;
    Add32OfAdd32(w.tcb.rcv.irs, 1 + |w.read| + |w.tcb.rx|, 1);
  }

  lemma TellsAsSaid(w: Slot, v: Slot, s: Sent, last: bool, stream: seq<byte>, app: seq<byte>)
    requires RecvInv(w.tcb, w.read, stream) && RecvInv(v.tcb, v.read, stream) && SendInv(w.tcb, app)
    requires Says(w.tcb, v.tcb, s, last)
    ensures Tells(w, v, s, last)
  {
    hide Add32, Carries, AllFaithful, NoPayload, Window, RecvInv, AfterData;
    NextIsAfterTaken(w, stream);
    NextIsAfterTaken(v, stream);
    if s.payload == [] && s.ack && !last {
      AddOneInjective(s.ackNum, AfterData(v));
    }
  }

  lemma AddOneInjective(a: u32, b: u32)
    requires Add32(a, 1) == Add32(b, 1)
    ensures a == b
  {
  }

  /** Every segment that an event of any run sends tells the peer exactly what was taken from
      it, offers the window, and stands at its own number. */
  lemma TellsTheTruth(events: seq<Event>, e: Event, peers: nat -> seq<byte>)
    requires forall k :: |peers(k)| < TWO_32 - 1
    requires AllAgree(EMPTY_SLOT, events, peers)
    requires var w := Run(EMPTY_SLOT, events); Agrees(w.tcb, e, peers(w.life))
    ensures var w := Run(EMPTY_SLOT, events); var v := Next(w, e); var n := |v.tcb.out|;
      && (w.tcb.out <= v.tcb.out || v.tcb.out == [])
      && forall i :: |w.tcb.out| <= i < n ==> Tells(w, v, v.tcb.out[i], i == n - 1)
  {
    hide Run, RecvInv, SendInv, Agrees, Says, Tells, Step;
    FreshReceive(FRESH, peers(0));
    FreshSend(FRESH);
    RunKeepsReceive(EMPTY_SLOT, events, peers);
    RunKeepsSend(EMPTY_SLOT, events);
    var w := Run(EMPTY_SLOT, events);
    var v := Next(w, e);
    StepKeepsReceive(w, e, peers(w.life));
    StepSays(w.tcb, e, w.written);
    forall i | |w.tcb.out| <= i < |v.tcb.out|
      ensures Tells(w, v, v.tcb.out[i], i == |v.tcb.out| - 1)
    {
      TellsAsSaid(w, v, v.tcb.out[i], i == |v.tcb.out| - 1, peers(w.life), w.written);
    }
  }

  /** The number of segments without payload. */
  function Bare(out: seq<Sent>): nat {
    if out == [] then 0 else (if out[0].payload == [] then 1 else 0) + Bare(out[1..])
  }

  lemma {:induction false} BareConcat(a: seq<Sent>, b: seq<Sent>)
    ensures Bare(a + b) == Bare(a) + Bare(b)
  {
    if a == [] {
      assert a + b == b;
    } else {
      BareConcat(a[1..], b);
      assert (a + b)[1..] == a[1..] + b;
    }
  }

  lemma {:induction false} DataIsNotBare(out: seq<Sent>)
    requires forall i :: 0 <= i < |out| ==> out[i].payload != []
    ensures Bare(out) == 0
  {
    if out != [] {
      DataIsNotBare(out[1..]);
    }
  }

  /** Data that reaches an open connection is answered exactly if it is the next expected or
      comes after that: once, and the FIN once more. Data from before is not answered. */
  lemma DataIsAnswered(c: Connection, seg: Segment, now: nat, net: nat -> bool, iss: u32)
    requires c.inUse && c.state == Established && !seg.rst && seg.payload != []
    ensures var d := Step(c, Arrival(seg, now, net, iss));
      && c.out <= d.out
      && Bare(d.out[|c.out|..]) == (if seg.seqNum == c.rcv.nxt || SeqAfter(seg.seqNum, c.rcv.nxt) then 1 else 0)
                                   + (if seg.fin then 1 else 0)
  {
    hide ProcessAck, ProcessData, SeqAfter, Add32, Bare;
    var d := Step(c, Arrival(seg, now, net, iss));
    var c1 := if seg.ack then ProcessAck(c, seg.ackNum, now) else c;
    var c2 := ProcessData(c1, seg);
    ProcessAckSays(c, seg.ackNum, now);
    ProcessDataSays(c1, seg);
    var repeated, answer, last := c1.out[|c.out|..], c2.out[|c1.out|..], d.out[|c2.out|..];
    assert d.out[|c.out|..] == repeated + (answer + last);
    DataIsNotBare(repeated);
    BareConcat(repeated, answer + last);
    BareConcat(answer, last);
    OneBare(answer);
    OneBare(last);
  }

  lemma OneBare(out: seq<Sent>)
    requires |out| <= 1 && forall i :: 0 <= i < |out| ==> out[i].payload == []
    ensures Bare(out) == |out|
  {
  }
}
