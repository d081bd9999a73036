/** Bounds on the congestion and retransmission state in every run, the freedom from
    machine-integer overflow that follows, and the window rule of new transmissions. */
module TcpBounds {
  import opened Bytes
  import opened Tcp
  import opened TcpSend
  import opened TcpRuns
  import opened TcpSafety

  /** The tick count read by an event, if it reads one. */
  function Tick(e: Event): nat {
    match e
    case Arrival(_, now, _, _) => now
    case Timers(now, _) => now
    case ActiveOpen(now, _, _) => now
    case Shutdown(now, _) => now
    case _ => 0
  }

  /** `t` is an upper bound on the ticks seen so far. */
  predicate RtxBounded(r: Retransmission, t: nat) {
    && MIN_RTO <= r.rto <= MAX_RTO
    && r.srtt <= t && r.rttvar <= t && r.lastSendTime <= t
    && r.timer <= t + MAX_RTO && r.count < 256
  }

  predicate CcBounded(cc: Congestion) {
    && MSS <= cc.cwnd < TWO_32
    && 2 * MSS <= cc.ssthresh < TWO_32
    && cc.dupAckCount < 256
  }

  predicate Bounded(c: Tcb, t: nat) {
    RtxBounded(c.rtx, t) && CcBounded(c.cc) && c.timeWaitTimer <= t + TIME_WAIT_TIMEOUT
  }

  lemma NewRttBounded(r: Retransmission, now: nat, t: nat)
    requires RtxBounded(r, t) && now <= t
    ensures RtxBounded(NewRtt(r, now), t)
  {
  }

  lemma ProcessAckBounded(c: Tcb, ack: u32, now: nat, t: nat)
    requires RtxBounded(c.rtx, t) && CcBounded(c.cc) && now <= t
    ensures RtxBounded(ProcessAck(c, ack, now).rtx, t) && CcBounded(ProcessAck(c, ack, now).cc)
  {
    hide NewRtt, GrownWindow, Sub32, Add32;
    NewRttBounded(c.rtx, now, t);
  }

  lemma SegmentBounded(c: Connection, seg: Segment, now: nat, net: nat -> bool, iss: u32, t: nat)
    requires Bounded(c, t) && now <= t
    ensures Bounded(ProcessSegment(c, seg, now, net, iss), t)
  {
    hide NewRtt, ProcessData, ProcessAck, SegmentInEstablished, Add32, Sub32;
    ProcessAckBounded(c, seg.ackNum, now, t);
    NewRttBounded(c.rtx, now, t);
    EstablishedBounded(c, seg, now, t);
  }

  lemma EstablishedBounded(c: Connection, seg: Segment, now: nat, t: nat)
    requires Bounded(c, t) && now <= t
    ensures Bounded(SegmentInEstablished(c, seg, now), t)
  {
    hide ProcessData, ProcessAck, Add32;
    ProcessAckBounded(c, seg.ackNum, now, t);
  }

  lemma TimersBounded(c: Connection, now: nat, net: nat -> bool, t: nat)
    requires Bounded(c, t) && now <= t
    ensures Bounded(ProcessTimers(c, now, net), t)
  {
    hide Retransmit, SendPending;
    var b := c.(rtx := c.rtx.(rto := Min(c.rtx.rto * 2, MAX_RTO)),
                cc := c.cc.(ssthresh := Max(c.cc.cwnd / 2, 2 * MSS), cwnd := MSS));
    RetransmitBounded(b, now, t);
    if c.rtx.timer > 0 && now >= c.rtx.timer {
      SendPendingBounded(RetransmitTimeout(c, now), now, net, t);
    } else {
      SendPendingBounded(c, now, net, t);
    }
  }

  lemma RetransmitBounded(c: Tcb, now: nat, t: nat)
    requires Bounded(c, t) && now <= t
    ensures Bounded(Retransmit(c, now), t)
  {
    hide Sub32;
  }

  lemma SendPendingBounded(c: Tcb, now: nat, net: nat -> bool, t: nat)
    requires Bounded(c, t) && now <= t
    ensures Bounded(SendPending(c, now, net), t)
  {
    hide Add32, Sub32;
  }

  lemma LocalBounded(c: Connection, e: Event, t: nat)
    requires Bounded(c, t) && Tick(e) <= t && !e.Arrival?
    ensures Bounded(Step(c, e), t)
  {
    hide ProcessSegment, ProcessTimers, RecvBytes, SendBytes, Add32, Sub32;
    if e.Timers? {
      TimersBounded(c, e.now, e.net, t);
    }
  }

  lemma {:induction false} RunBounded(w: Slot, events: seq<Event>, t: nat)
    requires Bounded(w.tcb, t) && forall i :: 0 <= i < |events| ==> Tick(events[i]) <= t
    ensures Bounded(Run(w, events).tcb, t)
    decreases |events|
  {
    hide Step, Bounded, Tick;
    if events != [] {
      var e := events[0];
      StepBounded(w.tcb, e, t);
      RunBounded(Next(w, e), events[1..], t);
    }
  }

  lemma StepBounded(c: Connection, e: Event, t: nat)
    requires Bounded(c, t) && Tick(e) <= t
    ensures Bounded(Step(c, e), t)
  {
    hide ProcessSegment, ProcessTimers, Connect, Recv, Send, Close, Bounded;
    if e.Arrival? {
      SegmentBounded(c, e.seg, e.now, e.net, e.iss, t);
    } else {
      LocalBounded(c, e, t);
    }
  }

  /** In every run whose ticks stay within `t`: the windows never fall below one and two
      segments nor leave 32 bits, the timeout stays between its limits, and the smoothed
      estimates never exceed the largest tick. */
  lemma RunsStayBounded(events: seq<Event>, t: nat)
    requires forall i :: 0 <= i < |events| ==> Tick(events[i]) <= t
    ensures var c := Run(EMPTY_SLOT, events).tcb;
      && MSS <= c.cc.cwnd < TWO_32 && 2 * MSS <= c.cc.ssthresh < TWO_32
      && MIN_RTO <= c.rtx.rto <= MAX_RTO && c.rtx.srtt <= t && c.rtx.rttvar <= t
  {
    hide Run;
    RunBounded(EMPTY_SLOT, events, t);
  }

  /** No 64-bit intermediate of the estimator or of a timer overflows in this state, no 32-bit
      intermediate of the congestion window does, and the window is a divisor. */
  predicate Representable(c: Tcb, now: nat) {
    var r, m := c.rtx, Max(now - c.rtx.lastSendTime, 0);
    && 7 * r.srtt + m < 0x1_0000_0000_0000_0000
    && 3 * r.rttvar + Max(m - r.srtt, r.srtt - m) < 0x1_0000_0000_0000_0000
    && NewRtt(r, now).srtt + 4 * NewRtt(r, now).rttvar < 0x1_0000_0000_0000_0000
    && now + r.rto < 0x1_0000_0000_0000_0000 && r.rto * 2 < 0x1_0000_0000_0000_0000
    && now + TIME_WAIT_TIMEOUT < 0x1_0000_0000_0000_0000
    && Max(c.cc.cwnd / 2, 2 * MSS) + 3 * MSS < TWO_32 && c.cc.cwnd > 0
  }

  lemma BoundedIsRepresentable(c: Tcb, now: nat, t: nat)
    requires Bounded(c, t) && now <= t < 0x1000_0000_0000_0000
    ensures Representable(c, now)
  {
    hide NewRtt;
    NewRttBounded(c.rtx, now, t);
  }

  /** In every run with ticks below 2^60 nothing overflows and nothing is divided by zero,
      whatever the tick count of the next event. */
  lemma NoOverflow(events: seq<Event>, now: nat, t: nat)
    requires now <= t < 0x1000_0000_0000_0000 && forall i :: 0 <= i < |events| ==> Tick(events[i]) <= t
    ensures Representable(Run(EMPTY_SLOT, events).tcb, now)
  {
    hide Run, Representable;
    RunBounded(EMPTY_SLOT, events, t);
    BoundedIsRepresentable(Run(EMPTY_SLOT, events).tcb, now, t);
  }

  /** New data is transmitted only into the window. */
  lemma SendPendingWithinWindow(c: Tcb, now: nat, net: nat -> bool)
    requires InFlight(c) <= RX_BUFFER_SIZE
    ensures var d := SendPending(c, now, net);
      && d.snd.wnd == c.snd.wnd
      && (d.snd.nxt != c.snd.nxt ==> InFlight(d) <= Min(c.snd.wnd, c.cc.cwnd))
      && (d.out != c.out ==> InFlight(c) + |d.out[|c.out|].payload| <= Min(c.snd.wnd, c.cc.cwnd))
  {
    hide Add32, Sub32;
    Add32OfSub32(c.snd.nxt, c.snd.una);
    Add32OfAdd32(c.snd.una, InFlight(c), Sendable(c));
    Sub32OfAdd32(c.snd.una, InFlight(c) + Sendable(c));
  }

  /** In every run, whenever an event of an open connection moves the next sequence number, the
      flight it leaves is at most the smaller of the peer's window and the congestion window. */
  lemma FlightWithinWindow(events: seq<Event>, e: Event)
    ensures var c := Run(EMPTY_SLOT, events).tcb; var d := Step(c, e);
      c.state == Established && d.state == Established && d.snd.nxt != c.snd.nxt ==>
        InFlight(d) <= Min(d.snd.wnd, d.cc.cwnd)
  {
    hide Run, Step, SendInv, Sub32;
    FreshSend(FRESH);
    RunKeepsSend(EMPTY_SLOT, events);
    var v := Run(EMPTY_SLOT, events);
    if v.tcb.state == Established {
      FlightInRing(v.tcb, v.written);
      if e.Timers? {
        TimersWithinWindow(v.tcb, e.now, e.net);
      } else if Step(v.tcb, e).state == Established {
        OnlyTimersSend(v.tcb, e);
      }
    }
  }

  lemma FlightInRing(c: Tcb, app: seq<byte>)
    requires SendInv(c, app) && c.state == Established
    ensures InFlight(c) <= RX_BUFFER_SIZE
  {
  }

  lemma TimersWithinWindow(c: Connection, now: nat, net: nat -> bool)
    requires c.state == Established && InFlight(c) <= RX_BUFFER_SIZE
    ensures var d := Step(c, Timers(now, net));
      d.state == Established && d.snd.nxt != c.snd.nxt ==> InFlight(d) <= Min(d.snd.wnd, d.cc.cwnd)
  {
    hide Retransmit, SendPending, Sub32;
    var b := if c.rtx.timer > 0 && now >= c.rtx.timer then RetransmitTimeout(c, now) else c;
    if b.state == Established {
      SendPendingWithinWindow(b, now, net);
    }
  }

  lemma OnlyTimersSend(c: Connection, e: Event)
    requires c.state == Established && !e.Timers? && Step(c, e).state == Established
    ensures Step(c, e).snd.nxt == c.snd.nxt
  {
    hide AckNewData, AckDuplicate, ProcessData, Add32, Sub32;
  }
}
