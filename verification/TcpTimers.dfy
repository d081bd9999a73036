/** Timers, estimates and windows of a connection: what is in flight is watched by a timer, a
    silent peer is given up after five tries, and how the estimates and the congestion window
    move. */
module TcpTimers {
  import opened Bytes
  import opened Tcp
  import opened TcpRuns
  import opened TcpExamples

  // -------------------------------------------------------- the timer is running

  /** Whatever is in flight, the retransmission timer is set. */
  predicate Watched(c: Tcb) {
    c.rtx.rto >= MIN_RTO && (InFlight(c) > 0 ==> c.rtx.timer > 0)
  }

  lemma NothingInFlight(c: Tcb)
    ensures InFlight(c) == 0 <==> c.snd.nxt == c.snd.una
  {
  }

  lemma AckKeepsWatch(c: Tcb, ack: u32, now: nat)
    requires Watched(c) && c.cc.cwnd > 0
    ensures Watched(ProcessAck(c, ack, now))
  {
    hide GrownWindow, SeqAfter;
  }

  lemma HandshakeKeepsWatch(c: Connection, seg: Segment, now: nat, net: nat -> bool, iss: u32)
    requires Watched(c)
    ensures Watched(SegmentInListen(c, seg, now, net, iss)) && Watched(SegmentInSynSent(c, seg, now, net))
    ensures seg.ackNum == c.snd.nxt ==> Watched(Establish(c, seg, now))
  {
    hide Add32;
  }

  lemma SegmentKeepsWatch(c: Connection, seg: Segment, now: nat, net: nat -> bool, iss: u32)
    requires Watched(c)
    ensures Watched(ProcessSegment(c, seg, now, net, iss))
  {
    hide ProcessAck, ProcessData, SegmentInListen, SegmentInSynSent, Establish, Add32, Sub32;
    Sub32Self(c.snd.nxt);
    Sub32Self(0);
    HandshakeKeepsWatch(c, seg, now, net, iss);
    AckKeepsWatch(c, seg.ackNum, now);
  }

  lemma TimersKeepWatch(c: Connection, now: nat, net: nat -> bool)
    requires Watched(c)
    ensures Watched(ProcessTimers(c, now, net))
  {
    hide Sendable, Add32, Sub32;
    Sub32Self(0);
  }

  lemma LocalKeepsWatch(c: Connection, e: Event)
    requires Watched(c) && (e.Socket? || e.ActiveOpen? || e.PassiveOpen? || e.Reading? || e.Writing? || e.Shutdown?)
    ensures Watched(StepRaw(c, e))
  {
    hide ProcessSegment, ProcessTimers, Add32;
  }

  lemma StepKeepsWatch(c: Connection, e: Event)
    requires Watched(c)
    ensures Watched(Step(c, e))
  {
    hide Watched, ProcessSegment, ProcessTimers, Allocate, Connect, StartListening, Recv, Send, Close;
    match e
    case Arrival(seg, now, net, iss) =>
      if c.inUse {
        SegmentKeepsWatch(c, seg, now, net, iss);
      }
    case Timers(now, net) => TimersKeepWatch(c, now, net);
    case _ => LocalKeepsWatch(c, e);
  }

  lemma {:induction false} RunKeepsWatch(w: Slot, events: seq<Event>)
    requires Watched(w.tcb)
    ensures Watched(Run(w, events).tcb)
    decreases |events|
  {
    hide Step, Watched;
    if events != [] {
      StepKeepsWatch(w.tcb, events[0]);
      RunKeepsWatch(Next(w, events[0]), events[1..]);
    }
  }

  /** In every run of the slot, as long as anything is unacknowledged the timer is set. */
  lemma FlightIsWatched(events: seq<Event>)
    ensures var c := Run(EMPTY_SLOT, events).tcb; c.snd.nxt != c.snd.una ==> c.rtx.timer > 0
  {
    hide Run;
    RunKeepsWatch(EMPTY_SLOT, events);
    NothingInFlight(Run(EMPTY_SLOT, events).tcb);
  }

  // ------------------------------------------------------------- a silent peer

  /** The connection waits for bytes it has sent to be acknowledged. */
  predicate Unanswered(c: Connection) {
    c.inUse && c.state !in {Closed, TimeWait} && c.tx != [] && InFlight(c) > 0 && c.rtx.timer > 0
  }

  /** The timeout after so many expiries. */
  function Backoff(rto: nat, tries: nat): nat {
    if tries == 0 then rto else Min(2 * Backoff(rto, tries - 1), MAX_RTO)
  }

  /** A timer run after the expiry sends the unacknowledged head again at its own number, doubles
      the timeout and shrinks the window to one segment; the sixth one gives up. */
  lemma Expiry(c: Connection, now: nat, net: nat -> bool)
    requires Unanswered(c) && now >= c.rtx.timer
    ensures var d := Step(c, Timers(now, net));
      if c.rtx.count >= 5 then d == FRESH
      else
        && Unanswered(d) && d.state == c.state && d.tx == c.tx && d.snd.una == c.snd.una && c.out < d.out
        && d.out[|c.out|].seqNum == c.snd.una && d.out[|c.out|].payload == c.tx[..Min(|c.tx|, InFlight(c))]
        && d.rtx.rto == Min(2 * c.rtx.rto, MAX_RTO) && d.rtx.timer == now + d.rtx.rto
        && d.rtx.count == c.rtx.count + 1 && d.cc.cwnd == MSS && d.cc.ssthresh == Max(c.cc.cwnd / 2, 2 * MSS)
  {
    hide SendPending, Sub32;
    var r := RetransmitTimeout(c, now);
    if c.rtx.count < 5 && c.state == Established {
      PendingFrame(r, now, net);
    }
  }

  lemma PendingFrame(c: Tcb, now: nat, net: nat -> bool)
    requires InFlight(c) > 0 && c.rtx.timer > 0 && |c.tx| <= RX_BUFFER_SIZE
    ensures var d := SendPending(c, now, net);
      && InFlight(d) > 0 && d.snd.una == c.snd.una && c.out <= d.out
      && d.rtx.rto == c.rtx.rto && d.rtx.timer == c.rtx.timer && d.rtx.count == c.rtx.count
  {
    hide Add32, Sub32;
    if Sendable(c) > 0 {
      FlightGrows(c.snd.nxt, c.snd.una, Sendable(c));
    }
  }

  /** Each reading comes when the timer has expired. */
  ghost predicate Expiries(c: Connection, nows: seq<nat>, net: nat -> bool)
    decreases |nows|
  {
    nows != [] ==> nows[0] >= c.rtx.timer && Expiries(Step(c, Timers(nows[0], net)), nows[1..], net)
  }

  function TimerRuns(c: Connection, nows: seq<nat>, net: nat -> bool): Connection
    decreases |nows|
  {
    if nows == [] then c else TimerRuns(Step(c, Timers(nows[0], net)), nows[1..], net)
  }

  /** Without an answer the connection stays as it is through five expiries in all, with the
      timeout doubled each time up to its limit, and is given up at the sixth. */
  lemma {:induction false} GivesUp(c: Connection, nows: seq<nat>, net: nat -> bool)
    requires Unanswered(c) && Expiries(c, nows, net) && c.rtx.count <= 5 && |nows| <= 6 - c.rtx.count
    ensures var d := TimerRuns(c, nows, net);
      if |nows| == 6 - c.rtx.count then d == FRESH
      else
        && d.state == c.state && d.tx == c.tx && d.snd.una == c.snd.una
        && d.rtx.count == c.rtx.count + |nows| && d.rtx.rto == Backoff(c.rtx.rto, |nows|)
    decreases |nows|
  {
    hide Step, Unanswered;
    if nows != [] {
      Expiry(c, nows[0], net);
      if c.rtx.count < 5 {
        var d := Step(c, Timers(nows[0], net));
        GivesUp(d, nows[1..], net);
        if |nows| < 6 - c.rtx.count {
          BackoffFirst(c.rtx.rto, |nows|);
        }
      } else {
        assert nows[1..] == [];
      }
    }
  }

  lemma {:induction false} BackoffFirst(rto: nat, tries: nat)
    requires tries > 0
    ensures Backoff(rto, tries) == Backoff(Min(2 * rto, MAX_RTO), tries - 1)
  {
    if tries > 1 {
      BackoffFirst(rto, tries - 1);
    }
  }

  /** An open connection on which nothing was sent: the timer of the handshake is still set, and
      its expiry doubles the timeout although nothing is in flight. */
  lemma IdleBackoff()
    ensures var c := Run(EMPTY_SLOT, Accepting() + [Timers(INITIAL_RTO, AcceptsAll)]).tcb;
      c.state == Established && InFlight(c) == 0 && c.tx == [] && c.rtx.rto == 2 * INITIAL_RTO && c.rtx.timer == INITIAL_RTO
  {
    hide *;
    Opens();
    RunAppend(EMPTY_SLOT, Accepting(), Timers(INITIAL_RTO, AcceptsAll));
    IdleExpiry(Run(EMPTY_SLOT, Accepting()));
  }

  lemma IdleExpiry(w: Slot)
    requires TcpExamples.Accepted(w)
    ensures var c := Next(w, Timers(INITIAL_RTO, AcceptsAll)).tcb;
      c.state == Established && InFlight(c) == 0 && c.tx == [] && c.rtx.rto == 2 * INITIAL_RTO && c.rtx.timer == INITIAL_RTO
  {
    hide ProcessSegment;
  }

  // -------------------------------------------------------------------- TimeWait

  /** The event neither resets the connection nor takes its slot for a new one. */
  predicate LeavesAlone(e: Event) {
    !e.Socket? && (e.Arrival? ==> !e.seg.rst)
  }

  function LastTimers(events: seq<Event>): nat {
    if events == [] then 0
    else Max(if events[0].Timers? then events[0].now else 0, LastTimers(events[1..]))
  }

  lemma TimeWaitStep(w: Slot, e: Event)
    requires w.tcb.state == TimeWait && LeavesAlone(e)
    ensures var d := Next(w, e).tcb;
      if e.Timers? && e.now >= w.tcb.timeWaitTimer then d == FRESH
      else d.state == TimeWait && d.timeWaitTimer == w.tcb.timeWaitTimer
  {
    hide ProcessAck, ProcessData, SegmentInListen, SegmentInSynSent, SegmentInEstablished, SegmentInFinWait1, Establish;
  }

  /** A connection that enters TimeWait is there exactly until the first timer run 3000 ticks
      later or more, unless it is reset or its slot is taken. */
  lemma {:induction false} TimeWaitLasts(w: Slot, events: seq<Event>)
    requires w.tcb.state == TimeWait && forall i :: 0 <= i < |events| ==> LeavesAlone(events[i])
    requires w.tcb.timeWaitTimer > 0
    ensures LastTimers(events) < w.tcb.timeWaitTimer ==>
              Run(w, events).tcb.state == TimeWait && Run(w, events).tcb.timeWaitTimer == w.tcb.timeWaitTimer
    decreases |events|
  {
    hide Next;
    if events != [] {
      TimeWaitStep(w, events[0]);
      if LastTimers(events) < w.tcb.timeWaitTimer {
        TimeWaitLasts(Next(w, events[0]), events[1..]);
      }
    }
  }

  /** Entering TimeWait sets its end. */
  lemma EntersTimeWait(c: Connection, seg: Segment, now: nat, net: nat -> bool, iss: u32)
    requires c.state != TimeWait && Step(c, Arrival(seg, now, net, iss)).state == TimeWait
    ensures Step(c, Arrival(seg, now, net, iss)).timeWaitTimer == now + 3000
  {
    hide ProcessAck, ProcessData, SegmentInListen, SegmentInSynSent, SegmentInEstablished, Establish, Add32;
    if c.state in {Listen, SynSent} {
      HandshakeStays(c, seg, now, net, iss);
    }
  }

  lemma HandshakeStays(c: Connection, seg: Segment, now: nat, net: nat -> bool, iss: u32)
    requires c.state in {Listen, SynSent}
    ensures SegmentInListen(c, seg, now, net, iss).state in {c.state, SynReceived}
    ensures SegmentInSynSent(c, seg, now, net).state in {c.state, SynReceived, Established}
  {
    hide NewRtt, Add32;
  }

  // ------------------------------------------------------------ how much is sent

  /** A timer run of an open connection fills the flight up to the least of the buffered data,
      the peer's window, the congestion window and one more segment, if the network takes it. */
  lemma FillsTheWindow(c: Connection, now: nat, net: nat -> bool)
    requires |c.tx| >= InFlight(c) && net(|c.out|)
    ensures var d := SendPending(c, now, net);
      InFlight(d) == Max(InFlight(c), Min(Min(|c.tx|, Min(c.snd.wnd, c.cc.cwnd)), InFlight(c) + MSS))
  {
    hide Add32, Sub32;
    var n := Sendable(c);
    if n > 0 {
      FlightGrows(c.snd.nxt, c.snd.una, n);
    }
  }

  lemma FlightGrows(nxt: u32, una: u32, n: nat)
    requires Sub32(nxt, una) + n < TWO_32
    ensures Sub32(Add32(nxt, n), una) == Sub32(nxt, una) + n
  {
  }

  // ----------------------------------------------------------------- the estimate

  /** The first measurement is the estimate. Later ones draw it toward themselves, by an eighth of
      the difference rounded toward the smaller value, and never past themselves. */
  lemma EstimateMoves(r: Retransmission, now: nat)
    ensures var m := Max(now - r.lastSendTime, 0); var s := NewRtt(r, now).srtt;
      && (r.srtt == 0 ==> s == m)
      && (0 < r.srtt <= m ==> r.srtt <= s <= m && 8 * (s - r.srtt) <= m - r.srtt < 8 * (s - r.srtt) + 8)
      && (r.srtt > m ==> m <= s < r.srtt && 8 * (r.srtt - s) - 8 < r.srtt - m <= 8 * (r.srtt - s))
  {
  }

  /** The timeout covers the estimate and four times the deviation, within its limits. */
  lemma TimeoutCovers(r: Retransmission, now: nat)
    ensures var n := NewRtt(r, now);
      && MIN_RTO <= n.rto <= MAX_RTO
      && (MIN_RTO <= n.srtt + 4 * n.rttvar <= MAX_RTO ==> n.rto - n.srtt == 4 * n.rttvar)
  {
  }

  /** The deviation is drawn toward the last error, by a quarter of the difference. */
  lemma DeviationMoves(r: Retransmission, now: nat)
    requires r.srtt > 0
    ensures var m := Max(now - r.lastSendTime, 0); var error := Max(m - r.srtt, r.srtt - m); var v := NewRtt(r, now).rttvar;
      && (r.rttvar <= error ==> r.rttvar <= v <= error && 4 * (v - r.rttvar) <= error - r.rttvar < 4 * (v - r.rttvar) + 4)
      && (r.rttvar > error ==> error <= v < r.rttvar && 4 * (r.rttvar - v) - 4 < r.rttvar - error <= 4 * (r.rttvar - v))
  {
  }

  /** The estimate after so many measurements of the same duration. */
  function Steady(r: Retransmission, m: nat, times: nat): Retransmission {
    if times == 0 then r else NewRtt(Steady(r, m, times - 1), r.lastSendTime + m)
  }

  /** When the peer always takes the same time, the estimate settles on it, up to seven ticks
      below from rounding. */
  lemma {:induction false} EstimateSettles(r: Retransmission, m: nat, times: nat)
    requires r.srtt > 0
    ensures var s := Steady(r, m, times);
      && s.lastSendTime == r.lastSendTime
      && (r.srtt >= m ==> m <= s.srtt <= Max(m, r.srtt - times))
      && (r.srtt < m ==> r.srtt <= s.srtt <= m && Min(m - 7, r.srtt + times) <= s.srtt)
  {
    hide NewRtt;
    if times > 0 {
      EstimateSettles(r, m, times - 1);
      EstimateMoves(Steady(r, m, times - 1), r.lastSendTime + m);
      SameSendTime(Steady(r, m, times - 1), r.lastSendTime + m);
    }
  }

  lemma SameSendTime(r: Retransmission, now: nat)
    ensures NewRtt(r, now).lastSendTime == r.lastSendTime
  {
  }

  // -------------------------------------------------------- the congestion window

  /** The congestion state after so many acknowledgments of `acked` bytes each. */
  function Grown(cc: Congestion, acked: nat, times: nat): (d: Congestion)
    requires cc.cwnd > 0
    ensures d.cwnd > 0
  {
    if times == 0 then cc
    else
      var d := Grown(cc, acked, times - 1);
      d.(cwnd := GrownWindow(d, acked))
  }

  /** Below the threshold the window grows by what was acknowledged. */
  lemma {:induction false} SlowStart(cc: Congestion, acked: nat, times: nat)
    requires 0 < cc.cwnd && cc.cwnd + times * acked < TWO_32
    requires times > 0 ==> cc.cwnd + (times - 1) * acked < cc.ssthresh
    ensures Grown(cc, acked, times).cwnd == cc.cwnd + times * acked && Grown(cc, acked, times).ssthresh == cc.ssthresh
  {
    if times > 0 {
      assert (times - 1) * acked == times * acked - acked;
      assert times > 1 ==> (times - 2) * acked == (times - 1) * acked - acked;
      SlowStart(cc, acked, times - 1);
    }
  }

  lemma {:induction false} Avoidance(cc: Congestion, acked: nat, times: nat)
    requires 0 < cc.cwnd && cc.ssthresh <= cc.cwnd < TWO_32
    ensures var d := Grown(cc, acked, times);
      d.ssthresh == cc.ssthresh && cc.cwnd <= d.cwnd <= cc.cwnd + times * (MSS * MSS / cc.cwnd)
  {
    if times > 0 {
      Avoidance(cc, acked, times - 1);
      var d := Grown(cc, acked, times - 1);
      QuotientFalls(MSS * MSS, cc.cwnd, d.cwnd);
      assert times * (MSS * MSS / cc.cwnd) == (times - 1) * (MSS * MSS / cc.cwnd) + MSS * MSS / cc.cwnd;
    }
  }

  lemma Scales(k: nat, x: int, y: int)
    ensures x <= y ==> k * x <= k * y
  {
  }

  lemma QuotientFalls(n: nat, a: nat, b: nat)
    requires 0 < a <= b
    ensures n / b <= n / a
  {
    var p, q := n / a, n / b;
    assert n == a * p + n % a && n == b * q + n % b;
    assert a * (p + 1) == a * p + a;
    Scales(q, a, b);
    Scales(a, p + 1, q);
  }

  /** From the threshold on the window grows by at most one segment over as many
      acknowledgments as there are segments in it. */
  lemma OneSegmentPerWindow(cc: Congestion, acked: nat, times: nat)
    requires 0 < cc.cwnd && cc.ssthresh <= cc.cwnd < TWO_32 && times * MSS <= cc.cwnd
    ensures cc.cwnd <= Grown(cc, acked, times).cwnd <= cc.cwnd + MSS
  {
    hide Grown;
    Avoidance(cc, acked, times);
    ShareOfWindow(MSS, cc.cwnd, times);
  }

  lemma ShareOfWindow(m: nat, w: nat, times: nat)
    requires m > 0 && w > 0 && times * m <= w
    ensures times * (m * m / w) <= m
  {
    var q := m * m / w;
    assert m * m == w * q + m * m % w;
    Scales(q, times * m, w);
    assert q * (times * m) == m * (times * q);
    Scales(m, m + 1, times * q);
    assert m * (m + 1) == m * m + m;
  }

  /** A repeated acknowledgment sends something exactly at the third, counted modulo 256: the
      unacknowledged head, with the threshold at half the window. */
  lemma ThirdRepeats(c: Connection, now: nat)
    requires c.cc.dupAckCount < 256
    ensures var d := AckDuplicate(c, now);
      && (d.out != c.out <==> c.cc.dupAckCount == 2 && c.tx != [] && InFlight(c) > 0)
      && (c.cc.dupAckCount == 2 ==> d.cc.ssthresh == Max(c.cc.cwnd / 2, 2 * MSS) && d.cc.cwnd == d.cc.ssthresh + 3 * MSS)
      && (c.cc.dupAckCount != 2 ==> d.cc.ssthresh == c.cc.ssthresh)
  {
  }
}
