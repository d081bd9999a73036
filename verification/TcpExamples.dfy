/** Concrete runs that show where the closing protocol of src/net/tcp.rs falls short. */
module TcpExamples {
  import opened Options
  import opened Tcp
  import opened TcpRuns

  predicate AcceptsAll(k: nat) {
    true
  }

  const SYN: Segment := Segment(true, false, false, false, 100, 0, 0, [])
  const ACK: Segment := Segment(false, true, false, false, 101, 1, 0, [])

  /** A passive open by a peer that starts at 100 and offers no window, our numbers from 0. */
  function Accepting(): seq<Event> {
    [Socket, PassiveOpen, Arrival(SYN, 0, AcceptsAll, 0), Arrival(ACK, 0, AcceptsAll, 0)]
  }

  lemma {:induction false} RunAppend(w: Slot, events: seq<Event>, e: Event)
    ensures Run(w, events + [e]) == Next(Run(w, events), e)
    decreases |events|
  {
    hide Next;
    if events == [] {
      assert events + [e] == [e] && Run(Next(w, e), [e][1..]) == Next(w, e);
    } else {
      RunAppend(Next(w, events[0]), events[1..], e);
      assert (events + [e])[1..] == events[1..] + [e];
    }
  }

  lemma AfterSocket()
    ensures Next(EMPTY_SLOT, Socket) == EMPTY_SLOT.(tcb := FRESH.(inUse := true), life := 1)
  {
  }

  lemma AfterListen(w: Slot)
    requires w == EMPTY_SLOT.(tcb := FRESH.(inUse := true), life := 1)
    ensures Next(w, PassiveOpen) == w.(tcb := w.tcb.(state := Listen))
  {
    assert w.read + [] == w.read && w.written + [] == w.written;
  }

  /** The state between the SYN and the acknowledgment of ours. */
  predicate HalfOpen(w: Slot) {
    && w.tcb.state == SynReceived && w.tcb.inUse && w.tcb.snd == SendSpace(0, 1, 0, 0)
    && w.tcb.rcv == RecvSpace(101, RX_BUFFER_SIZE, 100) && w.tcb.tx == [] && w.tcb.rx == [] && w.tcb.cc == FRESH.cc
    && w.tcb.rtx == Retransmission(INITIAL_RTO, 0, 0, 0, INITIAL_RTO, 0) && w.tcb.ooo == FRESH.ooo
    && w == EMPTY_SLOT.(tcb := w.tcb, life := 1)
  }

  lemma AfterSyn(w: Slot)
    requires w == EMPTY_SLOT.(tcb := FRESH.(inUse := true, state := Listen), life := 1)
    ensures HalfOpen(Next(w, Arrival(SYN, 0, AcceptsAll, 0)))
  {
    hide ProcessAck, ProcessData, NewRtt;
  }

  /** The connection when it is open. */
  predicate Accepted(w: Slot) {
    && w.tcb.state == Established && w.tcb.inUse && w.tcb.snd == SendSpace(1, 1, 0, 0)
    && w.tcb.rcv == RecvSpace(101, RX_BUFFER_SIZE, 100) && w.tcb.tx == [] && w.tcb.rx == [] && w.tcb.cc == FRESH.cc
    && w.tcb.rtx == Retransmission(INITIAL_RTO, 0, 0, 0, INITIAL_RTO, 0) && w.tcb.ooo == FRESH.ooo
    && w == EMPTY_SLOT.(tcb := w.tcb, life := 1)
  }

  lemma AfterAck(w: Slot)
    requires HalfOpen(w)
    ensures Accepted(Next(w, Arrival(ACK, 0, AcceptsAll, 0)))
  {
    hide ProcessAck;
  }

  lemma Opens()
    ensures Accepted(Run(EMPTY_SLOT, Accepting()))
  {
    hide Next, HalfOpen, Accepted;
    var es := Accepting();
    AfterSocket();
    AfterListen(Next(EMPTY_SLOT, Socket));
    AfterSyn(Next(Next(EMPTY_SLOT, Socket), PassiveOpen));
    RunAppend(EMPTY_SLOT, [], es[0]);
    RunAppend(EMPTY_SLOT, [es[0]], es[1]);
    RunAppend(EMPTY_SLOT, [es[0], es[1]], es[2]);
    RunAppend(EMPTY_SLOT, [es[0], es[1], es[2]], es[3]);
    assert [] + [es[0]] == [es[0]] && [es[0]] + [es[1]] == [es[0], es[1]];
    assert [es[0], es[1]] + [es[2]] == [es[0], es[1], es[2]] && [es[0], es[1], es[2]] + [es[3]] == es;
    AfterAck(Run(EMPTY_SLOT, [es[0], es[1], es[2]]));
  }

  // ------------------------------------------------- data in place of the FIN

  lemma ClosesWithUnsent(w: Slot)
    requires Accepted(w)
    ensures var c := Next(Next(w, Writing([7])), Shutdown(0, AcceptsAll)).tcb;
      && c.state == FinWait1 && c.inUse && c.tx == [7] && c.snd == SendSpace(1, 2, 0, 0)
      && c.rtx.timer == INITIAL_RTO && c.rtx.count == 0
    ensures Next(Next(w, Writing([7])), Shutdown(0, AcceptsAll)).finSeq == Some(1)
  {
    hide ProcessSegment, ProcessTimers, Recv;
    assert Next(w, Writing([7])).tcb == w.tcb.(tx := [7]);
  }

  lemma TimeoutSends(w: Slot)
    requires w.tcb.state == FinWait1 && w.tcb.inUse && w.tcb.tx == [7] && w.tcb.snd == SendSpace(1, 2, 0, 0)
    requires w.tcb.rtx.timer == INITIAL_RTO && w.tcb.rtx.count == 0
    ensures var v := Next(w, Timers(INITIAL_RTO, AcceptsAll));
      && v.tcb.state == FinWait1 && v.finSeq == w.finSeq && |v.tcb.out| == |w.tcb.out| + 1
      && v.tcb.out[|w.tcb.out|].payload == [7] && v.tcb.out[|w.tcb.out|].seqNum == 1
  {
    hide ProcessSegment;
  }

  /** The single byte written, unsent at the close for lack of window, goes out under the
      sequence number of the FIN. */
  lemma FinOverwritten()
    ensures var es := Accepting() + [Writing([7])] + [Shutdown(0, AcceptsAll)] + [Timers(INITIAL_RTO, AcceptsAll)];
      var v := Run(EMPTY_SLOT, es);
      && v.tcb.state == FinWait1 && v.finSeq == Some(1) && v.tcb.out != []
      && v.tcb.out[|v.tcb.out| - 1].payload == [7] && v.tcb.out[|v.tcb.out| - 1].seqNum == 1
  {
    hide *;
    Opens();
    var es := Accepting();
    var w := Run(EMPTY_SLOT, es);
    RunAppend(EMPTY_SLOT, es, Writing([7]));
    RunAppend(EMPTY_SLOT, es + [Writing([7])], Shutdown(0, AcceptsAll));
    RunAppend(EMPTY_SLOT, es + [Writing([7])] + [Shutdown(0, AcceptsAll)], Timers(INITIAL_RTO, AcceptsAll));
    ClosesWithUnsent(w);
    TimeoutSends(Next(Next(w, Writing([7])), Shutdown(0, AcceptsAll)));
  }
}
