/** The receive window a connection offers, against the room it has. */
module TcpWindow {
  import opened Bytes
  import opened Tcp
  import opened TcpRuns
  import opened TcpExamples

  /** The window offered is at least the room in the receive ring. */
  predicate Offers(c: Tcb) {
    |c.rx| <= RX_BUFFER_SIZE && FreeSpace(c.rx) <= c.rcv.wnd <= RX_BUFFER_SIZE
  }

  /** Whether an arriving segment brings the data expected next to a connection that takes it. */
  predicate BringsNext(c: Tcb, seg: Segment) {
    && !seg.rst && seg.payload != [] && seg.seqNum == c.rcv.nxt && c.inUse
    && (c.state == Established || (c.state == SynReceived && seg.ack && seg.ackNum == c.snd.nxt))
  }

  /** Reading sets the window to the room there is. Data expected next sets it to the room left
      by that data, before early data is added. Otherwise window and room stay as they are. */
  lemma WindowStep(c: Connection, e: Event)
    requires Offers(c)
    ensures var d := Step(c, e);
      && Offers(d)
      && (e.Reading? && d.state != Closed ==> d.rcv.wnd == FreeSpace(d.rx))
      && (e.Arrival? && BringsNext(c, e.seg) ==>
            d.rcv.wnd == FreeSpace(c.rx) - Fits(c.rx, e.seg.payload)
            && (d.rcv.wnd == FreeSpace(d.rx) <==> |d.rx| == |c.rx| + Fits(c.rx, e.seg.payload)))
      && (!e.Reading? && !(e.Arrival? && BringsNext(c, e.seg)) ==>
            (d.rcv.wnd == c.rcv.wnd && d.rx == c.rx) || (d.rcv == FRESH.rcv && d.rx == []))
  {
    hide ProcessSegment, ProcessTimers, Retransmit, SendPending, Add32;
    match e
    case Arrival(seg, now, net, iss) =>
      if c.inUse {
        SegmentWindow(c, seg, now, net, iss);
      }
    case Timers(now, net) =>
      TimersWindow(c, now, net);
    case _ =>
      LocalWindow(c, e);
  }

  lemma SegmentWindow(c: Connection, seg: Segment, now: nat, net: nat -> bool, iss: u32)
    requires Offers(c) && c.inUse
    ensures var d := ProcessSegment(c, seg, now, net, iss);
      if BringsNext(c, seg) then
        d.rcv.wnd == FreeSpace(c.rx) - Fits(c.rx, seg.payload) && c.rx + seg.payload[..Fits(c.rx, seg.payload)] <= d.rx
        && |d.rx| <= RX_BUFFER_SIZE
      else (d.rcv.wnd == c.rcv.wnd && d.rx == c.rx) || (d.rcv == FRESH.rcv && d.rx == [])
  {
    hide ProcessAck, ProcessData, SegmentInListen, SegmentInSynSent, SegmentInEstablished, SegmentInFinWait1;
    hide Establish, TakeFin, FreeSpace, Fits, Add32;
    if !seg.rst && c.state == Established {
      EstablishedWindow(c, seg, now);
    } else if !seg.rst && c.state == SynReceived {
      DataWindow(Establish(c, seg, now), seg);
    } else {
      OtherWindow(c, seg, now, net, iss);
    }
  }

  lemma EstablishedWindow(c: Connection, seg: Segment, now: nat)
    requires c.state == Established
    ensures var d := SegmentInEstablished(c, seg, now);
      if seg.payload != [] && seg.seqNum == c.rcv.nxt then
        d.rcv.wnd == FreeSpace(c.rx) - Fits(c.rx, seg.payload) && c.rx + seg.payload[..Fits(c.rx, seg.payload)] <= d.rx
      else d.rcv.wnd == c.rcv.wnd && d.rx == c.rx
  {
    hide ProcessAck, ProcessData, Add32, FreeSpace, Fits;
    DataWindow(if seg.ack then ProcessAck(c, seg.ackNum, now) else c, seg);
  }

  lemma OtherWindow(c: Connection, seg: Segment, now: nat, net: nat -> bool, iss: u32)
    requires seg.rst || c.state !in {Established, SynReceived}
    ensures var d := ProcessSegment(c, seg, now, net, iss);
      (d.rcv.wnd == c.rcv.wnd && d.rx == c.rx) || (d.rcv == FRESH.rcv && d.rx == [])
  {
    hide ProcessAck, ProcessData, SegmentInListen, SegmentInSynSent, SegmentInEstablished, Establish, Add32;
    HandshakeWindow(c, seg, now, net, iss);
  }

  lemma HandshakeWindow(c: Tcb, seg: Segment, now: nat, net: nat -> bool, iss: u32)
    ensures SegmentInListen(c, seg, now, net, iss).rcv.wnd == c.rcv.wnd
    ensures SegmentInSynSent(c, seg, now, net).rcv.wnd == c.rcv.wnd
  {
    hide NewRtt, Add32;
  }

  lemma DataWindow(c: Tcb, seg: Segment)
    requires |c.rx| <= RX_BUFFER_SIZE
    ensures var d := ProcessData(c, seg);
      if seg.payload != [] && seg.seqNum == c.rcv.nxt then
        d.rcv.wnd == FreeSpace(c.rx) - Fits(c.rx, seg.payload) && c.rx + seg.payload[..Fits(c.rx, seg.payload)] <= d.rx
      else d.rcv.wnd == c.rcv.wnd && d.rx == c.rx
  {
    hide DeliverOoo, BufferOoo, SeqAfter, Add32;
    if seg.payload != [] && seg.seqNum == c.rcv.nxt {
      EarlyKeepsWindow(UpdateRcvWnd(Deliver(c, seg.payload).(hasData := true)));
    }
  }

  lemma {:induction false} EarlyKeepsWindow(c: Tcb)
    requires |c.rx| <= RX_BUFFER_SIZE
    ensures DeliverOoo(c).rcv.wnd == c.rcv.wnd
    decreases ValidCount(c.ooo)
  {
    hide Add32;
    var i := FindInOrder(c.ooo, c.rcv.nxt);
    if i < |c.ooo| {
      DropLowersValidCount(c.ooo, i);
      EarlyKeepsWindow(Drop(Deliver(c, c.ooo[i].data), i));
    }
  }

  lemma TimersWindow(c: Connection, now: nat, net: nat -> bool)
    ensures var d := ProcessTimers(c, now, net); (d.rcv == c.rcv && d.rx == c.rx) || d == FRESH
  {
    hide Retransmit, SendPending;
  }

  lemma LocalWindow(c: Connection, e: Event)
    requires e.Socket? || e.ActiveOpen? || e.PassiveOpen? || e.Reading? || e.Writing? || e.Shutdown?
    requires Offers(c)
    ensures var d := StepRaw(c, e);
      && (e.Reading? && d.state != Closed ==> d.rcv.wnd == FreeSpace(d.rx) && |d.rx| <= |c.rx|)
      && (!e.Reading? || d.state == Closed ==> (d.rcv.wnd == c.rcv.wnd && d.rx == c.rx) || (d.rcv == FRESH.rcv && d.rx == []))
  {
    hide Add32, ProcessSegment, ProcessTimers;
  }

  /** In every run the window offered covers the room there is. */
  lemma {:induction false} RoomIsOffered(w: Slot, events: seq<Event>)
    requires Offers(w.tcb)
    ensures Offers(Run(w, events).tcb)
    decreases |events|
  {
    hide Step, Offers;
    if events != [] {
      WindowStep(w.tcb, events[0]);
      RoomIsOffered(Next(w, events[0]), events[1..]);
    }
  }

  const EARLY: Segment := Segment(false, false, false, false, 102, 0, 0, [8])
  const DUE: Segment := Segment(false, false, false, false, 101, 0, 0, [7])

  /** Two bytes in the wrong order: one byte more is offered than there is room for. */
  lemma OffersTooMuch()
    ensures var es := Accepting() + [Arrival(EARLY, 0, AcceptsAll, 0)] + [Arrival(DUE, 0, AcceptsAll, 0)];
      var c := Run(EMPTY_SLOT, es).tcb;
      c.rx == [7, 8] && FreeSpace(c.rx) == 1022 && c.rcv.wnd == 1023 && c.out != [] && c.out[|c.out| - 1].window == 1023
  {
    hide *;
    Opens();
    var es, early, due := Accepting(), Arrival(EARLY, 0, AcceptsAll, 0), Arrival(DUE, 0, AcceptsAll, 0);
    RunAppend(EMPTY_SLOT, es, early);
    RunAppend(EMPTY_SLOT, es + [early], due);
    AfterEarly(Run(EMPTY_SLOT, es));
    AfterDue(Run(EMPTY_SLOT, es + [early]));
  }

  predicate HoldsEarly(c: Connection) {
    && c.inUse && c.state == Established && c.rcv == RecvSpace(101, RX_BUFFER_SIZE, 100) && c.rx == []
    && c.ooo == [OooSegment(102, [8], true), OooSegment(0, [], false)]
  }

  lemma AfterEarly(w: Slot)
    requires TcpExamples.Accepted(w)
    ensures HoldsEarly(Next(w, Arrival(EARLY, 0, AcceptsAll, 0)).tcb)
  {
    hide ProcessAck;
    var d := BufferOoo(w.tcb, 102, [8]);
    assert FindFree(w.tcb.ooo) == 0 && [8 as byte][..1] == [8];
    assert d.ooo == [OooSegment(102, [8], true), OooSegment(0, [], false)];
    assert ProcessData(w.tcb, EARLY) == Emit(d, false, true, false);
  }

  lemma AfterDue(w: Slot)
    requires HoldsEarly(w.tcb)
    ensures var c := Next(w, Arrival(DUE, 0, AcceptsAll, 0)).tcb;
      c.rx == [7, 8] && FreeSpace(c.rx) == 1022 && c.rcv.wnd == 1023 && c.out != [] && c.out[|c.out| - 1].window == 1023
  {
    hide ProcessAck, TakeInOrder;
    TakesBoth(w.tcb);
  }

  lemma TakesBoth(c: Connection)
    requires HoldsEarly(c)
    ensures var d := TakeInOrder(c, [7]); d.rx == [7, 8] && d.rcv.wnd == 1023
  {
    hide DeliverOoo;
    var d := UpdateRcvWnd(Deliver(c, [7]).(hasData := true));
    assert d.rcv.nxt == 102 && d.rx == [7];
    OneEarly(d);
  }

  lemma OneEarly(c: Tcb)
    requires c.rx == [7] && c.rcv.nxt == 102 && c.ooo == [OooSegment(102, [8], true), OooSegment(0, [], false)]
    ensures DeliverOoo(c).rx == [7, 8] && DeliverOoo(c).rcv.wnd == c.rcv.wnd
  {
    EarlyKeepsWindow(c);
    assert FindInOrder(c.ooo, 102) == 0;
    var d := Drop(Deliver(c, [8]), 0);
    assert !d.ooo[0].valid && !d.ooo[1].valid;
    assert FindInOrder(d.ooo, d.rcv.nxt) == 2;
    assert DeliverOoo(d) == d;
  }
}
