/** What the end of a received stream means. The peer's FIN is taken whatever its sequence
    number, so the end that `recv` reports need not be the end of what the peer sent. */
module TcpEndOfStream {
  import opened Bytes
  import opened Tcp
  import opened TcpReceive
  import opened TcpRuns
  import opened TcpSafety
  import opened TcpExamples

  /** The peer's FIN follows the last byte of its stream. */
  predicate FinAgrees(c: Connection, e: Event, stream: seq<byte>) {
    e.Arrival? && e.seg.fin && c.state in {Established, FinWait1, FinWait2} ==>
      Add32(e.seg.seqNum, |e.seg.payload|) == Add32(c.rcv.irs, 1 + |stream|)
  }

  ghost predicate FinsAgree(w: Slot, events: seq<Event>, peers: nat -> seq<byte>)
    decreases |events|
  {
    events != [] ==> FinAgrees(w.tcb, events[0], peers(w.life)) && FinsAgree(Next(w, events[0]), events[1..], peers)
  }

  predicate EndInv(w: Slot, stream: seq<byte>) {
    FinTaken(w.tcb.state) ==> (w.read + w.tcb.rx == stream <==> w.finInOrder)
  }

  /** A FIN is taken only from an arriving segment that carries one. */
  lemma TakesFin(c: Connection, e: Event)
    requires !FinTaken(c.state) && FinTaken(Step(c, e).state)
    ensures e.Arrival? && e.seg.fin && c.state in {Established, FinWait1, FinWait2}
    ensures Step(c, e).rcv.irs == c.rcv.irs
  {
    hide ProcessSegment, ProcessTimers, Allocate, Connect, StartListening, Recv, Send, Close;
    if e.Arrival? {
      SegmentTakesFin(c, e.seg, e.now, e.net, e.iss);
    } else {
      LocalTakesNoFin(c, e);
    }
  }

  lemma SegmentTakesFin(c: Connection, seg: Segment, now: nat, net: nat -> bool, iss: u32)
    requires !FinTaken(c.state) && FinTaken(ProcessSegment(c, seg, now, net, iss).state)
    ensures seg.fin && c.state in {Established, FinWait1, FinWait2}
    ensures ProcessSegment(c, seg, now, net, iss).rcv.irs == c.rcv.irs
  {
    hide ProcessAck, ProcessData, NewRtt, Add32;
  }

  lemma LocalTakesNoFin(c: Connection, e: Event)
    requires !e.Arrival?
    ensures FinTaken(Step(c, e).state) ==> FinTaken(c.state)
  {
    hide ProcessSegment, Retransmit, SendPending, Add32;
  }

  /** After the FIN only reading moves data. */
  lemma FinTakenFrame(c: Connection, e: Event)
    requires FinTaken(c.state) && Step(c, e).state != Closed
    ensures !e.Reading? ==> Step(c, e).rx == c.rx
    ensures e.Reading? ==> RecvBytes(c, e.count) + Step(c, e).rx == c.rx
  {
    hide Retransmit, SendPending, ProcessAck, ProcessData, NewRtt, Add32;
  }

  // ------------------------------------------- what the last segment delivers

  /** A full ring takes nothing, whatever early segments are due. */
  lemma {:induction false} FullTakesNothing(c: Tcb)
    requires |c.rx| == RX_BUFFER_SIZE
    ensures DeliverOoo(c).rx == c.rx
    decreases ValidCount(c.ooo)
  {
    hide Add32;
    var i := FindInOrder(c.ooo, c.rcv.nxt);
    if i < |c.ooo| {
      DropLowersValidCount(c.ooo, i);
      var d := Drop(Deliver(c, c.ooo[i].data), i);
      assert d.rx == c.rx + [] == c.rx;
      FullTakesNothing(d);
    }
  }

  /** The segment that ends the stream: early segments add nothing to what it delivers itself,
      because the ring is full or the stream complete. */
  lemma LastDataTaken(c: Tcb, data: seq<byte>, read: seq<byte>, stream: seq<byte>)
    requires |stream| < TWO_32 - 2 && |c.rx| <= RX_BUFFER_SIZE && !FinTaken(c.state)
    requires Prefix(c, read, stream) && OooCarry(c, stream) && Carries(stream, c.rcv.irs, c.rcv.nxt, data)
    requires Add32(c.rcv.nxt, |data|) == Add32(c.rcv.irs, 1 + |stream|)
    ensures |TakeInOrder(c, data).rx| == |c.rx| + Fits(c.rx, data)
  {
    hide Add32, DeliverOoo, OooCarry;
    var d := UpdateRcvWnd(Deliver(c, data).(hasData := true));
    if Fits(c.rx, data) < |data| {
      FullTakesNothing(d);
    } else {
      TakeInOrderKeeps(c, data, read, stream);
      LastDataEnds(c, data, read, stream);
      assert |read + d.rx| == |stream|;
    }
  }

  lemma LastDataEnds(c: Tcb, data: seq<byte>, read: seq<byte>, stream: seq<byte>)
    requires |stream| < TWO_32 - 2 && !FinTaken(c.state) && Prefix(c, read, stream)
    requires Carries(stream, c.rcv.irs, c.rcv.nxt, data)
    requires Add32(c.rcv.nxt, |data|) == Add32(c.rcv.irs, 1 + |stream|)
    ensures |read + c.rx| + |data| == |stream|
  {
    hide Add32;
    var off: nat :| CarriesAt(stream, c.rcv.irs, c.rcv.nxt, data, off);
    var m := |read + c.rx|;
    Add32Injective(c.rcv.irs, 1 + off, 1 + m);
    Add32OfAdd32(c.rcv.irs, 1 + m, |data|);
    Add32Injective(c.rcv.irs, 1 + m + |data|, 1 + |stream|);
  }

  /** A segment whose FIN is taken adds exactly what `Takes` says to the ring. */
  lemma TakesExactly(c: Connection, e: Event, read: seq<byte>, stream: seq<byte>)
    requires |stream| < TWO_32 - 2 && RecvInv(c, read, stream)
    requires Agrees(c, e, stream) && FinAgrees(c, e, stream)
    requires !FinTaken(c.state) && FinTaken(Step(c, e).state)
    ensures e.Arrival? && |Step(c, e).rx| == |c.rx| + Takes(c, e.seg)
  {
    hide Step, Add32, Carries, Prefix, OooCarry;
    TakesFin(c, e);
    if c.state == Established {
      EstablishedTakes(c, e, read, stream);
    } else {
      ClosingTakesNothing(c, e);
    }
  }

  lemma ClosingTakesNothing(c: Connection, e: Event)
    requires e.Arrival? && c.state in {FinWait1, FinWait2} && FinTaken(Step(c, e).state)
    ensures Step(c, e).rx == c.rx
  {
    hide ProcessAck, ProcessData, Add32;
  }

  lemma EstablishedTakes(c: Connection, e: Event, read: seq<byte>, stream: seq<byte>)
    requires |stream| < TWO_32 - 2 && RecvInv(c, read, stream)
    requires Agrees(c, e, stream) && FinAgrees(c, e, stream)
    requires e.Arrival? && e.seg.fin && c.state == Established && FinTaken(Step(c, e).state)
    ensures |Step(c, e).rx| == |c.rx| + Takes(c, e.seg)
  {
    hide ProcessAck, ProcessData, Add32, Carries, Fits;
    var c1 := if e.seg.ack then ProcessAck(c, e.seg.ackNum, e.now) else c;
    assert Step(c, e).rx == ProcessData(c1, e.seg).rx;
    DataTakes(c1, e.seg, read, stream);
  }

  lemma DataTakes(c: Tcb, seg: Segment, read: seq<byte>, stream: seq<byte>)
    requires |stream| < TWO_32 - 2 && |c.rx| <= RX_BUFFER_SIZE && c.state == Established
    requires Prefix(c, read, stream) && OooCarry(c, stream)
    requires seg.payload != [] ==> Carries(stream, c.rcv.irs, seg.seqNum, seg.payload)
    requires Add32(seg.seqNum, |seg.payload|) == Add32(c.rcv.irs, 1 + |stream|)
    ensures |ProcessData(c, seg).rx| == |c.rx| + Takes(c, seg)
  {
    hide TakeInOrder, BufferOoo, Add32, Carries, OooCarry, Prefix, Fits;
    if seg.payload != [] && seg.seqNum == c.rcv.nxt {
      LastDataTaken(c, seg.payload, read, stream);
    }
  }

  /** When the FIN is taken, nothing of the stream is missing exactly when it came at the
      number after the data taken. */
  lemma FinCompletes(w: Slot, e: Event, stream: seq<byte>)
    requires |stream| < TWO_32 - 2 && RecvInv(w.tcb, w.read, stream)
    requires Agrees(w.tcb, e, stream) && FinAgrees(w.tcb, e, stream)
    requires !FinTaken(w.tcb.state) && FinTaken(Step(w.tcb, e).state)
    ensures var v := Next(w, e); v.read + v.tcb.rx == stream <==> v.finInOrder
  {
    hide Step, RecvInv, Agrees, Add32, RecvBytes, SendBytes, Takes;
    var c, v := w.tcb, Next(w, e);
    StepKeepsReceive(w, e, stream);
    TakesFin(c, e);
    TakesExactly(c, e, w.read, stream);
    TakenPrefix(v, stream);
    SyncedPrefix(w, stream);
    var m := |w.read + c.rx|;
    assert w.read + [] == w.read && v.read == w.read;
    assert |v.read + v.tcb.rx| == m + Takes(c, e.seg);
    Add32OfAdd32(c.rcv.irs, 1 + m, Takes(c, e.seg));
    if v.finInOrder {
      Add32Injective(c.rcv.irs, 1 + m + Takes(c, e.seg), 1 + |stream|);
    }
  }

  lemma SyncedPrefix(w: Slot, stream: seq<byte>)
    requires RecvInv(w.tcb, w.read, stream) && !FinTaken(w.tcb.state)
    requires w.tcb.state in {Established, FinWait1, FinWait2}
    ensures w.read + w.tcb.rx <= stream && w.tcb.rcv.nxt == Add32(w.tcb.rcv.irs, 1 + |w.read + w.tcb.rx|)
  {
    hide Add32;
  }

  /** The ways in which a FIN can come too soon when its segment starts at the next expected
      number: it has payload, and that does not fit or the connection is closing. */
  lemma InOrderFin(c: Connection, seg: Segment)
    requires seg.seqNum == c.rcv.nxt && |seg.payload| < TWO_32
    ensures FinAtNext(c, seg) <==>
            seg.payload == [] || (c.state == Established && |seg.payload| <= FreeSpace(c.rx))
  {
    hide Add32;
    if FinAtNext(c, seg) {
      Add32Injective(c.rcv.nxt, |seg.payload|, Takes(c, seg));
    }
  }

  lemma StepKeepsEnd(w: Slot, e: Event, stream: seq<byte>)
    requires |stream| < TWO_32 - 2 && RecvInv(w.tcb, w.read, stream) && EndInv(w, stream)
    requires Agrees(w.tcb, e, stream) && FinAgrees(w.tcb, e, stream)
    ensures EndInv(Next(w, e), stream)
  {
    hide Step, RecvInv, Agrees, FinAgrees, FinAtNext, RecvBytes, SendBytes;
    var c, v := w.tcb, Next(w, e);
    if FinTaken(v.tcb.state) {
      if FinTaken(c.state) {
        FinTakenFrame(c, e);
        assert w.read + [] == w.read;
        if e.Reading? {
          var got := RecvBytes(c, e.count);
          assert w.read + got + v.tcb.rx == w.read + (got + v.tcb.rx);
        }
      } else {
        FinCompletes(w, e, stream);
      }
    }
  }

  lemma TakenPrefix(w: Slot, stream: seq<byte>)
    requires RecvInv(w.tcb, w.read, stream) && FinTaken(w.tcb.state)
    ensures w.read + w.tcb.rx <= stream
  {
    hide Add32;
  }

  lemma {:induction false} RunKeepsEnd(w: Slot, events: seq<Event>, peers: nat -> seq<byte>)
    requires forall k :: |peers(k)| < TWO_32 - 2
    requires RecvInv(w.tcb, w.read, peers(w.life)) && AllAgree(w, events, peers)
    requires EndInv(w, peers(w.life)) && FinsAgree(w, events, peers)
    ensures var v := Run(w, events); EndInv(v, peers(v.life))
    decreases |events|
  {
    hide Step, Agrees, FinAgrees, RecvInv;
    if events != [] {
      var e := events[0];
      StepKeepsEnd(w, e, peers(w.life));
      StepKeepsReceive(w, e, peers(w.life));
      NextLife(w, e, peers);
      RunKeepsEnd(Next(w, e), events[1..], peers);
    }
  }

  /** In every run, once the peer's FIN has been taken, what was and will be read is the peer's
      whole stream if and only if, before the segment with the FIN was processed, the FIN stood
      right after the data that the segment and the room in the ring allowed to be taken. */
  lemma WholeStreamRead(events: seq<Event>, peers: nat -> seq<byte>)
    requires forall k :: |peers(k)| < TWO_32 - 2
    requires AllAgree(EMPTY_SLOT, events, peers) && FinsAgree(EMPTY_SLOT, events, peers)
    ensures var v := Run(EMPTY_SLOT, events);
      FinTaken(v.tcb.state) ==> (v.read + v.tcb.rx == peers(v.life) <==> v.finInOrder)
  {
    hide Run, RecvInv;
    FreshReceive(FRESH, peers(0));
    RunKeepsEnd(EMPTY_SLOT, events, peers);
  }

  // ------------------------------------------------------------- an example

  const EARLY_FIN: Segment := Segment(false, false, true, false, 102, 0, 0, [])

  /** A peer sends one byte, which is lost, and its FIN: the connection waits for the close
      with nothing read, nothing to read and the end of the stream reported. */
  lemma FinTooSoon()
    ensures var es := Accepting() + [Arrival(EARLY_FIN, 0, AcceptsAll, 0)];
      var v := Run(EMPTY_SLOT, es);
      && AllAgree(EMPTY_SLOT, es, OneByte) && FinsAgree(EMPTY_SLOT, es, OneByte)
      && v.tcb.state == CloseWait && v.tcb.remoteClosed && v.read + v.tcb.rx == [] && !v.finInOrder
  {
    hide *;
    var e := Arrival(EARLY_FIN, 0, AcceptsAll, 0);
    Opens();
    RunAppend(EMPTY_SLOT, Accepting(), e);
    AfterEarlyFin(Run(EMPTY_SLOT, Accepting()));
    AcceptingIsBare();
    BareAgrees(EMPTY_SLOT, Accepting(), e, OneByte);
    FinsAgreeAppend(EMPTY_SLOT, Accepting(), e, OneByte);
  }

  function OneByte(life: nat): seq<byte> {
    [9]
  }

  /** No segment carries payload, and none of these a FIN. */
  predicate Bare(events: seq<Event>) {
    forall i :: 0 <= i < |events| && events[i].Arrival? ==> events[i].seg.payload == [] && !events[i].seg.fin
  }

  lemma AcceptingIsBare()
    ensures Bare(Accepting()) && EARLY_FIN.payload == []
  {
  }

  lemma {:induction false} BareAgrees(w: Slot, events: seq<Event>, e: Event, peers: nat -> seq<byte>)
    requires Bare(events) && e.Arrival? && e.seg.payload == []
    ensures AllAgree(w, events + [e], peers)
    decreases |events|
  {
    hide Next, Carries;
    if events == [] {
      assert events + [e] == [e] && AllAgree(Next(w, e), [e][1..], peers);
    } else {
      BareAgrees(Next(w, events[0]), events[1..], e, peers);
      assert (events + [e])[1..] == events[1..] + [e];
    }
  }

  lemma {:induction false} FinsAgreeAppend(w: Slot, events: seq<Event>, e: Event, peers: nat -> seq<byte>)
    requires Bare(events) && FinAgrees(Run(w, events).tcb, e, peers(Run(w, events).life))
    ensures FinsAgree(w, events + [e], peers)
    decreases |events|
  {
    hide Next;
    if events == [] {
      assert events + [e] == [e] && FinsAgree(Next(w, e), [e][1..], peers);
    } else {
      FinsAgreeAppend(Next(w, events[0]), events[1..], e, peers);
      assert (events + [e])[1..] == events[1..] + [e];
    }
  }

  lemma AfterEarlyFin(w: Slot)
    requires TcpExamples.Accepted(w)
    ensures var e := Arrival(EARLY_FIN, 0, AcceptsAll, 0); var v := Next(w, e);
      && FinAgrees(w.tcb, e, OneByte(w.life))
      && v.tcb.state == CloseWait && v.tcb.remoteClosed && v.read + v.tcb.rx == [] && !v.finInOrder
  {
    hide ProcessAck;
  }
}
