/** The control block of src/net/tcp.rs as it is: fields, two rings and the early-segment
    buffer updated in place, each method proved to do what its function in Tcp says. */
module TcpBlock {
  import opened Bytes
  import opened RingBuffers
  import T = Tcp

  class TcpControlBlock {
    var state: T.State
    var snd: T.SendSpace
    var rcv: T.RecvSpace
    var rtx: T.Retransmission
    var cc: T.Congestion
    const ooo: array<T.OooSegment>
    const rx: RingBuffer
    const tx: RingBuffer
    var timeWaitTimer: nat
    var inUse: bool
    var hasData: bool
    var remoteClosed: bool
    /** What has been handed to the network layer. */
    var out: seq<T.Sent>

    ghost predicate Valid()
      reads this, rx, tx
    {
      && rx != tx && rx.data != tx.data
      && ooo.Length == T.OOO_BUFFER_SIZE
      && rx.Valid() && tx.Valid()
    }

    /** The control block as a value. */
    ghost function View(): (c: T.Tcb)
      requires Valid()
      reads this, rx, rx.data, tx, tx.data, ooo
      ensures |c.rx| <= T.RX_BUFFER_SIZE && |c.tx| <= T.RX_BUFFER_SIZE && |c.ooo| == T.OOO_BUFFER_SIZE
    {
      T.Tcb(state, snd, rcv, rtx, cc, ooo[..], rx.Contents(), tx.Contents(),
            timeWaitTimer, inUse, hasData, remoteClosed, out)
    }

    constructor ()
      ensures Valid() && View() == T.FRESH
      ensures fresh(ooo) && fresh(rx) && fresh(rx.data) && fresh(tx) && fresh(tx.data)
    {
      state := T.Closed;
      snd := T.SendSpace(0, 0, 0, 0);
      rcv := T.RecvSpace(0, T.RX_BUFFER_SIZE, 0);
      rtx := T.Retransmission(T.INITIAL_RTO, 0, 0, 0, 0, 0);
      cc := T.Congestion(T.MSS, 65535, 0, 0);
      ooo := new T.OooSegment[T.OOO_BUFFER_SIZE](_ => T.OooSegment(0, [], false));
      rx := new RingBuffer();
      tx := new RingBuffer();
      timeWaitTimer, inUse, hasData, remoteClosed, out := 0, false, false, false, [];
    }

    method Reset()
      requires Valid()
      modifies this, rx, tx, ooo
      ensures Valid() && View() == T.FRESH
    {
      hide RingBuffer.Contents, RingBuffer.Valid;
      state := T.Closed;
      snd := T.SendSpace(0, 0, 0, 0);
      rcv := T.RecvSpace(0, T.RX_BUFFER_SIZE, 0);
      rtx := T.Retransmission(T.INITIAL_RTO, 0, 0, 0, 0, 0);
      cc := T.Congestion(T.MSS, 65535, 0, 0);
      timeWaitTimer, inUse, hasData, remoteClosed, out := 0, false, false, false, [];
      ClearBuffers();
    }

    method ClearBuffers()
      requires Valid()
      modifies rx, tx, ooo
      ensures Valid() && View() == old(View()).(rx := [], tx := [], ooo := T.FRESH.ooo)
    {
      hide RingBuffer.Contents, RingBuffer.Valid;
      ooo[0], ooo[1] := T.OooSegment(0, [], false), T.OooSegment(0, [], false);
      rx.Clear();
      tx.Clear();
      assert ooo[..] == T.FRESH.ooo;
    }

    method SendSegment(syn: bool, ack: bool, fin: bool, net: nat -> bool) returns (sent: bool)
      requires Valid()
      modifies this`out
      ensures Valid() && View() == T.Emit(old(View()), syn, ack, fin)
      ensures sent == T.Accepted(old(View()), net)
    {
      sent := net(|out|);
      out := out + [T.Sent(syn, ack, fin, snd.nxt, rcv.nxt, rcv.wnd, [])];
    }

    method SendSegmentSeq(seqNum: u32, payload: seq<byte>, net: nat -> bool) returns (sent: bool)
      requires Valid()
      modifies this`out
      ensures Valid() && View() == T.EmitData(old(View()), seqNum, payload)
      ensures sent == T.Accepted(old(View()), net)
    {
      sent := net(|out|);
      out := out + [T.Sent(false, true, false, seqNum, rcv.nxt, rcv.wnd, payload)];
    }

    method UpdateRtt(now: nat)
      modifies this`rtx
      ensures rtx == T.NewRtt(old(rtx), now)
    {
      var measured: nat := if now > rtx.lastSendTime then now - rtx.lastSendTime else 0;
      if rtx.srtt == 0 {
        rtx := rtx.(srtt := measured, rttvar := measured / 2);
      } else {
        var diff := if measured > rtx.srtt then measured - rtx.srtt else rtx.srtt - measured;
        rtx := rtx.(rttvar := (3 * rtx.rttvar + diff) / 4, srtt := (7 * rtx.srtt + measured) / 8);
      }
      rtx := rtx.(rto := rtx.srtt + 4 * rtx.rttvar);
      rtx := rtx.(rto := Max(rtx.rto, T.MIN_RTO));
      rtx := rtx.(rto := Min(rtx.rto, T.MAX_RTO));
    }

    method Retransmit(now: nat, net: nat -> bool)
      requires Valid()
      modifies this`rtx, this`out
      ensures Valid() && View() == T.Retransmit(old(View()), now)
    {
      var inFlight := Sub32(snd.nxt, snd.una);
      if inFlight == 0 {
        return;
      }
      var unacked := Min(tx.len, inFlight);
      if unacked == 0 {
        return;
      }
      var toSend := Min(unacked, T.MSS);
      var data := tx.PeekOffset(0, toSend);
      var _ := SendSegmentSeq(snd.una, data, net);
      rtx := rtx.(timer := now + rtx.rto, count := (rtx.count + 1) % 256);
    }

    method ProcessAck(ack: u32, now: nat, net: nat -> bool)
      requires Valid() && cc.cwnd > 0
      modifies this, tx
      ensures Valid() && View() == T.ProcessAck(old(View()), ack, now)
    {
      hide RingBuffer.Contents, RingBuffer.Valid, T.AckNewData, T.AckDuplicate, Sub32;
      if SeqAfter(ack, snd.una) && !SeqAfter(ack, snd.nxt) {
        AckNewData(ack, now);
      } else if ack == cc.lastAck {
        AckDuplicate(now, net);
      }
    }

    method AckNewData(ack: u32, now: nat)
      requires Valid() && cc.cwnd > 0
      modifies this`snd, this`rtx, this`cc, tx
      ensures Valid() && View() == T.AckNewData(old(View()), ack, now)
    {
      hide RingBuffer.Contents, RingBuffer.Valid, T.NewRtt, T.GrownWindow, Sub32;
      var bytesAcked := Sub32(ack, snd.una);
      snd := snd.(una := ack);
      tx.Consume(bytesAcked);
      UpdateRtt(now);
      GrowWindow(bytesAcked);
      cc := cc.(dupAckCount := 0, lastAck := ack);
      RestartTimer(now);
    }

    /** Runs the timer for what is still in flight, or stops it. */
    method RestartTimer(now: nat)
      modifies this`rtx
      ensures rtx == if snd.una != snd.nxt then old(rtx).(timer := now + old(rtx).rto)
                     else old(rtx).(timer := 0, count := 0)
    {
      if snd.una != snd.nxt {
        rtx := rtx.(timer := now + rtx.rto);
      } else {
        rtx := rtx.(timer := 0, count := 0);
      }
    }

    method GrowWindow(bytesAcked: nat)
      requires cc.cwnd > 0
      modifies this`cc
      ensures cc == old(cc).(cwnd := T.GrownWindow(old(cc), bytesAcked))
    {
      if cc.cwnd < cc.ssthresh {
        cc := cc.(cwnd := SatAdd32(cc.cwnd, bytesAcked));
      } else {
        cc := cc.(cwnd := SatAdd32(cc.cwnd, T.MSS * T.MSS / cc.cwnd));
      }
    }

    method AckDuplicate(now: nat, net: nat -> bool)
      requires Valid()
      modifies this`cc, this`rtx, this`out
      ensures Valid() && View() == T.AckDuplicate(old(View()), now)
    {
      hide RingBuffer.Contents, RingBuffer.Valid, T.Retransmit;
      cc := cc.(dupAckCount := (cc.dupAckCount + 1) % 256);
      if cc.dupAckCount == 3 {
        cc := cc.(ssthresh := Max(cc.cwnd / 2, 2 * T.MSS));
        cc := cc.(cwnd := cc.ssthresh + 3 * T.MSS);
        Retransmit(now, net);
      } else if cc.dupAckCount > 3 {
        cc := cc.(cwnd := SatAdd32(cc.cwnd, T.MSS));
      }
    }

    method SendPendingData(now: nat, net: nat -> bool)
      requires Valid()
      modifies this`snd, this`rtx, this`out
      ensures Valid() && View() == T.SendPending(old(View()), now, net)
    {
      hide RingBuffer.Contents, RingBuffer.Valid, Sub32, Add32;
      var totalBuffered := tx.len;
      if totalBuffered == 0 {
        return;
      }
      var flightSize := Sub32(snd.nxt, snd.una);
      var window := Min(snd.wnd, cc.cwnd);
      var canSend := Max(window - flightSize, 0);
      if canSend == 0 {
        return;
      }
      var unsent := Max(totalBuffered - flightSize, 0);
      if unsent == 0 {
        return;
      }
      var toSend := Min(Min(unsent, canSend), T.MSS);
      var data := tx.PeekOffset(flightSize, toSend);
      var sent := SendSegmentSeq(snd.nxt, data, net);
      if sent {
        MarkSent(toSend, now);
      }
    }

    /** Moves past bytes just sent and starts the timer if none is running. */
    method MarkSent(count: nat, now: nat)
      modifies this`snd, this`rtx
      ensures snd == old(snd).(nxt := Add32(old(snd).nxt, count))
      ensures rtx == old(rtx).(lastSendTime := now,
                               timer := if old(rtx).timer == 0 then now + old(rtx).rto else old(rtx).timer)
    {
      snd := snd.(nxt := Add32(snd.nxt, count));
      rtx := rtx.(lastSendTime := now);
      if rtx.timer == 0 {
        rtx := rtx.(timer := now + rtx.rto);
      }
    }

    method UpdateRcvWnd()
      requires Valid()
      modifies this`rcv
      ensures Valid() && View() == T.UpdateRcvWnd(old(View()))
    {
      rcv := rcv.(wnd := CAPACITY - rx.len);
    }

    /** Writes data to the receive ring and moves the next expected number past it. */
    method Deliver(data: seq<byte>)
      requires Valid()
      modifies this`rcv, rx, rx.data
      ensures Valid() && View() == T.Deliver(old(View()), data)
    {
      hide RingBuffer.Contents, RingBuffer.Valid, Add32;
      var written := rx.Write(data);
      rcv := rcv.(nxt := Add32(rcv.nxt, written));
    }

    method BufferOooSegment(seqNum: u32, data: seq<byte>)
      requires Valid()
      modifies ooo
      ensures Valid() && View() == T.BufferOoo(old(View()), seqNum, data)
    {
      hide RingBuffer.Contents, RingBuffer.Valid;
      var i := 0;
      while i < ooo.Length && ooo[i].valid
        invariant 0 <= i <= ooo.Length
        invariant forall k :: 0 <= k < i ==> ooo[k].valid
      {
        i := i + 1;
      }
      if i < ooo.Length {
        ooo[i] := T.OooSegment(seqNum, data[..Min(|data|, T.OOO_DATA_SIZE)], true);
      }
    }

    /** The first early segment that is due, or the number of slots. */
    method FindInOrder() returns (i: nat)
      requires Valid()
      ensures i == T.FindInOrder(ooo[..], rcv.nxt) && i <= ooo.Length
    {
      hide RingBuffer.Contents, RingBuffer.Valid;
      i := 0;
      while i < ooo.Length && !(ooo[i].valid && ooo[i].seqNum == rcv.nxt)
        invariant 0 <= i <= ooo.Length
        invariant forall k :: 0 <= k < i ==> !(ooo[k].valid && ooo[k].seqNum == rcv.nxt)
      {
        i := i + 1;
      }
    }

    /** Delivers the early segment in one slot and empties the slot. */
    method DeliverSlot(i: nat)
      requires Valid() && i < ooo.Length
      modifies this`rcv, rx, rx.data, ooo
      ensures Valid() && View() == T.Drop(T.Deliver(old(View()), old(ooo[i].data)), i)
      ensures ooo[..] == old(ooo[..][i := ooo[i].(valid := false)])
    {
      hide RingBuffer.Contents, RingBuffer.Valid, Add32, T.Deliver;
      ghost var c := View();
      Deliver(ooo[i].data);
      DeliverFrame(c, c.ooo[i].data);
      ooo[i] := ooo[i].(valid := false);
    }

    method DeliverOooSegments()
      requires Valid()
      modifies this`rcv, rx, rx.data, ooo
      ensures Valid() && View() == T.DeliverOoo(old(View()))
    {
      hide RingBuffer.Contents, RingBuffer.Valid, Add32, T.Deliver, T.FindInOrder;
      var delivered := true;
      while delivered
        invariant Valid() && unchanged(this`state, this`snd, this`rtx, this`cc, this`timeWaitTimer)
        invariant unchanged(this`inUse, this`hasData, this`remoteClosed, this`out)
        invariant T.DeliverOoo(View()) == T.DeliverOoo(old(View()))
        invariant !delivered ==> T.DeliverOoo(View()) == View()
        decreases if delivered then 1 + T.ValidCount(ooo[..]) else 0
      {
        delivered := false;
        var i := FindInOrder();
        if i < ooo.Length {
          T.DropLowersValidCount(ooo[..], i);
          DeliverSlot(i);
          delivered := true;
        }
      }
    }

    method ProcessData(seg: T.Segment, net: nat -> bool)
      requires Valid()
      modifies this`rcv, this`hasData, this`out, rx, rx.data, ooo
      ensures Valid() && View() == T.ProcessData(old(View()), seg)
    {
      hide RingBuffer.Contents, RingBuffer.Valid, T.Deliver, T.DeliverOoo, T.BufferOoo, Add32, Sub32;
      if seg.payload == [] {
        return;
      }
      if seg.seqNum == rcv.nxt {
        Deliver(seg.payload);
        hasData := true;
        UpdateRcvWnd();
        DeliverOooSegments();
        var _ := SendSegment(false, true, false, net);
      } else if SeqAfter(seg.seqNum, rcv.nxt) {
        BufferOooSegment(seg.seqNum, seg.payload);
        var _ := SendSegment(false, true, false, net);
      }
    }

    /** Takes the peer's FIN. */
    method TakeFin(net: nat -> bool)
      requires Valid()
      modifies this`rcv, this`out
      ensures Valid() && View() == T.TakeFin(old(View()))
    {
      hide RingBuffer.Contents, RingBuffer.Valid, Add32;
      rcv := rcv.(nxt := Add32(rcv.nxt, 1));
      var _ := SendSegment(false, true, false, net);
    }

    method ProcessSegment(seg: T.Segment, now: nat, net: nat -> bool, iss: u32)
      requires Valid() && cc.cwnd > 0
      modifies this, rx, rx.data, tx, ooo
      ensures Valid() && View() == T.ProcessSegment(old(View()), seg, now, net, iss)
    {
      hide RingBuffer.Contents, RingBuffer.Valid, Add32, Sub32, T.ProcessData, T.ProcessAck, T.TakeFin;
      hide T.SegmentInListen, T.SegmentInSynSent, T.Establish, T.SegmentInEstablished, T.SegmentInFinWait1;
      if seg.rst {
        Reset();
        return;
      }
      match state {
        case Closed =>
        case Listen =>
          if seg.syn && !seg.ack {
            SegmentInListen(seg, now, net, iss);
          }
        case SynSent =>
          if seg.syn {
            SegmentInSynSent(seg, now, net);
          }
        case SynReceived =>
          if seg.ack && seg.ackNum == snd.nxt {
            Establish(seg, now);
            ProcessData(seg, net);
          }
        case Established =>
          SegmentInEstablished(seg, now, net);
        case FinWait1 =>
          SegmentInFinWait1(seg, now, net);
        case FinWait2 =>
          if seg.fin {
            TakeFin(net);
            state := T.TimeWait;
            timeWaitTimer := now + T.TIME_WAIT_TIMEOUT;
          }
        case CloseWait =>
          if seg.ack {
            ProcessAck(seg.ackNum, now, net);
          }
        case Closing =>
          if seg.ack && seg.ackNum == snd.nxt {
            state := T.TimeWait;
            timeWaitTimer := now + T.TIME_WAIT_TIMEOUT;
          }
        case LastAck =>
          if seg.ack && seg.ackNum == snd.nxt {
            Reset();
          }
        case TimeWait =>
      }
    }

    method SegmentInListen(seg: T.Segment, now: nat, net: nat -> bool, iss: u32)
      requires Valid()
      modifies this
      ensures Valid() && View() == T.SegmentInListen(old(View()), seg, now, net, iss)
    {
      hide RingBuffer.Contents, RingBuffer.Valid, Add32;
      rcv := rcv.(irs := seg.seqNum, nxt := Add32(seg.seqNum, 1));
      snd := T.SendSpace(iss, iss, seg.window, iss);
      var sent := SendSegment(true, true, false, net);
      if sent {
        snd := snd.(nxt := Add32(snd.nxt, 1));
        state := T.SynReceived;
        rtx := rtx.(lastSendTime := now, timer := now + rtx.rto);
      }
    }

    method SegmentInSynSent(seg: T.Segment, now: nat, net: nat -> bool)
      requires Valid()
      modifies this
      ensures Valid() && View() == T.SegmentInSynSent(old(View()), seg, now, net)
    {
      hide RingBuffer.Contents, RingBuffer.Valid, T.NewRtt, Add32;
      if seg.ack {
        if seg.ackNum == snd.nxt {
          rcv := rcv.(irs := seg.seqNum, nxt := Add32(seg.seqNum, 1));
          snd := snd.(una := seg.ackNum, wnd := seg.window);
          var sent := SendSegment(false, true, false, net);
          if sent {
            state := T.Established;
            UpdateRtt(now);
          }
        }
      } else {
        rcv := rcv.(irs := seg.seqNum, nxt := Add32(seg.seqNum, 1));
        var sent := SendSegment(true, true, false, net);
        if sent {
          state := T.SynReceived;
        }
      }
    }

    method Establish(seg: T.Segment, now: nat)
      requires Valid()
      modifies this`state, this`snd, this`rtx
      ensures Valid() && View() == T.Establish(old(View()), seg, now)
    {
      hide RingBuffer.Contents, RingBuffer.Valid, T.NewRtt;
      snd := snd.(una := seg.ackNum, wnd := seg.window);
      state := T.Established;
      UpdateRtt(now);
    }

    method SegmentInEstablished(seg: T.Segment, now: nat, net: nat -> bool)
      requires Valid() && cc.cwnd > 0
      modifies this, rx, rx.data, tx, ooo
      ensures Valid() && View() == T.SegmentInEstablished(old(View()), seg, now)
    {
      hide RingBuffer.Contents, RingBuffer.Valid, T.ProcessAck, T.ProcessData, T.TakeFin;
      if seg.ack {
        ProcessAck(seg.ackNum, now, net);
      }
      ProcessData(seg, net);
      if seg.fin {
        TakeFin(net);
        remoteClosed := true;
        state := T.CloseWait;
      }
    }

    method SegmentInFinWait1(seg: T.Segment, now: nat, net: nat -> bool)
      requires Valid()
      modifies this
      ensures Valid() && View() == T.SegmentInFinWait1(old(View()), seg, now)
    {
      hide RingBuffer.Contents, RingBuffer.Valid, T.TakeFin;
      if seg.ack && seg.ackNum == snd.nxt {
        snd := snd.(una := seg.ackNum);
        if seg.fin {
          TakeFin(net);
          state := T.TimeWait;
          timeWaitTimer := now + T.TIME_WAIT_TIMEOUT;
        } else {
          state := T.FinWait2;
        }
      } else if seg.fin {
        TakeFin(net);
        state := T.Closing;
      }
    }

    /** This connection's share of a timer run. */
    method ProcessTimers(now: nat, net: nat -> bool)
      requires Valid()
      modifies this, rx, tx, ooo
      ensures Valid() && View() == T.ProcessTimers(old(View()), now, net)
    {
      hide RingBuffer.Contents, RingBuffer.Valid, T.Retransmit, T.SendPending;
      if !inUse {
        return;
      }
      if state == T.TimeWait {
        if now >= timeWaitTimer {
          Reset();
        }
        return;
      }
      if rtx.timer > 0 && now >= rtx.timer {
        if rtx.count >= 5 {
          Reset();
        } else {
          rtx := rtx.(rto := Min(rtx.rto * 2, T.MAX_RTO));
          cc := cc.(ssthresh := Max(cc.cwnd / 2, 2 * T.MSS), cwnd := T.MSS);
          Retransmit(now, net);
        }
      }
      if state == T.Established {
        SendPendingData(now, net);
      }
    }

    /** Takes the slot for a new socket if it is free or closing. */
    method Allocate() returns (taken: bool)
      requires Valid()
      modifies this, rx, tx, ooo
      ensures Valid() && View() == T.Allocate(old(View())) && taken == T.Reusable(old(View()))
    {
      hide RingBuffer.Contents, RingBuffer.Valid;
      taken := !inUse || state in {T.TimeWait, T.FinWait1, T.FinWait2, T.Closing, T.LastAck};
      if taken {
        Reset();
        inUse := true;
      }
    }

    method Connect(now: nat, net: nat -> bool, iss: u32) returns (ok: bool)
      requires Valid()
      modifies this
      ensures Valid() && View() == T.Connect(old(View()), now, net, iss)
      ensures ok == (old(state) == T.Closed && state == T.SynSent)
    {
      hide RingBuffer.Contents, RingBuffer.Valid, Add32;
      if !inUse || state != T.Closed {
        return false;
      }
      snd := snd.(iss := iss, nxt := iss, una := iss);
      ok := SendSegment(true, false, false, net);
      if ok {
        snd := snd.(nxt := Add32(snd.nxt, 1));
        state := T.SynSent;
        rtx := rtx.(lastSendTime := now, timer := now + rtx.rto);
      }
    }

    method StartListening() returns (ok: bool)
      requires Valid()
      modifies this`state
      ensures Valid() && View() == T.StartListening(old(View()))
      ensures ok == (old(state) == T.Closed && state == T.Listen)
    {
      hide RingBuffer.Contents, RingBuffer.Valid;
      ok := inUse && state == T.Closed;
      if ok {
        state := T.Listen;
      }
    }

    /** Non-blocking read: the bytes and the result code, -1 for closed or end of stream. */
    method Recv(count: nat) returns (n: int, bytes: seq<byte>)
      requires Valid()
      modifies this`rcv, rx
      ensures Valid() && View() == T.Recv(old(View()), count)
      ensures bytes == T.RecvBytes(old(View()), count)
      ensures n == if bytes != [] then |bytes|
                   else if !inUse || state == T.Closed || remoteClosed then -1 else 0
    {
      hide RingBuffer.Contents, RingBuffer.Valid;
      if !inUse || state == T.Closed {
        return -1, [];
      }
      bytes := rx.Read(count);
      UpdateRcvWnd();
      n := if |bytes| > 0 then |bytes| else if remoteClosed then -1 else 0;
    }

    /** Non-blocking write: how many bytes were taken, or -1. */
    method Send(data: seq<byte>) returns (n: int)
      requires Valid()
      modifies tx, tx.data
      ensures Valid() && View() == T.Send(old(View()), data)
      ensures n == if inUse && state in {T.Established, T.CloseWait} then |T.SendBytes(old(View()), data)| else -1
    {
      hide RingBuffer.Contents, RingBuffer.Valid;
      if !inUse || (state != T.Established && state != T.CloseWait) {
        assert old(tx.Contents()) + [] == old(tx.Contents());
        return -1;
      }
      n := tx.Write(data);
    }

    /** Sends the FIN and moves to `next` if it was accepted. */
    method SendFin(next: T.State, now: nat, net: nat -> bool)
      requires Valid()
      modifies this`out, this`snd, this`state, this`rtx
      ensures var c := old(View()); var c1 := T.Emit(c, false, true, true);
        && Valid()
        && View() == if !T.Accepted(c, net) then c1
                     else c1.(snd := c.snd.(nxt := Add32(c.snd.nxt, 1)), state := next,
                              rtx := c.rtx.(timer := now + c.rtx.rto))
    {
      hide RingBuffer.Contents, RingBuffer.Valid, Add32;
      var sent := SendSegment(false, true, true, net);
      if sent {
        snd := snd.(nxt := Add32(snd.nxt, 1));
        state := next;
        rtx := rtx.(timer := now + rtx.rto);
      }
    }

    method Close(now: nat, net: nat -> bool)
      requires Valid()
      modifies this, rx, tx, ooo
      ensures Valid() && View() == T.Close(old(View()), now, net)
    {
      hide RingBuffer.Contents, RingBuffer.Valid, Add32;
      if !inUse {
        return;
      }
      match state {
        case Established =>
          SendFin(T.FinWait1, now, net);
        case CloseWait =>
          SendFin(T.LastAck, now, net);
        case SynSent =>
          Reset();
        case Listen =>
          Reset();
        case _ =>
      }
    }
  }

  lemma DeliverFrame(c: T.Tcb, data: seq<byte>)
    requires |c.rx| <= T.RX_BUFFER_SIZE
    ensures T.Deliver(c, data).ooo == c.ooo
  {
  }
}
