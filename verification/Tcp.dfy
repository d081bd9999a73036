/** One TCP connection of src/net/tcp.rs as a value: the control block and every operation
    that changes it. The network layer's answer to the k-th transmission of the connection
    is `net(k)`, for an arbitrary `net`; `now` is the tick count when the operation runs. */
module Tcp {
  import opened Bytes

  const MSS: nat := 1460
  const RX_BUFFER_SIZE: nat := 1024
  const OOO_BUFFER_SIZE: nat := 2
  const OOO_DATA_SIZE: nat := 512
  const INITIAL_RTO: nat := 20
  const MIN_RTO: nat := 20
  const MAX_RTO: nat := 6000
  const TIME_WAIT_TIMEOUT: nat := 3000

  datatype State =
    | Closed | Listen | SynSent | SynReceived | Established
    | FinWait1 | FinWait2 | CloseWait | Closing | LastAck | TimeWait

  /** An arriving segment: the header fields that are read and the payload. */
  datatype Segment = Segment(syn: bool, ack: bool, fin: bool, rst: bool,
                             seqNum: u32, ackNum: u32, window: nat, payload: seq<byte>)

  /** A segment handed to the network layer. */
  datatype Sent = Sent(syn: bool, ack: bool, fin: bool, seqNum: u32, ackNum: u32,
                       window: nat, payload: seq<byte>)

  datatype OooSegment = OooSegment(seqNum: u32, data: seq<byte>, valid: bool)

  datatype SendSpace = SendSpace(una: u32, nxt: u32, wnd: nat, iss: u32)

  datatype RecvSpace = RecvSpace(nxt: u32, wnd: nat, irs: u32)

  datatype Retransmission = Retransmission(rto: nat, srtt: nat, rttvar: nat, lastSendTime: nat,
                                           timer: nat, count: nat)

  datatype Congestion = Congestion(cwnd: nat, ssthresh: nat, dupAckCount: nat, lastAck: u32)

  datatype Tcb = Tcb(
    state: State,
    snd: SendSpace,
    rcv: RecvSpace,
    rtx: Retransmission,
    cc: Congestion,
    ooo: seq<OooSegment>,
    rx: seq<byte>,
    tx: seq<byte>,
    timeWaitTimer: nat,
    inUse: bool,
    hasData: bool,
    remoteClosed: bool,
    out: seq<Sent>)

  /** A control block as `reset` leaves it. */
  const FRESH: Tcb := Tcb(
    Closed,
    SendSpace(0, 0, 0, 0),
    RecvSpace(0, RX_BUFFER_SIZE, 0),
    Retransmission(INITIAL_RTO, 0, 0, 0, 0, 0),
    Congestion(MSS, 65535, 0, 0),
    [OooSegment(0, [], false), OooSegment(0, [], false)],
    [], [], 0, false, false, false, [])

  /** Transmits a segment without payload at the next sequence number. */
  function Emit(c: Tcb, syn: bool, ack: bool, fin: bool): Tcb {
    c.(out := c.out + [Sent(syn, ack, fin, c.snd.nxt, c.rcv.nxt, c.rcv.wnd, [])])
  }

  /** Transmits payload at the given sequence number. */
  function EmitData(c: Tcb, seqNum: u32, payload: seq<byte>): Tcb {
    c.(out := c.out + [Sent(false, true, false, seqNum, c.rcv.nxt, c.rcv.wnd, payload)])
  }

  /** Whether the network layer accepts the next transmission. */
  predicate Accepted(c: Tcb, net: nat -> bool) {
    net(|c.out|)
  }

  function FreeSpace(buffer: seq<byte>): int {
    RX_BUFFER_SIZE - |buffer|
  }

  /** How much of `data` a ring buffer takes. */
  function Fits(buffer: seq<byte>, data: seq<byte>): nat
    requires |buffer| <= RX_BUFFER_SIZE
  {
    Min(|data|, FreeSpace(buffer))
  }

  // ------------------------------------------------------------------ sending

  /** The round-trip estimate after a measurement, by section 2 of RFC 6298. */
  function NewRtt(r: Retransmission, now: nat): Retransmission {
    var measured := Max(now - r.lastSendTime, 0);
    var srtt := if r.srtt == 0 then measured else (7 * r.srtt + measured) / 8;
    var diff := if measured > r.srtt then measured - r.srtt else r.srtt - measured;
    var rttvar := if r.srtt == 0 then measured / 2 else (3 * r.rttvar + diff) / 4;
    r.(srtt := srtt, rttvar := rttvar, rto := Min(Max(srtt + 4 * rttvar, MIN_RTO), MAX_RTO))
  }

  function UpdateRtt(c: Tcb, now: nat): Tcb {
    c.(rtx := NewRtt(c.rtx, now))
  }

  function InFlight(c: Tcb): nat {
    Sub32(c.snd.nxt, c.snd.una)
  }

  /** Sends the unacknowledged head of the transmit buffer again. */
  function Retransmit(c: Tcb, now: nat): (d: Tcb)
    ensures d == c.(rtx := d.rtx, out := d.out)
    ensures c.out <= d.out
  {
    var unacked := Min(|c.tx|, InFlight(c));
    if unacked == 0 then c
    else
      var r := c.rtx;
      EmitData(c, c.snd.una, c.tx[..Min(unacked, MSS)])
      .(rtx := r.(timer := now + r.rto, count := (r.count + 1) % 256))
  }

  function AckAdvances(c: Tcb, ack: u32): bool {
    SeqAfter(ack, c.snd.una) && !SeqAfter(ack, c.snd.nxt)
  }

  /** The congestion window after an acknowledgment: slow start, then one segment per window. */
  function GrownWindow(cc: Congestion, bytesAcked: nat): (w: nat)
    requires cc.cwnd > 0
    ensures Min(cc.cwnd, TWO_32 - 1) <= w < TWO_32
  {
    SatAdd32(cc.cwnd, if cc.cwnd < cc.ssthresh then bytesAcked else MSS * MSS / cc.cwnd)
  }

  /** The control block after an acknowledgment of new data. */
  function AckNewData(c: Tcb, ack: u32, now: nat): (d: Tcb)
    requires c.cc.cwnd > 0
    ensures d == c.(snd := d.snd, tx := d.tx, rtx := d.rtx, cc := d.cc)
    ensures d.snd == c.snd.(una := ack) && |d.tx| <= |c.tx|
    ensures d.cc.ssthresh == c.cc.ssthresh && Min(c.cc.cwnd, TWO_32 - 1) <= d.cc.cwnd < TWO_32
  {
    var bytesAcked := Sub32(ack, c.snd.una);
    var c1 := UpdateRtt(c.(snd := c.snd.(una := ack), tx := c.tx[Min(bytesAcked, |c.tx|)..]), now);
    var c2 := c1.(cc := Congestion(GrownWindow(c.cc, bytesAcked), c.cc.ssthresh, 0, ack));
    if ack != c.snd.nxt then c2.(rtx := c2.rtx.(timer := now + c2.rtx.rto))
    else c2.(rtx := c2.rtx.(timer := 0, count := 0))
  }

  /** The control block after a repeated acknowledgment. */
  function AckDuplicate(c: Tcb, now: nat): (d: Tcb)
    ensures d == c.(rtx := d.rtx, cc := d.cc, out := d.out)
    ensures c.out <= d.out
    ensures d.cc.cwnd >= Min(c.cc.cwnd, MSS)
  {
    var dup := (c.cc.dupAckCount + 1) % 256;
    if dup == 3 then
      var ssthresh := Max(c.cc.cwnd / 2, 2 * MSS);
      Retransmit(c.(cc := c.cc.(dupAckCount := dup, ssthresh := ssthresh, cwnd := ssthresh + 3 * MSS)), now)
    else if dup > 3 then
      c.(cc := c.cc.(dupAckCount := dup, cwnd := SatAdd32(c.cc.cwnd, MSS)))
    else
      c.(cc := c.cc.(dupAckCount := dup))
  }

  function ProcessAck(c: Tcb, ack: u32, now: nat): (d: Tcb)
    requires c.cc.cwnd > 0
    ensures d == c.(snd := d.snd, tx := d.tx, rtx := d.rtx, cc := d.cc, out := d.out)
    ensures |d.tx| <= |c.tx| && c.out <= d.out && d.snd.iss == c.snd.iss
    ensures d.cc.cwnd >= Min(c.cc.cwnd, MSS)
  {
    if AckAdvances(c, ack) then AckNewData(c, ack, now)
    else if ack == c.cc.lastAck then AckDuplicate(c, now)
    else c
  }

  /** How many new bytes `SendPending` would transmit now. */
  function Sendable(c: Tcb): int {
    var canSend := Min(c.snd.wnd, c.cc.cwnd) - InFlight(c);
    Max(Min(Min(|c.tx| - InFlight(c), canSend), MSS), 0)
  }

  function SendPending(c: Tcb, now: nat, net: nat -> bool): (d: Tcb)
    ensures d == c.(snd := d.snd, rtx := d.rtx, out := d.out)
    ensures c.out <= d.out
  {
    var n := Sendable(c);
    if n == 0 then c
    else
      var flight := InFlight(c);
      var c1 := EmitData(c, c.snd.nxt, c.tx[flight..flight + n]);
      if !Accepted(c, net) then c1
      else
        c1.(snd := c.snd.(nxt := Add32(c.snd.nxt, n)),
            rtx := c.rtx.(lastSendTime := now,
                          timer := if c.rtx.timer == 0 then now + c.rtx.rto else c.rtx.timer))
  }

  // ---------------------------------------------------------------- receiving

  /** Appends as much of `data` as fits and moves the next expected number past it. */
  function Deliver(c: Tcb, data: seq<byte>): Tcb
    requires |c.rx| <= RX_BUFFER_SIZE
  {
    var n := Fits(c.rx, data);
    c.(rx := c.rx + data[..n], rcv := c.rcv.(nxt := Add32(c.rcv.nxt, n)))
  }

  function UpdateRcvWnd(c: Tcb): Tcb
    requires |c.rx| <= RX_BUFFER_SIZE
  {
    c.(rcv := c.rcv.(wnd := FreeSpace(c.rx)))
  }

  function Drop(c: Tcb, i: nat): Tcb
    requires i < |c.ooo|
  {
    c.(ooo := c.ooo[i := c.ooo[i].(valid := false)])
  }

  /** The first buffered segment that starts at the next expected number, or none. */
  function FindInOrder(ooo: seq<OooSegment>, nxt: u32): (i: nat)
    ensures i <= |ooo|
    ensures i < |ooo| ==> ooo[i].valid && ooo[i].seqNum == nxt
    ensures forall k :: 0 <= k < i ==> !(ooo[k].valid && ooo[k].seqNum == nxt)
  {
    if ooo == [] then 0
    else if ooo[0].valid && ooo[0].seqNum == nxt then 0
    else 1 + FindInOrder(ooo[1..], nxt)
  }

  function ValidCount(ooo: seq<OooSegment>): nat {
    if ooo == [] then 0 else (if ooo[0].valid then 1 else 0) + ValidCount(ooo[1..])
  }

  lemma {:induction false} DropLowersValidCount(ooo: seq<OooSegment>, i: nat)
    requires i < |ooo| && ooo[i].valid
    ensures ValidCount(ooo[i := ooo[i].(valid := false)]) == ValidCount(ooo) - 1
  {
    var ooo' := ooo[i := ooo[i].(valid := false)];
    if i == 0 {
      assert ooo'[1..] == ooo[1..];
    } else {
      DropLowersValidCount(ooo[1..], i - 1);
      assert ooo'[1..] == ooo[1..][i - 1 := ooo[i].(valid := false)];
    }
  }

  /** Delivers buffered segments for as long as one is in order. */
  function DeliverOoo(c: Tcb): (d: Tcb)
    requires |c.rx| <= RX_BUFFER_SIZE
    ensures d == c.(rx := d.rx, rcv := d.rcv, ooo := d.ooo)
    ensures c.rx <= d.rx && |d.rx| <= RX_BUFFER_SIZE && |d.ooo| == |c.ooo| && d.rcv.irs == c.rcv.irs
    decreases ValidCount(c.ooo)
  {
    var i := FindInOrder(c.ooo, c.rcv.nxt);
    if i == |c.ooo| then c
    else
      DropLowersValidCount(c.ooo, i);
      DeliverOoo(Drop(Deliver(c, c.ooo[i].data), i))
  }

  function FindFree(ooo: seq<OooSegment>): (i: nat)
    ensures i <= |ooo|
    ensures i < |ooo| ==> !ooo[i].valid
    ensures forall k :: 0 <= k < i ==> ooo[k].valid
  {
    if ooo == [] then 0 else if !ooo[0].valid then 0 else 1 + FindFree(ooo[1..])
  }

  /** Keeps the first 512 bytes of an early segment, if a slot is free. */
  function BufferOoo(c: Tcb, seqNum: u32, data: seq<byte>): (d: Tcb)
    ensures d == c.(ooo := d.ooo) && |d.ooo| == |c.ooo|
  {
    var i := FindFree(c.ooo);
    if i == |c.ooo| then c
    else c.(ooo := c.ooo[i := OooSegment(seqNum, data[..Min(|data|, OOO_DATA_SIZE)], true)])
  }

  /** In-order data, and whatever early data has now become due. */
  function TakeInOrder(c: Tcb, data: seq<byte>): (d: Tcb)
    requires |c.rx| <= RX_BUFFER_SIZE
    ensures d == c.(rx := d.rx, rcv := d.rcv, ooo := d.ooo, hasData := true)
    ensures c.rx <= d.rx && |d.rx| <= RX_BUFFER_SIZE && |d.ooo| == |c.ooo| && d.rcv.irs == c.rcv.irs
  {
    DeliverOoo(UpdateRcvWnd(Deliver(c, data).(hasData := true)))
  }

  function ProcessData(c: Tcb, seg: Segment): (d: Tcb)
    requires |c.rx| <= RX_BUFFER_SIZE
    ensures d == c.(rx := d.rx, rcv := d.rcv, ooo := d.ooo, hasData := d.hasData, out := d.out)
    ensures c.rx <= d.rx && |d.rx| <= RX_BUFFER_SIZE && |d.ooo| == |c.ooo| && d.rcv.irs == c.rcv.irs
    ensures c.out <= d.out && forall i :: |c.out| <= i < |d.out| ==> d.out[i].payload == []
  {
    if seg.payload == [] then c
    else if seg.seqNum == c.rcv.nxt then
      Emit(TakeInOrder(c, seg.payload), false, true, false)
    else if SeqAfter(seg.seqNum, c.rcv.nxt) then
      Emit(BufferOoo(c, seg.seqNum, seg.payload), false, true, false)
    else c
  }

  /** Takes the peer's FIN: one sequence number is consumed and acknowledged. */
  function TakeFin(c: Tcb): Tcb {
    Emit(c.(rcv := c.rcv.(nxt := Add32(c.rcv.nxt, 1))), false, true, false)
  }

  function EnterTimeWait(c: Tcb, now: nat): Tcb {
    c.(state := TimeWait, timeWaitTimer := now + TIME_WAIT_TIMEOUT)
  }

  // ------------------------------------------------------- the state machine

  function ProcessSegment(c: Tcb, seg: Segment, now: nat, net: nat -> bool, iss: u32): Tcb
    requires |c.rx| <= RX_BUFFER_SIZE && c.cc.cwnd > 0
  {
    if seg.rst then FRESH
    else
      var acksAll := seg.ack && seg.ackNum == c.snd.nxt;
      match c.state
      case Closed => c
      case Listen => if seg.syn && !seg.ack then SegmentInListen(c, seg, now, net, iss) else c
      case SynSent => if seg.syn then SegmentInSynSent(c, seg, now, net) else c
      case SynReceived => if acksAll then ProcessData(Establish(c, seg, now), seg) else c
      case Established => SegmentInEstablished(c, seg, now)
      case FinWait1 => SegmentInFinWait1(c, seg, now)
      case FinWait2 => if seg.fin then EnterTimeWait(TakeFin(c), now) else c
      case CloseWait => if seg.ack then ProcessAck(c, seg.ackNum, now) else c
      case Closing => if acksAll then EnterTimeWait(c, now) else c
      case LastAck => if acksAll then FRESH else c
      case TimeWait => c
  }

  function SegmentInListen(c: Tcb, seg: Segment, now: nat, net: nat -> bool, iss: u32): (d: Tcb)
    ensures d == c.(state := d.state, snd := d.snd, rcv := d.rcv, rtx := d.rtx, out := d.out)
  {
    var c1 := c.(rcv := c.rcv.(irs := seg.seqNum, nxt := Add32(seg.seqNum, 1)),
                 snd := SendSpace(iss, iss, seg.window, iss));
    var c2 := Emit(c1, true, true, false);
    if !Accepted(c1, net) then c2
    else c2.(state := SynReceived, snd := c1.snd.(nxt := Add32(iss, 1)),
             rtx := c.rtx.(lastSendTime := now, timer := now + c.rtx.rto))
  }

  function SegmentInSynSent(c: Tcb, seg: Segment, now: nat, net: nat -> bool): (d: Tcb)
    ensures d == c.(state := d.state, snd := d.snd, rcv := d.rcv, rtx := d.rtx, out := d.out)
  {
    var c1 := c.(rcv := c.rcv.(irs := seg.seqNum, nxt := Add32(seg.seqNum, 1)));
    if seg.ack then
      if seg.ackNum != c.snd.nxt then c
      else
        var c2 := Emit(c1.(snd := c.snd.(una := seg.ackNum, wnd := seg.window)), false, true, false);
        if Accepted(c1, net) then UpdateRtt(c2.(state := Established), now) else c2
    else
      var c2 := Emit(c1, true, true, false);
      if Accepted(c1, net) then c2.(state := SynReceived) else c2
  }

  function Establish(c: Tcb, seg: Segment, now: nat): (d: Tcb)
    ensures d == c.(state := Established, snd := d.snd, rtx := d.rtx)
  {
    UpdateRtt(c.(state := Established, snd := c.snd.(una := seg.ackNum, wnd := seg.window)), now)
  }

  function SegmentInFinWait1(c: Tcb, seg: Segment, now: nat): (d: Tcb)
    ensures d == c.(state := d.state, snd := d.snd, rcv := d.rcv, timeWaitTimer := d.timeWaitTimer, out := d.out)
  {
    if seg.ack && seg.ackNum == c.snd.nxt then
      var c1 := c.(snd := c.snd.(una := seg.ackNum));
      if seg.fin then EnterTimeWait(TakeFin(c1), now) else c1.(state := FinWait2)
    else if seg.fin then TakeFin(c).(state := Closing)
    else c
  }

  function SegmentInEstablished(c: Tcb, seg: Segment, now: nat): (d: Tcb)
    requires |c.rx| <= RX_BUFFER_SIZE && c.cc.cwnd > 0
    ensures d.timeWaitTimer == c.timeWaitTimer && d.inUse == c.inUse
    ensures d.state == if seg.fin then CloseWait else c.state
    ensures |d.rx| <= RX_BUFFER_SIZE && |d.tx| <= |c.tx| && |d.ooo| == |c.ooo| && d.cc.cwnd >= Min(c.cc.cwnd, MSS)
  {
    var c1 := if seg.ack then ProcessAck(c, seg.ackNum, now) else c;
    var c2 := ProcessData(c1, seg);
    if seg.fin then TakeFin(c2).(remoteClosed := true, state := CloseWait) else c2
  }

  /** One connection's share of a timer run. */
  function ProcessTimers(c: Tcb, now: nat, net: nat -> bool): Tcb {
    if !c.inUse then c
    else if c.state == TimeWait then
      if now >= c.timeWaitTimer then FRESH else c
    else
      var c1 := if c.rtx.timer > 0 && now >= c.rtx.timer then RetransmitTimeout(c, now) else c;
      if c1.state == Established then SendPending(c1, now, net) else c1
  }

  function RetransmitTimeout(c: Tcb, now: nat): Tcb {
    if c.rtx.count >= 5 then FRESH
    else
      Retransmit(c.(rtx := c.rtx.(rto := Min(c.rtx.rto * 2, MAX_RTO)),
                    cc := c.cc.(ssthresh := Max(c.cc.cwnd / 2, 2 * MSS), cwnd := MSS)), now)
  }

  // ------------------------------------------------------------ the socket API

  /** Taking the slot for a new socket: a free slot, or one that is closing. */
  predicate Reusable(c: Tcb) {
    !c.inUse || c.state in {TimeWait, FinWait1, FinWait2, Closing, LastAck}
  }

  function Allocate(c: Tcb): Tcb {
    if Reusable(c) then FRESH.(inUse := true) else c
  }

  function Connect(c: Tcb, now: nat, net: nat -> bool, iss: u32): Tcb {
    if !c.inUse || c.state != Closed then c
    else
      var c1 := c.(snd := SendSpace(iss, iss, c.snd.wnd, iss));
      var c2 := Emit(c1, true, false, false);
      if !Accepted(c1, net) then c2
      else c2.(state := SynSent, snd := c1.snd.(nxt := Add32(iss, 1)),
               rtx := c.rtx.(lastSendTime := now, timer := now + c.rtx.rto))
  }

  function StartListening(c: Tcb): Tcb {
    if c.inUse && c.state == Closed then c.(state := Listen) else c
  }

  /** The bytes a `recv` into a buffer of `count` bytes returns. */
  function RecvBytes(c: Tcb, count: nat): seq<byte> {
    if !c.inUse || c.state == Closed then [] else c.rx[..Min(count, |c.rx|)]
  }

  function Recv(c: Tcb, count: nat): Tcb
    requires |c.rx| <= RX_BUFFER_SIZE
  {
    if !c.inUse || c.state == Closed then c
    else UpdateRcvWnd(c.(rx := c.rx[Min(count, |c.rx|)..]))
  }

  /** The bytes a `send` of `data` accepts. */
  function SendBytes(c: Tcb, data: seq<byte>): seq<byte>
    requires |c.tx| <= RX_BUFFER_SIZE
  {
    if c.inUse && c.state in {Established, CloseWait} then data[..Fits(c.tx, data)] else []
  }

  function Send(c: Tcb, data: seq<byte>): Tcb
    requires |c.tx| <= RX_BUFFER_SIZE
  {
    c.(tx := c.tx + SendBytes(c, data))
  }

  function Close(c: Tcb, now: nat, net: nat -> bool): Tcb {
    if !c.inUse then c
    else if c.state in {Established, CloseWait} then
      var c1 := Emit(c, false, true, true);
      if !Accepted(c, net) then c1
      else c1.(snd := c.snd.(nxt := Add32(c.snd.nxt, 1)),
               state := if c.state == Established then FinWait1 else LastAck,
               rtx := c.rtx.(timer := now + c.rtx.rto))
    else if c.state in {SynSent, Listen} then FRESH
    else c
  }
}
