/** Receive safety of a connection: the application reads a prefix of the peer's stream. */
module TcpReceive {
  import opened Bytes
  import opened Tcp

  /** `data` is what the peer's stream carries at sequence number `seqNum`, for a peer whose
      initial sequence number is `irs`. */
  ghost predicate Carries(stream: seq<byte>, irs: u32, seqNum: u32, data: seq<byte>) {
    exists off: nat :: CarriesAt(stream, irs, seqNum, data, off)
  }

  predicate CarriesAt(stream: seq<byte>, irs: u32, seqNum: u32, data: seq<byte>, off: nat) {
    off + |data| <= |stream| && seqNum == Add32(irs, 1 + off) && data == stream[off..off + |data|]
  }

  /** The states in which the peer's FIN has been taken. */
  predicate FinTaken(s: State) {
    s in {CloseWait, LastAck, Closing, TimeWait}
  }

  /** The states before the peer's initial sequence number is settled. */
  predicate Unsynchronized(s: State) {
    s in {Closed, Listen, SynSent}
  }

  /** What has been read, followed by what is buffered, is a prefix of the peer's stream, and
      the next expected number says exactly how long that prefix is. */
  predicate Prefix(c: Tcb, read: seq<byte>, stream: seq<byte>) {
    && read + c.rx <= stream
    && c.rcv.nxt == Add32(c.rcv.irs, 1 + |read + c.rx| + if FinTaken(c.state) then 1 else 0)
  }

  /** How much of its payload an arriving segment gets into the receive ring: only in-order data
      of an open connection is taken, and of that only what fits. */
  function Takes(c: Tcb, seg: Segment): nat
    requires |c.rx| <= RX_BUFFER_SIZE
  {
    if c.state == Established && seg.payload != [] && seg.seqNum == c.rcv.nxt then Fits(c.rx, seg.payload) else 0
  }

  /** The FIN of an arriving segment comes right after the data that will have been taken. */
  predicate FinAtNext(c: Tcb, seg: Segment)
    requires |c.rx| <= RX_BUFFER_SIZE
  {
    Add32(seg.seqNum, |seg.payload|) == Add32(c.rcv.nxt, Takes(c, seg))
  }

  /** Buffered early segments carry the peer's stream too. */
  ghost predicate OooCarry(c: Tcb, stream: seq<byte>) {
    forall i :: 0 <= i < |c.ooo| && c.ooo[i].valid ==>
      Carries(stream, c.rcv.irs, c.ooo[i].seqNum, c.ooo[i].data)
  }

  ghost predicate Untouched(c: Tcb, read: seq<byte>) {
    && read == [] && c.rx == []
    && forall i :: 0 <= i < |c.ooo| ==> !c.ooo[i].valid
  }

  ghost predicate RecvInv(c: Tcb, read: seq<byte>, stream: seq<byte>) {
    && |c.rx| <= RX_BUFFER_SIZE
    && if Unsynchronized(c.state) then Untouched(c, read)
       else Prefix(c, read, stream) && OooCarry(c, stream)
  }

  /** Data at the next expected number extends the prefix by what fits. */
  lemma DeliverExtends(c: Tcb, data: seq<byte>, seqNum: u32, read: seq<byte>, stream: seq<byte>)
    requires |stream| < TWO_32 - 1 && |c.rx| <= RX_BUFFER_SIZE && !FinTaken(c.state)
    requires Prefix(c, read, stream) && Carries(stream, c.rcv.irs, seqNum, data) && seqNum == c.rcv.nxt
    ensures |Deliver(c, data).rx| <= RX_BUFFER_SIZE
    ensures Prefix(Deliver(c, data), read, stream)
  {
    hide Add32;
    var off: nat :| CarriesAt(stream, c.rcv.irs, seqNum, data, off);
    var m, n := |read + c.rx|, Fits(c.rx, data);
    Add32Injective(c.rcv.irs, 1 + off, 1 + m);
    Add32OfAdd32(c.rcv.irs, 1 + m, n);
    PrefixGrows(read, c.rx, data, n, stream);
  }

  lemma PrefixGrows(read: seq<byte>, rx: seq<byte>, data: seq<byte>, n: nat, stream: seq<byte>)
    requires read + rx <= stream && n <= |data| && |read + rx| + |data| <= |stream|
    requires data == stream[|read + rx|..|read + rx| + |data|]
    ensures read + (rx + data[..n]) <= stream
  {
    var m := |read + rx|;
    assert read + (rx + data[..n]) == (read + rx) + data[..n];
    assert stream[..m + n] == stream[..m] + data[..n];
  }

  lemma {:induction false} DeliverOooExtends(c: Tcb, read: seq<byte>, stream: seq<byte>)
    requires |stream| < TWO_32 - 1 && |c.rx| <= RX_BUFFER_SIZE && !FinTaken(c.state)
    requires Prefix(c, read, stream) && OooCarry(c, stream)
    ensures var d := DeliverOoo(c);
      && Prefix(d, read, stream) && OooCarry(d, stream)
    decreases ValidCount(c.ooo)
  {
    hide Add32, Carries;
    var i := FindInOrder(c.ooo, c.rcv.nxt);
    if i < |c.ooo| {
      DropLowersValidCount(c.ooo, i);
      DeliverExtends(c, c.ooo[i].data, c.ooo[i].seqNum, read, stream);
      var d := Drop(Deliver(c, c.ooo[i].data), i);
      assert Prefix(d, read, stream);
      assert OooCarry(d, stream);
      DeliverOooExtends(d, read, stream);
    }
  }

  lemma BufferOooKeeps(c: Tcb, seqNum: u32, data: seq<byte>, stream: seq<byte>)
    requires OooCarry(c, stream) && Carries(stream, c.rcv.irs, seqNum, data)
    ensures OooCarry(BufferOoo(c, seqNum, data), stream)
  {
    var off: nat :| CarriesAt(stream, c.rcv.irs, seqNum, data, off);
    var n := Min(|data|, OOO_DATA_SIZE);
    assert data[..n] == stream[off..off + n];
    assert CarriesAt(stream, c.rcv.irs, seqNum, data[..n], off);
    assert Carries(stream, c.rcv.irs, seqNum, data[..n]);
  }

  lemma TakeInOrderKeeps(c: Tcb, data: seq<byte>, read: seq<byte>, stream: seq<byte>)
    requires |stream| < TWO_32 - 1 && |c.rx| <= RX_BUFFER_SIZE && !FinTaken(c.state)
    requires Prefix(c, read, stream) && OooCarry(c, stream) && Carries(stream, c.rcv.irs, c.rcv.nxt, data)
    ensures Prefix(TakeInOrder(c, data), read, stream) && OooCarry(TakeInOrder(c, data), stream)
  {
    hide Add32, Carries, DeliverOoo;
    DeliverExtends(c, data, c.rcv.nxt, read, stream);
    var d := UpdateRcvWnd(Deliver(c, data).(hasData := true));
    assert OooCarry(d, stream);
    DeliverOooExtends(d, read, stream);
  }

  /** Only a segment with payload has to carry the stream. */
  lemma ProcessDataKeeps(c: Tcb, seg: Segment, read: seq<byte>, stream: seq<byte>)
    requires |stream| < TWO_32 - 1 && |c.rx| <= RX_BUFFER_SIZE && !FinTaken(c.state)
    requires Prefix(c, read, stream) && OooCarry(c, stream)
    requires seg.payload != [] ==> Carries(stream, c.rcv.irs, seg.seqNum, seg.payload)
    ensures var d := ProcessData(c, seg);
      && Prefix(d, read, stream) && OooCarry(d, stream)
  {
    hide Add32, Carries, TakeInOrder, BufferOoo;
    if seg.payload == [] {
    } else if seg.seqNum == c.rcv.nxt {
      TakeInOrderKeeps(c, seg.payload, read, stream);
    } else if SeqAfter(seg.seqNum, c.rcv.nxt) {
      BufferOooKeeps(c, seg.seqNum, seg.payload, stream);
    }
  }
}
