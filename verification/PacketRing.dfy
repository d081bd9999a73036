/** The receive ring of src/net/packet.rs as the interrupt handler and the network task see
    it: two programs that interleave at every load and store. */
module PacketRing {
  import opened Bytes

  const COUNT: nat := 16

  type Packet = seq<byte>

  const PACKET_SIZE: nat := 1536

  /** A buffer: its bytes, its length field and whether its flag is BUFFER_FULL. */
  datatype Buffer = Buffer(data: seq<byte>, len: nat, full: bool)

  /** Where the interrupt handler is. `frame` is the packet the card delivers. */
  datatype Writer =
    | WIdle
    | WLoadedHead(frame: Packet, head: nat)
    | WCopying(frame: Packet, slot: nat, done: nat)
    | WPublish(frame: Packet)
    | WStoreLen(frame: Packet, slot: nat)
    | WStoreFlag(frame: Packet, slot: nat)
    | WStoreHead(frame: Packet, slot: nat)

  /** Where the network task is. */
  datatype Reader =
    | RIdle
    | RLoadedHead(head: nat, seen: nat)
    | RLoadedTail(slot: nat)
    | RLoadLen(slot: nat)
    | RReading(slot: nat, len: nat)
    | RRelease
    | RStoreFlag(slot: nat)
    | RStoreTail(slot: nat)

  /** The shared memory, both programs, and the history: the packets published, the packets
      handed to the task, how many were released and how many dropped. */
  datatype State = State(head: nat, tail: nat, slots: seq<Buffer>, w: Writer, r: Reader,
                         published: seq<Packet>, delivered: seq<Packet>, released: nat, dropped: nat)

  function Next(i: nat): nat {
    (i + 1) % COUNT
  }

  const EMPTY_BUFFER: Buffer := Buffer(seq(PACKET_SIZE, _ => 0), 0, false)

  function Init(): State {
    State(0, 0, seq(COUNT, _ => EMPTY_BUFFER), WIdle, RIdle, [], [], 0, 0)
  }

  predicate Sane(s: State) {
    && |s.slots| == COUNT && s.head < COUNT && s.tail < COUNT
    && (forall i :: 0 <= i < COUNT ==> |s.slots[i].data| == PACKET_SIZE)
  }

  /** One step of the interrupt handler; `frame` is used when it starts on a new packet.
      The driver only passes on frames that fit a buffer. */
  function WriterStep(s: State, frame: Packet): State
    requires Sane(s)
  {
    match s.w
    case WIdle => if |frame| <= PACKET_SIZE then s.(w := WLoadedHead(frame, s.head)) else s
    case WLoadedHead(f, h) =>
      if Next(h) == s.tail then s.(w := WIdle, dropped := s.dropped + 1) else s.(w := WCopying(f, h, 0))
    case WCopying(f, h, k) =>
      if k < |f| && k < PACKET_SIZE && h < COUNT then
        var b := s.slots[h];
        s.(slots := s.slots[h := b.(data := b.data[k := f[k]])], w := WCopying(f, h, k + 1))
      else s.(w := WPublish(f))
    case WPublish(f) => s.(w := WStoreLen(f, s.head))
    case WStoreLen(f, h) =>
      if h < COUNT then s.(slots := s.slots[h := s.slots[h].(len := |f| % 0x1_0000)], w := WStoreFlag(f, h)) else s
    case WStoreFlag(f, h) =>
      if h < COUNT then s.(slots := s.slots[h := s.slots[h].(full := true)], w := WStoreHead(f, h)) else s
    case WStoreHead(f, h) => s.(head := Next(h), w := WIdle, published := s.published + [f])
  }

  /** One step of the network task: it polls, reads the packet at the tail and releases it. */
  function ReaderStep(s: State): State
    requires Sane(s)
  {
    match s.r
    case RIdle => s.(r := RLoadedHead(s.head, |s.published|))
    case RLoadedHead(h, _) => if h == s.tail then s.(r := RIdle) else s.(r := RLoadedTail(s.tail))
    case RLoadedTail(t) =>
      if t < COUNT && s.slots[t].full then s.(r := RLoadLen(t)) else s.(r := RIdle)
    case RLoadLen(t) =>
      if t < COUNT then s.(r := RReading(t, s.slots[t].len)) else s
    case RReading(t, n) =>
      if t < COUNT && n <= PACKET_SIZE then s.(r := RRelease, delivered := s.delivered + [s.slots[t].data[..n]])
      else s
    case RRelease => s.(r := RStoreFlag(s.tail))
    case RStoreFlag(t) =>
      if t < COUNT then s.(slots := s.slots[t := s.slots[t].(full := false)], r := RStoreTail(t)) else s
    case RStoreTail(t) => s.(tail := Next(t), r := RIdle, released := s.released + 1)
  }

  // ------------------------------------------------------------- invariant

  /** The packets are numbered in order of publication; packet k lives in slot k mod 16. */
  ghost predicate Queue(s: State) {
    && s.released <= |s.published| < s.released + COUNT
    && s.head == |s.published| % COUNT && s.tail == s.released % COUNT
  }

  /** The published packets that are not yet released are intact in their slots. */
  ghost predicate Intact(s: State)
    requires Sane(s)
  {
    forall k :: s.released <= k < |s.published| ==> Holds(s.slots[k % COUNT], s.published[k])
  }

  predicate Holds(b: Buffer, p: Packet) {
    |p| <= PACKET_SIZE && b.len == |p| && |b.data| == PACKET_SIZE && b.data[..|p|] == p
  }

  /** The handler works on the slot at the head, which holds no unreleased packet. */
  ghost predicate WriterOk(s: State)
    requires Sane(s)
  {
    var room := |s.published| < s.released + COUNT - 1;
    match s.w
    case WIdle => true
    case WLoadedHead(f, h) => |f| <= PACKET_SIZE && h == s.head
    case WCopying(f, h, k) => room && |f| <= PACKET_SIZE && h == s.head && k <= |f| && s.slots[h].data[..k] == f[..k]
    case WPublish(f) => room && |f| <= PACKET_SIZE && s.slots[s.head].data[..|f|] == f
    case WStoreLen(f, h) => room && |f| <= PACKET_SIZE && h == s.head && s.slots[h].data[..|f|] == f
    case WStoreFlag(f, h) => room && h == s.head && Holds(s.slots[h], f)
    case WStoreHead(f, h) => room && h == s.head && Holds(s.slots[h], f)
  }

  /** The task works on the slot at the tail, which holds the oldest unreleased packet. */
  ghost predicate ReaderOk(s: State)
    requires Sane(s)
  {
    var pending := s.released < |s.published|;
    match s.r
    case RIdle => true
    case RLoadedHead(h, seen) => s.released <= seen <= |s.published| && h == seen % COUNT
    case RLoadedTail(t) => pending && t == s.tail
    case RLoadLen(t) => pending && t == s.tail
    case RReading(t, n) => pending && t == s.tail && n == |s.published[s.released]|
    case RRelease => pending
    case RStoreFlag(t) => pending && t == s.tail
    case RStoreTail(t) => pending && t == s.tail
  }

  /** Whether the packet at the tail has been handed over but not yet released. */
  predicate HandedOver(s: State) {
    s.r.RRelease? || s.r.RStoreFlag? || s.r.RStoreTail?
  }

  ghost predicate Delivery(s: State) {
    |s.delivered| == s.released + (if HandedOver(s) then 1 else 0) && s.delivered <= s.published
  }

  /** BUFFER_FULL marks exactly the slots from tail to head, except that the head's flag is
      set just before the head moves and the tail's is cleared just before the tail moves. */
  ghost predicate Flags(s: State)
    requires Sane(s)
  {
    && (forall k :: s.released <= k < |s.published| && !(s.r.RStoreTail? && k == s.released)
          ==> s.slots[k % COUNT].full)
    && (forall k :: |s.published| <= k < s.released + COUNT && !(s.w.WStoreHead? && k == |s.published|)
          ==> !s.slots[k % COUNT].full)
    && (s.r.RStoreTail? ==> !s.slots[s.tail].full)
    && (s.w.WStoreHead? ==> s.slots[s.head].full)
  }

  ghost predicate Inv(s: State) {
    Sane(s) && Queue(s) && Intact(s) && WriterOk(s) && ReaderOk(s) && Delivery(s) && Flags(s)
  }

  lemma InitInv()
    ensures Inv(Init())
  {
  }

  lemma ModDistinct(a: nat, b: nat)
    requires a < b < a + COUNT
    ensures a % COUNT != b % COUNT
  {
  }

  lemma NextMod(n: nat)
    ensures Next(n % COUNT) == (n + 1) % COUNT
  {
  }

  /** The slots of unreleased packets differ from the slot at the head. */
  lemma HeadSlotFree(s: State)
    requires Queue(s)
    ensures forall k :: s.released <= k < |s.published| ==> k % COUNT != s.head
    ensures forall k :: |s.published| < k < s.released + COUNT ==> k % COUNT != s.head
  {
    forall k | s.released <= k < |s.published|
      ensures k % COUNT != s.head
    {
      ModDistinct(k, |s.published|);
    }
    forall k | |s.published| < k < s.released + COUNT
      ensures k % COUNT != s.head
    {
      ModDistinct(|s.published|, k);
    }
  }

  lemma TailSlotOldest(s: State)
    requires Queue(s)
    ensures forall k :: s.released < k < s.released + COUNT ==> k % COUNT != s.tail
  {
    forall k | s.released < k < s.released + COUNT
      ensures k % COUNT != s.tail
    {
      ModDistinct(s.released, k);
    }
  }

  /** A step of the handler that writes only into the slot at the head, not its flag. */
  lemma HeadWriteKeeps(s: State, b: Buffer, w: Writer)
    requires Inv(s) && |b.data| == PACKET_SIZE && b.full == s.slots[s.head].full
    requires !s.w.WStoreHead? && !w.WStoreHead?
    requires WriterOk(s.(slots := s.slots[s.head := b], w := w))
    requires |s.published| < s.released + COUNT - 1
    ensures Inv(s.(slots := s.slots[s.head := b], w := w))
  {
    HeadSlotFree(s);
    var t := s.(slots := s.slots[s.head := b], w := w);
    if s.released < |s.published| {
      assert s.tail != s.head;
    }
  }

  lemma CopyKeeps(s: State)
    requires Inv(s) && s.w.WCopying?
    ensures Inv(WriterStep(s, []))
  {
    var f, h, k := s.w.frame, s.w.slot, s.w.done;
    if k < |f| {
      var b := s.slots[h];
      var b' := b.(data := b.data[k := f[k]]);
      assert b'.data[..k + 1] == b.data[..k] + [f[k]];
      assert f[..k + 1] == f[..k] + [f[k]];
      HeadWriteKeeps(s, b', WCopying(f, h, k + 1));
    }
  }

  lemma StoreLenKeeps(s: State)
    requires Inv(s) && s.w.WStoreLen?
    ensures Inv(WriterStep(s, []))
  {
    var f, h := s.w.frame, s.w.slot;
    HeadWriteKeeps(s, s.slots[h].(len := |f| % 0x1_0000), WStoreFlag(f, h));
  }

  lemma StoreFlagKeeps(s: State)
    requires Inv(s) && s.w.WStoreFlag?
    ensures Inv(WriterStep(s, []))
  {
    HeadSlotFree(s);
    if s.released < |s.published| {
      assert s.tail != s.head;
    }
  }

  lemma StoreHeadKeeps(s: State)
    requires Inv(s) && s.w.WStoreHead?
    ensures Inv(WriterStep(s, []))
  {
    NextMod(|s.published|);
  }

  /** A full ring is what the handler sees when the next head is the tail. */
  lemma FullMeansFifteen(s: State)
    requires Queue(s)
    ensures Next(s.head) == s.tail <==> |s.published| == s.released + COUNT - 1
  {
    NextMod(|s.published|);
    if |s.published| < s.released + COUNT - 1 {
      ModDistinct(s.released, |s.published| + 1);
    }
  }

  lemma WriterKeeps(s: State, frame: Packet)
    requires Inv(s)
    ensures Inv(WriterStep(s, frame))
  {
    match s.w
    case WLoadedHead(f, h) => FullMeansFifteen(s);
    case WCopying(f, h, k) => CopyKeeps(s);
    case WStoreLen(f, h) => StoreLenKeeps(s);
    case WStoreFlag(f, h) => StoreFlagKeeps(s);
    case WStoreHead(f, h) => StoreHeadKeeps(s);
    case _ =>
  }

  /** An empty ring is what the task sees when the head it loaded is the tail. */
  lemma EmptyMeansCaughtUp(s: State)
    requires Inv(s) && s.r.RLoadedHead?
    ensures s.r.head == s.tail <==> s.r.seen == s.released
  {
    if s.r.seen > s.released {
      ModDistinct(s.released, s.r.seen);
    }
  }

  lemma ReadKeeps(s: State)
    requires Inv(s) && s.r.RReading?
    ensures Inv(ReaderStep(s))
  {
    assert Holds(s.slots[s.released % COUNT], s.published[s.released]);
  }

  lemma ClearFlagKeeps(s: State)
    requires Inv(s) && s.r.RStoreFlag?
    ensures Inv(ReaderStep(s))
  {
    TailSlotOldest(s);
    HeadSlotFree(s);
    assert s.tail != s.head;
  }

  lemma StoreTailKeeps(s: State)
    requires Inv(s) && s.r.RStoreTail?
    ensures Inv(ReaderStep(s))
  {
    hide Holds;
    NextMod(s.released);
    StoreTailFlags(s);
    hide Flags;
  }

  lemma StoreTailFlags(s: State)
    requires Sane(s) && Queue(s) && Flags(s) && s.r.RStoreTail? && s.r.slot == s.tail && s.released < |s.published|
    ensures Sane(ReaderStep(s)) && Flags(ReaderStep(s))
  {
    assert (s.released + COUNT) % COUNT == s.tail;
  }

  lemma ReaderKeeps(s: State)
    requires Inv(s)
    ensures Inv(ReaderStep(s))
  {
    match s.r
    case RLoadedHead(h, seen) => EmptyMeansCaughtUp(s);
    case RReading(t, n) => ReadKeeps(s);
    case RStoreFlag(t) => ClearFlagKeeps(s);
    case RStoreTail(t) => StoreTailKeeps(s);
    case _ =>
  }

  // ------------------------------------------------------------ whole runs

  /** Either program takes its next step. */
  datatype Move = Handler(frame: Packet) | Task

  function Step(s: State, m: Move): State
    requires Sane(s)
  {
    match m
    case Handler(frame) => WriterStep(s, frame)
    case Task => ReaderStep(s)
  }

  ghost function Run(s: State, moves: seq<Move>): State
    decreases |moves|
  {
    if moves == [] || !Sane(s) then s else Run(Step(s, moves[0]), moves[1..])
  }

  lemma {:induction false} RunKeeps(s: State, moves: seq<Move>)
    requires Inv(s)
    ensures Inv(Run(s, moves))
    decreases |moves|
  {
    hide Queue, Intact, WriterOk, ReaderOk, Delivery, Flags, WriterStep, ReaderStep;
    if moves != [] {
      match moves[0] {
        case Handler(frame) => WriterKeeps(s, frame);
        case Task => ReaderKeeps(s);
      }
      RunKeeps(Step(s, moves[0]), moves[1..]);
    }
  }

  /** The slots in use by the two programs. */
  predicate Writes(s: State, slot: nat) {
    || (s.w.WCopying? && s.w.slot == slot)
    || (s.w.WPublish? && s.head == slot)
    || ((s.w.WStoreLen? || s.w.WStoreFlag? || s.w.WStoreHead?) && s.w.slot == slot)
  }

  predicate Reads(s: State, slot: nat) {
    || ((s.r.RLoadedTail? || s.r.RLoadLen? || s.r.RReading? || s.r.RStoreFlag? || s.r.RStoreTail?) && s.r.slot == slot)
    || (s.r.RRelease? && s.tail == slot)
  }

  /** Under every interleaving the packets handed to the task are the published packets, in
      order, each once and with its own bytes and length; at most fifteen wait; the handler
      never works on the slot the task works on; and from the hand-over until the release the
      slot keeps the packet, so that the task may use it in place. */
  lemma PacketsComeOutInOrder(moves: seq<Move>)
    ensures var s := Run(Init(), moves);
      && s.delivered <= s.published
      && (HandedOver(s) ==> s.delivered != [] && Sane(s) && Holds(s.slots[s.tail], s.delivered[|s.delivered| - 1]))
      && s.released <= |s.delivered| <= |s.published| <= s.released + COUNT - 1
      && (forall slot :: Writes(s, slot) ==> !Reads(s, slot))
  {
    hide Run, Init;
    InitInv();
    RunKeeps(Init(), moves);
    var s := Run(Init(), moves);
    if s.released < |s.published| {
      ModDistinct(s.released, |s.published|);
      assert Holds(s.slots[s.released % COUNT], s.published[s.released]);
    }
  }

  /** A packet is dropped only when fifteen packets wait to be released. */
  lemma DropsOnlyWhenFull(moves: seq<Move>, frame: Packet)
    ensures var s := Run(Init(), moves);
      && Sane(s)
      && (WriterStep(s, frame).dropped != s.dropped <==>
            s.w.WLoadedHead? && |s.published| == s.released + COUNT - 1)
  {
    hide Run, Init;
    InitInv();
    RunKeeps(Init(), moves);
    FullMeansFifteen(Run(Init(), moves));
  }

  /** Outside the two stores around a move of head or tail, a flag says BUFFER_FULL exactly
      for the slots of published and unreleased packets. */
  lemma FlagsMarkTheQueue(moves: seq<Move>, k: nat)
    ensures var s := Run(Init(), moves);
      && Sane(s)
      && (s.released <= k < s.released + COUNT && !s.w.WStoreHead? && !s.r.RStoreTail? ==>
            (s.slots[k % COUNT].full <==> k < |s.published|))
  {
    hide Run, Init;
    InitInv();
    RunKeeps(Init(), moves);
  }

  // ----------------------------------------------- the four calls, one at a time

  /** The slot `k` places after the tail. */
  function SlotOf(tail: nat, k: nat): (r: nat)
    ensures r < COUNT
  {
    (tail + k) % COUNT
  }

  lemma SlotsDiffer(tail: nat, j: nat)
    requires j < COUNT
    ensures forall k :: 0 <= k < j ==> SlotOf(tail, k) != SlotOf(tail, j)
    ensures forall k :: j < k < COUNT ==> SlotOf(tail, k) != SlotOf(tail, j)
  {
    forall k | 0 <= k < COUNT && k != j
      ensures SlotOf(tail, k) != SlotOf(tail, j)
    {
      ModDistinct(tail + if k < j then k else j, tail + if k < j then j else k);
    }
  }

  lemma WrapsAround(tail: nat, k: nat)
    requires tail < COUNT && 0 < k <= COUNT
    ensures SlotOf(tail, k) == tail <==> k == COUNT
  {
  }

  lemma SlotSteps(tail: nat, k: nat)
    requires tail < COUNT
    ensures SlotOf(tail, 0) == tail && Next(SlotOf(tail, k)) == SlotOf(tail, k + 1)
    ensures SlotOf(Next(tail), k) == SlotOf(tail, k + 1)
  {
  }

  class PacketPool {
    const buffers: array<Buffer>
    var rxHead: nat
    var rxTail: nat
    var rxDropped: nat
    /** The packets that wait, oldest first. */
    ghost var pending: seq<Packet>

    ghost predicate Valid()
      reads this, buffers
    {
      && buffers.Length == COUNT && rxTail < COUNT && |pending| < COUNT
      && rxHead == SlotOf(rxTail, |pending|)
      && (forall i :: 0 <= i < COUNT ==> |buffers[i].data| == PACKET_SIZE)
      && (forall k :: 0 <= k < |pending| ==>
            Holds(buffers[SlotOf(rxTail, k)], pending[k]) && buffers[SlotOf(rxTail, k)].full)
    }

    constructor ()
      ensures Valid() && pending == [] && fresh(buffers)
    {
      buffers := new Buffer[COUNT](_ => EMPTY_BUFFER);
      rxHead, rxTail, rxDropped, pending := 0, 0, 0, [];
    }

    /** The slot to receive into, none exactly when fifteen packets wait. */
    method GetRxBufferForWrite() returns (slot: nat, ok: bool)
      requires Valid()
      modifies this`rxDropped
      ensures Valid() && (ok <==> |pending| < COUNT - 1)
      ensures ok ==> slot == rxHead && forall k :: 0 <= k < |pending| ==> SlotOf(rxTail, k) != slot
      ensures rxDropped == old(rxDropped) + if ok then 0 else 1
    {
      hide SlotOf;
      SlotsDiffer(rxTail, |pending|);
      SlotSteps(rxTail, |pending|);
      WrapsAround(rxTail, |pending| + 1);
      var nextHead := (rxHead + 1) % COUNT;
      ok, slot := nextHead != rxTail, rxHead;
      if !ok {
        rxDropped := rxDropped + 1;
      }
    }

    /** Publishes the frame that was copied into the slot at the head. */
    method RxBufferReady(len: nat)
      requires Valid() && len <= PACKET_SIZE && |pending| < COUNT - 1
      modifies this, buffers
      ensures Valid() && pending == old(pending) + [old(buffers[rxHead]).data[..len]]
      ensures rxDropped == old(rxDropped)
    {
      hide SlotOf;
      SlotsDiffer(rxTail, |pending|);
      SlotSteps(rxTail, |pending|);
      buffers[rxHead] := buffers[rxHead].(len := len % 0x1_0000);
      buffers[rxHead] := buffers[rxHead].(full := true);
      pending := pending + [buffers[rxHead].data[..len]];
      rxHead := (rxHead + 1) % COUNT;
    }

    /** The oldest packet, none exactly when none waits. */
    method GetRxPacket() returns (packet: Packet, ok: bool)
      requires Valid()
      ensures ok <==> pending != []
      ensures ok ==> packet == pending[0]
    {
      hide SlotOf;
      SlotSteps(rxTail, 0);
      SlotsDiffer(rxTail, |pending|);
      if pending != [] {
        assert Holds(buffers[SlotOf(rxTail, 0)], pending[0]);
      }
      if rxHead == rxTail {
        return [], false;
      }
      if !buffers[rxTail].full {
        return [], false;
      }
      return buffers[rxTail].data[..buffers[rxTail].len], true;
    }

    /** Frees the slot of the oldest packet. */
    method ReleaseRxBuffer()
      requires Valid() && pending != []
      modifies this, buffers
      ensures Valid() && pending == old(pending)[1..] && rxDropped == old(rxDropped)
    {
      hide SlotOf;
      SlotsDiffer(rxTail, 0);
      SlotSteps(rxTail, 0);
      ghost var next := Next(rxTail);
      forall k: nat | 0 <= k < COUNT
        ensures SlotOf(next, k) == SlotOf(rxTail, k + 1)
      {
        SlotSteps(rxTail, k);
      }
      buffers[rxTail] := buffers[rxTail].(full := false);
      rxTail := (rxTail + 1) % COUNT;
      assert rxTail == next;
      pending := pending[1..];
    }
  }
}
