/** Whole runs of one connection slot: arbitrary events in arbitrary order, over any number
    of successive connections in the slot. */
module TcpRuns {
  import opened Options
  import opened Bytes
  import opened Tcp
  import opened TcpReceive

  datatype Event =
    | Arrival(seg: Segment, now: nat, net: nat -> bool, iss: u32)
    | Timers(now: nat, net: nat -> bool)
    | Socket
    | ActiveOpen(now: nat, net: nat -> bool, iss: u32)
    | PassiveOpen
    | Reading(count: nat)
    | Writing(data: seq<byte>)
    | Shutdown(now: nat, net: nat -> bool)

  /** The bounds that every control block keeps; a slot that is not in use is closed. */
  predicate Sized(c: Tcb) {
    && |c.rx| <= RX_BUFFER_SIZE && |c.tx| <= RX_BUFFER_SIZE && |c.ooo| == OOO_BUFFER_SIZE
    && c.cc.cwnd >= MSS
    && (c.inUse || c.state == Closed)
  }

  type Connection = c: Tcb | Sized(c) witness FRESH

  /** Segments reach a connection only while its slot is in use. */
  function StepRaw(c: Connection, e: Event): Tcb {
    match e
    case Arrival(seg, now, net, iss) => if c.inUse then ProcessSegment(c, seg, now, net, iss) else c
    case Timers(now, net) => ProcessTimers(c, now, net)
    case Socket => Allocate(c)
    case ActiveOpen(now, net, iss) => Connect(c, now, net, iss)
    case PassiveOpen => StartListening(c)
    case Reading(count) => Recv(c, count)
    case Writing(data) => Send(c, data)
    case Shutdown(now, net) => Close(c, now, net)
  }

  lemma SegmentSized(c: Tcb, seg: Segment, now: nat, net: nat -> bool, iss: u32)
    requires Sized(c) && c.inUse
    ensures Sized(ProcessSegment(c, seg, now, net, iss))
  {
    hide ProcessData, ProcessAck, NewRtt, Add32;
    hide SegmentInListen, SegmentInSynSent, SegmentInEstablished, SegmentInFinWait1;
  }

  lemma TimersSized(c: Tcb, now: nat, net: nat -> bool)
    requires Sized(c)
    ensures Sized(ProcessTimers(c, now, net))
  {
  }

  lemma SocketSized(c: Tcb, now: nat, net: nat -> bool, iss: u32, count: nat, data: seq<byte>)
    requires Sized(c)
    ensures Sized(Allocate(c)) && Sized(Connect(c, now, net, iss)) && Sized(StartListening(c))
    ensures Sized(Recv(c, count)) && Sized(Send(c, data)) && Sized(Close(c, now, net))
  {
    hide Add32;
  }

  lemma StepSized(c: Connection, e: Event)
    ensures Sized(StepRaw(c, e))
  {
    hide ProcessSegment, ProcessTimers, Allocate, Connect, StartListening, Recv, Send, Close;
    match e
    case Arrival(seg, now, net, iss) =>
      if c.inUse {
        SegmentSized(c, seg, now, net, iss);
      }
    case Timers(now, net) => TimersSized(c, now, net);
    case Socket => SocketSized(c, 0, _ => true, 0, 0, []);
    case ActiveOpen(now, net, iss) => SocketSized(c, now, net, iss, 0, []);
    case PassiveOpen => SocketSized(c, 0, _ => true, 0, 0, []);
    case Reading(count) => SocketSized(c, 0, _ => true, 0, count, []);
    case Writing(data) => SocketSized(c, 0, _ => true, 0, 0, data);
    case Shutdown(now, net) => SocketSized(c, now, net, 0, 0, []);
  }

  function Step(c: Connection, e: Event): Connection {
    StepSized(c, e);
    StepRaw(c, e)
  }

  /** A slot together with its history: how many connections it has held, what the
      application has read and written on the current one, and the fate of its two FINs:
      the number of ours, whether bytes were unsent when it went out, whether its number was
      acknowledged; whether the peer's was received, and came right after the data taken. */
  datatype Slot = Slot(tcb: Connection, life: nat, read: seq<byte>, written: seq<byte>,
                       finSeq: Option<u32>, unsentAtClose: bool, finAcked: bool,
                       finReceived: bool, finInOrder: bool)

  /** The sequence number of our FIN, if this event transmits it. */
  function SendsFin(c: Connection, e: Event): Option<u32> {
    if e.Shutdown? && c.inUse && c.state in {Established, CloseWait} && e.net(|c.out|) then Some(c.snd.nxt)
    else None
  }

  /** Each time the slot falls closed a new history begins. */
  function Next(w: Slot, e: Event): Slot {
    var d := Step(w.tcb, e);
    if d.state == Closed then Slot(d, w.life + 1, [], [], None, false, false, false, false)
    else
      var sent := SendsFin(w.tcb, e);
      Slot(d, w.life,
           w.read + (if e.Reading? then RecvBytes(w.tcb, e.count) else []),
           w.written + (if e.Writing? then SendBytes(w.tcb, e.data) else []),
           if sent.Some? then sent else w.finSeq,
           if sent.Some? then |w.tcb.tx| > InFlight(w.tcb) else w.unsentAtClose,
           w.finAcked || (e.Arrival? && e.seg.ack && w.finSeq.Some? && e.seg.ackNum == Add32(w.finSeq.value, 1)),
           w.finReceived || (e.Arrival? && e.seg.fin),
           if e.Arrival? && !FinTaken(w.tcb.state) && FinTaken(d.state) then
             FinAtNext(w.tcb, e.seg)
           else w.finInOrder)
  }

  function Run(w: Slot, events: seq<Event>): Slot
    decreases |events|
  {
    if events == [] then w else Run(Next(w, events[0]), events[1..])
  }

  const EMPTY_SLOT: Slot := Slot(FRESH, 0, [], [], None, false, false, false, false)
}
