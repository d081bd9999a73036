# Ralph OS: models and proofs

Ralph OS is a small kernel. This project models the parts of it whose correctness is hardest
to see from the code, as Dafny programs, and proves what they promise:

- the **Gilbert curve** of the memory visualiser: an arbitrary rectangle is covered exactly
  once, and the exact condition under which the path is unbroken;
- the **TCP engine**: what an application reads is always a prefix of what the peer wrote,
  what is sent is always what was written, what is acknowledged is always what was taken, the
  closing protocol, and timers and congestion control, each over arbitrary runs; and two such
  ends talking to each other;
- the two **first-fit allocators** and the **ownership registry** on top: exact tiling of the
  memory, canonical free lists, exact address queries, and the exact condition under which a
  system without tasks has all its memory back;
- the cooperative **scheduler**: safety over whole runs, sleeping exactly as asked, bounded
  bypass, and together with the registry the exact correspondence of tasks and live memory;
- the **packet ring** between interrupt handler and network task: safety and progress under
  any interleaving of their atomic steps;
- the **BASIC** parser, printer and stepper: exactly which token sequences are which
  expressions, what survives LIST and a reload, how often loops run and where calls return;
- the **checksum** and **telnet** codecs.

Code that works in place is modelled in place: `RingBuffers.RingBuffer`,
`TcpBlock.TcpControlBlock`, `FreeLists.FreeList`, `Heap.LinkedListAllocator`,
`ProgramMemory.ProgramAllocator`, `Ownership.Registry`, `SchedulerCore.TaskScheduler`,
`PacketRing.PacketPool`, `GilbertTables.Tables`, `Telnet.TelnetTerminal`, `BasicParser.Parser`
and `BasicInterpreter.Interpreter` are classes whose methods are proved to do what functions
on values say. The properties over whole runs are proved about those functions. Free lists
are kept in a map from address to header, linked as in memory.

Three choices run through the models. An answer from outside (the network layer accepting a
segment, the results of `send` and `recv` under telnet, the value of an expression in BASIC)
is an arbitrary parameter, so that results hold for every such answer. Time is a tick count
given to each operation. A fixed-width number is written out where its width matters:
sequence numbers modulo 2^32, counters modulo 256, the loop variables of BASIC in 64 bits,
saturating window growth, 16-bit table entries and truncating division.

Some promises do not hold as stated, and the project says exactly when they do.

- *Perfect continuity* of the curve (src/gilbert.rs:6-10) fails for an odd width with an even
  height, for instance 3 x 4. It holds exactly when the width is even or 1, or the height is
  odd or 2 (`Gilbert.CurveContinuity`). The screen, 320 x 192, has an even width.
- After a close with unsent data, a retransmission puts a data byte at the sequence number of
  the FIN: exactly when bytes were unsent at the close (`TcpClosing.DataMeetsFin`; a run is in
  `TcpExamples.FinOverwritten`).
- A FIN is taken whatever came before it, so `recv` can report the end of a stream of which
  data is missing. There are three ways: the FIN's segment does not start at the next expected
  number; it does, but the receive ring has no room for all of its payload; or it carries
  payload while the connection is in FinWait1 or FinWait2, where payload is ignored. Nothing is
  missing exactly when the FIN stands right after what can be taken
  (`TcpEndOfStream.WholeStreamRead`, `TcpEndOfStream.InOrderFin`; a run is in
  `TcpEndOfStream.FinTooSoon`).
- A program for which there is room, and then none for the stack of its task, keeps its memory
  for good (`Ownership.LeakExample`), and so does an allocation for a task that is not
  registered; these are the only leaks (`Ownership.StepKeeps`,
  `Ownership.EverythingComesBack`).
- The region never becomes whole again once tasks run, because the last task is never reaped.
  With no leak, what is live is what the listed tasks hold (`Kernel.MemoryFollowsTasks`).
- LIST does not always print what LOAD reads back: grouping is lost, and a line after an empty
  REM disappears. `BasicProgram.ProgramReload` has the exact condition.
- The SYN that is sent a second time when both sides open at once carries iss + 1 instead of
  iss, and a SYN or FIN that is lost is not sent again (`TcpAcks.TellsTheTruth`,
  `TcpAcks.TimersSay`).
- The window offered is larger than the room in the receive ring after early data came due,
  until the next read (`TcpWindow.WindowStep`; a run is in `TcpWindow.OffersTooMuch`).
- The retransmission timer of the handshake stays set, so that an open connection on which
  nothing was sent backs off (`TcpTimers.IdleBackoff`).
- Parameters of a telnet subnegotiation that contain 0xFF 0xF0 end it early
  (`TelnetStreams.ParametersSkipped`), and two such terminals answer each other's negotiation
  for ever (`TelnetStreams.NeverSettles`).
- A bare CR does not survive the telnet codec: it is decoded as LF NUL (`Telnet.RoundTrip`).
- A FOR loop with step 0 that does not start below its end never ends
  (`BasicLoops.EndlessRounds`, `BasicLoops.EndlessExample`). One whose last value plus step
  does not fit 64 bits starts over from the wrapped sum, since the kernel is built without
  overflow checks (`BasicLoops.TripCount`, `BasicLoops.LeavesWhenItFits`,
  `BasicLoops.OverflowExample`).

## Model

| member | source | states |
|---|---|---|
| `Gilbert.CurveCovers` | src/gilbert.rs:99-175 | for every width and height at least 1 the curve visits each cell of the rectangle exactly once and no other cell |
| `Gilbert.CurveLength` | src/gilbert.rs:99-175 | the curve has exactly width times height points |
| `Gilbert.CurveEnds` | src/gilbert.rs:99-175 | the curve starts at the origin and ends at the far corner of the first axis, except that a single column ends at its other end and an odd width of height 2 ends one cell short |
| `Gilbert.SmoothContinuous` | src/gilbert.rs:133-174 | under the parity condition consecutive points are at Manhattan distance 1, through every split and every parity adjustment |
| `Gilbert.WideSmooth` | src/gilbert.rs:142-152 | where the parity condition holds, it holds again for both parts of the two-way split, which is what the adjustment for an odd half is for |
| `Gilbert.TallSmooth` | src/gilbert.rs:153-174 | likewise for the three parts of the other split |
| `Gilbert.FlatSmooth` | src/gilbert.rs:153-174 | and for the parts of a rectangle of height 2 and width 2 or 3; wider ones of that height are split the other way |
| `Gilbert.RoughDiscontinuous` | src/gilbert.rs:99-175 | for an odd width and an even height (other than 1 and 2) the curve is not continuous, by a parity argument on its two ends |
| `Gilbert.CurveContinuity` | src/gilbert.rs:6-10 | the promised continuity holds if and only if the width is even or 1, or the height is odd or 2 |
| `Gilbert.BrokenExample` | src/gilbert.rs:6-10 | a concrete rectangle, 3 by 4, whose curve is broken |
| `GilbertScreen.PushLine` | src/gilbert.rs:109-131 | the loop that walks along one axis pushes exactly the points of the line |
| `GilbertScreen.Gilbert2d` | src/gilbert.rs:99-175 | for every signed axis-aligned frame, with division truncating toward zero, the recursion appends exactly the placed curve to the path and terminates |
| `GilbertScreen.DrawWide` | src/gilbert.rs:142-152 | the two-way split appends exactly the curve of the wide case |
| `GilbertScreen.DrawTall` | src/gilbert.rs:153-174 | the three-way split, with its reversed axes, appends exactly the curve of the tall case |
| `GilbertScreen.SplitVector` | src/gilbert.rs:139-159 | the test on the length of the halved vector is the test on its one nonzero component |
| `GilbertScreen.SplitComponentLength` | src/gilbert.rs:134-159 | halving a signed component toward zero and adjusting it by its sign gives the split of its length, in either direction |
| `GilbertScreen.PlacedCoverage` | src/gilbert.rs:99-175 | on the screen, in any orientation, every point of the rectangle is visited exactly once and no other point ever |
| `GilbertScreen.PlacedContinuity` | src/gilbert.rs:99-175 | in any orientation the path starts at (x, y), is unbroken exactly under the parity condition, and for even widths ends at the far corner of the first axis |
| `GilbertTables.CurveTours` | src/gilbert.rs:99-175 | the curve is a tour: a bijection between indices and pixels |
| `GilbertTables.Tables.Init` | src/gilbert.rs:34-57 | both tables describe the generated curve |
| `GilbertTables.Tables.Record` | src/gilbert.rs:43-49 | the table loop records every index and every pixel, with no loss in the 16-bit entries |
| `GilbertTables.Tables.IndexRoundTrip` | src/gilbert.rs:70-88 | index to pixel to index is the identity on the 320x192 screen, and neighbouring indices are neighbouring pixels |
| `GilbertTables.Tables.PixelRoundTrip` | src/gilbert.rs:70-88 | pixel to index to pixel is the identity and every index fits 16 bits |
| `TcpSafety.ReadsPrefixOfPeer` | src/net/tcp.rs:648-882 | over every run of a slot, for any order, loss, duplication and truncation of arriving segments, provided only that payload agrees with the peer stream of the connection (segments without payload are arbitrary), what was read followed by the receive ring is a prefix of that stream, and rcv_nxt is irs + 1 + its length, plus 1 once a FIN was taken, modulo 2^32 |
| `TcpSafety.SendsWhatWasWritten` | src/net/tcp.rs:885-1059 | over every run, every segment ever sent or sent again carries the application bytes of its sequence number, and in an open connection the transmit ring is the unacknowledged rest of what was written, of which the flight is a prefix |
| `TcpSafety.StepKeepsReceive` | src/net/tcp.rs:648-811 | every event keeps the receive invariant; only payload has to agree with the stream |
| `TcpSafety.StepKeepsSend` | src/net/tcp.rs:648-811 | every event keeps the send invariant |
| `TcpSafety.RunKeepsReceive` | src/net/tcp.rs:648-882 | the receive invariant holds over whole runs and across reuse of the slot |
| `TcpSafety.RunKeepsSend` | src/net/tcp.rs:885-1059 | the send invariant holds over whole runs |
| `TcpReceive.DeliverExtends` | src/net/tcp.rs:823-828 | in-order data extends the prefix by exactly what fits into the ring |
| `TcpReceive.DeliverOooExtends` | src/net/tcp.rs:866-882 | delivering buffered early segments, in whatever order they become due, extends the prefix |
| `TcpReceive.BufferOooKeeps` | src/net/tcp.rs:846-863 | an early segment cut to 512 bytes still carries the peer stream |
| `TcpReceive.TakeInOrderKeeps` | src/net/tcp.rs:823-831 | in-order data and the early data it makes due extend the prefix |
| `TcpReceive.ProcessDataKeeps` | src/net/tcp.rs:814-843 | in-order, early and old segments all keep the prefix, and so does any segment without payload |
| `TcpSend.AckWithinFlight` | src/net/tcp.rs:885-891 | an acknowledgment that advances never covers unsent bytes, across wrap-around of the sequence numbers |
| `TcpSend.AckNewDataKeeps` | src/net/tcp.rs:886-917 | consuming acknowledged bytes keeps the window on the application stream |
| `TcpSend.AckDuplicateKeeps` | src/net/tcp.rs:918-930 | fast retransmission sends application bytes at their own sequence numbers |
| `TcpSend.ProcessAckKeeps` | src/net/tcp.rs:885-931 | any acknowledgment keeps the send invariant |
| `TcpSend.SendPendingKeeps` | src/net/tcp.rs:1028-1059 | new data is taken from the ring right after the flight |
| `TcpSend.RetransmitKeeps` | src/net/tcp.rs:959-978 | a retransmission keeps the send invariant |
| `TcpSend.RetransmitRepeatsSent` | src/net/tcp.rs:959-978 | while the connection is open a retransmission carries only bytes that were sent before |
| `TcpSend.RetransmitMeetsFin` | src/net/tcp.rs:959-978 | in a state with the FIN pending, a retransmission reaches past the data in flight exactly when the ring holds more than was in flight before the FIN |
| `TcpSend.CloseKeeps` | src/net/tcp.rs:1199-1229 | sending the FIN keeps the send invariant |
| `TcpClosing.StepFollowsDiagram` | src/net/tcp.rs:648-811 | every state change of every event is an edge of the diagram in section 3.3.2 of RFC 9293 or an abort to Closed |
| `TcpClosing.RunKeepsClosing` | src/net/tcp.rs:648-811 | over whole runs the states agree with which FINs were sent, acknowledged and received |
| `TcpClosing.TimeWaitIsEarned` | src/net/tcp.rs:755-798 | a connection in TimeWait has sent its FIN, received an acknowledgment of its number and received the peer FIN; that the acknowledged number stood for the FIN and not for data is DataMeetsFin |
| `TcpClosing.LastAckEnds` | src/net/tcp.rs:800-805 | LastAck is left only for Closed, and only by acknowledgment of the FIN, a reset, a timeout or reuse of the slot |
| `TcpClosing.DataMeetsFin` | src/net/tcp.rs:959-978 | over every run, payload sent while the FIN is pending covers the sequence number of the FIN if and only if bytes were unsent when the close was accepted |
| `TcpExamples.FinOverwritten` | src/net/tcp.rs:1199-1229 | a run of seven events in which the one byte written goes out under the sequence number of the FIN |
| `TcpClosing.RunKeepsClose` | src/net/tcp.rs:1199-1229 | from the close on, ring and flight keep telling whether bytes were unsent |
| `TcpEndOfStream.WholeStreamRead` | src/net/tcp.rs:736-784 | over every run, once a FIN was taken, what was read and waits is the whole stream of the peer if and only if, judged before its segment was processed, the FIN stood right after rcv_nxt plus the data of the segment that an open connection had room for |
| `TcpEndOfStream.FinCompletes` | src/net/tcp.rs:746-784 | the same for the single step that takes the FIN |
| `TcpEndOfStream.LastDataTaken` | src/net/tcp.rs:823-831 | early segments add nothing to the segment that ends the stream, because the ring is full or the stream complete |
| `TcpEndOfStream.InOrderFin` | src/net/tcp.rs:755-784 | a FIN whose segment starts at rcv_nxt loses data exactly when the segment has payload and the ring has no room for all of it or the connection is closing |
| `TcpEndOfStream.FinTooSoon` | src/net/tcp.rs:746-752 | a run within the hypotheses of that theorem in which the one byte of the peer is lost, its FIN is taken all the same, and the end of the stream is reported with nothing read |
| `TcpBounds.RunsStayBounded` | src/net/tcp.rs:885-1025 | over every run MSS <= cwnd, 2 MSS <= ssthresh, MIN_RTO <= rto <= MAX_RTO, and srtt and rttvar never exceed the largest tick |
| `TcpBounds.NoOverflow` | src/net/tcp.rs:934-956 | over every run with ticks below 2^60 no 64-bit or 32-bit intermediate overflows and the congestion window is never a zero divisor |
| `TcpBounds.FlightWithinWindow` | src/net/tcp.rs:1028-1059 | over every run, whenever an event of an open connection moves snd_nxt, the flight it leaves is at most the smaller of the two windows |
| `TcpBounds.ProcessAckBounded` | src/net/tcp.rs:885-931 | acknowledgments keep the congestion and timer bounds |
| `TcpAcks.TellsTheTruth` | src/net/tcp.rs:524-565 | over every run: a segment an event sends acknowledges irs + 1 + everything read or waiting to be read, plus 1 once the FIN is taken; payload acknowledges what was taken before the event, and in the event that takes the FIN an answer to data sent before it lacks the 1. Each carries the window, and stands at its own number: a SYN at iss (at iss + 1 when both sides open at once), a FIN and a pure acknowledgment at snd_nxt |
| `TcpAcks.StepSays` | src/net/tcp.rs:648-811 | the same for one event, in terms of rcv_nxt, for every state |
| `TcpAcks.EstablishedSays` | src/net/tcp.rs:736-753 | in an open connection: what the acknowledgment sends again, then the answer to the data, then the answer to the FIN |
| `TcpAcks.DataIsAnswered` | src/net/tcp.rs:814-843 | data that reaches an open connection is answered exactly if its number is rcv_nxt or after it: once, and the FIN once more |
| `TcpAcks.TimersSay` | src/net/tcp.rs:986-1059 | timers send payload and nothing else, so a SYN or FIN that is lost is not sent again |
| `TcpWindow.WindowStep` | src/net/tcp.rs:822-838 | the exact window after every event: the room there is after reading; after in-order data the room that data leaves, which is the room there is exactly if no early data came due; otherwise as before |
| `TcpWindow.RoomIsOffered` | src/net/tcp.rs:822-838 | over every run the window offered is at least the room in the receive ring and at most its size |
| `TcpWindow.OffersTooMuch` | src/net/tcp.rs:822-838 | a run in which two bytes arrive in the wrong order and the window offers one byte more than there is room for |
| `TcpTimers.FlightIsWatched` | src/net/tcp.rs:885-1059 | over every run the retransmission timer is set whenever anything is unacknowledged |
| `TcpTimers.StepKeepsWatch` | src/net/tcp.rs:648-1059 | every event keeps that |
| `TcpTimers.Expiry` | src/net/tcp.rs:1004-1017 | at an expiry the unacknowledged head goes out again at snd_una, the timeout doubles up to its limit and the window shrinks to one segment; the sixth expiry gives the connection up |
| `TcpTimers.GivesUp` | src/net/tcp.rs:1004-1017 | a silent peer: through five expiries data and state stay, with the timeout min(rto * 2^n, 6000), and at the sixth the connection is reset |
| `TcpTimers.IdleBackoff` | src/net/tcp.rs:718-734 | a run in which the timer of the handshake doubles the timeout of an open connection with nothing in flight |
| `TcpTimers.TimeWaitLasts` | src/net/tcp.rs:995-1002 | whatever else happens, short of a reset and the reuse of the slot, a connection stays in TimeWait as long as no timer run comes at its end or after |
| `TcpTimers.TimeWaitStep` | src/net/tcp.rs:995-1002 | and the first such timer run ends it |
| `TcpTimers.EntersTimeWait` | src/net/tcp.rs:755-798 | the end is set 3000 ticks after the segment that leads there |
| `TcpTimers.FillsTheWindow` | src/net/tcp.rs:1028-1059 | the flight is filled to the least of the buffered data, both windows and one more segment |
| `TcpTimers.EstimateMoves` | src/net/tcp.rs:934-956 | the estimate moves toward the measurement by an eighth of the difference, rounding aside, and never past it |
| `TcpTimers.DeviationMoves` | src/net/tcp.rs:943-949 | the deviation moves toward the last error by a quarter of the difference |
| `TcpTimers.EstimateSettles` | src/net/tcp.rs:934-956 | under a constant round-trip time the estimate settles on it, up to seven ticks below |
| `TcpTimers.SlowStart` | src/net/tcp.rs:897-899 | below the threshold the congestion window grows by what is acknowledged |
| `TcpTimers.OneSegmentPerWindow` | src/net/tcp.rs:900-905 | from the threshold on it grows by at most one segment per window of acknowledgments |
| `TcpTimers.ThirdRepeats` | src/net/tcp.rs:918-930 | a repeated acknowledgment sends something exactly when it is the third, modulo 256, and data is in flight |
| `TcpTransfer.Handshake` | src/net/tcp.rs:665-734 | an active and a passive open of two such ends, for any two initial numbers, bring them in step with three segments |
| `TcpTransfer.Crosses` | src/net/tcp.rs:814-1059 | a message of up to 1024 bytes written at one end is read whole at the other, and both are in step again |
| `TcpTransfer.AllCross` | src/net/tcp.rs:814-1059 | any number of messages, one after the other, arrive complete and in order |
| `TcpRuns.StepSized` | src/net/tcp.rs:257-330 | every event keeps the ring sizes, the early-segment slots and a congestion window of at least one segment |
| `Tcp.DropLowersValidCount` | src/net/tcp.rs:866-882 | the repeat loop over early segments terminates |
| `RingBuffers.RingBuffer.constructor` | src/net/tcp.rs:182-190 | a new ring is empty |
| `RingBuffers.RingBuffer.Write` | src/net/tcp.rs:200-208 | appends exactly what fits, across the wrap-around of the array |
| `RingBuffers.RingBuffer.Read` | src/net/tcp.rs:210-218 | removes the oldest bytes, in order |
| `RingBuffers.RingBuffer.PeekOffset` | src/net/tcp.rs:230-241 | copies a stretch of the contents and changes nothing |
| `RingBuffers.RingBuffer.Consume` | src/net/tcp.rs:243-247 | drops the oldest bytes |
| `RingBuffers.RingBuffer.Clear` | src/net/tcp.rs:249-253 | empties the ring |
| `TcpBlock.TcpControlBlock.constructor` | src/net/tcp.rs:331-365 | a new control block is the fresh value |
| `TcpBlock.TcpControlBlock.Reset` | src/net/tcp.rs:367-369 | any control block becomes the fresh value |
| `TcpBlock.TcpControlBlock.SendSegment` | src/net/tcp.rs:524-530 | a segment without payload at snd_nxt, acknowledging rcv_nxt; what that number says is `TcpAcks.TellsTheTruth` |
| `TcpBlock.TcpControlBlock.SendSegmentSeq` | src/net/tcp.rs:532-564 | one data segment at the given number |
| `TcpBlock.TcpControlBlock.UpdateRtt` | src/net/tcp.rs:934-956 | the new estimate is that of section 2 of RFC 6298 with the limits applied |
| `TcpBlock.TcpControlBlock.Retransmit` | src/net/tcp.rs:959-978 | does what the value model of the operation does |
| `TcpBlock.TcpControlBlock.ProcessAck` | src/net/tcp.rs:885-931 | new, repeated and other acknowledgments, as in the value model |
| `TcpBlock.TcpControlBlock.AckNewData` | src/net/tcp.rs:886-917 | consumes, measures, grows the window and restarts or stops the timer, as in the value model |
| `TcpBlock.TcpControlBlock.GrowWindow` | src/net/tcp.rs:896-905 | slow start below the threshold, one segment per window above it, saturating |
| `TcpBlock.TcpControlBlock.AckDuplicate` | src/net/tcp.rs:918-930 | counts repeats modulo 256; the third halves the window and retransmits |
| `TcpBlock.TcpControlBlock.SendPendingData` | src/net/tcp.rs:1028-1059 | sends what both windows and the ring allow, as in the value model |
| `TcpBlock.TcpControlBlock.UpdateRcvWnd` | src/net/tcp.rs:392-394 | the window offered is the free space of the ring |
| `TcpBlock.TcpControlBlock.Deliver` | src/net/tcp.rs:824-826 | writes to the ring and advances rcv_nxt by what was taken |
| `TcpBlock.TcpControlBlock.BufferOooSegment` | src/net/tcp.rs:846-863 | fills the first free slot with at most 512 bytes |
| `TcpBlock.TcpControlBlock.FindInOrder` | src/net/tcp.rs:869-877 | the first early segment that is due |
| `TcpBlock.TcpControlBlock.DeliverSlot` | src/net/tcp.rs:871-873 | delivers one early segment and empties its slot |
| `TcpBlock.TcpControlBlock.DeliverOooSegments` | src/net/tcp.rs:866-882 | the scan that restarts after each delivery delivers exactly what the value model does |
| `TcpBlock.TcpControlBlock.ProcessData` | src/net/tcp.rs:814-843 | in-order, early and old segments, as in the value model |
| `TcpBlock.TcpControlBlock.TakeFin` | src/net/tcp.rs:746-749 | advances past the FIN and acknowledges it |
| `TcpBlock.TcpControlBlock.ProcessSegment` | src/net/tcp.rs:648-811 | all eleven states, as in the value model |
| `TcpBlock.TcpControlBlock.SegmentInListen` | src/net/tcp.rs:665-684 | passive open |
| `TcpBlock.TcpControlBlock.SegmentInSynSent` | src/net/tcp.rs:686-716 | active and simultaneous open |
| `TcpBlock.TcpControlBlock.Establish` | src/net/tcp.rs:718-723 | completion of the handshake |
| `TcpBlock.TcpControlBlock.SegmentInEstablished` | src/net/tcp.rs:736-753 | acknowledgment, data and FIN in that order |
| `TcpBlock.TcpControlBlock.SegmentInFinWait1` | src/net/tcp.rs:755-774 | acknowledgment of the FIN, the peer FIN, or both |
| `TcpBlock.TcpControlBlock.ProcessTimers` | src/net/tcp.rs:986-1025 | TimeWait expiry, retransmission with back-off, abort after five, and pending data |
| `TcpBlock.TcpControlBlock.Allocate` | src/net/tcp.rs:455-478 | one slot: taken exactly when it is free or closing, and then fresh and in use |
| `TcpTable.AllocConnection` | src/net/tcp.rs:451-482 | over the whole table: the first free slot, otherwise the first closing one, otherwise none; every other slot stays as it is |
| `TcpBlock.TcpControlBlock.Connect` | src/net/tcp.rs:1071-1106 | sends the SYN and enters SynSent if it was accepted |
| `TcpBlock.TcpControlBlock.StartListening` | src/net/tcp.rs:1109-1126 | enters Listen from Closed |
| `TcpBlock.TcpControlBlock.Recv` | src/net/tcp.rs:1154-1178 | the bytes returned, the result code and the new state |
| `TcpBlock.TcpControlBlock.Send` | src/net/tcp.rs:1181-1196 | the bytes accepted, the result code and the new state |
| `TcpBlock.TcpControlBlock.Close` | src/net/tcp.rs:1199-1229 | FIN from Established and CloseWait, reset from SynSent and Listen |
| `Blocks.CanonicalUnique` | src/allocator.rs:231-286 | a sorted free list without touching blocks is determined by the addresses it covers |
| `Blocks.CoalesceCanonical` | src/allocator.rs:263-286 | merging leaves no two touching blocks |
| `Blocks.CoalesceCovered` | src/allocator.rs:263-286 | merging covers the same addresses as before |
| `Blocks.InsertCovered` | src/allocator.rs:231-260 | insertion adds exactly the addresses of the block |
| `Blocks.TakeCanonical` | src/allocator.rs:146-175 | splitting a block keeps the list sorted and without touching blocks |
| `Blocks.TakeCovered` | src/allocator.rs:146-175 | splitting removes exactly the addresses of the used front |
| `Blocks.FirstFitLowest` | src/allocator.rs:134-147 | first fit takes the lowest block that is large enough |
| `FreeLists.FreeList.Single` | src/allocator.rs:110-119 | a list of one block |
| `FreeLists.FreeList.Add` | src/allocator.rs:231-260 | relinking pointers inserts the block at its place in address order and writes no other header |
| `FreeLists.FreeList.Merge` | src/allocator.rs:263-286 | one pass over the links merges every run of touching blocks |
| `FreeLists.FreeList.FindFit` | src/allocator.rs:134-146 | the first block large enough and the link before it |
| `FreeLists.FreeList.Unlink` | src/allocator.rs:147-158 | links a block out |
| `FreeLists.FreeList.Replace` | src/program_alloc.rs:108-123 | puts the rest of a split block in the place of the whole |
| `Tiling.TilesUnique` | src/allocator.rs:231-286 | the free list is a function of the live blocks |
| `Tiling.TakeTiles` | src/allocator.rs:127-198 | allocation keeps live and free blocks an exact tiling of the region |
| `Tiling.GiveTiles` | src/allocator.rs:205-228 | release keeps the tiling |
| `Tiling.TakeThenGive` | src/allocator.rs:127-228 | taking a block and giving it back restores the free list |
| `Tiling.NothingLive` | src/program_alloc.rs:157-231 | when nothing is live the free list is the one original region |
| `Tiling.Conservation` | src/program_alloc.rs:236-247 | live and free bytes add up to the region |
| `Tiling.NextBoundary` | src/allocator.rs:473-513 | a walk over blocks stays on block boundaries |
| `Heap.AllocatedSound` | src/allocator.rs:127-198 | allocation keeps the heap tiled, sorted, aligned, merged and with blocks of at least the minimum size |
| `Heap.ReleasedSound` | src/allocator.rs:205-228 | so does release |
| `Heap.HistorySound` | src/allocator.rs:127-228 | so does every history of allocations and releases |
| `Heap.HistoriesAreCanonical` | src/allocator.rs:110-286 | two histories from the initial heap with the same live blocks have the same free list |
| `Heap.AllocateThenRelease` | src/allocator.rs:127-228 | an allocation released at once leaves the heap as it was |
| `Heap.LinkedListAllocator.constructor` | src/allocator.rs:110-119 | the heap starts as one free block |
| `Heap.LinkedListAllocator.Allocate` | src/allocator.rs:127-198 | null exactly when no free block is large enough; otherwise a new live block at the lowest address that fits, aligned, less than 16 bytes larger than header and data in whole units |
| `Heap.LinkedListAllocator.Carve` | src/allocator.rs:147-183 | the front of the chosen block becomes live and a large enough rest returns to the list |
| `Heap.LinkedListAllocator.Deallocate` | src/allocator.rs:205-228 | the block whose header precedes the pointer is released and merged |
| `Heap.LinkedListAllocator.BlockAt` | src/allocator.rs:474-512 | at a boundary, tells free from live and finds the next boundary |
| `Heap.LinkedListAllocator.Walk` | src/allocator.rs:465-516 | the walk terminates at the block around the address |
| `Heap.LinkedListAllocator.FindAllocation` | src/allocator.rs:465-516 | precisely the live block around the address, none exactly when there is none |
| `Heap.LinkedListAllocator.FindFreeRegion` | src/allocator.rs:522-570 | precisely the free block around the address, none exactly when there is none; with the previous one, exactly one of the two answers inside the heap |
| `Heap.LinkedListAllocator.FindAllocationOwner` | src/allocator.rs:577-629 | the owner recorded for the live block around the address |
| `ProgramMemory.AcquiredSound` | src/program_alloc.rs:88-150 | allocation in the program region keeps the tiling |
| `ProgramMemory.ReturnedSound` | src/program_alloc.rs:157-173 | so does release |
| `ProgramMemory.PagesKept` | src/program_alloc.rs:78-95 | requests above zero keep every free block and every allocation page-aligned |
| `ProgramMemory.ProgramAllocator.constructor` | src/program_alloc.rs:70-75 | the region starts as one free block |
| `ProgramMemory.ProgramAllocator.Allocate` | src/program_alloc.rs:88-150 | first fit in whole pages: the lowest free block that is large enough, none exactly when nothing fits |
| `ProgramMemory.ProgramAllocator.SplitFront` | src/program_alloc.rs:101-134 | the front is taken and the rest stays in its place in the list |
| `ProgramMemory.ProgramAllocator.Deallocate` | src/program_alloc.rs:157-173 | the block comes back and is merged |
| `ProgramMemory.ProgramAllocator.Stats` | src/program_alloc.rs:236-247 | used plus free is the region size, and used is the size of the live blocks |
| `ProgramMemory.ProgramAllocator.FindAllocation` | src/program_alloc.rs:291-333 | the maximal allocated run around the address, none exactly when the address is free or outside |
| `ProgramMemory.ProgramAllocator.FindFreeRegion` | src/program_alloc.rs:339-362 | the free block around the address, none exactly when there is none |
| `Ownership.SpawnTaskKeeps` | src/task.rs:107-165 | a new task and its stack keep the ownership invariant |
| `Ownership.TaskAllocKeeps` | src/executable.rs:405-424 | task_alloc keeps the invariant; it leaks exactly when the task is not registered |
| `Ownership.TaskFreeKeeps` | src/executable.rs:430-444 | task_free keeps the invariant and leaks nothing |
| `Ownership.FreesOwnBlock` | src/executable.rs:430-444 | task_free gives back exactly one live block, which starts at the pointer and is held by this task, with its recorded size; any other pointer changes nothing |
| `Ownership.UnloadKeeps` | src/executable.rs:450-484 | unload_task releases all blocks of the task and no other |
| `Ownership.SpawnProgramKeeps` | src/api.rs:247-300 | starting a program keeps the invariant; it leaks exactly when there is room for the program and then none for the stack of its task |
| `Ownership.StepKeeps` | src/executable.rs:383-484 | every event keeps the invariant and leaks exactly under those conditions |
| `Ownership.RunKeeps` | src/executable.rs:383-484 | the invariant holds over whole runs |
| `Ownership.EverythingComesBack` | src/executable.rs:383-484 | over every run allocated plus free is the region; once all tasks are unloaded the free list is the one original region if and only if nothing leaked |
| `Ownership.LeakExample` | src/api.rs:247-253 | one load after boot, of a program as large as the region, leaves no task and no free memory |
| `Ownership.HoldingsDisjoint` | src/executable.rs:87-106 | any two blocks registered to tasks are disjoint |
| `Ownership.Registry.constructor` | src/executable.rs:118-126 | no tasks and the whole region free |
| `Ownership.Registry.NewTask` | src/executable.rs:383-388 | a stack is allocated and registered, or nothing changes |
| `Ownership.Registry.LaunchProgram` | src/api.rs:247-300 | load, task creation, registration and arguments: true exactly when there is room for program, stack and arguments in turn; what each failure leaves behind |
| `Ownership.Registry.Alloc` | src/executable.rs:405-424 | the address is that of the first fit; registered under the task if it exists |
| `Ownership.Registry.FreeBlock` | src/executable.rs:430-444 | true exactly when the pointer starts a heap block of this task |
| `Ownership.Registry.Unload` | src/executable.rs:450-484 | heap blocks, program and stack go back |
| `Ownership.Registry.FindTaskByProgramAddr` | src/executable.rs:556-585 | the one task whose memory contains the address, none exactly when there is none |
| `SchedulerSafety.ReapKeepsCurrent` | src/scheduler.rs:172-203 | reaping never changes which task `current` denotes: the index moves down by the number of reaped tasks before it |
| `SchedulerSafety.StepKeeps` | src/scheduler.rs:206-260 | every event keeps the scheduler invariant |
| `SchedulerSafety.RunKeeps` | src/scheduler.rs:206-287 | the invariant holds over whole runs |
| `SchedulerSafety.RunsAreSafe` | src/scheduler.rs:131-287 | after every run from boot the current task is the only running one, contexts are in their own slots, no sleeper runs early, the scheduler waits only while no task is ready, nothing is unloaded twice or while it is in the list |
| `SchedulerSafety.SearchIsComplete` | src/scheduler.rs:142-157 | a search that finds nothing means that no task is ready |
| `SchedulerSafety.FinishedStaysFinished` | src/scheduler.rs:346-360 | a finished task never runs again |
| `SchedulerSafety.GoneMeansUnloaded` | src/scheduler.rs:172-203 | a task leaves the list only if it had finished and was not current, and its memory is unloaded in that step |
| `SchedulerSleep.SleepsAsAsked` | src/scheduler.rs:329-337 | a task that sleeps for some ticks is neither ready nor running in any run while the clock is below now + ticks, and after that until the next event that wakes sleepers, which leaves it ready or running |
| `SchedulerSleep.SleeperStep` | src/scheduler.rs:131-138 | a sleeper is woken exactly by a waking event at or after its tick; every other event leaves it asleep |
| `SchedulerSleep.GoesToSleep` | src/scheduler.rs:329-337 | the step in which the running task goes to sleep |
| `SchedulerSleep.YieldStaysAwake` | src/scheduler.rs:319-326 | a task that yields is ready or running |
| `SchedulerSleep.ExitIsForGood` | src/scheduler.rs:346-360 | a task that exits never runs again, whatever happens after |
| `SchedulerSleep.SpawnAddsReady` | src/scheduler.rs:107-128 | a new task has a new name, is ready, and leaves the others alone |
| `Kernel.StepRemoves` | src/scheduler.rs:172-203 | a step of the scheduler removes exactly the tasks it unloads |
| `Kernel.StepKeeps` | src/executable.rs:450-484 | with every event of scheduler or memory exactly the listed tasks stay registered, and memory leaks exactly when a program is loaded for which there is no stack |
| `Kernel.MemoryFollowsTasks` | src/scheduler.rs:172-260 | over every run of scheduler and memory together a block is live if and only if a task in the list holds it or it leaked; the list is never empty, since the last task is never reaped, and so the free list is never the whole region |
| `Kernel.OneTaskLeft` | src/scheduler.rs:172-203 | once all tasks but one are reaped, in a run without leaks, the live blocks are exactly those of that task |
| `SchedulerFairness.ReapApproaches` | src/scheduler.rs:172-203 | reaping never increases the cyclic distance to a waiting task |
| `SchedulerFairness.TrySwitchApproaches` | src/scheduler.rs:142-157 | a switch dispatches a waiting task or comes strictly closer to it |
| `SchedulerFairness.StepApproaches` | src/scheduler.rs:206-260 | every event lowers the distance by a switch and raises it by at most a spawn |
| `SchedulerFairness.BoundedBypass` | src/scheduler.rs:107-260 | a ready task at cyclic distance d is dispatched within d switches plus one for every task spawned meanwhile, across sleeping, waking, exiting and reaping |
| `SchedulerCore.TaskScheduler.Spawn` | src/scheduler.rs:107-128 | a new ready task at the end with a new id, or nothing |
| `SchedulerCore.TaskScheduler.WakeSleepingTasks` | src/scheduler.rs:131-138 | exactly the sleepers whose tick has come become ready |
| `SchedulerCore.TaskScheduler.FindNextReady` | src/scheduler.rs:142-157 | the first ready task in cyclic order after the current one |
| `SchedulerCore.TaskScheduler.ReapFinishedTasks` | src/scheduler.rs:172-203 | finished tasks other than the current one are removed and unloaded, and the index is adjusted |
| `SchedulerCore.TaskScheduler.SwitchTo` | src/scheduler.rs:225-242 | the outgoing context is saved into the outgoing slot and the incoming one resumed |
| `SchedulerCore.TaskScheduler.Schedule` | src/scheduler.rs:206-260 | waking, reaping and switching in that order, then the wait |
| `SchedulerCore.TaskScheduler.Await` | src/scheduler.rs:244-258 | wakes and searches again at every tick until a task is ready or none sleeps |
| `SchedulerCore.TaskScheduler.Act` | src/scheduler.rs:319-360 | yield, sleep and exit of the running task; what they come to is said in `SchedulerSleep` |
| `PacketRing.WriterKeeps` | src/net/packet.rs:137-170 | every atomic step of the interrupt handler keeps the ring invariant |
| `PacketRing.ReaderKeeps` | src/net/packet.rs:175-209 | every atomic step of the task keeps it |
| `PacketRing.RunKeeps` | src/net/packet.rs:137-209 | it holds under any interleaving |
| `PacketRing.PacketsComeOutInOrder` | src/net/packet.rs:137-209 | under any interleaving accepted packets come out once, in order, with their own bytes and length; at most fifteen wait; the two sides never work on the same slot; and a slot keeps its packet from the hand-over to the release |
| `PacketRing.DropsOnlyWhenFull` | src/net/packet.rs:137-152 | a packet is dropped exactly when fifteen wait to be released |
| `PacketRing.FlagsMarkTheQueue` | src/net/packet.rs:157-209 | outside the two update windows BUFFER_FULL marks exactly the slots from tail to head |
| `PacketProgress.PacketIsFetched` | src/net/packet.rs:175-215 | a packet that waits when the task starts to poll is handed over with its own bytes within five steps of the task, whatever the handler does |
| `PacketProgress.FrameIsPublished` | src/net/packet.rs:137-172 | a frame that finds room is published after exactly its length and six more steps of the handler, whatever the task does, and nothing is dropped |
| `PacketRing.PacketPool.constructor` | src/net/packet.rs:80-105 | all slots are free |
| `PacketRing.PacketPool.GetRxBufferForWrite` | src/net/packet.rs:137-152 | the slot at the head, which holds no waiting packet; none and one more drop exactly when fifteen wait |
| `PacketRing.PacketPool.RxBufferReady` | src/net/packet.rs:157-170 | the frame joins the end of the queue |
| `PacketRing.PacketPool.GetRxPacket` | src/net/packet.rs:175-195 | the oldest packet, none exactly when none waits |
| `PacketRing.PacketPool.ReleaseRxBuffer` | src/net/packet.rs:198-209 | the oldest packet leaves the queue |
| `Checksum.FoldOnce` | src/net/checksum.rs:98-103 | folding a carry keeps the residue modulo 65535 and makes the number smaller |
| `Checksum.SumConcat` | src/net/checksum.rs:70-85 | accumulation is additive over even-length splits |
| `Checksum.SumPatched` | src/net/checksum.rs:70-85 | replacing a word changes the sum by the difference |
| `Checksum.ChecksumCompletes` | src/net/checksum.rs:98-103 | a sum plus its own checksum folds to all ones |
| `Checksum.FilledInVerifies` | src/net/checksum.rs:53-58 | a buffer whose checksum field was zero verifies once the checksum is filled in |
| `Checksum.WordErrors` | src/net/checksum.rs:53-58 | a change of one word goes unnoticed if and only if it exchanges 0 and 0xFFFF and does not leave a buffer of zeros |
| `Checksum.ChecksumAccumulate` | src/net/checksum.rs:70-85 | the plain sum of the words, an odd byte as a high byte, without 32-bit overflow for IP-sized data |
| `Checksum.FoldChecksum` | src/net/checksum.rs:98-103 | the complement of the residue modulo 65535, nonzero multiples counting as 65535 |
| `Checksum.InternetChecksum` | src/net/checksum.rs:17-40 | the checksum of section 1 of RFC 1071 |
| `Checksum.VerifyChecksum` | src/net/checksum.rs:53-58 | true exactly when the sum is a nonzero multiple of 65535 |
| `Checksum.PseudoSum` | src/net/checksum.rs:123-141 | adding up the words of both addresses, the protocol and the length gives the sum of the pseudo-header bytes |
| `Checksum.TcpUdpChecksum` | src/net/checksum.rs:117-143 | the checksum of the pseudo-header (both addresses, zero, protocol, length) followed by the segment, as one buffer |
| `Checksum.BuildHeader` | src/net/ipv4.rs:143-182 | every header built verifies and carries version, length, identification, flags, time to live, protocol and addresses at their offsets |
| `Checksum.SealSegment` | src/net/tcp.rs:532-564 | every segment sent verifies behind the pseudo-header of its addresses, and is otherwise unchanged |
| `Telnet.DecodeConcat` | src/telnet.rs:144-236 | decoding does not depend on how the stream is cut |
| `Telnet.DecodeEncodedAll` | src/telnet.rs:96-236 | what the decoder makes of any encoded text: the text, with LF NUL for every CR |
| `Telnet.RoundTrip` | src/telnet.rs:96-236 | decoding what was encoded sends no reply, ends where it began, and returns the text if and only if it has no CR |
| `Telnet.CarriageReturnChanges` | src/telnet.rs:96-236 | a single CR is decoded as LF NUL |
| `TelnetStreams.StreamDecodes` | src/telnet.rs:145-235 | any stream of text, escapes, commands, negotiation and subnegotiation: exactly its text is produced and exactly the negotiation commands are answered, in order |
| `TelnetStreams.ReplyAnswers` | src/telnet.rs:78-93 | every negotiation command is answered about its own option, positively exactly for the options supported |
| `TelnetStreams.NeverSettles` | src/telnet.rs:78-93 | two such terminals go on answering each other for ever |
| `TelnetStreams.ParametersSkipped` | src/telnet.rs:219-232 | the parameters of a subnegotiation are skipped to their end exactly if they do not contain 0xFF 0xF0 |
| `Telnet.TelnetTerminal.constructor` | src/telnet.rs:41-51 | nothing received, nothing sent |
| `Telnet.TelnetTerminal.SendBytes` | src/telnet.rs:61-76 | all bytes reach the connection in order, or a prefix and the terminal is closed |
| `Telnet.TelnetTerminal.Emit` | src/telnet.rs:110-118 | the buffer never exceeds 256 bytes and flushing loses nothing; it fails only if the connection does |
| `Telnet.TelnetTerminal.WriteStr` | src/telnet.rs:96-142 | the chunks sent, with any flush points and partial sends, concatenate to the encoding, or to a prefix of it and the terminal is closed |
| `Telnet.TelnetTerminal.ReplyToCommand` | src/telnet.rs:78-93 | the reply to each negotiation command is sent in full unless the connection fails |
| `Telnet.TelnetTerminal.Feed` | src/telnet.rs:170-233 | one byte through the decoder in place; the reply it calls for is sent in full unless the connection fails |
| `Telnet.TelnetTerminal.PollByte` | src/telnet.rs:144-236 | the next decoded byte of whatever chunks arrive; no data or end of file only when everything received was used; what is sent meanwhile is exactly the replies called for unless the connection fails |
| `Telnet.TelnetTerminal.ProducesPrefix` | src/telnet.rs:144-236 | while an encoded CR-free text arrives in any pieces, what was produced is a prefix of it and no reply was sent |
| `Telnet.TelnetTerminal.ProducesText` | src/telnet.rs:144-236 | once all has arrived and been used, the text is there if and only if it has no CR |
| `BasicGrouping.Recognises` | src/basic/parser.rs:470-800 | the parser finds a tree in a token sequence if and only if one is written there by precedence, associativity and parentheses, and finds that one and the tokens after it |
| `BasicGrouping.LevelReads` | src/basic/parser.rs:470-800 | whatever is written at a level of the grammar, with any parentheses, is read as it is meant |
| `BasicGrouping.LevelWritten` | src/basic/parser.rs:470-800 | whatever is read was written so |
| `BasicGrouping.LoopReads` | src/basic/parser.rs:474-539 | each operator loop builds left-nested chains |
| `BasicGrouping.PrimaryReads` | src/basic/parser.rs:550-800 | every primary, call, array access and parenthesised expression is read |
| `BasicGrouping.Unambiguous` | src/basic/parser.rs:470-800 | no token sequence has two readings |
| `BasicGrouping.ParenthesesSuffice` | src/basic/parser.rs:785-793 | with parentheses around every operation every tree is read as it is meant |
| `BasicGrouping.Reachable` | src/basic/parser.rs:470-800 | the trees that can be typed are exactly those without negative literals |
| `BasicRoundTrip.PrintedAsWritten` | src/basic/interpreter.rs:757-801 | a tree that needs no parentheses is printed as it is written |
| `BasicRoundTrip.ExprReadBack` | src/basic/parser.rs:470-799 | for every tree that respects precedence and associativity, parsing its printed tokens at its level returns the tree and exactly the remaining tokens |
| `BasicPlain.LevelFits` | src/basic/parser.rs:474-548 | whatever is parsed from tokens without grouping parentheses respects precedence and associativity |
| `BasicPlain.ExprRoundTrip` | src/basic/interpreter.rs:757-801 | printing and parsing an expression is the identity if and only if the tree needs no parentheses |
| `BasicPlain.GroupingLost` | src/basic/interpreter.rs:762-776 | A * (B + C) comes back as A * B + C |
| `BasicStatements.StatementReadBack` | src/basic/interpreter.rs:707-755 | every printable statement but REM is read back |
| `BasicStatements.LetOptional` | src/basic/parser.rs:234-241 | an assignment without LET is the one with it |
| `BasicStatements.StepOptional` | src/basic/parser.rs:326-363 | FOR without STEP has step 1, for bounds with any parentheses |
| `BasicStatements.SemicolonOptional` | src/basic/parser.rs:250-272 | PRINT may end in a semicolon |
| `BasicReload.StatementFits` | src/basic/parser.rs:184-467 | whatever statement is parsed from tokens without grouping is printable |
| `BasicReload.StatementRoundTrip` | src/basic/interpreter.rs:707-755 | for every form but REM, printing and parsing is the identity if and only if the statement is printable |
| `BasicListing.RemarkSwallows` | src/basic/parser.rs:202-208 | an empty remark takes the next line with it |
| `BasicListing.ListingLoads` | src/basic/interpreter.rs:66-83 | what a listing loads to: every line except those that follow a remark |
| `BasicListing.ReadLinesAre` | src/basic/interpreter.rs:66-83 | for a source without errors the lines read are those of the parsed program |
| `BasicReload.LinesReload` | src/basic/interpreter.rs:66-83 | a listing loads to the same lines if and only if all are printable and nothing follows a remark |
| `BasicReload.LineLost` | src/basic/parser.rs:202-208 | a remark and an END reload as the remark alone |
| `BasicProgram.ProgramReload` | src/basic/interpreter.rs:227-233 | LIST and a load into an empty interpreter restore the program if and only if all statements are printable and nothing follows a remark |
| `BasicProgram.LastLineWins` | src/basic/interpreter.rs:66-84 | of several lines with one number the last is stored |
| `BasicProgram.OthersStay` | src/basic/interpreter.rs:66-84 | numbers that are not loaded stay as they were |
| `BasicParser.Parser.constructor` | src/basic/parser.rs:140-144 | starts at the first token |
| `BasicParser.Parser.Advance` | src/basic/parser.rs:147-149 | moves one token on and stays at the end |
| `BasicParser.Parser.ParseExpression` | src/basic/parser.rs:470-472 | agrees with the grammar |
| `BasicParser.Parser.ParseComparison` | src/basic/parser.rs:474-497 | the loop over comparison operators agrees with level 0 of the grammar |
| `BasicParser.Parser.ParseAdditive` | src/basic/parser.rs:499-518 | the loop over additive operators agrees with level 1 |
| `BasicParser.Parser.ParseMultiplicative` | src/basic/parser.rs:520-539 | the loop over multiplicative operators agrees with level 2 |
| `BasicParser.Parser.ParseUnary` | src/basic/parser.rs:541-548 | an optional minus sign before a primary |
| `BasicParser.Parser.ParsePrimary` | src/basic/parser.rs:550-799 | every primary agrees with the grammar, whose meaning is `BasicGrouping.Recognises` |
| `BasicParser.Parser.ParseVariable` | src/basic/parser.rs:562-576 | a variable or an array access |
| `BasicParser.Parser.ParseCall1` | src/basic/parser.rs:577-629 | functions of one argument |
| `BasicParser.Parser.ParseCall2` | src/basic/parser.rs:653-688 | functions of two arguments |
| `BasicParser.Parser.ParseMid` | src/basic/parser.rs:630-652 | MID$ with its three arguments |
| `BasicParser.Parser.ParseSocket` | src/basic/parser.rs:716-727 | SOCKET with empty parentheses |
| `BasicParser.Parser.ParseStatement` | src/basic/parser.rs:184-248 | every statement form and every error agrees with the grammar |
| `BasicParser.Parser.ParseItems` | src/basic/parser.rs:250-272 | the PRINT loop |
| `BasicParser.Parser.ParseAssignment` | src/basic/parser.rs:213-242 | assignment to a variable or an array element |
| `BasicParser.Parser.ParseLet` | src/basic/parser.rs:274-290 | LET |
| `BasicParser.Parser.ParseIf` | src/basic/parser.rs:292-312 | IF THEN with a line number cut to 32 bits |
| `BasicParser.Parser.ParseGoto` | src/basic/parser.rs:314-324 | GOTO |
| `BasicParser.Parser.ParseGosub` | src/basic/parser.rs:412-422 | GOSUB |
| `BasicParser.Parser.ParseFor` | src/basic/parser.rs:326-363 | FOR with an optional STEP |
| `BasicParser.Parser.ParseNext` | src/basic/parser.rs:365-378 | NEXT |
| `BasicParser.Parser.ParseSleep` | src/basic/parser.rs:380-384 | SLEEP |
| `BasicParser.Parser.ParseClose` | src/basic/parser.rs:463-467 | CLOSE |
| `BasicParser.Parser.ParseSpawn` | src/basic/parser.rs:386-410 | SPAWN |
| `BasicParser.Parser.ParseArgs` | src/basic/parser.rs:396-407 | the argument loop of SPAWN |
| `BasicParser.Parser.ParseDim` | src/basic/parser.rs:424-446 | DIM |
| `BasicParser.Parser.ParseSend` | src/basic/parser.rs:448-461 | SEND |
| `BasicParser.Parser.ParseRem` | src/basic/parser.rs:202-208 | REM, with the token it fetches before skipping |
| `BasicParser.Parser.ParseLine` | src/basic/parser.rs:153-181 | leading newlines, an optional number, a statement and a newline |
| `BasicInterpreter.Interpreter.constructor` | src/basic/interpreter.rs:52-63 | an empty program |
| `BasicInterpreter.Interpreter.RebuildLineOrder` | src/basic/interpreter.rs:107-109 | the line order is exactly the line numbers, strictly increasing |
| `BasicInterpreter.Interpreter.LoadProgram` | src/basic/interpreter.rs:66-83 | stores the numbered lines read before the end or the first error, in order; rebuilds the line order only if there was no error |
| `BasicInterpreter.Interpreter.SetLine` | src/basic/interpreter.rs:86-89 | one line replaced |
| `BasicInterpreter.Interpreter.DeleteLine` | src/basic/interpreter.rs:92-95 | one line removed |
| `BasicInterpreter.Interpreter.Clear` | src/basic/interpreter.rs:98-105 | everything cleared but the return stack and the status |
| `BasicInterpreter.Interpreter.Run` | src/basic/interpreter.rs:112-123 | starts at the first line with empty stores, or reports that there is no program |
| `BasicInterpreter.Interpreter.Step` | src/basic/interpreter.rs:141-224 | executes one statement and moves on as the value model says; the line order stays increasing and within the program |
| `BasicInterpreter.Interpreter.ExecuteStatement` | src/basic/interpreter.rs:272-478 | every statement does what its function says; what that means for the flow and the variables is said in `BasicLoops` and `BasicCalls` |
| `BasicInterpreter.Interpreter.ExecuteFor` | src/basic/interpreter.rs:328-363 | FOR sets the variable and pushes the loop with the line after it |
| `BasicInterpreter.Interpreter.ExecuteNext` | src/basic/interpreter.rs:365-396 | NEXT finds the innermost loop over the variable and continues or removes it |
| `BasicInterpreter.Interpreter.FindLineAfter` | src/basic/interpreter.rs:348-352 | the first line number above the current one |
| `BasicInterpreter.Interpreter.FindPosition` | src/basic/interpreter.rs:194-202 | the position of a line number |
| `BasicInterpreter.Interpreter.FindInnermost` | src/basic/interpreter.rs:367-370 | the last loop over the variable |
| `BasicInterpreter.Interpreter.ListProgram` | src/basic/interpreter.rs:227-233 | the listing of the stored lines in order |
| `BasicLoops.NextStep` | src/basic/interpreter.rs:365-396 | NEXT starts another round with the variable advanced or leaves the loop with the outer stack |
| `BasicLoops.Round` | src/basic/interpreter.rs:141-224 | one round executes every line of a straight-line body and the NEXT once |
| `BasicLoops.TripCount` | src/basic/interpreter.rs:328-396 | from the FOR, unless a statement fails, after exactly 1 + trips * length steps each line of the body ran max(1, floor((b-a)/s)+1) times (symmetrically for negative steps); then the loop is left with both stacks as before if and only if the last value plus the step, in 64 bits, is past the end, and starts over from that sum otherwise |
| `BasicLoops.LeavesWhenItFits` | src/basic/interpreter.rs:378-385 | that condition in terms of the bounds: for a loop that does not start past its end, that last value plus step fits 64 bits |
| `BasicLoops.EndlessRounds` | src/basic/interpreter.rs:381-385 | a loop with step 0 and a start not below the end never ends |
| `BasicLoops.EndlessExample` | src/basic/interpreter.rs:381-385 | FOR I = 1 TO 1 STEP 0 with an empty body is still running after any number of steps |
| `BasicLoops.OverflowExample` | src/basic/interpreter.rs:378-385 | FOR I from the largest 64-bit number to itself starts over at the smallest |
| `BasicCalls.Branch` | src/basic/interpreter.rs:301-311 | IF goes to its line if and only if the value is a nonzero number, a nonempty string or a nonempty array, and otherwise to the next position; it stores nothing |
| `BasicCalls.Jumps` | src/basic/interpreter.rs:313 | GOTO goes to its line, or fails if that is not stored |
| `BasicCalls.BranchLoopRuns` | src/basic/interpreter.rs:301-313 | a loop made of an IF, straight-line code and a GOTO: if the condition fails n times and then holds, every line ran n times, the IF n + 1 times, and the flow is at the exit with both stacks as before |
| `BasicCalls.CallReturns` | src/basic/interpreter.rs:315-326 | a GOSUB, with calls nested to any depth, comes back to the position after it with both stacks as before, unless a statement fails |
| `BasicCalls.ComesBack` | src/basic/interpreter.rs:315-326 | a subroutine of simple statements and further calls takes exactly its length in steps and returns to where it was called from |
| `BasicCalls.CallVisits` | src/basic/interpreter.rs:315-326 | a call of straight-line code runs the GOSUB and each line up to the RETURN once and nothing else |
| `BasicCalls.GosubStep` | src/basic/interpreter.rs:315-319 | GOSUB notes the position after itself |
| `BasicCalls.ReturnStep` | src/basic/interpreter.rs:321-326 | RETURN goes back to the last position noted, and fails exactly if none is |
| `BasicCalls.LinesRun` | src/basic/interpreter.rs:172-186 | straight-line code runs to its end, each line once |
| `BasicCalls.LetStep` | src/basic/interpreter.rs:295-299 | LET gives its variable the value and changes no other |
| `BasicCalls.DimStep` | src/basic/interpreter.rs:420-431 | DIM makes elements 0 to the size, zero or empty by the name, and changes no other variable |
| `BasicCalls.ElementStep` | src/basic/interpreter.rs:433-457 | assigning to an element fails exactly if there is none such; otherwise that element alone changes |
| `BasicCalls.SleepStep` | src/basic/interpreter.rs:398-402 | SLEEP pauses for that many milliseconds and goes on |
| `BasicCalls.EffectFreeStep` | src/basic/interpreter.rs:283-293 | PRINT, REM, SPAWN, SEND and CLOSE store nothing and fail exactly if something they need is missing |
| `BasicCalls.EndStep` | src/basic/interpreter.rs:406 | END stops the program |

## Left out

- Demultiplexing in TCP: ports, addresses, `accept` and resets to unknown peers; runs follow
  one slot, through any number of connections in it.
- The choice of initial sequence numbers and ports: any values are allowed.
- The TCP header codec, segment validation beyond the checksum, and the Ethernet, ARP and ICMP
  layers.
- An operation of TCP reads the tick counter once; the code may read it several times.
- TcpSafety.ReadsPrefixOfPeer: peer streams are shorter than 2^32 - 1 bytes, so that sequence
  numbers are unambiguous; delivery of all data is not claimed.
- TcpEndOfStream.WholeStreamRead: peer streams are shorter than 2^32 - 2 bytes, for the same
  reason.
- TcpBounds.NoOverflow: ticks are below 2^60.
- Checksum.ChecksumAccumulate: buffers are at most 2^17 bytes, which covers every IP packet; a
  longer one could overflow the accumulator.
- Address arithmetic of the allocators does not wrap around.
- Heap.LinkedListAllocator.Deallocate: the pointer is one that an allocation returned, as the
  code demands of its callers; its panic on a bad header is not modelled.
- Allocator calls are atomic: spinlocks and interrupt flags are not modelled.
- `find_majority_owner`, which tracks at most eight owners and is exact only under a further
  hypothesis.
- Loading of ELF files: a load fails before any memory is taken, or succeeds.
- Register-level context switching: a context is the identity of the task that saved it.
- SchedulerCore.TaskScheduler.Await: the wait for ticks ends with the given readings; the code
  waits for as long as it takes.
- SchedulerCore.TaskScheduler.Schedule: the same wait at its end.
- The transmit side of the packet pool and its counters of packets.
- Telnet.TelnetTerminal.SendBytes: the answers of the connection are a finite list whose end
  counts as a closed connection; the code retries for ever.
- BASIC works on tokens: the lexer is not modelled, nor error messages, nor what PRINT writes.
- Evaluation of BASIC expressions is an arbitrary function of the moment, the variables and
  the expression, to 64-bit integers, strings or arrays; arrays can always be created.
- TcpAcks.TellsTheTruth: under the same hypotheses on the peer as the prefix property.
- TcpTransfer.AllCross: nothing is lost or delayed, and the messages go one way and fit the
  ring.
- BasicCalls.DimStep: sizes are at least -1; smaller ones ask for more memory than there is.
- BasicCalls.ElementStep: arrays have at most 2^63 elements.
- BasicCalls.ComesBack: subroutines consist of statements that go on to the next line and of
  calls nested to a finite depth, without loops and branches.
- BasicLoops.TripCount: the body is straight-line code that does not assign to the loop
  variable, and a failing statement ends the program instead.
- Drivers, the boot loader, the display and the reports built on the address
  queries.
