/** The receive ring makes progress: a waiting packet is handed over and an accepted frame is
    published within a fixed number of steps of its own program, whatever the other one does. */
module PacketProgress {
  import opened PacketRing

  // --------------------------------------------------------------- the network task

  /** The task needs n more steps to hand over the packet at the tail. */
  ghost predicate Fetching(s: State, n: nat) {
    s.released < |s.published| &&
    match s.r
    case RIdle => n == 5
    case RLoadedHead(_, seen) => n == 4 && seen > s.released
    case RLoadedTail(_) => n == 3
    case RLoadLen(_) => n == 2
    case RReading(_, _) => n == 1
    case _ => false
  }

  lemma TaskFetches(s: State, n: nat)
    requires Inv(s) && Fetching(s, n)
    ensures var t := ReaderStep(s);
      if n == 1 then |t.delivered| == |s.delivered| + 1 && t.delivered[|s.delivered|] == s.published[s.released]
      else Fetching(t, n - 1) && t.delivered == s.delivered
  {
    hide Holds, WriterOk;
    if s.r.RLoadedHead? {
      EmptyMeansCaughtUp(s);
    }
    assert s.slots[s.released % COUNT] == s.slots[s.tail];
    if n == 1 {
      PacketAtTail(s);
    }
  }

  lemma PacketAtTail(s: State)
    requires Inv(s) && s.released < |s.published|
    ensures Holds(s.slots[s.tail], s.published[s.released])
  {
  }

  lemma HandlerLeavesTask(s: State, frame: Packet, n: nat)
    requires Inv(s) && Fetching(s, n)
    ensures var t := WriterStep(s, frame);
      Fetching(t, n) && t.delivered == s.delivered && t.released == s.released && s.published <= t.published
  {
  }

  /** How many moves are the task's. */
  function TaskMoves(moves: seq<Move>): nat {
    if moves == [] then 0 else (if moves[0].Task? then 1 else 0) + TaskMoves(moves[1..])
  }

  lemma {:induction false} DeliveredGrows(s: State, moves: seq<Move>)
    requires Inv(s)
    ensures s.delivered <= Run(s, moves).delivered
    decreases |moves|
  {
    hide Inv, WriterStep, ReaderStep;
    if moves != [] {
      MoveKeeps(s, moves[0]);
      DeliveredGrows(Step(s, moves[0]), moves[1..]);
    }
  }

  lemma MoveKeeps(s: State, m: Move)
    requires Inv(s)
    ensures Sane(s) && Inv(Step(s, m)) && s.delivered <= Step(s, m).delivered
  {
    if m.Task? {
      ReaderKeeps(s);
    } else {
      WriterKeeps(s, m.frame);
    }
  }

  /** A packet that waits when the task starts to poll is handed over, with its own bytes, within
      five steps of the task. */
  lemma {:induction false} PacketIsFetched(s: State, moves: seq<Move>, n: nat)
    requires Inv(s) && Fetching(s, n) && TaskMoves(moves) >= n
    ensures var t := Run(s, moves);
      |t.delivered| > |s.delivered| && t.delivered[|s.delivered|] == s.published[s.released]
    decreases |moves|
  {
    hide Inv, WriterStep, ReaderStep;
    assert n > 0 && moves != [];
    MoveKeeps(s, moves[0]);
    var next := Step(s, moves[0]);
    if moves[0].Task? {
      TaskFetches(s, n);
      if n == 1 {
        DeliveredGrows(next, moves[1..]);
      } else {
        SamePacket(s, next);
        PacketIsFetched(next, moves[1..], n - 1);
      }
    } else {
      HandlerLeavesTask(s, moves[0].frame, n);
      PacketIsFetched(next, moves[1..], n);
    }
  }

  lemma SamePacket(s: State, t: State)
    requires Inv(s) && t == ReaderStep(s) && !s.r.RStoreTail?
    ensures t.published == s.published && t.released == s.released
  {
  }

  // ----------------------------------------------------------- the interrupt handler

  /** The handler has room for the frame and needs n more steps to publish it. */
  ghost predicate Publishing(s: State, f: Packet, n: nat) {
    && !s.w.WIdle? && s.w.frame == f && |f| <= PACKET_SIZE
    && match s.w
       case WLoadedHead(_, _) => n == |f| + 6 && |s.published| < s.released + COUNT - 1
       case WCopying(_, _, k) => k <= |f| && n == |f| - k + 5
       case WPublish(_) => n == 4
       case WStoreLen(_, _) => n == 3
       case WStoreFlag(_, _) => n == 2
       case WStoreHead(_, _) => n == 1
  }

  lemma HandlerPublishes(s: State, f: Packet, n: nat, frame: Packet)
    requires Inv(s) && Publishing(s, f, n)
    ensures var t := WriterStep(s, frame);
      t.dropped == s.dropped
      && if n == 1 then t.published == s.published + [f] && t.w.WIdle?
         else Publishing(t, f, n - 1) && t.published == s.published
  {
    hide Holds, Intact, Flags, ReaderOk, Delivery;
    if s.w.WLoadedHead? {
      FullMeansFifteen(s);
    }
  }

  lemma TaskLeavesHandler(s: State, f: Packet, n: nat)
    requires Inv(s) && Publishing(s, f, n)
    ensures var t := ReaderStep(s); Publishing(t, f, n) && t.published == s.published && t.dropped == s.dropped
  {
    hide Holds, Intact, Flags, Delivery, WriterOk;
  }

  function HandlerMoves(moves: seq<Move>): nat {
    if moves == [] then 0 else (if moves[0].Handler? then 1 else 0) + HandlerMoves(moves[1..])
  }

  /** A frame that finds room is published next, and nothing is dropped, after exactly as many
      steps of the handler as its length and six more. */
  lemma {:induction false} FrameIsPublished(s: State, f: Packet, moves: seq<Move>, n: nat)
    requires Inv(s) && Publishing(s, f, n) && HandlerMoves(moves) <= n
    ensures var t := Run(s, moves);
      && t.dropped == s.dropped
      && t.published == s.published + (if HandlerMoves(moves) == n then [f] else [])
    decreases |moves|
  {
    hide Inv, WriterStep, ReaderStep;
    if moves != [] {
      MoveKeeps(s, moves[0]);
      var next := Step(s, moves[0]);
      if moves[0].Task? {
        TaskLeavesHandler(s, f, n);
        FrameIsPublished(next, f, moves[1..], n);
      } else {
        HandlerPublishes(s, f, n, moves[0].frame);
        if n > 1 {
          FrameIsPublished(next, f, moves[1..], n - 1);
        } else {
          OnlyTaskMoves(next, moves[1..]);
        }
      }
    }
  }

  lemma {:induction false} OnlyTaskMoves(s: State, moves: seq<Move>)
    requires Inv(s) && HandlerMoves(moves) == 0
    ensures Run(s, moves).published == s.published && Run(s, moves).dropped == s.dropped
    decreases |moves|
  {
    hide Inv, WriterStep, ReaderStep;
    if moves != [] {
      MoveKeeps(s, moves[0]);
      TaskPublishesNothing(s);
      OnlyTaskMoves(Step(s, moves[0]), moves[1..]);
    }
  }

  lemma TaskPublishesNothing(s: State)
    requires Sane(s)
    ensures ReaderStep(s).published == s.published && ReaderStep(s).dropped == s.dropped
  {
  }
}
