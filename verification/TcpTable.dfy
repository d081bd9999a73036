/** The table of connections of src/net/tcp.rs and the choice of a slot in it. */
module TcpTable {
  import T = Tcp
  import opened TcpBlock

  predicate IsClosing(c: TcpControlBlock)
    reads c
  {
    c.inUse && c.state in {T.TimeWait, T.FinWait1, T.FinWait2, T.Closing, T.LastAck}
  }

  ghost function Memory(c: TcpControlBlock): set<object> {
    {c, c.rx, c.tx, c.ooo, c.rx.data, c.tx.data}
  }

  /** The control blocks are sound and share no memory. */
  ghost predicate Table(conns: seq<TcpControlBlock>)
    reads conns, (set c | c in conns :: c.rx), (set c | c in conns :: c.tx)
  {
    && (forall i :: 0 <= i < |conns| ==> conns[i].Valid())
    && (forall i, j :: 0 <= i < j < |conns| ==> Memory(conns[i]) !! Memory(conns[j]))
  }

  /** Gives a slot of the table to a new connection: the first free one, otherwise the first
      one that is closing, otherwise none. Every other slot stays as it is. */
  method AllocConnection(conns: seq<TcpControlBlock>) returns (slot: nat, ok: bool)
    requires Table(conns)
    modifies conns, (set c | c in conns :: c.rx), (set c | c in conns :: c.tx), (set c | c in conns :: c.ooo)
    ensures Table(conns) && ok == (slot < |conns|)
    ensures ok ==> forall i :: 0 <= i < slot ==> old(conns[i].inUse)
    ensures ok && old(conns[slot].inUse) ==>
              && old(IsClosing(conns[slot]))
              && (forall i :: 0 <= i < |conns| ==> old(conns[i].inUse))
              && (forall i :: 0 <= i < slot ==> !old(IsClosing(conns[i])))
    ensures !ok ==> forall i :: 0 <= i < |conns| ==> old(conns[i].inUse && !IsClosing(conns[i]))
    ensures ok ==> conns[slot].View() == T.FRESH.(inUse := true)
    ensures forall i :: 0 <= i < |conns| && i != slot ==> conns[i].View() == old(conns[i].View())
  {
    slot := 0;
    while slot < |conns| && conns[slot].inUse
      invariant 0 <= slot <= |conns| && forall i :: 0 <= i < slot ==> conns[i].inUse
    {
      slot := slot + 1;
    }
    if slot == |conns| {
      slot := 0;
      while slot < |conns| && !IsClosing(conns[slot])
        invariant 0 <= slot <= |conns| && forall i :: 0 <= i < slot ==> !IsClosing(conns[i])
      {
        slot := slot + 1;
      }
    }
    ok := slot < |conns|;
    if ok {
      TakeSlot(conns, slot);
    }
  }

  method TakeSlot(conns: seq<TcpControlBlock>, slot: nat)
    requires Table(conns) && slot < |conns| && T.Reusable(conns[slot].View())
    modifies conns[slot], conns[slot].rx, conns[slot].tx, conns[slot].ooo
    ensures Table(conns)
    ensures forall i :: 0 <= i < |conns| && i != slot ==> conns[i].View() == old(conns[i].View())
    ensures conns[slot].View() == T.FRESH.(inUse := true)
  {
    var taken := conns[slot].Allocate();
  }
}
