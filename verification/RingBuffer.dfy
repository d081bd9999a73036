/** The byte ring of src/net/tcp.rs: a fixed array with a write and a read position. */
module RingBuffers {
  import opened Bytes

  const CAPACITY: nat := 1024

  /** The slot `i` places after `start`. */
  function Slot(start: nat, i: nat): nat {
    (start + i) % CAPACITY
  }

  lemma SlotNext(start: nat, i: nat)
    ensures (Slot(start, i) + 1) % CAPACITY == Slot(start, i + 1)
  {
  }

  lemma SlotSkip(start: nat, k: nat, i: nat)
    ensures Slot(Slot(start, k), i) == Slot(start, k + i)
  {
  }

  lemma SlotInjective(start: nat, i: nat, j: nat)
    requires i < j < CAPACITY + i
    ensures Slot(start, i) != Slot(start, j)
  {
  }

  class RingBuffer {
    const data: array<byte>
    var head: nat
    var tail: nat
    var len: nat

    ghost predicate Valid()
      reads this
    {
      data.Length == CAPACITY && tail < CAPACITY && len <= CAPACITY && head == Slot(tail, len)
    }

    /** The buffered bytes, oldest first. */
    ghost function Contents(): (s: seq<byte>)
      requires Valid()
      reads this, data
      ensures |s| == len
    {
      seq(len, i requires 0 <= i < len reads this, data requires data.Length == CAPACITY => data[Slot(tail, i)])
    }

    constructor ()
      ensures Valid() && Contents() == [] && fresh(data)
    {
      data := new byte[CAPACITY](_ => 0);
      head, tail, len := 0, 0, 0;
    }

    /** Appends what fits and says how much that was. */
    method Write(src: seq<byte>) returns (n: nat)
      requires Valid()
      modifies this, data
      ensures Valid() && n == Min(|src|, CAPACITY - |old(Contents())|)
      ensures Contents() == old(Contents()) + src[..n]
    {
      n := Min(|src|, CAPACITY - len);
      for k := 0 to n
        invariant data.Length == CAPACITY && tail == old(tail) && len == old(len)
        invariant head == Slot(tail, len + k)
        invariant forall i :: 0 <= i < len ==> data[Slot(tail, i)] == old(data[Slot(tail, i)])
        invariant forall i :: 0 <= i < k ==> data[Slot(tail, len + i)] == src[i]
      {
        forall i | 0 <= i < len + k
          ensures Slot(tail, i) != head
        {
          SlotInjective(tail, i, len + k);
        }
        data[head] := src[k];
        SlotNext(tail, len + k);
        head := (head + 1) % CAPACITY;
      }
      len := len + n;
      assert Contents() == old(Contents()) + src[..n];
    }

    /** Takes up to `count` of the oldest bytes. */
    method Read(count: nat) returns (out: seq<byte>)
      requires Valid()
      modifies this
      ensures Valid() && |out| == Min(count, |old(Contents())|)
      ensures old(Contents()) == out + Contents()
    {
      var n := Min(count, len);
      out := [];
      for k := 0 to n
        invariant data.Length == CAPACITY && len == old(len) && head == old(head)
        invariant tail == Slot(old(tail), k) && |out| == k
        invariant forall i :: 0 <= i < k ==> out[i] == data[Slot(old(tail), i)]
      {
        out := out + [data[tail]];
        SlotNext(old(tail), k);
        tail := (tail + 1) % CAPACITY;
      }
      len := len - n;
      SkippedContents(old(tail), n);
      assert old(Contents()) == out + Contents();
    }

    /** The slots from a read position moved on by `k`. */
    lemma SkippedContents(start: nat, k: nat)
      requires tail == Slot(start, k)
      ensures forall i: nat :: Slot(tail, i) == Slot(start, k + i)
    {
      forall i: nat
        ensures Slot(tail, i) == Slot(start, k + i)
      {
        SlotSkip(start, k, i);
      }
    }

    /** Copies up to `count` bytes from `offset` on, leaving the ring as it is. */
    method PeekOffset(offset: nat, count: nat) returns (out: seq<byte>)
      requires Valid()
      ensures out == if offset >= |Contents()| then []
                     else Contents()[offset..offset + Min(count, |Contents()| - offset)]
    {
      out := [];
      if offset >= len {
        return;
      }
      var n := Min(count, len - offset);
      var pos := (tail + offset) % CAPACITY;
      for k := 0 to n
        invariant pos == Slot(tail, offset + k) && |out| == k
        invariant forall i :: 0 <= i < k ==> out[i] == Contents()[offset + i]
      {
        out := out + [data[pos]];
        SlotNext(tail, offset + k);
        pos := (pos + 1) % CAPACITY;
      }
    }

    /** Drops up to `count` of the oldest bytes. */
    method Consume(count: nat)
      requires Valid()
      modifies this
      ensures Valid() && Contents() == old(Contents())[Min(count, |old(Contents())|)..]
    {
      var n := Min(count, len);
      tail := (tail + n) % CAPACITY;
      len := len - n;
      SkippedContents(old(tail), n);
    }

    method Clear()
      requires Valid()
      modifies this
      ensures Valid() && Contents() == []
    {
      head, tail, len := 0, 0, 0;
    }
  }
}
