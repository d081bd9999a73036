/** The Internet checksum of src/net/checksum.rs (sections 1 and 2 of RFC 1071) and the
    packets built with it (src/net/ipv4.rs, src/net/tcp.rs). */
module Checksum {
  import opened Bytes

  const ONES: nat := 0xFFFF

  /** The big-endian 16-bit word at an offset; a missing last byte counts as zero. */
  function WordAt(data: seq<byte>, i: nat): nat
    requires i < |data|
  {
    data[i] as int * 256 + if i + 1 < |data| then data[i + 1] as int else 0
  }

  /** The sum of the words, without carries folded in. */
  function Sum(data: seq<byte>): nat {
    if data == [] then 0
    else WordAt(data, 0) + if |data| == 1 then 0 else Sum(data[2..])
  }

  /** The one's complement sum: the residue modulo 65535, with 65535 for nonzero multiples. */
  function Folded(n: nat): (r: nat)
    ensures r <= ONES
  {
    if n == 0 then 0 else if n % ONES == 0 then ONES else n % ONES
  }

  function ChecksumOf(n: nat): nat {
    ONES - Folded(n)
  }

  // ------------------------------------------------------------- arithmetic

  lemma FoldOnce(n: nat)
    requires n >= 0x1_0000
    ensures Folded(n % 0x1_0000 + n / 0x1_0000) == Folded(n)
    ensures 0 < n % 0x1_0000 + n / 0x1_0000 < n
  {
    var q, r := n / 0x1_0000, n % 0x1_0000;
    assert n == ONES * q + (q + r);
    ModPlusMultiple(q + r, q);
  }

  lemma ModPlusMultiple(a: nat, q: nat)
    ensures (ONES * q + a) % ONES == a % ONES
  {
    var x := ONES * q + a;
    assert x == ONES * (q + a / ONES) + a % ONES;
  }

  /** Adding a sum's own checksum gives all ones, and only multiples of 65535 do. */
  lemma ChecksumCompletes(n: nat)
    ensures Folded(n + ChecksumOf(n)) == ONES
  {
    var q := n / ONES;
    assert n == ONES * q + n % ONES;
    if n > 0 && n % ONES != 0 {
      assert n + ChecksumOf(n) == ONES * (q + 1) + 0;
      ModPlusMultiple(0, q + 1);
    } else if n > 0 {
      ModPlusMultiple(0, q);
    }
  }

  lemma SumBound(data: seq<byte>)
    ensures 2 * Sum(data) <= ONES * (|data| + 1)
  {
    if |data| >= 2 {
      SumBound(data[2..]);
    }
  }

  // ---------------------------------------------------------------- the sum

  /** The sum of two buffers is the sum of their concatenation, if the first has even length. */
  lemma {:induction false} SumConcat(a: seq<byte>, b: seq<byte>)
    requires |a| % 2 == 0
    ensures Sum(a + b) == Sum(a) + Sum(b)
  {
    if a == [] {
      assert a + b == b;
    } else {
      SumConcat(a[2..], b);
      assert (a + b)[2..] == a[2..] + b;
    }
  }

  /** The two bytes of a 16-bit number, most significant first. */
  function Bytes16(n: nat): (r: seq<byte>)
    requires n <= ONES
    ensures |r| == 2 && WordAt(r, 0) == n
  {
    [(n / 256) as byte, (n % 256) as byte]
  }

  /** `data` with the word at the even offset `i` replaced. */
  function Patched(data: seq<byte>, i: nat, n: nat): (r: seq<byte>)
    requires i + 2 <= |data| && n <= ONES
    ensures |r| == |data| && r[..i] == data[..i] && r[i + 2..] == data[i + 2..]
  {
    data[..i] + (Bytes16(n) + data[i + 2..])
  }

  lemma SumWord(w: seq<byte>)
    requires |w| == 2
    ensures Sum(w) == WordAt(w, 0)
  {
    assert w[2..] == [];
  }

  /** Replacing a word changes the sum by the difference. */
  lemma SumPatched(data: seq<byte>, i: nat, n: nat)
    requires i % 2 == 0 && i + 2 <= |data| && n <= ONES
    ensures Sum(Patched(data, i, n)) == Sum(data) - WordAt(data, i) + n
  {
    hide Sum, WordAt, Bytes16;
    var a, w, c := data[..i], data[i..i + 2], data[i + 2..];
    InThree(data, i);
    SumParts(a, w, c);
    SumParts(a, Bytes16(n), c);
    WordOfSlice(data, i);
  }

  lemma InThree(data: seq<byte>, i: nat)
    requires i + 2 <= |data|
    ensures data == data[..i] + (data[i..i + 2] + data[i + 2..])
  {
  }

  lemma SumParts(a: seq<byte>, w: seq<byte>, c: seq<byte>)
    requires |a| % 2 == 0 && |w| == 2
    ensures Sum(a + (w + c)) == Sum(a) + WordAt(w, 0) + Sum(c)
  {
    hide Sum;
    SumConcat(a, w + c);
    SumConcat(w, c);
    SumWord(w);
  }

  lemma WordOfSlice(data: seq<byte>, i: nat)
    requires i + 2 <= |data|
    ensures WordAt(data[i..i + 2], 0) == WordAt(data, i)
  {
  }

  // ------------------------------------------------------------- operations

  /** Adds up the words of a buffer of IP size; the 32-bit accumulator cannot overflow. */
  method ChecksumAccumulate(data: seq<byte>) returns (sum: nat)
    requires |data| <= 0x2_0000
    ensures sum == Sum(data) && sum < TWO_32
  {
    hide WordAt;
    sum := 0;
    var i := 0;
    assert data[0..] == data;
    while i + 1 < |data|
      invariant i <= |data| && i % 2 == 0
      invariant sum + Sum(data[i..]) == Sum(data)
    {
      SumStep(data, i);
      var word := data[i] as int * 256 + data[i + 1] as int;
      sum := sum + word;
      i := i + 2;
    }
    if i < |data| {
      SumLast(data, i);
      sum := sum + data[i] as int * 256;
    }
    SumBound(data);
  }

  lemma SumStep(data: seq<byte>, i: nat)
    requires i + 1 < |data|
    ensures Sum(data[i..]) == (data[i] as int * 256 + data[i + 1] as int) + Sum(data[i + 2..])
  {
    assert data[i..][2..] == data[i + 2..];
  }

  lemma SumLast(data: seq<byte>, i: nat)
    requires i + 1 == |data|
    ensures Sum(data[i..]) == data[i] as int * 256
  {
  }

  /** Folds the carries back until 16 bits remain, then complements. */
  method FoldChecksum(acc: nat) returns (c: nat)
    requires acc < TWO_32
    ensures c == ChecksumOf(acc)
  {
    var sum := acc;
    while sum / 0x1_0000 != 0
      invariant Folded(sum) == Folded(acc)
      decreases sum
    {
      FoldOnce(sum);
      sum := sum % 0x1_0000 + sum / 0x1_0000;
    }
    c := ONES - sum;
  }

  method InternetChecksum(data: seq<byte>) returns (c: nat)
    requires |data| <= 0x2_0000
    ensures c == ChecksumOf(Sum(data))
  {
    var sum := ChecksumAccumulate(data);
    c := FoldChecksum(sum);
  }

  /** Whether a buffer that contains its checksum is intact. */
  predicate Verifies(data: seq<byte>) {
    Sum(data) > 0 && Sum(data) % ONES == 0
  }

  method VerifyChecksum(data: seq<byte>) returns (ok: bool)
    requires |data| <= 0x2_0000
    ensures ok <==> Verifies(data)
  {
    var sum := ChecksumAccumulate(data);
    var folded := FoldChecksum(sum);
    ok := folded == 0;
  }

  /** A buffer whose checksum field was zero verifies once its checksum is filled in. */
  lemma FilledInVerifies(data: seq<byte>, i: nat)
    requires i % 2 == 0 && i + 2 <= |data| && WordAt(data, i) == 0
    ensures Verifies(Patched(data, i, ChecksumOf(Sum(data))))
  {
    hide Sum, Patched;
    SumPatched(data, i, ChecksumOf(Sum(data)));
    ChecksumCompletes(Sum(data));
  }

  /** Changing one word of a buffer that verifies goes unnoticed exactly when 0 and 0xFFFF
      are exchanged in it and the buffer does not become all zero. */
  lemma WordErrors(data: seq<byte>, i: nat, n: nat)
    requires Verifies(data) && i % 2 == 0 && i + 2 <= |data| && n <= ONES
    ensures var w := WordAt(data, i);
      Verifies(Patched(data, i, n)) <==>
        n == w || (w == 0 && n == ONES) || (w == ONES && n == 0 && Sum(data) != ONES)
  {
    hide Sum, Patched;
    SumPatched(data, i, n);
    MultiplesNear(Sum(data), n - WordAt(data, i));
  }

  lemma MultiplesNear(a: nat, d: int)
    requires a % ONES == 0 && 0 - ONES <= d <= ONES && a + d >= 0
    ensures (a + d) % ONES == 0 <==> d == 0 || d == ONES || d == 0 - ONES
  {
    var q := a / ONES;
    assert a == ONES * q;
    if d == ONES {
      ModPlusMultiple(0, q + 1);
    } else if d == 0 - ONES {
      ModPlusMultiple(0, q - 1);
    } else if d != 0 {
      NotMultiple(a, d);
    }
  }

  lemma NotMultiple(a: nat, d: int)
    requires a % ONES == 0 && 0 - ONES < d < ONES && d != 0 && a + d >= 0
    ensures (a + d) % ONES != 0
  {
    var q := a / ONES;
    assert a == ONES * q;
    if d > 0 {
      ModPlusMultiple(d, q);
    } else {
      assert a + d == ONES * (q - 1) + (ONES + d);
      ModPlusMultiple(ONES + d, q - 1);
    }
  }

  // ----------------------------------------------------------------- IPv4

  /** An IPv4 header without options, checksum field zero (src/net/ipv4.rs). */
  function PlainHeader(totalLength: nat, id: nat, protocol: byte, src: seq<byte>, dst: seq<byte>): (h: seq<byte>)
    requires totalLength <= ONES && id <= ONES && |src| == 4 && |dst| == 4
    ensures |h| == 20 && WordAt(h, 10) == 0 && h[12..16] == src && h[16..] == dst
    ensures h[0] == 0x45 && h[1] == 0 && WordAt(h, 2) == totalLength && WordAt(h, 4) == id
    ensures WordAt(h, 6) == 0x4000 && h[8] == 64 && h[9] == protocol
  {
    [0x45, 0] + Bytes16(totalLength) + Bytes16(id) + Bytes16(0x4000) + [64, protocol] + [0, 0] + src + dst
  }

  /** Builds the header and fills in its checksum. */
  method BuildHeader(protocol: byte, src: seq<byte>, dst: seq<byte>, payloadLen: nat, id: nat) returns (h: seq<byte>)
    requires |src| == 4 && |dst| == 4 && id <= ONES
    ensures |h| == 20 && Verifies(h)
    ensures h[0] == 0x45 && h[1] == 0 && WordAt(h, 2) == (20 + payloadLen) % 0x1_0000 && WordAt(h, 4) == id
    ensures WordAt(h, 6) == 0x4000 && h[8] == 64 && h[9] == protocol && h[12..16] == src && h[16..] == dst
  {
    hide Sum, Verifies;
    var plain := PlainHeader((20 + payloadLen) % 0x1_0000, id, protocol, src, dst);
    var cksum := InternetChecksum(plain);
    FilledInVerifies(plain, 10);
    h := Patched(plain, 10, cksum);
    assert forall i :: 0 <= i < 10 ==> h[i] == h[..10][i] && plain[i] == plain[..10][i];
    assert h[12..16] == h[12..][..4] && h[16..] == h[12..][4..];
    assert plain[12..16] == plain[12..][..4] && plain[16..] == plain[12..][4..];
  }

  // ------------------------------------------------------------------ TCP

  /** The pseudo-header of section 3.1 of RFC 9293: source and destination address, a zero
      byte, the protocol and the length of the segment. */
  function PseudoHeader(src: seq<byte>, dst: seq<byte>, protocol: byte, length: nat): (h: seq<byte>)
    requires |src| == 4 && |dst| == 4 && length <= ONES
    ensures |h| == 12
  {
    src + dst + [0, protocol] + Bytes16(length)
  }

  lemma SumOfFour(a: seq<byte>)
    requires |a| == 4
    ensures Sum(a) == WordAt(a, 0) + WordAt(a, 2)
  {
    SumWord(a[2..]);
  }

  /** The pseudo-header need not be laid out in memory: its words can be added one by one. */
  lemma PseudoSum(src: seq<byte>, dst: seq<byte>, protocol: byte, data: seq<byte>)
    requires |src| == 4 && |dst| == 4 && |data| <= ONES
    ensures Sum(PseudoHeader(src, dst, protocol, |data|) + data)
            == WordAt(src, 0) + WordAt(src, 2) + WordAt(dst, 0) + WordAt(dst, 2)
               + protocol as int + |data| + Sum(data)
  {
    hide Sum, Bytes16;
    var tail := [0, protocol];
    SumConcat(PseudoHeader(src, dst, protocol, |data|), data);
    SumConcat(src + dst + tail, Bytes16(|data|));
    SumConcat(src + dst, tail);
    SumConcat(src, dst);
    SumOfFour(src);
    SumOfFour(dst);
    SumWord(tail);
    SumWord(Bytes16(|data|));
  }

  /** The checksum of the pseudo-header and the segment in one buffer. */
  method TcpUdpChecksum(src: seq<byte>, dst: seq<byte>, protocol: byte, data: seq<byte>) returns (c: nat)
    requires |src| == 4 && |dst| == 4 && |data| <= ONES
    ensures c == ChecksumOf(Sum(PseudoHeader(src, dst, protocol, |data|) + data))
  {
    hide Sum, PseudoHeader;
    var sum := 0;
    sum := sum + (src[0] as int * 256 + src[1] as int);
    sum := sum + (src[2] as int * 256 + src[3] as int);
    sum := sum + (dst[0] as int * 256 + dst[1] as int);
    sum := sum + (dst[2] as int * 256 + dst[3] as int);
    sum := sum + protocol as int;
    sum := sum + |data|;
    SumBound(data);
    var rest := ChecksumAccumulate(data);
    sum := sum + rest;
    PseudoSum(src, dst, protocol, data);
    c := FoldChecksum(sum);
  }

  /** Fills the checksum into a segment whose field, at offset 16, is zero: behind the
      pseudo-header of the same addresses the segment then verifies. */
  method SealSegment(src: seq<byte>, dst: seq<byte>, segment: seq<byte>) returns (sealed: seq<byte>)
    requires |src| == 4 && |dst| == 4 && 20 <= |segment| <= 1500 && WordAt(segment, 16) == 0
    ensures |sealed| == |segment| && sealed[..16] == segment[..16] && sealed[18..] == segment[18..]
    ensures Verifies(PseudoHeader(src, dst, 6, |sealed|) + sealed)
  {
    hide Sum, PseudoHeader, Patched, Verifies;
    var cksum := TcpUdpChecksum(src, dst, 6, segment);
    sealed := Patched(segment, 16, cksum);
    var pseudo := PseudoHeader(src, dst, 6, |segment|);
    PatchedBehind(pseudo, segment, 16, cksum);
    FilledInVerifies(pseudo + segment, 28);
  }

  lemma PatchedBehind(front: seq<byte>, data: seq<byte>, i: nat, n: nat)
    requires i + 2 <= |data| && n <= ONES
    ensures Patched(front + data, |front| + i, n) == front + Patched(data, i, n)
    ensures WordAt(front + data, |front| + i) == WordAt(data, i)
  {
    hide Bytes16;
    assert (front + data)[..|front| + i] == front + data[..i];
    assert (front + data)[|front| + i + 2..] == data[i + 2..];
  }
}
