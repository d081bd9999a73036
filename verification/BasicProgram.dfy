/** Stored programs: lines by number, listed in order, loaded from a listing. */
module BasicProgram {
  import opened Bytes
  import opened BasicSyntax
  import opened BasicListing
  import opened BasicReload
  import L = BasicLoops

  type Program = map<u32, Statement>

  /** The line numbers of the program, each once, in increasing order. */
  ghost predicate Ordered(order: seq<u32>, p: Program) {
    L.Increasing(order) && (forall i :: 0 <= i < |order| ==> order[i] in p) && (forall k :: k in p ==> k in order)
  }

  function LinesOf(p: Program, order: seq<u32>): (lines: seq<Numbered>)
    requires forall i :: 0 <= i < |order| ==> order[i] in p
    ensures |lines| == |order| && forall i :: 0 <= i < |lines| ==> lines[i] == Numbered(order[i], p[order[i]])
  {
    seq(|order|, i requires 0 <= i < |order| => Numbered(order[i], p[order[i]]))
  }

  /** The program after storing lines one by one; a later line replaces an earlier one. */
  function Store(p: Program, lines: seq<Numbered>): Program {
    if lines == [] then p
    else
      var last := lines[|lines| - 1];
      Store(p, lines[..|lines| - 1])[last.number := last.statement]
  }

  /** Whether a line is the last of its number. */
  predicate LastOf(lines: seq<Numbered>, i: nat) {
    i < |lines| && forall j :: i < j < |lines| ==> lines[j].number != lines[i].number
  }

  /** Of several lines with one number the last is stored. */
  lemma {:induction false} LastLineWins(p: Program, lines: seq<Numbered>, i: nat)
    requires LastOf(lines, i)
    ensures lines[i].number in Store(p, lines) && Store(p, lines)[lines[i].number] == lines[i].statement
  {
    var n := |lines| - 1;
    if i < n {
      LastLineWins(p, lines[..n], i);
    }
  }

  /** A number that no line has stays as it was. */
  lemma {:induction false} OthersStay(p: Program, lines: seq<Numbered>, k: u32)
    requires forall i :: 0 <= i < |lines| ==> lines[i].number != k
    ensures (k in Store(p, lines) <==> k in p) && (k in p ==> Store(p, lines)[k] == p[k])
  {
    if lines != [] {
      OthersStay(p, lines[..|lines| - 1], k);
    }
  }

  lemma {:induction false} StoredFrom(lines: seq<Numbered>, k: u32) returns (i: nat)
    requires k in Store(map[], lines)
    ensures i < |lines| && lines[i] == Numbered(k, Store(map[], lines)[k])
  {
    var n := |lines| - 1;
    if lines[n].number == k {
      i := n;
    } else {
      i := StoredFrom(lines[..n], k);
    }
  }

  lemma {:induction false} StoredKeys(p: Program, lines: seq<Numbered>, i: nat)
    requires i < |lines|
    ensures lines[i].number in Store(p, lines)
  {
    var n := |lines| - 1;
    if i < n {
      StoredKeys(p, lines[..n], i);
    }
  }

  lemma {:induction false} StoredSize(lines: seq<Numbered>)
    ensures |Store(map[], lines)| <= |lines|
  {
    if lines != [] {
      var n := |lines| - 1;
      StoredSize(lines[..n]);
      var before := Store(map[], lines[..n]);
      assert Store(map[], lines).Keys == before.Keys + {lines[n].number};
    }
  }

  lemma LinesStore(p: Program, order: seq<u32>)
    requires Ordered(order, p)
    ensures Store(map[], LinesOf(p, order)) == p
  {
    var lines := LinesOf(p, order);
    var q := Store(map[], lines);
    forall k | k in q
      ensures k in p && q[k] == p[k]
    {
      var i := StoredFrom(lines, k);
    }
    forall k | k in p
      ensures k in q
    {
      var i :| 0 <= i < |order| && order[i] == k;
      StoredKeys(map[], lines, i);
    }
  }

  function Members(order: seq<u32>): (s: set<u32>)
    ensures forall k :: k in s <==> k in order
  {
    if order == [] then {}
    else
      assert order == order[..|order| - 1] + [order[|order| - 1]];
      Members(order[..|order| - 1]) + {order[|order| - 1]}
  }

  lemma {:induction false} IncreasingCount(order: seq<u32>)
    requires L.Increasing(order)
    ensures |Members(order)| == |order|
  {
    if order != [] {
      var n := |order| - 1;
      IncreasingCount(order[..n]);
      assert order[n] !in Members(order[..n]);
    }
  }

  lemma ProgramSize(p: Program, order: seq<u32>)
    requires Ordered(order, p)
    ensures |p| == |order|
  {
    IncreasingCount(order);
    assert p.Keys == Members(order);
  }

  /** LIST and a load into an empty interpreter give the program back exactly when every
      statement is printable and no line follows a remark. */
  lemma ProgramReload(p: Program, order: seq<u32>)
    requires Ordered(order, p)
    ensures var lines := LinesOf(p, order);
      var loaded := ParseProgram(Listing(lines));
      (loaded.Ok? && Store(map[], loaded.value) == p) <==> AllPrintable(lines) && RemarkOnlyLast(lines)
  {
    hide Printable, Listing, ParseProgram, Store, Survivors;
    var lines := LinesOf(p, order);
    var loaded := ParseProgram(Listing(lines));
    LinesReload(lines);
    LinesStore(p, order);
    if loaded.Ok? && Store(map[], loaded.value) == p {
      ListingPlain(lines);
      ProgramFits(Listing(lines));
      forall i | 0 <= i < |lines|
        ensures Printable(lines[i].statement)
      {
        var k := StoredFrom(loaded.value, order[i]);
      }
      ListingLoads(lines);
      AllSurvive(lines);
      StoredSize(loaded.value);
      ProgramSize(p, order);
    }
  }
}
