/** The replacements of a patch, sorted and written into the file: the back-to-front
    splice of `applypatch/apply.go` against a splice in one pass. */
module PatchSplice {
  import opened Sequences
  import opened Strings
  import opened PatchParser
  import opened PatchApply

  // ---- Sorting ----------------------------------------------------------------------

  predicate StartsBefore(a: Replacement, b: Replacement) { a.start < b.start }

  predicate Ascending(rs: seq<Replacement>) { forall i, j :: 0 <= i < j < |rs| ==> rs[i].start <= rs[j].start }

  function InsertSorted(r: Replacement, rs: seq<Replacement>): seq<Replacement> { InsertBy(StartsBefore, r, rs) }

  /** The sort by start. */
  function Sorted(rs: seq<Replacement>): seq<Replacement> { SortBy(StartsBefore, rs) }

  lemma AscendingTail(rs: seq<Replacement>)
    requires Ascending(rs) && rs != []
    ensures Ascending(rs[1..]) && forall x :: x in rs[1..] ==> rs[0].start <= x.start
  {
  }

  lemma AscendingByStart(rs: seq<Replacement>)
    ensures Ascending(rs) <==> AscendingBy(StartsBefore, rs)
  {
    if AscendingBy(StartsBefore, rs) {
      forall i, j | 0 <= i < j < |rs|
        ensures rs[i].start <= rs[j].start
      {
        assert !StartsBefore(rs[j], rs[i]);
      }
    }
  }

  /** The sorted list has the same replacements, by increasing start. */
  lemma SortedSorts(rs: seq<Replacement>)
    ensures Ascending(Sorted(rs)) && multiset(Sorted(rs)) == multiset(rs)
    ensures |Sorted(rs)| == |rs|
    ensures forall x :: x in Sorted(rs) <==> x in rs
  {
    SortSorts(StartsBefore, rs);
    AscendingByStart(Sorted(rs));
  }

  /** The replacements that start at `at`, in their order. */
  function Starting(rs: seq<Replacement>, at: nat): seq<Replacement> {
    if rs == [] then []
    else if rs[0].start == at then [rs[0]] + Starting(rs[1..], at)
    else Starting(rs[1..], at)
  }

  lemma StartingCons(r: Replacement, rs: seq<Replacement>, at: nat)
    ensures Starting([r] + rs, at) == if r.start == at then [r] + Starting(rs, at) else Starting(rs, at)
  {
    assert ([r] + rs)[1..] == rs;
  }

  lemma Joined(r: Replacement, a: seq<Replacement>, b: seq<Replacement>)
    ensures [r] + (a + b) == [r] + a + b
  {
  }

  /** The newest in patch order is the last of its start. */
  lemma {:induction false} StartingSnoc(rs: seq<Replacement>, r: Replacement, at: nat)
    ensures Starting(rs + [r], at) == if r.start == at then Starting(rs, at) + [r] else Starting(rs, at)
  {
    if rs == [] {
      assert rs + [r] == [r] && [r][1..] == [];
    } else {
      var first, rest := rs[0], rs[1..];
      assert rs == [first] + rest;
      Joined(first, rest, [r]);
      StartingSnoc(rest, r, at);
      StartingCons(first, rest + [r], at);
      StartingCons(first, rest, at);
      Joined(first, Starting(rest, at), [r]);
    }
  }

  lemma {:induction false} StartingLater(rs: seq<Replacement>, at: nat)
    requires forall x :: x in rs ==> at < x.start
    ensures Starting(rs, at) == []
  {
    if rs != [] { StartingLater(rs[1..], at); }
  }

  lemma AllLater(rs: seq<Replacement>, at: nat)
    requires Ascending(rs) && rs != [] && at < rs[0].start
    ensures forall x :: x in rs ==> at < x.start
  {
    forall x | x in rs
      ensures at < x.start
    {
      if x != rs[0] { AscendingTail(rs); assert x in rs[1..]; }
    }
  }

  lemma {:induction false} InsertStable(r: Replacement, rs: seq<Replacement>, at: nat)
    requires Ascending(rs)
    ensures Starting(InsertSorted(r, rs), at) == if r.start == at then Starting(rs, at) + [r] else Starting(rs, at)
  {
    if rs == [] {
      assert [r][1..] == [];
    } else if r.start < rs[0].start {
      if at == r.start {
        AllLater(rs, at);
        StartingLater(rs, at);
      }
      StartingCons(r, rs, at);
    } else {
      var first, rest := rs[0], rs[1..];
      assert rs == [first] + rest;
      AscendingTail(rs);
      InsertStable(r, rest, at);
      StartingCons(first, InsertSorted(r, rest), at);
      StartingCons(first, rest, at);
      Joined(first, Starting(rest, at), [r]);
    }
  }

  /** Replacements with the same start stay in the order of the patch. */
  lemma {:induction false} SortedIsStable(rs: seq<Replacement>, at: nat)
    ensures Starting(Sorted(rs), at) == Starting(rs, at)
  {
    if rs != [] {
      var front, last := rs[..|rs| - 1], rs[|rs| - 1];
      SortedIsStable(front, at);
      SortedSorts(front);
      InsertStable(last, Sorted(front), at);
      StartingSnoc(front, last, at);
      assert front + [last] == rs;
    }
  }

  // ---- When replacements keep apart -------------------------------------------------

  /** None of a sorted list begins before the end of an earlier one. */
  ghost predicate Apart(rs: seq<Replacement>) { forall i, j :: 0 <= i < j < |rs| ==> End(rs[i]) <= rs[j].start }

  /** Of two replacements in patch order, the one that will be sorted first ends first. */
  predicate Compatible(a: Replacement, b: Replacement) {
    if a.start <= b.start then End(a) <= b.start else End(b) <= a.start
  }

  ghost predicate AllCompatible(rs: seq<Replacement>) { forall i, j :: 0 <= i < j < |rs| ==> Compatible(rs[i], rs[j]) }

  lemma ApartCons(r: Replacement, rs: seq<Replacement>)
    ensures Apart([r] + rs) <==> Apart(rs) && forall x :: x in rs ==> End(r) <= x.start
  {
    var all := [r] + rs;
    if Apart(all) {
      forall i, j | 0 <= i < j < |rs|
        ensures End(rs[i]) <= rs[j].start
      {
        assert all[i + 1] == rs[i] && all[j + 1] == rs[j];
      }
      forall x | x in rs
        ensures End(r) <= x.start
      {
        var k :| 0 <= k < |rs| && rs[k] == x;
        assert all[0] == r && all[k + 1] == x;
      }
    }
  }

  ghost predicate CompatibleWith(rs: seq<Replacement>, r: Replacement) { forall x :: x in rs ==> Compatible(x, r) }

  lemma FrontApart(r: Replacement, rs: seq<Replacement>)
    requires forall x :: x in rs ==> r.start < x.start
    ensures Apart([r] + rs) <==> Apart(rs) && CompatibleWith(rs, r)
  {
    ApartCons(r, rs);
  }

  /** Inserting the newest keeps a sorted list apart exactly when the newest is
      compatible with all of it. */
  lemma {:induction false} InsertApart(r: Replacement, rs: seq<Replacement>)
    requires Ascending(rs)
    ensures Apart(InsertSorted(r, rs)) <==> Apart(rs) && CompatibleWith(rs, r)
  {
    if rs == [] {
    } else if r.start < rs[0].start {
      AscendingTail(rs);
      assert [rs[0]] + rs[1..] == rs;
      FrontApart(r, rs);
    } else {
      AscendingTail(rs);
      InsertApart(r, rs[1..]);
      BehindApart(r, rs[0], rs[1..]);
      assert [rs[0]] + rs[1..] == rs;
    }
  }

  lemma BehindApart(r: Replacement, first: Replacement, rs: seq<Replacement>)
    requires first.start <= r.start
    requires Apart(InsertSorted(r, rs)) <==> Apart(rs) && CompatibleWith(rs, r)
    ensures Apart([first] + InsertSorted(r, rs)) <==> Apart([first] + rs) && CompatibleWith([first] + rs, r)
  {
    InsertMembers(StartsBefore, r, rs);
    ApartCons(first, InsertSorted(r, rs));
    ApartCons(first, rs);
    assert first in [first] + rs;
    assert CompatibleWith([first] + rs, r) <==> CompatibleWith(rs, r) && Compatible(first, r);
  }

  lemma CompatibleSnoc(rs: seq<Replacement>, r: Replacement)
    ensures AllCompatible(rs + [r]) <==> AllCompatible(rs) && CompatibleWith(rs, r)
  {
    var all := rs + [r];
    if AllCompatible(all) {
      forall i, j | 0 <= i < j < |rs|
        ensures Compatible(rs[i], rs[j])
      {
        assert all[i] == rs[i] && all[j] == rs[j];
      }
      forall x | x in rs
        ensures Compatible(x, r)
      {
        var k :| 0 <= k < |rs| && rs[k] == x;
        assert all[k] == x && all[|rs|] == r;
      }
    }
  }

  /** A stable sort keeps replacements apart exactly when each two of them are compatible. */
  lemma {:induction false} SortedApart(rs: seq<Replacement>)
    ensures Apart(Sorted(rs)) <==> AllCompatible(rs)
  {
    if rs != [] {
      var front, last := rs[..|rs| - 1], rs[|rs| - 1];
      SortedApart(front);
      SortedSorts(front);
      InsertApart(last, Sorted(front));
      CompatibleSnoc(front, last);
      assert front + [last] == rs;
    }
  }

  /** No match at the end of the file begins before the end of an earlier match. */
  ghost predicate AnchorsBehind(chunks: seq<Chunk>, rs: seq<Replacement>)
    requires |chunks| == |rs|
  {
    forall i, j :: 0 <= i < j < |rs| && chunks[j].endOfFile && rs[i].oldLen > 0 && rs[j].oldLen > 0
      ==> End(rs[i]) <= rs[j].start
  }

  /** No insertion falls inside a match, or at the beginning of a match that comes first
      in the patch. */
  ghost predicate InsertionsOutside(rs: seq<Replacement>) {
    forall i, j :: 0 <= i < j < |rs| && (rs[i].oldLen == 0) != (rs[j].oldLen == 0) ==> Compatible(rs[i], rs[j])
  }

  /** The replacements of a patch keep apart exactly when no match at the end of the file
      goes back into an earlier one and no insertion falls inside a match. */
  lemma ReplacementsApart(key: Keys, lines: seq<string>, chunks: seq<Chunk>)
    requires PlanAll(key, lines, chunks, 0).Plan?
    ensures |PlanAll(key, lines, chunks, 0).edits| == |chunks|
    ensures var rs := PlanAll(key, lines, chunks, 0).edits;
            Apart(Sorted(rs)) <==> AnchorsBehind(chunks, rs) && InsertionsOutside(rs)
  {
    var rs := PlanAll(key, lines, chunks, 0).edits;
    PlanInBounds(key, lines, chunks, 0);
    SortedApart(rs);
    forall i, j | 0 <= i < j < |rs| && rs[i].oldLen > 0 && rs[j].oldLen > 0
      ensures !chunks[j].endOfFile ==> End(rs[i]) <= rs[j].start
      ensures Compatible(rs[i], rs[j]) <==> End(rs[i]) <= rs[j].start
    {
      if !chunks[j].endOfFile { MatchesInOrder(key, lines, chunks, 0, i, j); }
      assert InFile(lines, chunks[i], rs[i], 0) && InFile(lines, chunks[j], rs[j], 0);
    }
  }

  // ---- Writing the replacements -----------------------------------------------------

  predicate Fits(lines: seq<string>, rs: seq<Replacement>) { forall r :: r in rs ==> End(r) <= |lines| }

  /** One replacement; what it should remove behind the end of the lines is not there. */
  function ReplaceOne(lines: seq<string>, r: Replacement): seq<string>
    requires r.start <= |lines|
  {
    lines[..r.start] + r.lines + lines[if End(r) <= |lines| then End(r) else |lines|..]
  }

  /** `applyReplacements`: the last replacement first. */
  function BackToFront(lines: seq<string>, rs: seq<Replacement>): (out: seq<string>)
    requires Ascending(rs) && Fits(lines, rs)
    ensures var n := if rs == [] then |lines| else rs[0].start; n <= |out| && n <= |lines| && out[..n] == lines[..n]
  {
    if rs == [] then lines
    else
      AscendingTail(rs);
      assert rs[0] in rs;
      ReplaceOne(BackToFront(lines, rs[1..]), rs[0])
  }

  /** The splice in one pass: the lines between the replacements, and their new lines. */
  function Splice(lines: seq<string>, rs: seq<Replacement>, from: nat): seq<string>
    requires from <= |lines| && Fits(lines, rs) && Apart(rs) && forall r :: r in rs ==> from <= r.start
    decreases |rs|
  {
    if rs == [] then lines[from..]
    else
      ApartTail(rs);
      assert rs[0] in rs;
      lines[from .. rs[0].start] + rs[0].lines + Splice(lines, rs[1..], End(rs[0]))
  }

  lemma ApartTail(rs: seq<Replacement>)
    requires Apart(rs) && rs != []
    ensures Apart(rs[1..]) && forall r :: r in rs[1..] ==> End(rs[0]) <= r.start
  {
    assert [rs[0]] + rs[1..] == rs;
    ApartCons(rs[0], rs[1..]);
  }

  lemma ApartAscends(rs: seq<Replacement>)
    requires Apart(rs)
    ensures Ascending(rs)
  {
    forall i, j | 0 <= i < j < |rs|
      ensures rs[i].start <= rs[j].start
    {
      assert End(rs[i]) <= rs[j].start;
    }
  }

  /** Replacements that keep apart, written back to front in place, give the splice. */
  lemma {:induction false} BackToFrontSplices(lines: seq<string>, rs: seq<Replacement>, from: nat)
    requires from <= |lines| && Fits(lines, rs) && Apart(rs) && forall r :: r in rs ==> from <= r.start
    ensures Ascending(rs) && BackToFront(lines, rs) == lines[..from] + Splice(lines, rs, from)
    decreases |rs|
  {
    ApartAscends(rs);
    if rs == [] {
      assert lines[..from] + lines[from..] == lines;
    } else {
      var r := rs[0];
      ApartTail(rs);
      BackToFrontSplices(lines, rs[1..], End(r));
      SpliceStep(lines, r, Splice(lines, rs[1..], End(r)), from);
    }
  }

  lemma SpliceStep(lines: seq<string>, r: Replacement, tail: seq<string>, from: nat)
    requires from <= r.start && End(r) <= |lines|
    ensures ReplaceOne(lines[..End(r)] + tail, r) == lines[..from] + (lines[from .. r.start] + r.lines + tail)
  {
    var all := lines[..End(r)] + tail;
    assert all[..r.start] == lines[..r.start] && all[End(r)..] == tail;
    assert lines[..r.start] == lines[..from] + lines[from .. r.start];
  }

  function Removed(rs: seq<Replacement>): nat { if rs == [] then 0 else rs[0].oldLen + Removed(rs[1..]) }

  function Added(rs: seq<Replacement>): nat { if rs == [] then 0 else |rs[0].lines| + Added(rs[1..]) }

  lemma {:induction false} SpliceLength(lines: seq<string>, rs: seq<Replacement>, from: nat)
    requires from <= |lines| && Fits(lines, rs) && Apart(rs) && forall r :: r in rs ==> from <= r.start
    ensures |Splice(lines, rs, from)| + from + Removed(rs) == |lines| + Added(rs)
    decreases |rs|
  {
    if rs != [] {
      ApartTail(rs);
      SpliceLength(lines, rs[1..], End(rs[0]));
    }
  }

  /** `applyReplacements`: the loop that takes lines out, one after the other. */
  method TakeOut(lines: seq<string>, start: nat, count: nat) returns (out: seq<string>)
    requires start <= |lines|
    ensures out == lines[..start] + lines[if start + count <= |lines| then start + count else |lines|..]
  {
    out := lines;
    for removed := 0 to count
      invariant out == lines[..start] + lines[if start + removed <= |lines| then start + removed else |lines|..]
    {
      if start < |out| { out := out[..start] + out[start + 1..]; }
    }
  }

  /** `applyReplacements` as it runs: back to front, old lines out and new lines in. */
  method ApplyReplacements(original: seq<string>, rs: seq<Replacement>) returns (lines: seq<string>)
    requires Ascending(rs) && Fits(original, rs)
    ensures lines == BackToFront(original, rs)
  {
    lines := original;
    assert rs[|rs|..] == [];
    for i := |rs| downto 0
      invariant Ascending(rs[i..]) && Fits(original, rs[i..]) && lines == BackToFront(original, rs[i..])
    {
      var current := rs[i];
      assert rs[i..][1..] == rs[i + 1..] && rs[i..][0] == current;
      assert Ascending(rs[i..]) && current in rs;
      var start := current.start;
      var base := TakeOut(lines, start, current.oldLen);
      var tail := base[start..];
      lines := base[..start] + current.lines;
      lines := lines + tail;
    }
    assert rs[0..] == rs;
  }
}
