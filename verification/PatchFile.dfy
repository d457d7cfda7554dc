/** A whole file through a patch: `deriveNewContents` of `applypatch/apply.go`, and what a
    patch written from a change does to the file that changed. */
module PatchFile {
  import opened Sequences
  import opened Strings
  import PatchGrammar
  import opened PatchParser
  import opened PatchApply
  import opened PatchSplice
  import opened PatchOverlap

  datatype Outcome = Done(lines: seq<string>) | Refused(why: Located)

  lemma PlanFits(key: Keys, lines: seq<string>, chunks: seq<Chunk>)
    requires PlanAll(key, lines, chunks, 0).Plan?
    ensures var rs := Sorted(PlanAll(key, lines, chunks, 0).edits);
            Ascending(rs) && Fits(lines, rs) && |rs| == |chunks|
                && multiset(rs) == multiset(PlanAll(key, lines, chunks, 0).edits)
  {
    var plan := PlanAll(key, lines, chunks, 0).edits;
    PlanInBounds(key, lines, chunks, 0);
    SortedSorts(plan);
    forall r | r in Sorted(plan)
      ensures End(r) <= |lines|
    {
      var i :| 0 <= i < |plan| && plan[i] == r;
      assert InFile(lines, chunks[i], plan[i], 0);
    }
  }

  /** The chunks applied to the lines of a file. */
  function Apply(key: Keys, lines: seq<string>, chunks: seq<Chunk>): Outcome {
    match PlanAll(key, lines, chunks, 0)
    case Failed(why) => Refused(why)
    case Plan(rs) =>
      PlanFits(key, lines, chunks);
      Done(BackToFront(lines, Sorted(rs)))
  }

  method ApplyChunks(key: Keys, lines: seq<string>, chunks: seq<Chunk>) returns (o: Outcome)
    ensures o == Apply(key, lines, chunks)
  {
    var p := PlanReplacements(key, lines, chunks);
    if p.Failed? { return Refused(p.why); }
    PlanFits(key, lines, chunks);
    var out := ApplyReplacements(lines, Sorted(p.edits));
    o := Done(out);
  }

  /** When the chunks stay apart, the in-place splice is the splice in one pass, and the
      number of lines changes by what is added and removed. */
  lemma AppliedInOnePass(key: Keys, lines: seq<string>, chunks: seq<Chunk>)
    requires PlanAll(key, lines, chunks, 0).Plan? && StayApart(key, lines, chunks, START)
    ensures var rs := Sorted(PlanAll(key, lines, chunks, 0).edits);
            && Fits(lines, rs) && Apart(rs)
            && Apply(key, lines, chunks) == Done(Splice(lines, rs, 0))
            && |Splice(lines, rs, 0)| + Removed(rs) == |lines| + Added(rs)
  {
    var rs := Sorted(PlanAll(key, lines, chunks, 0).edits);
    PlanFits(key, lines, chunks);
    StayApartIsExact(key, lines, chunks);
    BackToFrontSplices(lines, rs, 0);
    SpliceLength(lines, rs, 0);
    assert lines[..0] + Splice(lines, rs, 0) == Splice(lines, rs, 0);
  }

  // ---- Where the chunks do not stay apart -------------------------------------------

  ghost predicate ReadsExactly(key: Keys) { forall s: string :: key(Exact, s) == s }

  /** A search that finds its pattern literally, and nowhere before. */
  lemma FoundAtPlace(key: Keys, lines: seq<string>, pattern: seq<string>, start: nat, eof: bool, at: nat)
    requires ReadsExactly(key) && pattern != [] && at + |pattern| <= |lines| && lines[at .. at + |pattern|] == pattern
    requires SearchStart(lines, pattern, start, eof) <= at
    requires NoneIn(key, Exact, lines, pattern, SearchStart(lines, pattern, start, eof), at)
    ensures Seek(key, lines, pattern, start, eof) == at
  {
    var window := lines[at .. at + |pattern|];
    assert forall k :: 0 <= k < |pattern| ==> window[k] == lines[at + k];
    assert MatchesAt(key, Exact, lines, pattern, at);
    var r := FirstMatch(key, Exact, lines, pattern, SearchStart(lines, pattern, start, eof));
    assert r != -1;
    assert at <= r;
  }

  function Bare(taken: seq<string>, put: seq<string>, eof: bool): Chunk { Chunk("", taken, put, [], eof) }

  lemma SortedPair(a: Replacement, b: Replacement)
    ensures Sorted([a, b]) == if a.start <= b.start then [a, b] else [b, a]
  {
    assert [a, b][..1] == [a] && [a][..0] == [] && [a][1..] == [];
    assert InsertBy(StartsBefore, a, []) == [a] && InsertBy(StartsBefore, b, []) == [b];
    assert Sorted([]) == [];
    assert Sorted([a]) == InsertBy(StartsBefore, a, Sorted([]));
  }

  lemma PairBackToFront(lines: seq<string>, a: Replacement, b: Replacement)
    requires a.start <= b.start && End(a) <= |lines| && End(b) <= |lines|
    ensures Ascending([a, b]) && Fits(lines, [a, b]) && a.start <= |ReplaceOne(lines, b)|
    ensures BackToFront(lines, [a, b]) == ReplaceOne(ReplaceOne(lines, b), a)
  {
    assert [a, b][1..] == [b] && [b][1..] == [];
    assert BackToFront(lines, []) == lines && BackToFront(lines, [b]) == ReplaceOne(lines, b);
  }

  lemma PlanOfTwoWith(locate: (Chunk, nat) -> Located, c: Chunk, d: Chunk, a: Replacement, b: Replacement,
      cursor: nat, end: nat)
    requires locate(c, 0) == Located(a, cursor) && locate(d, cursor) == Located(b, end)
    ensures PlanWith(locate, [c, d], 0) == Plan([a, b])
  {
    assert [c, d][1..] == [d] && [d][1..] == [];
    assert PlanWith(locate, [d], cursor) == Before([b], Plan([])) == Plan([b]);
  }

  lemma PlanOfTwo(key: Keys, lines: seq<string>, c: Chunk, d: Chunk, a: Replacement, b: Replacement, cursor: nat,
      end: nat)
    requires Locate(key, lines, c, 0) == Located(a, cursor) && Locate(key, lines, d, cursor) == Located(b, end)
    ensures PlanAll(key, lines, [c, d], 0) == Plan([a, b])
  {
    var locate := (chunk: Chunk, n: nat) => Locate(key, lines, chunk, n);
    PlanIsWith(key, lines, locate, [c, d], 0);
    PlanOfTwoWith(locate, c, d, a, b, cursor, end);
  }

  lemma TwoInBounds(key: Keys, lines: seq<string>, c: Chunk, d: Chunk, a: Replacement, b: Replacement, cursor: nat,
      end: nat)
    requires Locate(key, lines, c, 0) == Located(a, cursor) && Locate(key, lines, d, cursor) == Located(b, end)
    ensures End(a) <= |lines| && End(b) <= |lines|
  {
    LocateInBounds(key, lines, c, 0);
    LocateInBounds(key, lines, d, cursor);
  }

  lemma TwoStayApart(key: Keys, lines: seq<string>, chunks: seq<Chunk>, a: Replacement, b: Replacement)
    requires PlanAll(key, lines, chunks, 0) == Plan([a, b])
    ensures StayApart(key, lines, chunks, START) <==> Compatible(a, b)
  {
    StayApartIsExact(key, lines, chunks);
    SortedApart([a, b]);
    assert AllCompatible([a, b]) <==> Compatible([a, b][0], [a, b][1]);
  }

  /** Two chunks with their replacements. */
  lemma ApplyTwo(key: Keys, lines: seq<string>, c: Chunk, d: Chunk, a: Replacement, b: Replacement, cursor: nat,
      end: nat)
    requires Locate(key, lines, c, 0) == Located(a, cursor) && Locate(key, lines, d, cursor) == Located(b, end)
    ensures var first, last := if a.start <= b.start then a else b, if a.start <= b.start then b else a;
            && End(first) <= |lines| && End(last) <= |lines| && first.start <= |ReplaceOne(lines, last)|
            && Apply(key, lines, [c, d]) == Done(ReplaceOne(ReplaceOne(lines, last), first))
    ensures StayApart(key, lines, [c, d], START) <==> Compatible(a, b)
  {
    var first, last := if a.start <= b.start then a else b, if a.start <= b.start then b else a;
    PlanOfTwo(key, lines, c, d, a, b, cursor, end);
    TwoInBounds(key, lines, c, d, a, b, cursor, end);
    SortedPair(a, b);
    PairBackToFront(lines, first, last);
    TwoStayApart(key, lines, [c, d], a, b);
  }

  /** A match anchored at the end of the file that goes back into an earlier match: what it
      writes is lost. */
  lemma OverlapLosesLines(key: Keys, a: string, b: string, x: string, y: string)
    requires ReadsExactly(key)
    ensures var chunks := [Bare([a, b], [x], false), Bare([b], [y], true)];
            Apply(key, [a, b], chunks) == Done([x]) && !StayApart(key, [a, b], chunks, START)
  {
    var lines := [a, b];
    FoundAtPlace(key, lines, [a, b], 0, false, 0);
    FoundAtPlace(key, lines, [b], 2, true, 1);
    var both, anchored := Replacement(0, 2, [x]), Replacement(1, 1, [y]);
    ApplyTwo(key, lines, Bare([a, b], [x], false), Bare([b], [y], true), both, anchored, 2, 2);
    assert ReplaceOne(lines, anchored) == [a, y] && ReplaceOne([a, y], both) == [x];
  }

  /** Lines in front of an empty last line, and a match that takes this line. */
  lemma PutThenTaken(a: string, b: string, i: string, y: string)
    ensures ReplaceOne(ReplaceOne([a, b, ""], Replacement(2, 0, [i])), Replacement(1, 2, [y])) == [a, y, ""]
  {
    assert ReplaceOne([a, b, ""], Replacement(2, 0, [i])) == [a, b, i, ""];
    assert ReplaceOne([a, b, i, ""], Replacement(1, 2, [y])) == [a, y, ""];
  }

  lemma PutAndTakeLast(a: string, i: string, z: string)
    ensures var taken, put := Replacement(1, 1, [z]), Replacement(1, 0, [i]);
            && ReplaceOne(ReplaceOne([a, ""], put), taken) == [a, z, ""]
            && ReplaceOne(ReplaceOne([a, ""], taken), put) == [a, i, z]
  {
    var taken, put := Replacement(1, 1, [z]), Replacement(1, 0, [i]);
    assert ReplaceOne([a, ""], put) == [a, i, ""] && ReplaceOne([a, i, ""], taken) == [a, z, ""];
    assert ReplaceOne([a, ""], taken) == [a, z] && ReplaceOne([a, z], put) == [a, i, z];
  }

  /** A match of the last lines, the first of which is like none before. */
  lemma LastLinesFound(key: Keys, lines: seq<string>, taken: seq<string>, put: seq<string>, at: nat)
    requires ReadsExactly(key) && taken != [] && at + |taken| == |lines| && lines[at..] == taken
    requires forall k :: 0 <= k < at ==> lines[k] != taken[0]
    ensures Locate(key, lines, Bare(taken, put, false), 0) == Located(Replacement(at, |taken|, put), |lines|)
  {
    forall k | 0 <= k < at
      ensures !MatchesAt(key, Exact, lines, taken, k)
    {
      assert key(Exact, lines[k + 0]) != key(Exact, taken[0]);
    }
    FoundAtPlace(key, lines, taken, 0, false, at);
  }

  /** An insertion before the empty last line and a later match that takes that line: the
      inserted line is taken out instead of it. */
  lemma InsertionInsideIsLost(key: Keys, a: string, b: string, i: string, y: string)
    requires ReadsExactly(key) && a != b
    ensures var chunks := [Bare([], [i], false), Bare([b, ""], [y], false)];
            Apply(key, [a, b, ""], chunks) == Done([a, y, ""]) && !StayApart(key, [a, b, ""], chunks, START)
  {
    LastLinesFound(key, [a, b, ""], [b, ""], [y], 1);
    PutThenTaken(a, b, i, y);
    ApplyTwo(key, [a, b, ""], Bare([], [i], false), Bare([b, ""], [y], false), Replacement(2, 0, [i]),
        Replacement(1, 2, [y]), 0, 3);
  }

  /** Where a match takes no more than the empty last line, the order of the chunks decides:
      an insertion behind that match is lost, in front of it is kept. */
  lemma OrderDecidesInsertion(key: Keys, a: string, i: string, z: string)
    requires ReadsExactly(key) && a != ""
    ensures var insertion, last := Bare([], [i], false), Bare([""], [z], false);
            && Apply(key, [a, ""], [last, insertion]) == Done([a, z, ""])
               && !StayApart(key, [a, ""], [last, insertion], START)
            && Apply(key, [a, ""], [insertion, last]) == Done([a, i, z])
               && StayApart(key, [a, ""], [insertion, last], START)
  {
    LastLinesFound(key, [a, ""], [""], [z], 1);
    PutAndTakeLast(a, i, z);
    var taken, put := Replacement(1, 1, [z]), Replacement(1, 0, [i]);
    ApplyTwo(key, [a, ""], Bare([""], [z], false), Bare([], [i], false), taken, put, 2, 2);
    ApplyTwo(key, [a, ""], Bare([], [i], false), Bare([""], [z], false), put, taken, 0, 2);
  }

  // ---- A change and its patch -------------------------------------------------------

  /** A part of a change: lines that stay and are not written down, then a section. */
  datatype Part = Part(gap: seq<string>, context: string, ops: seq<Op>, endOfFile: bool)

  function OldFile(parts: seq<Part>, end: seq<string>): seq<string> {
    if parts == [] then end else parts[0].gap + OldOf(parts[0].ops) + OldFile(parts[1..], end)
  }

  function NewFile(parts: seq<Part>, end: seq<string>): seq<string> {
    if parts == [] then end else parts[0].gap + NewOf(parts[0].ops) + NewFile(parts[1..], end)
  }

  /** The sections that are written down. */
  function SectionsOf(parts: seq<Part>): seq<Section> {
    if parts == [] then [] else [Section(parts[0].context, parts[0].ops, parts[0].endOfFile)] + SectionsOf(parts[1..])
  }

  /** A section can be taken for no other place than `at`. Its context line is found. One
      that only inserts stands where such lines go, at the end of the file; one that is
      anchored reaches the end; the old lines of any other occur nowhere between the end of
      the section before, or its own context line, and its place. */
  ghost predicate HasPlace(key: Keys, lines: seq<string>, p: Part, at: nat, cursor: nat) {
    var pattern, after := OldOf(p.ops), AfterContext(key, lines, p.context, cursor);
    && after >= 0 && at + |pattern| <= |lines|
    && if pattern == [] then at == Insertion(lines, p.endOfFile)
       else if p.endOfFile then at + |pattern| == |lines|
       else after <= at && NoneIn(key, Exact, lines, pattern, after, at)
  }

  /** The cursor behind a section; one that only inserts leaves it behind its context line. */
  function CursorAfter(key: Keys, lines: seq<string>, p: Part, at: nat, cursor: nat): nat {
    var after := AfterContext(key, lines, p.context, cursor);
    if OldOf(p.ops) == [] && after >= 0 then after else at + |OldOf(p.ops)|
  }

  /** Parts that have their places one after the other, over any way to tell. */
  ghost predicate AllPlaced(
    has: (Part, nat, nat) -> bool, next: (Part, nat, nat) -> nat, parts: seq<Part>, from: nat, cursor: nat)
    decreases |parts|
  {
    parts == [] ||
    var p, at := parts[0], from + |parts[0].gap|;
    has(p, at, cursor) && AllPlaced(has, next, parts[1..], at + |OldOf(p.ops)|, next(p, at, cursor))
  }

  ghost function HasPlaceIn(key: Keys, lines: seq<string>): (Part, nat, nat) -> bool {
    (p: Part, at: nat, cursor: nat) => HasPlace(key, lines, p, at, cursor)
  }

  ghost function CursorIn(key: Keys, lines: seq<string>): (Part, nat, nat) -> nat {
    (p: Part, at: nat, cursor: nat) => CursorAfter(key, lines, p, at, cursor)
  }

  /** No section of a change can be taken for another place in its old file. */
  ghost predicate Unambiguous(key: Keys, parts: seq<Part>, end: seq<string>) {
    AllPlaced(HasPlaceIn(key, OldFile(parts, end)), CursorIn(key, OldFile(parts, end)), parts, 0, 0)
  }

  /** What is written for a part. */
  function EditOf(p: Part, from: nat): Replacement {
    Replacement(from + |p.gap|, |OldOf(p.ops)|, NewOf(p.ops))
  }

  /** The replacements of such a patch. */
  function EditsAt(parts: seq<Part>, from: nat): seq<Replacement>
    decreases |parts|
  {
    if parts == [] then []
    else [EditOf(parts[0], from)] + EditsAt(parts[1..], End(EditOf(parts[0], from)))
  }

  /** A chunk that stands for a part. */
  predicate Says(c: Chunk, p: Part) {
    c.context == p.context && c.oldLines == OldOf(p.ops) && c.newLines == NewOf(p.ops) && c.endOfFile == p.endOfFile
  }

  lemma LinesFound(key: Keys, lines: seq<string>, c: Chunk, at: nat, cursor: nat)
    requires ReadsExactly(key) && c.oldLines != [] && at + |c.oldLines| <= |lines|
    requires lines[at .. at + |c.oldLines|] == c.oldLines
    requires if c.endOfFile then at + |c.oldLines| == |lines|
             else cursor <= at && NoneIn(key, Exact, lines, c.oldLines, cursor, at)
    ensures LocateLines(key, lines, c, cursor) == Located(Replacement(at, |c.oldLines|, c.newLines), at + |c.oldLines|)
  {
    FoundAtPlace(key, lines, c.oldLines, cursor, c.endOfFile, at);
  }

  /** The chunk of a part is found where it should be. */
  lemma PartFound(key: Keys, lines: seq<string>, c: Chunk, p: Part, at: nat, cursor: nat)
    requires ReadsExactly(key) && Says(c, p) && HasPlace(key, lines, p, at, cursor)
    requires lines[at .. at + |OldOf(p.ops)|] == OldOf(p.ops)
    ensures Locate(key, lines, c, cursor)
         == Located(Replacement(at, |OldOf(p.ops)|, NewOf(p.ops)), CursorAfter(key, lines, p, at, cursor))
  {
    if c.oldLines != [] { LinesFound(key, lines, c, at, AfterContext(key, lines, p.context, cursor)); }
  }

  /** The plan over any way to locate a chunk. */
  function PlanWith(locate: (Chunk, nat) -> Located, chunks: seq<Chunk>, cursor: nat): Plan
    decreases |chunks|
  {
    if chunks == [] then Plan([])
    else
      match locate(chunks[0], cursor)
      case Located(edit, next) => Before([edit], PlanWith(locate, chunks[1..], next))
      case missing => Failed(missing)
  }

  lemma {:induction false} PlanIsWith(key: Keys, lines: seq<string>, locate: (Chunk, nat) -> Located,
      chunks: seq<Chunk>, cursor: nat)
    requires forall c: Chunk, n: nat :: locate(c, n) == Locate(key, lines, c, n)
    ensures PlanAll(key, lines, chunks, cursor) == PlanWith(locate, chunks, cursor)
    decreases |chunks|
  {
    if chunks != [] {
      var l := locate(chunks[0], cursor);
      if l.Located? { PlanIsWith(key, lines, locate, chunks[1..], l.cursor); }
    }
  }

  lemma PlanCons1(locate: (Chunk, nat) -> Located, c: Chunk, rest: seq<Chunk>, cursor: nat, r: Replacement, next: nat)
    requires locate(c, cursor) == Located(r, next)
    ensures PlanWith(locate, [c] + rest, cursor) == Before([r], PlanWith(locate, rest, next))
  {
    assert ([c] + rest)[1..] == rest;
  }

  lemma ThreeParts(s: seq<string>, a: seq<string>, b: seq<string>, c: seq<string>)
    requires s == a + b + c
    ensures s[..|a|] == a && s[|a| .. |a| + |b|] == b && s[|a| + |b|..] == c
  {
  }

  lemma PartIsThere(lines: seq<string>, p: Part, tail: seq<string>, from: nat)
    requires from <= |lines| && lines[from..] == p.gap + OldOf(p.ops) + tail
    ensures var at, n := from + |p.gap|, |OldOf(p.ops)|;
            && at + n <= |lines| && lines[from .. at] == p.gap && lines[at .. at + n] == OldOf(p.ops)
               && lines[at + n..] == tail
  {
    var k, n := |p.gap|, |OldOf(p.ops)|;
    var s := lines[from..];
    ThreeParts(s, p.gap, OldOf(p.ops), tail);
    assert s[..k] == lines[from .. from + k] && s[k .. k + n] == lines[from + k .. from + k + n]
        && s[k + n..] == lines[from + k + n..];
  }

  function ChunkFor(p: Part): Chunk { ChunkOf(Section(p.context, p.ops, p.endOfFile)) }

  lemma FirstChunk(parts: seq<Part>)
    requires parts != []
    ensures ChunksOf(SectionsOf(parts)) == [ChunkFor(parts[0])] + ChunksOf(SectionsOf(parts[1..]))
  {
    assert SectionsOf(parts)[1..] == SectionsOf(parts[1..]);
  }

  /** Every part is found where it is, one after the other. */
  ghost predicate FoundFrom(locate: (Chunk, nat) -> Located, parts: seq<Part>, from: nat, cursor: nat)
    decreases |parts|
  {
    parts == [] ||
    var l := locate(ChunkFor(parts[0]), cursor);
    l.Located? && l.edit == EditOf(parts[0], from) && FoundFrom(locate, parts[1..], End(l.edit), l.cursor)
  }

  lemma {:induction false} FoundIsPlanned(locate: (Chunk, nat) -> Located, parts: seq<Part>, from: nat, cursor: nat)
    requires FoundFrom(locate, parts, from, cursor)
    ensures PlanWith(locate, ChunksOf(SectionsOf(parts)), cursor) == Plan(EditsAt(parts, from))
    decreases |parts|
  {
    if parts != [] {
      var l := locate(ChunkFor(parts[0]), cursor);
      FirstChunk(parts);
      PlanCons1(locate, ChunkFor(parts[0]), ChunksOf(SectionsOf(parts[1..])), cursor, l.edit, l.cursor);
      FoundIsPlanned(locate, parts[1..], End(l.edit), l.cursor);
    }
  }

  /** A part that has its place is found there. */
  ghost predicate Finds(
    locate: (Chunk, nat) -> Located, has: (Part, nat, nat) -> bool, next: (Part, nat, nat) -> nat, lines: seq<string>)
  {
    forall p: Part, at: nat, cursor: nat {:trigger has(p, at, cursor)} ::
      has(p, at, cursor) && at + |OldOf(p.ops)| <= |lines| && lines[at .. at + |OldOf(p.ops)|] == OldOf(p.ops) ==>
        locate(ChunkFor(p), cursor) == Located(Replacement(at, |OldOf(p.ops)|, NewOf(p.ops)), next(p, at, cursor))
  }

  lemma SearchFinds(key: Keys, lines: seq<string>)
    requires ReadsExactly(key)
    ensures Finds((c: Chunk, n: nat) => Locate(key, lines, c, n), HasPlaceIn(key, lines), CursorIn(key, lines), lines)
  {
    forall p: Part, at: nat, cursor: nat | HasPlaceIn(key, lines)(p, at, cursor)
        && lines[at .. at + |OldOf(p.ops)|] == OldOf(p.ops)
      ensures Locate(key, lines, ChunkFor(p), cursor)
           == Located(Replacement(at, |OldOf(p.ops)|, NewOf(p.ops)), CursorIn(key, lines)(p, at, cursor))
    {
      PartFound(key, lines, ChunkFor(p), p, at, cursor);
    }
  }

  lemma {:induction false} PartsFound(
    locate: (Chunk, nat) -> Located, has: (Part, nat, nat) -> bool, next: (Part, nat, nat) -> nat, lines: seq<string>,
    parts: seq<Part>, end: seq<string>, from: nat, cursor: nat)
    requires Finds(locate, has, next, lines) && AllPlaced(has, next, parts, from, cursor)
    requires from <= |lines| && lines[from..] == OldFile(parts, end)
    ensures FoundFrom(locate, parts, from, cursor)
    decreases |parts|
  {
    if parts != [] {
      var p, rest, at := parts[0], parts[1..], from + |parts[0].gap|;
      PartIsThere(lines, p, OldFile(rest, end), from);
      assert has(p, at, cursor);
      PartsFound(locate, has, next, lines, rest, end, at + |OldOf(p.ops)|, next(p, at, cursor));
    }
  }

  ghost predicate Behind(rs: seq<Replacement>, from: nat) { forall r :: r in rs ==> from <= r.start }

  lemma SpliceCons(lines: seq<string>, r: Replacement, rs: seq<Replacement>, from: nat)
    requires from <= r.start && End(r) <= |lines|
    requires Fits(lines, rs) && Apart(rs) && Behind(rs, End(r))
    ensures Fits(lines, [r] + rs) && Apart([r] + rs) && Behind([r] + rs, from)
    ensures Splice(lines, [r] + rs, from) == lines[from .. r.start] + r.lines + Splice(lines, rs, End(r))
  {
    ApartCons(r, rs);
    assert ([r] + rs)[1..] == rs;
  }

  lemma GapIsThere(lines: seq<string>, p: Part, tail: seq<string>, from: nat)
    requires from <= |lines| && lines[from..] == p.gap + OldOf(p.ops) + tail
    ensures End(EditOf(p, from)) <= |lines| && lines[from .. from + |p.gap|] == p.gap
  {
    assert lines[from..][..|p.gap|] == p.gap;
  }

  /** The replacement of one part in front of others. */
  lemma PartSplices(lines: seq<string>, p: Part, tail: seq<string>, rs: seq<Replacement>, from: nat)
    requires from <= |lines| && lines[from..] == p.gap + OldOf(p.ops) + tail
    requires Fits(lines, rs) && Apart(rs) && Behind(rs, End(EditOf(p, from)))
    ensures var r := EditOf(p, from);
            && End(r) <= |lines| && Fits(lines, [r] + rs) && Apart([r] + rs) && Behind([r] + rs, from)
            && Splice(lines, [r] + rs, from) == p.gap + NewOf(p.ops) + Splice(lines, rs, End(r))
  {
    GapIsThere(lines, p, tail, from);
    SpliceCons(lines, EditOf(p, from), rs, from);
  }

  /** Their splice is the new file. */
  lemma {:induction false} PartsSplice(lines: seq<string>, parts: seq<Part>, end: seq<string>, from: nat)
    requires from <= |lines| && lines[from..] == OldFile(parts, end)
    ensures var rs := EditsAt(parts, from);
            Fits(lines, rs) && Apart(rs) && Behind(rs, from) && Splice(lines, rs, from) == NewFile(parts, end)
    decreases |parts|
  {
    if parts != [] {
      var next, rest := End(EditOf(parts[0], from)), parts[1..];
      PartIsThere(lines, parts[0], OldFile(rest, end), from);
      PartsSplice(lines, rest, end, next);
      PartSplices(lines, parts[0], OldFile(rest, end), EditsAt(rest, next), from);
    }
  }

  lemma {:induction false} SortedKeeps(rs: seq<Replacement>)
    requires Ascending(rs)
    ensures Sorted(rs) == rs
  {
    if rs != [] {
      var front, last := rs[..|rs| - 1], rs[|rs| - 1];
      SortedKeeps(front);
      InsertLast(last, front);
      assert front + [last] == rs;
    }
  }

  lemma {:induction false} InsertLast(r: Replacement, rs: seq<Replacement>)
    requires forall x :: x in rs ==> x.start <= r.start
    ensures InsertSorted(r, rs) == rs + [r]
  {
    if rs != [] {
      InsertLast(r, rs[1..]);
      assert [rs[0]] + (rs[1..] + [r]) == rs + [r];
    }
  }

  /** A patch written from a change turns the old file into the new one, whenever no
      section can be taken for another place in the file. */
  lemma PatchMakesNewFile(key: Keys, parts: seq<Part>, end: seq<string>)
    requires ReadsExactly(key) && Unambiguous(key, parts, end)
    ensures Apply(key, OldFile(parts, end), ChunksOf(SectionsOf(parts))) == Done(NewFile(parts, end))
  {
    var lines := OldFile(parts, end);
    var chunks, rs := ChunksOf(SectionsOf(parts)), EditsAt(parts, 0);
    assert lines[0..] == lines;
    var locate := (c: Chunk, n: nat) => Locate(key, lines, c, n);
    PlanIsWith(key, lines, locate, chunks, 0);
    SearchFinds(key, lines);
    PartsFound(locate, HasPlaceIn(key, lines), CursorIn(key, lines), lines, parts, end, 0, 0);
    FoundIsPlanned(locate, parts, 0, 0);
    PartsSplice(lines, parts, end, 0);
    ApartAscends(rs);
    SortedKeeps(rs);
    BackToFrontSplices(lines, rs, 0);
    assert lines[..0] + Splice(lines, rs, 0) == Splice(lines, rs, 0);
  }

  lemma KeyReadsExactly()
    ensures ReadsExactly(Key)
  {
  }

  /** From the text on: the patch of a change, written down, parsed and applied. */
  lemma WrittenPatchMakesNewFile(path: string, movePath: string, parts: seq<Part>, end: seq<string>)
    requires PatchOk([UpdateFile(path, movePath, SectionsOf(parts))]) && Unambiguous(Key, parts, end)
    ensures var parsed := Parse(Document([UpdateFile(path, movePath, SectionsOf(parts))]));
            && parsed.Ok? && |parsed.value| == 1 && parsed.value[0].Update?
            && parsed.value[0].path == path && parsed.value[0].movePath == movePath
            && Apply(Key, OldFile(parts, end), parsed.value[0].chunks) == Done(NewFile(parts, end))
  {
    var edits := [UpdateFile(path, movePath, SectionsOf(parts))];
    PatchGrammar.ParseRendered(edits);
    OneHunk(edits[0]);
    KeyReadsExactly();
    PatchMakesNewFile(Key, parts, end);
  }

  lemma OneHunk(e: Edit)
    ensures HunksOf([e]) == [HunkOf(e)]
  {
    assert [e][1..] == [];
  }

  // ---- The text of a file -----------------------------------------------------------

  /** The lines of a file; the newline at its end is not one more line. */
  function FileLines(contents: string): seq<string> { WithoutBlankEnd(SplitLines(contents)) }

  /** A text always ends with a newline, and a last blank line stands for it. */
  function TextOf(lines: seq<string>): string {
    JoinLines(if lines == [] || lines[|lines| - 1] != "" then lines + [""] else lines)
  }

  method DeriveNewContents(key: Keys, contents: string, chunks: seq<Chunk>) returns (text: string, refused: bool)
    ensures refused <==> Apply(key, FileLines(contents), chunks).Refused?
    ensures !refused ==> text == TextOf(Apply(key, FileLines(contents), chunks).lines)
  {
    var originalLines := SplitLines(contents);
    if |originalLines| > 0 && originalLines[|originalLines| - 1] == "" {
      originalLines := originalLines[..|originalLines| - 1];
    }
    var o := ApplyChunks(key, originalLines, chunks);
    if o.Refused? { return "", true; }
    var newLines := o.lines;
    if |newLines| == 0 || newLines[|newLines| - 1] != "" { newLines := newLines + [""]; }
    text, refused := JoinLines(newLines), false;
  }

  lemma {:induction false} JoinSnoc(lines: seq<string>, l: string)
    requires lines != []
    ensures JoinLines(lines + [l]) == JoinLines(lines) + "\n" + l
  {
    if |lines| > 1 {
      JoinSnoc(lines[1..], l);
      assert (lines + [l])[1..] == lines[1..] + [l];
    } else {
      assert (lines + [l])[1..] == [l];
    }
  }

  lemma {:induction false} JoinSplit(s: string)
    ensures JoinLines(SplitLines(s)) == s
    ensures forall l :: l in SplitLines(s) ==> OneLine(l)
    decreases |s|
  {
    var n := LineEnd(s);
    if n < |s| {
      JoinSplit(s[n + 1..]);
      assert s == s[..n] + ['\n'] + s[n + 1..];
    }
  }

  /** How a joined text ends. */
  lemma JoinEnd(lines: seq<string>)
    requires lines != [] && forall l :: l in lines ==> OneLine(l)
    ensures var t, last := JoinLines(lines), lines[|lines| - 1];
            (t == "" || t[|t| - 1] == '\n') <==> last == ""
    ensures |lines| > 1 ==> JoinLines(lines) != ""
  {
    var front, last := lines[..|lines| - 1], lines[|lines| - 1];
    assert last in lines;
    if front == [] {
      assert lines == [last];
    } else {
      assert front + [last] == lines;
      JoinSnoc(front, last);
    }
  }

  /** A text whose last line has no newline gets one. */
  lemma NewlineIsAdded(contents: string)
    requires contents != "" && contents[|contents| - 1] != '\n'
    ensures TextOf(FileLines(contents)) == contents + "\n"
  {
    var lines := SplitLines(contents);
    JoinSplit(contents);
    JoinEnd(lines);
    JoinSnoc(lines, "");
  }

  /** Lines whose text ends with a newline. */
  lemma NewlineEnds(lines: seq<string>)
    requires lines != [] && (forall l :: l in lines ==> OneLine(l))
    requires JoinLines(lines) != "" && JoinLines(lines)[|JoinLines(lines)| - 1] == '\n'
    ensures |lines| > 1 && lines[|lines| - 1] == "" && JoinLines(lines) == JoinLines(lines[..|lines| - 1]) + "\n"
  {
    JoinEnd(lines);
    assert lines[0] in lines;
    var front := lines[..|lines| - 1];
    assert lines == front + [""];
    if front != [] { JoinSnoc(front, ""); }
  }

  lemma TextOfFront(front: seq<string>)
    requires front != [] && forall l :: l in front ==> OneLine(l)
    ensures var t := JoinLines(front); TextOf(front) == if t == "" || t[|t| - 1] == '\n' then t else t + "\n"
  {
    JoinEnd(front);
    if front[|front| - 1] != "" { JoinSnoc(front, ""); }
  }

  /** Of a text that ends with a newline, what is before it decides. */
  lemma NewlineIsKept(contents: string)
    requires contents != "" && contents[|contents| - 1] == '\n'
    ensures var before := contents[..|contents| - 1];
            TextOf(FileLines(contents)) == if before == "" || before[|before| - 1] == '\n' then before else contents
  {
    var lines := SplitLines(contents);
    JoinSplit(contents);
    NewlineEnds(lines);
    TextOfFront(lines[..|lines| - 1]);
    assert contents[..|contents| - 1] == JoinLines(lines[..|lines| - 1]);
  }

  /** Writing a file back unchanged keeps its text exactly when it is empty or its last
      line has a rune and ends with a newline: a missing newline is added, and of two
      newlines at the end one is lost. */
  lemma UnchangedText(contents: string)
    ensures TextOf(FileLines(contents)) == contents
       <==> contents == "" || (|contents| >= 2 && contents[|contents| - 1] == '\n' && contents[|contents| - 2] != '\n')
  {
    if contents == "" {
      assert SplitLines(contents) == [""] && FileLines(contents) == [];
      assert [] + [""] == [""] && JoinLines([""]) == "";
    } else if contents[|contents| - 1] == '\n' {
      NewlineIsKept(contents);
    } else {
      NewlineIsAdded(contents);
    }
  }
}
