/** Applying the chunks of an update to the lines of a file: the four-pass search and the
    splice of `applypatch/apply.go`. */
module PatchApply {
  import opened Strings
  import opened PatchParser

  // ---- Comparing lines --------------------------------------------------------------

  /** The passes of the search, from the strictest on. */
  datatype Mode = Exact | EndTrimmed | BothTrimmed | Punctuation

  function Plain(c: char): char {
    if c in {'\U{2010}', '\U{2011}', '\U{2012}', '\U{2013}', '\U{2014}', '\U{2015}', '\U{2212}'} then '-'
    else if c in {'\U{2018}', '\U{2019}', '\U{201a}', '\U{201b}'} then '\''
    else if c in {'\U{201c}', '\U{201d}', '\U{201e}', '\U{201f}'} then '"'
    else if c in {'\U{a0}', '\U{2002}', '\U{2003}', '\U{2004}', '\U{2005}', '\U{2006}', '\U{2007}',
                  '\U{2008}', '\U{2009}', '\U{200a}', '\U{202f}', '\U{205f}', '\U{3000}'} then ' '
    else c
  }

  /** `strings.Map` over the plain runes. */
  function AllPlain(s: string): string { if s == [] then [] else [Plain(s[0])] + AllPlain(s[1..]) }

  /** What a pass compares of a line. */
  function Key(mode: Mode, line: string): string {
    match mode
    case Exact => line
    case EndTrimmed => TrimRight(line, BLANKS)
    case BothTrimmed => TrimSpace(line)
    case Punctuation => AllPlain(TrimSpace(line))
  }

  /** How a pass reads a line. The search is written over such a function. */
  type Keys = (Mode, string) -> string

  predicate Rank(a: Mode, b: Mode) {
    a == b || a == Exact || b == Punctuation || (a == EndTrimmed && b == BothTrimmed)
  }

  lemma TrimmedAlike(x: string, y: string)
    requires TrimRight(x, BLANKS) == TrimRight(y, BLANKS)
    ensures TrimSpace(x) == TrimSpace(y)
  {
    TrimBothAfter(x, BLANKS, SPACES);
    TrimBothAfter(y, BLANKS, SPACES);
  }

  /** Each pass accepts what a stricter one accepts. */
  lemma PassesNest(a: Mode, b: Mode, x: string, y: string)
    requires Rank(a, b) && Key(a, x) == Key(a, y)
    ensures Key(b, x) == Key(b, y)
  {
    if a == EndTrimmed { TrimmedAlike(x, y); }
  }

  predicate AllIn(s: string, cut: set<char>) { forall i :: 0 <= i < |s| ==> s[i] in cut }

  /** Only runes of these stand around a core. */
  ghost predicate Around(line: string, lead: string, core: string, trail: string, cut: set<char>) {
    line == lead + core + trail && AllIn(lead, cut) && AllIn(trail, cut)
  }

  lemma RightCore(line: string, cut: set<char>) returns (trail: string)
    ensures line == TrimRight(line, cut) + trail && AllIn(trail, cut)
  {
    TrimRightDrops(line, cut);
    trail := line[|TrimRight(line, cut)|..];
  }

  lemma BothCore(line: string, cut: set<char>) returns (lead: string, trail: string)
    ensures Around(line, lead, TrimBoth(line, cut), trail, cut)
  {
    LeadTrims(line, cut);
    var n := Lead(line, cut);
    lead := line[..n];
    trail := RightCore(line[n..], cut);
    assert line == lead + line[n..];
    assert lead + (TrimBoth(line, cut) + trail) == lead + TrimBoth(line, cut) + trail;
  }

  lemma {:induction false} AllPlainAt(s: string)
    ensures |AllPlain(s)| == |s| && forall i :: 0 <= i < |s| ==> AllPlain(s)[i] == Plain(s[i])
  {
    if s != [] { AllPlainAt(s[1..]); }
  }

  /** The second pass leaves out blanks at the end of a line, the third white space on both
      sides, and the fourth takes typographic dashes, quotes and spaces for plain ones. */
  lemma KeyMeans(line: string) returns (blanks: string, lead: string, trail: string)
    ensures Key(Exact, line) == line
    ensures var k := Key(EndTrimmed, line);
            line == k + blanks && AllIn(blanks, {' ', '\t'}) && (k == "" || k[|k| - 1] !in {' ', '\t'})
    ensures var k := Key(BothTrimmed, line);
            Around(line, lead, k, trail, SPACES) && (k == "" || (k[0] !in SPACES && k[|k| - 1] !in SPACES))
    ensures var k, t := Key(Punctuation, line), Key(BothTrimmed, line);
            |k| == |t| && forall i :: 0 <= i < |t| ==> k[i] == Plain(t[i])
  {
    blanks := RightCore(line, BLANKS);
    lead, trail := BothCore(line, SPACES);
    TrimSpaceTrims(line);
    AllPlainAt(TrimSpace(line));
  }

  lemma PlainMeans(c: char)
    ensures var n := c as int;
            Plain(c) == if 0x2010 <= n <= 0x2015 || n == 0x2212 then '-'
                        else if 0x2018 <= n <= 0x201b then '\''
                        else if 0x201c <= n <= 0x201f then '"'
                        else if n in {0xa0, 0x202f, 0x205f, 0x3000} || 0x2002 <= n <= 0x200a then ' '
                        else c
  {
    var n := c as int;
    assert 0x2010 <= n <= 0x2015 || n == 0x2212 <==>
             c in {'\U{2010}', '\U{2011}', '\U{2012}', '\U{2013}', '\U{2014}', '\U{2015}', '\U{2212}'};
  }

  predicate MatchesAt(key: Keys, mode: Mode, lines: seq<string>, pattern: seq<string>, at: nat)
    requires at + |pattern| <= |lines|
  {
    forall k :: 0 <= k < |pattern| ==> key(mode, lines[at + k]) == key(mode, pattern[k])
  }

  lemma MatchesNest(a: Mode, b: Mode, lines: seq<string>, pattern: seq<string>, at: nat)
    requires Rank(a, b) && at + |pattern| <= |lines| && MatchesAt(Key, a, lines, pattern, at)
    ensures MatchesAt(Key, b, lines, pattern, at)
  {
    forall k | 0 <= k < |pattern|
      ensures Key(b, lines[at + k]) == Key(b, pattern[k])
    {
      PassesNest(a, b, lines[at + k], pattern[k]);
    }
  }

  /** `equalLines`. */
  method EqualLines(key: Keys, window: seq<string>, pattern: seq<string>, mode: Mode) returns (same: bool)
    requires |window| == |pattern|
    ensures same <==> MatchesAt(key, mode, window, pattern, 0)
  {
    for index := 0 to |pattern|
      invariant forall k :: 0 <= k < index ==> key(mode, window[0 + k]) == key(mode, pattern[k])
    {
      var have, want := window[index], pattern[index];
      if key(mode, have) != key(mode, want) {
        assert window[0 + index] == have;
        return false;
      }
    }
    same := true;
  }

  // ---- The search -------------------------------------------------------------------

  /** The number of places for a pattern. */
  function Places(lines: seq<string>, pattern: seq<string>): int { |lines| - |pattern| + 1 }

  /** A pass matches nowhere between two places. */
  ghost predicate NoneIn(key: Keys, mode: Mode, lines: seq<string>, pattern: seq<string>, from: nat, to: int)
    requires to <= Places(lines, pattern)
  {
    forall i :: from <= i < to ==> !MatchesAt(key, mode, lines, pattern, i)
  }

  /** One pass: the first match at or after `from`. */
  function FirstMatch(key: Keys, mode: Mode, lines: seq<string>, pattern: seq<string>, from: nat): (r: int)
    requires |pattern| <= |lines|
    ensures r == -1 || from <= r < Places(lines, pattern)
    ensures r >= 0 ==> MatchesAt(key, mode, lines, pattern, r) && NoneIn(key, mode, lines, pattern, from, r)
    ensures r == -1 ==> NoneIn(key, mode, lines, pattern, from, Places(lines, pattern))
    decreases |lines| - from
  {
    if from >= Places(lines, pattern) then -1
    else if MatchesAt(key, mode, lines, pattern, from) then from
    else FirstMatch(key, mode, lines, pattern, from + 1)
  }

  ghost predicate NoneBehind(key: Keys, mode: Mode, lines: seq<string>, pattern: seq<string>, from: nat) {
    NoneIn(key, mode, lines, pattern, from, Places(lines, pattern))
  }

  function SearchStart(lines: seq<string>, pattern: seq<string>, start: nat, eof: bool): nat {
    if eof && |lines| >= |pattern| then |lines| - |pattern| else start
  }

  /** `seekSequence`. */
  function Seek(key: Keys, lines: seq<string>, pattern: seq<string>, start: nat, eof: bool): (r: int)
    ensures r == -1 || (SearchStart(lines, pattern, start, eof) <= r && r + |pattern| <= |lines|)
            || (pattern == [] && r == start)
  {
    if pattern == [] then start
    else if |pattern| > |lines| then -1
    else
      var from := SearchStart(lines, pattern, start, eof);
      var exact := FirstMatch(key, Exact, lines, pattern, from);
      if exact >= 0 then exact
      else
        var endTrimmed := FirstMatch(key, EndTrimmed, lines, pattern, from);
        if endTrimmed >= 0 then endTrimmed
        else
          var bothTrimmed := FirstMatch(key, BothTrimmed, lines, pattern, from);
          if bothTrimmed >= 0 then bothTrimmed else FirstMatch(key, Punctuation, lines, pattern, from)
  }

  /** A match of a pass, the first one of that pass, with no match of a stricter pass
      anywhere behind `from`. */
  ghost predicate Best(key: Keys, mode: Mode, lines: seq<string>, pattern: seq<string>, from: nat, r: int)
    requires |pattern| <= |lines|
  {
    && from <= r < Places(lines, pattern)
    && MatchesAt(key, mode, lines, pattern, r)
    && NoneIn(key, mode, lines, pattern, from, r)
    && forall m :: m != mode && Rank(m, mode) ==> NoneBehind(key, m, lines, pattern, from)
  }

  /** What a search finds: the first match of the strictest pass that matches anywhere in its
      range, which for a pattern at the end of the file is one place. It finds nothing exactly
      when no pass matches there; an empty pattern is found at once. */
  ghost predicate Seeks(key: Keys, lines: seq<string>, pattern: seq<string>, start: nat, eof: bool, r: int) {
    if pattern == [] then r == start
    else if |pattern| > |lines| then r == -1
    else
      var from := if eof then |lines| - |pattern| else start;
      if r == -1 then forall mode :: NoneBehind(key, mode, lines, pattern, from)
      else exists mode :: Best(key, mode, lines, pattern, from, r)
  }

  lemma SeekFinds(key: Keys, lines: seq<string>, pattern: seq<string>, start: nat, eof: bool)
    ensures Seeks(key, lines, pattern, start, eof, Seek(key, lines, pattern, start, eof))
  {
    if 0 < |pattern| <= |lines| {
      var from := SearchStart(lines, pattern, start, eof);
      var r := Seek(key, lines, pattern, start, eof);
      if FirstMatch(key, Exact, lines, pattern, from) >= 0 {
        assert Best(key, Exact, lines, pattern, from, r);
      } else if FirstMatch(key, EndTrimmed, lines, pattern, from) >= 0 {
        assert Best(key, EndTrimmed, lines, pattern, from, r);
      } else if FirstMatch(key, BothTrimmed, lines, pattern, from) >= 0 {
        assert Best(key, BothTrimmed, lines, pattern, from, r);
      } else if r >= 0 {
        assert Best(key, Punctuation, lines, pattern, from, r);
      } else {
        NothingMatches(key, lines, pattern, from);
      }
    }
  }

  lemma NothingMatches(key: Keys, lines: seq<string>, pattern: seq<string>, from: nat)
    requires |pattern| <= |lines|
    requires FirstMatch(key, Exact, lines, pattern, from) < 0 && FirstMatch(key, EndTrimmed, lines, pattern, from) < 0
    requires FirstMatch(key, BothTrimmed, lines, pattern, from) < 0
    requires FirstMatch(key, Punctuation, lines, pattern, from) < 0
    ensures forall mode :: NoneBehind(key, mode, lines, pattern, from)
  {
    forall mode: Mode
      ensures NoneBehind(key, mode, lines, pattern, from)
    {
      match mode
      case Exact => assert NoneBehind(key, Exact, lines, pattern, from);
      case EndTrimmed => assert NoneBehind(key, EndTrimmed, lines, pattern, from);
      case BothTrimmed => assert NoneBehind(key, BothTrimmed, lines, pattern, from);
      case Punctuation => assert NoneBehind(key, Punctuation, lines, pattern, from);
    }
  }

  lemma WindowMatches(key: Keys, mode: Mode, lines: seq<string>, pattern: seq<string>, at: nat)
    requires at + |pattern| <= |lines|
    ensures MatchesAt(key, mode, lines[at .. at + |pattern|], pattern, 0) <==> MatchesAt(key, mode, lines, pattern, at)
  {
    var window := lines[at .. at + |pattern|];
    assert forall k :: 0 <= k < |pattern| ==> window[k] == lines[at + k];
  }

  /** One pass as a loop. */
  method Pass(key: Keys, mode: Mode, lines: seq<string>, pattern: seq<string>, from: nat) returns (r: int)
    requires |pattern| <= |lines|
    ensures r == FirstMatch(key, mode, lines, pattern, from)
  {
    var last := |lines| - |pattern|;
    var index := from;
    while index <= last
      invariant from <= index
      invariant FirstMatch(key, mode, lines, pattern, from) == FirstMatch(key, mode, lines, pattern, index)
    {
      var same := EqualLines(key, lines[index .. index + |pattern|], pattern, mode);
      WindowMatches(key, mode, lines, pattern, index);
      if same { return index; }
      index := index + 1;
    }
    r := -1;
  }

  method SeekSequence(key: Keys, lines: seq<string>, pattern: seq<string>, start: nat, eof: bool) returns (r: int)
    ensures r == Seek(key, lines, pattern, start, eof)
  {
    if |pattern| == 0 { return start; }
    if |pattern| > |lines| { return -1; }
    var searchStart := start;
    if eof && |lines| >= |pattern| { searchStart := |lines| - |pattern|; }
    r := Pass(key, Exact, lines, pattern, searchStart);
    if r >= 0 { return; }
    r := Pass(key, EndTrimmed, lines, pattern, searchStart);
    if r >= 0 { return; }
    r := Pass(key, BothTrimmed, lines, pattern, searchStart);
    if r >= 0 { return; }
    r := Pass(key, Punctuation, lines, pattern, searchStart);
  }

  // ---- Where the chunks go ----------------------------------------------------------

  datatype Replacement = Replacement(start: nat, oldLen: nat, lines: seq<string>)

  function End(r: Replacement): nat { r.start + r.oldLen }

  /** The place of one chunk and the cursor behind it, or what was not found. */
  datatype Located = Located(edit: Replacement, cursor: nat) | ContextMissing | LinesMissing

  /** A chunk that only inserts goes behind the last line, or before it when it is empty. */
  function Insertion(lines: seq<string>, eof: bool): (n: nat)
    ensures n <= |lines|
  {
    if lines != [] && !eof && lines[|lines| - 1] == "" then |lines| - 1 else |lines|
  }

  function WithoutBlankEnd(lines: seq<string>): seq<string> {
    if lines != [] && lines[|lines| - 1] == "" then lines[..|lines| - 1] else lines
  }

  function Found(at: int, pattern: seq<string>, lines: seq<string>): Located {
    if at < 0 then LinesMissing else Located(Replacement(at, |pattern|, lines), at + |pattern|)
  }

  function LocateLines(key: Keys, lines: seq<string>, chunk: Chunk, cursor: nat): Located
    requires chunk.oldLines != []
  {
    var pattern := chunk.oldLines;
    var at := Seek(key, lines, pattern, cursor, chunk.endOfFile);
    if at < 0 && pattern[|pattern| - 1] == "" then
      var shorter := pattern[..|pattern| - 1];
      Found(Seek(key, lines, shorter, cursor, chunk.endOfFile), shorter, WithoutBlankEnd(chunk.newLines))
    else Found(at, pattern, chunk.newLines)
  }

  /** A context line is searched like a pattern of one line; -1 when it is not there. */
  function AfterContext(key: Keys, lines: seq<string>, context: string, cursor: nat): (at: int)
    ensures at == -1 || cursor <= at
    ensures cursor <= |lines| ==> at <= |lines|
  {
    if context == "" then cursor
    else
      var at := Seek(key, lines, [context], cursor, false);
      if at < 0 then -1 else at + 1
  }

  /** One turn of the loop of `computeReplacements`. */
  function Locate(key: Keys, lines: seq<string>, chunk: Chunk, cursor: nat): Located {
    var at := AfterContext(key, lines, chunk.context, cursor);
    if at < 0 then ContextMissing
    else if chunk.oldLines == [] then Located(Replacement(Insertion(lines, chunk.endOfFile), 0, chunk.newLines), at)
    else LocateLines(key, lines, chunk, at)
  }

  /** Behind the context line, when there is one. */
  ghost predicate Begins(key: Keys, lines: seq<string>, context: string, cursor: nat, at: nat) {
    if context == "" then at == cursor else at > 0 && Seeks(key, lines, [context], cursor, false, at - 1)
  }

  /** The lines are found and give way to others; the cursor goes behind them. */
  ghost predicate Hits(
    key: Keys, lines: seq<string>, pattern: seq<string>, at: nat, eof: bool, others: seq<string>, l: Located)
  {
    && l.Located? && Seeks(key, lines, pattern, at, eof, l.edit.start)
    && l.edit.oldLen == |pattern| && l.edit.lines == others && l.cursor == l.edit.start + |pattern|
  }

  ghost predicate Nowhere(key: Keys, lines: seq<string>, pattern: seq<string>, at: nat, eof: bool) {
    Seeks(key, lines, pattern, at, eof, -1)
  }

  /** Where the old lines are, or without an empty last line when they are nowhere. */
  ghost predicate LinesFound(key: Keys, lines: seq<string>, chunk: Chunk, at: nat, l: Located)
    requires chunk.oldLines != []
  {
    var pattern, eof := chunk.oldLines, chunk.endOfFile;
    var shorter := pattern[..|pattern| - 1];
    if !Nowhere(key, lines, pattern, at, eof) then Hits(key, lines, pattern, at, eof, chunk.newLines, l)
    else if pattern[|pattern| - 1] == "" && !Nowhere(key, lines, shorter, at, eof) then
      var more := chunk.newLines;
      Hits(key, lines, shorter, at, eof, if more != [] && more[|more| - 1] == "" then more[..|more| - 1] else more, l)
    else l == LinesMissing
  }

  /** Without old lines a chunk goes to the end of the file, in front of an empty last line
      unless it is anchored; otherwise to where its old lines are. */
  ghost predicate Goes(key: Keys, lines: seq<string>, chunk: Chunk, at: nat, l: Located) {
    if chunk.oldLines != [] then LinesFound(key, lines, chunk, at, l)
    else
      var inFront := lines != [] && lines[|lines| - 1] == "" && !chunk.endOfFile;
      l == Located(Replacement(if inFront then |lines| - 1 else |lines|, 0, chunk.newLines), at)
  }

  /** What becomes of a chunk: it begins behind its context line, if that is found. */
  ghost predicate IsLocated(key: Keys, lines: seq<string>, chunk: Chunk, cursor: nat, l: Located) {
    if chunk.context != "" && Nowhere(key, lines, [chunk.context], cursor, false) then l == ContextMissing
    else exists at: nat :: Begins(key, lines, chunk.context, cursor, at) && Goes(key, lines, chunk, at, l)
  }

  /** A search has one result. */
  lemma SeeksOne(key: Keys, lines: seq<string>, pattern: seq<string>, start: nat, eof: bool, r: int)
    requires Seeks(key, lines, pattern, start, eof, r)
    ensures r == Seek(key, lines, pattern, start, eof)
  {
    SeekFinds(key, lines, pattern, start, eof);
    var s := Seek(key, lines, pattern, start, eof);
    if 0 < |pattern| <= |lines| && r != -1 && s != -1 {
      var from := if eof then |lines| - |pattern| else start;
      var m :| Best(key, m, lines, pattern, from, r);
      var n :| Best(key, n, lines, pattern, from, s);
      OneBest(key, m, n, lines, pattern, from, r, s);
    }
  }

  lemma OneBest(key: Keys, m: Mode, n: Mode, lines: seq<string>, pattern: seq<string>, from: nat, r: int, s: int)
    requires |pattern| <= |lines| && Best(key, m, lines, pattern, from, r) && Best(key, n, lines, pattern, from, s)
    ensures r == s
  {
    if m != n {
      BestIsMatch(key, m, lines, pattern, from, r);
      BestIsMatch(key, n, lines, pattern, from, s);
    }
  }

  lemma BestIsMatch(key: Keys, mode: Mode, lines: seq<string>, pattern: seq<string>, from: nat, r: int)
    requires |pattern| <= |lines| && Best(key, mode, lines, pattern, from, r)
    ensures !NoneBehind(key, mode, lines, pattern, from)
  {
  }

  lemma NowhereMeans(key: Keys, lines: seq<string>, pattern: seq<string>, at: nat, eof: bool)
    ensures Nowhere(key, lines, pattern, at, eof) <==> Seek(key, lines, pattern, at, eof) < 0
    ensures Seeks(key, lines, pattern, at, eof, Seek(key, lines, pattern, at, eof))
  {
    SeekFinds(key, lines, pattern, at, eof);
    if Nowhere(key, lines, pattern, at, eof) { SeeksOne(key, lines, pattern, at, eof, -1); }
  }

  lemma LinesAreFound(key: Keys, lines: seq<string>, chunk: Chunk, at: nat)
    requires chunk.oldLines != []
    ensures LinesFound(key, lines, chunk, at, LocateLines(key, lines, chunk, at))
  {
    NowhereMeans(key, lines, chunk.oldLines, at, chunk.endOfFile);
    NowhereMeans(key, lines, chunk.oldLines[..|chunk.oldLines| - 1], at, chunk.endOfFile);
  }

  lemma LocateMeans(key: Keys, lines: seq<string>, chunk: Chunk, cursor: nat)
    ensures IsLocated(key, lines, chunk, cursor, Locate(key, lines, chunk, cursor))
  {
    var at := AfterContext(key, lines, chunk.context, cursor);
    if chunk.context != "" { NowhereMeans(key, lines, [chunk.context], cursor, false); }
    if at >= 0 {
      assert Begins(key, lines, chunk.context, cursor, at);
      if chunk.oldLines != [] { LinesAreFound(key, lines, chunk, at); }
      assert Goes(key, lines, chunk, at, Locate(key, lines, chunk, cursor));
    }
  }

  /** What a located chunk tells: it lies in the file and the cursor does not move back;
      a match begins at or behind the cursor, unless it is one at the end of the file. */
  lemma LocateInBounds(key: Keys, lines: seq<string>, chunk: Chunk, cursor: nat)
    requires cursor <= |lines|
    ensures var l := Locate(key, lines, chunk, cursor);
            l.Located? ==>
              && End(l.edit) <= |lines|
              && cursor <= l.cursor <= |lines|
              && (l.edit.oldLen > 0 ==>
                    && l.cursor == End(l.edit)
                    && if chunk.endOfFile then End(l.edit) == |lines| else cursor <= l.edit.start)
  {
  }

  datatype Plan = Plan(edits: seq<Replacement>) | Failed(why: Located)

  function Before(edits: seq<Replacement>, p: Plan): Plan {
    match p
    case Plan(more) => Plan(edits + more)
    case Failed(_) => p
  }

  /** All chunks, in the order of the patch. */
  function PlanAll(key: Keys, lines: seq<string>, chunks: seq<Chunk>, cursor: nat): Plan
    decreases |chunks|
  {
    if chunks == [] then Plan([])
    else
      match Locate(key, lines, chunks[0], cursor)
      case Located(edit, next) => Before([edit], PlanAll(key, lines, chunks[1..], next))
      case missing => Failed(missing)
  }

  lemma BeforeBefore(a: seq<Replacement>, b: seq<Replacement>, p: Plan)
    ensures Before(a, Before(b, p)) == Before(a + b, p)
  {
    if p.Plan? { assert a + (b + p.edits) == a + b + p.edits; }
  }

  /** The cursor behind the context line of a chunk. */
  method SkipContext(key: Keys, lines: seq<string>, context: string, cursor: nat) returns (at: int)
    ensures at == AfterContext(key, lines, context, cursor)
  {
    at := cursor;
    if context != "" {
      var index := SeekSequence(key, lines, [context], cursor, false);
      if index < 0 { return -1; }
      at := index + 1;
    }
  }

  method FindLines(key: Keys, lines: seq<string>, chunk: Chunk, cursor: nat) returns (l: Located)
    requires chunk.oldLines != []
    ensures l == LocateLines(key, lines, chunk, cursor)
  {
    var pattern, newSlice := chunk.oldLines, chunk.newLines;
    var found := SeekSequence(key, lines, pattern, cursor, chunk.endOfFile);
    if found < 0 && |pattern| > 0 && pattern[|pattern| - 1] == "" {
      pattern := pattern[..|pattern| - 1];
      if |newSlice| > 0 && newSlice[|newSlice| - 1] == "" { newSlice := newSlice[..|newSlice| - 1]; }
      found := SeekSequence(key, lines, pattern, cursor, chunk.endOfFile);
    }
    if found < 0 { return LinesMissing; }
    l := Located(Replacement(found, |pattern|, newSlice), found + |pattern|);
  }

  /** The body of the loop of `computeReplacements`: what a chunk adds to the list, and
      the new `lineIndex`. */
  method LocateChunk(key: Keys, lines: seq<string>, chunk: Chunk, cursor: nat) returns (l: Located)
    ensures l == Locate(key, lines, chunk, cursor) && IsLocated(key, lines, chunk, cursor, l)
  {
    LocateMeans(key, lines, chunk, cursor);
    var lineIndex := SkipContext(key, lines, chunk.context, cursor);
    if lineIndex < 0 { return ContextMissing; }
    if |chunk.oldLines| == 0 {
      var insertion := |lines|;
      if |lines| > 0 && lines[|lines| - 1] == "" { insertion := |lines| - 1; }
      if chunk.endOfFile && |lines| > 0 { insertion := |lines|; }
      return Located(Replacement(insertion, 0, chunk.newLines), lineIndex);
    }
    l := FindLines(key, lines, chunk, lineIndex);
  }

  /** The loop of `computeReplacements`, before its results are sorted. */
  method PlanReplacements(key: Keys, lines: seq<string>, chunks: seq<Chunk>) returns (p: Plan)
    ensures p == PlanAll(key, lines, chunks, 0)
  {
    var replacements: seq<Replacement> := [];
    var lineIndex: nat := 0;
    ghost var whole := PlanAll(key, lines, chunks, 0);
    assert chunks[0..] == chunks;
    BeforeNothing(whole);
    for i := 0 to |chunks|
      invariant whole == Before(replacements, PlanAll(key, lines, chunks[i..], lineIndex))
    {
      assert chunks[i..][1..] == chunks[i + 1..];
      var l := LocateChunk(key, lines, chunks[i], lineIndex);
      if !l.Located? { return Failed(l); }
      BeforeBefore(replacements, [l.edit], PlanAll(key, lines, chunks[i + 1..], l.cursor));
      replacements, lineIndex := replacements + [l.edit], l.cursor;
    }
    assert replacements + [] == replacements;
    p := Plan(replacements);
  }

  lemma BeforeNothing(p: Plan)
    ensures Before([], p) == p
  {
    if p.Plan? { assert [] + p.edits == p.edits; }
  }

  // ---- Over the whole patch ---------------------------------------------------------

  lemma PlanCons(key: Keys, lines: seq<string>, chunks: seq<Chunk>, cursor: nat)
    requires chunks != [] && PlanAll(key, lines, chunks, cursor).Plan?
    ensures var l := Locate(key, lines, chunks[0], cursor);
            && l.Located?
            && PlanAll(key, lines, chunks[1..], l.cursor).Plan?
            && PlanAll(key, lines, chunks, cursor).edits == [l.edit] + PlanAll(key, lines, chunks[1..], l.cursor).edits
  {
  }

  /** Every replacement lies in the file; those with old lines come after the cursor,
      unless their chunk is anchored at the end of the file, which they then reach. */
  ghost predicate InFile(lines: seq<string>, chunk: Chunk, r: Replacement, cursor: nat) {
    && End(r) <= |lines|
    && (r.oldLen > 0 ==> if chunk.endOfFile then End(r) == |lines| else cursor <= r.start)
  }

  lemma {:induction false} PlanInBounds(key: Keys, lines: seq<string>, chunks: seq<Chunk>, cursor: nat)
    requires cursor <= |lines| && PlanAll(key, lines, chunks, cursor).Plan?
    ensures var rs := PlanAll(key, lines, chunks, cursor).edits;
            |rs| == |chunks| && forall i :: 0 <= i < |rs| ==> InFile(lines, chunks[i], rs[i], cursor)
    decreases |chunks|
  {
    if chunks != [] {
      var l := Locate(key, lines, chunks[0], cursor);
      PlanCons(key, lines, chunks, cursor);
      LocateInBounds(key, lines, chunks[0], cursor);
      PlanInBounds(key, lines, chunks[1..], l.cursor);
      var rs, tail := PlanAll(key, lines, chunks, cursor).edits, PlanAll(key, lines, chunks[1..], l.cursor).edits;
      forall i | 0 <= i < |rs|
        ensures InFile(lines, chunks[i], rs[i], cursor)
      {
        if i > 0 { assert InFile(lines, chunks[1..][i - 1], tail[i - 1], l.cursor); }
      }
    }
  }

  lemma FirstIsBefore(key: Keys, lines: seq<string>, chunks: seq<Chunk>, cursor: nat, j: nat)
    requires cursor <= |lines| && PlanAll(key, lines, chunks, cursor).Plan? && 0 < j < |chunks| && !chunks[j].endOfFile
    ensures |PlanAll(key, lines, chunks, cursor).edits| == |chunks|
    ensures var rs := PlanAll(key, lines, chunks, cursor).edits;
            rs[0].oldLen > 0 && rs[j].oldLen > 0 ==> End(rs[0]) <= rs[j].start
  {
    var l := Locate(key, lines, chunks[0], cursor);
    PlanCons(key, lines, chunks, cursor);
    LocateInBounds(key, lines, chunks[0], cursor);
    PlanInBounds(key, lines, chunks[1..], l.cursor);
    var tail := PlanAll(key, lines, chunks[1..], l.cursor).edits;
    assert InFile(lines, chunks[1..][j - 1], tail[j - 1], l.cursor);
  }

  /** A match that is not anchored at the end of the file begins behind all matches of
      earlier chunks. */
  lemma {:induction false} MatchesInOrder(key: Keys, lines: seq<string>, chunks: seq<Chunk>, cursor: nat, i: nat,
      j: nat)
    requires cursor <= |lines| && PlanAll(key, lines, chunks, cursor).Plan? && i < j < |chunks| && !chunks[j].endOfFile
    ensures |PlanAll(key, lines, chunks, cursor).edits| == |chunks|
    ensures var rs := PlanAll(key, lines, chunks, cursor).edits;
            rs[i].oldLen > 0 && rs[j].oldLen > 0 ==> End(rs[i]) <= rs[j].start
    decreases i
  {
    if i == 0 {
      FirstIsBefore(key, lines, chunks, cursor, j);
    } else {
      PlanCons(key, lines, chunks, cursor);
      LocateInBounds(key, lines, chunks[0], cursor);
      MatchesInOrder(key, lines, chunks[1..], Locate(key, lines, chunks[0], cursor).cursor, i - 1, j - 1);
    }
  }
}
