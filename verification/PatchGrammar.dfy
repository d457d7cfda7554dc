/** The grammar of patches: which texts are accepted by the parser of `applypatch/parser.go`
    and what they mean, told by how their lines are written and without the parser. */
module PatchGrammar {
  import opened Strings
  import opened PatchParser

  // ---- How lines may be written -----------------------------------------------------

  /** A line of an update without carriage returns at its end. */
  function Content(raw: string): string { TrimRight(raw, {'\r'}) }

  /** The same without blanks at its end. */
  function Clean(raw: string): string { TrimRight(Content(raw), BLANKS) }

  function Mark(op: Op): char { if op.Keep? then ' ' else if op.Insert? then '+' else '-' }

  /** A change line: a mark and the line, or nothing at all for a kept empty line. No line
      that looks like the header of a file when it is trimmed belongs to an update. */
  predicate WritesOp(raw: string, op: Op) {
    !IsHeaderLine(raw) && (Content(raw) == [Mark(op)] + op.line || (Content(raw) == "" && op == Keep("")))
  }

  ghost predicate WritesOps(body: seq<string>, ops: seq<Op>) {
    |body| == |ops| && forall i :: 0 <= i < |ops| ==> WritesOp(body[i], ops[i])
  }

  predicate WritesContext(raw: string, context: string) {
    !IsHeaderLine(raw) && Clean(raw) == if context == "" then "@@" else "@@ " + context
  }

  predicate WritesNothing(raw: string) { !IsHeaderLine(raw) && Clean(raw) == "" }

  /** The end-of-file line, and blank lines behind it. */
  ghost predicate WritesEnd(end: seq<string>) {
    && end != [] && !IsHeaderLine(end[0]) && Clean(end[0]) == "*** End of File"
    && forall i :: 1 <= i < |end| ==> WritesNothing(end[i])
  }

  /** At most one line, which names the target. */
  ghost predicate WritesMove(move: seq<string>, movePath: string) {
    if movePath == "" then move == []
    else |move| == 1 && !IsHeaderLine(move[0]) && Clean(move[0]) == "*** Move to: " + movePath
  }

  // ---- How sections and files may be written ----------------------------------------

  /** The lines of a section: its `@@` line, its change lines, and what ends it. */
  datatype SectionText = SectionText(head: seq<string>, body: seq<string>, end: seq<string>)

  function SectionLines(x: SectionText): seq<string> { x.head + x.body + x.end }

  /** Without a `@@` line a section has no context and begins with its first change. */
  ghost predicate SpellsSection(x: SectionText, s: Section) {
    && (if x.head == [] then s.context == "" && s.ops != [] else |x.head| == 1 && WritesContext(x.head[0], s.context))
    && WritesOps(x.body, s.ops)
    && (if s.endOfFile then s.ops != [] && WritesEnd(x.end) else x.end == [])
  }

  /** Only the first section may do without its `@@` line, and only the last without changes. */
  ghost predicate SpellsSections(xs: seq<SectionText>, sections: seq<Section>) { Aligned(SpellsSection, xs, sections) }

  ghost predicate Aligned(fits: (SectionText, Section) -> bool, xs: seq<SectionText>, sections: seq<Section>) {
    && |xs| == |sections|
    && (forall i :: 0 <= i < |xs| ==> fits(xs[i], sections[i]))
    && (forall i :: 1 <= i < |xs| ==> xs[i].head != [])
    && (forall i :: 0 <= i < |xs| - 1 ==> sections[i].ops != [])
  }

  function AllSectionLines(xs: seq<SectionText>): seq<string> {
    if xs == [] then [] else SectionLines(xs[0]) + AllSectionLines(xs[1..])
  }

  /** The lines of a file: header, move line, added lines, sections, and blank lines. */
  datatype EditText = EditText(
    header: string, move: seq<string>, added: seq<string>, sections: seq<SectionText>, gap: seq<string>)

  function EditLines(x: EditText): seq<string> {
    [x.header] + x.move + x.added + AllSectionLines(x.sections) + x.gap
  }

  ghost predicate AllBlank(gap: seq<string>) { forall i :: 0 <= i < |gap| ==> TrimSpace(gap[i]) == "" }

  /** Blank lines may stand behind a deletion only: behind an added line there can be none,
      and in an update they are kept empty lines, or belong to its end of file. */
  ghost predicate SpellsEdit(x: EditText, e: Edit) {
    match e
    case AddFile(path, lines) =>
      && TrimSpace(x.header) == "*** Add File: " + path && lines != []
      && x == EditText(x.header, [], RenderAdded(lines), [], [])
    case DeleteFile(path) =>
      && TrimSpace(x.header) == "*** Delete File: " + path
      && x == EditText(x.header, [], [], [], x.gap) && AllBlank(x.gap)
    case UpdateFile(path, movePath, sections) =>
      && TrimSpace(x.header) == "*** Update File: " + path && (movePath != "" || sections != [])
      && x == EditText(x.header, x.move, [], x.sections, [])
      && WritesMove(x.move, movePath) && SpellsSections(x.sections, sections)
  }

  function AllEditLines(xs: seq<EditText>): seq<string> {
    if xs == [] then [] else EditLines(xs[0]) + AllEditLines(xs[1..])
  }

  ghost predicate SpellsEdits(xs: seq<EditText>, edits: seq<Edit>) {
    |xs| == |edits| && forall i :: 0 <= i < |xs| ==> SpellsEdit(xs[i], edits[i])
  }

  ghost predicate SpellsPatch(lines: seq<string>, gap: seq<string>, xs: seq<EditText>, edits: seq<Edit>) {
    lines == gap + AllEditLines(xs) && AllBlank(gap) && SpellsEdits(xs, edits)
  }

  // ---- The envelope -----------------------------------------------------------------

  predicate EndsInEOF(line: string) { |line| >= 3 && line[|line| - 3..] == "EOF" }

  /** The markers may be indented, and the whole may be a here-document of three forms. */
  ghost predicate Enveloped(lines: seq<string>, inner: seq<string>) {
    Marked(lines, inner) || exists h, t, marked :: Heredoc(lines, h, t, marked) && Marked(marked, inner)
  }

  ghost predicate Marked(lines: seq<string>, inner: seq<string>) {
    exists b, e :: TrimSpace(b) == "*** Begin Patch" && TrimSpace(e) == "*** End Patch" && lines == [b] + inner + [e]
  }

  ghost predicate Heredoc(lines: seq<string>, h: string, t: string, marked: seq<string>) {
    (h == "<<EOF" || h == "<<'EOF'" || h == "<<\"EOF\"") && EndsInEOF(t) && lines == [h] + marked + [t]
  }

  /** A text is a way of writing these edits; the lines are those of the trimmed text. */
  ghost predicate Written(text: string, edits: seq<Edit>) {
    exists inner, gap, xs :: Enveloped(SplitLines(TrimSpace(text)), inner) && SpellsPatch(inner, gap, xs, edits)
  }

  // ---- What is written is read: one line --------------------------------------------

  lemma OpSteps(d: Draft, raw: string, op: Op)
    requires WritesOp(raw, op) && !Last(d.chunks).endOfFile
    ensures UpdateLine(d, raw) == Ok(d.(chunks := SetLast(d.chunks, Collect(Last(d.chunks), op))))
  {
    var content := Content(raw);
    if content == "" {
      assert op == Keep("");
    } else {
      assert content == RenderOp(op);
      PushOp(Last(d.chunks), op);
      BlanksStay(Mark(op), op.line);
    }
    OpContent(d, content, TrimRight(content, BLANKS), Collect(Last(d.chunks), op));
  }

  lemma ContextSteps(d: Draft, raw: string, context: string)
    requires WritesContext(raw, context) && CanBegin(d)
    ensures UpdateLine(d, raw) == Ok(d.(chunks := d.chunks + [NEW_CHUNK.(context := context)]))
  {
    var line := Clean(raw);
    FirstRunes(line);
    if context != "" { assert CHANGE_CONTEXT <= line && line[|CHANGE_CONTEXT|..] == context && |line| > 2; }
  }

  lemma EndSteps(d: Draft, raw: string)
    requires Clean(raw) == "*** End of File" && !IsEmptyChunk(Last(d.chunks)) && !Last(d.chunks).endOfFile
    ensures UpdateLine(d, raw) == Ok(d.(chunks := SetLast(d.chunks, Last(d.chunks).(endOfFile := true))))
  {
    assert END_OF_FILE[4] == 'E' && MOVE_TO[4] == 'M';
    FirstRunes(Clean(raw));
  }

  lemma MoveSteps(raw: string, movePath: string)
    requires movePath != "" && Clean(raw) == "*** Move to: " + movePath
    ensures UpdateLine(Draft("", []), raw) == Ok(Draft(movePath, []))
  {
    var line := Clean(raw);
    assert MOVE_TO <= line && line[|MOVE_TO|..] == movePath;
    FirstRunes(line);
  }

  // ---- Sections ---------------------------------------------------------------------

  lemma {:induction false} OpsFeed(body: seq<string>, ops: seq<Op>, d: Draft)
    requires WritesOps(body, ops) && (d.chunks != [] || ops != []) && !Last(d.chunks).endOfFile
    ensures Reads(body, d, AfterOps(d, ops))
    decreases |ops|
  {
    if ops == [] {
      SetLastTwice(d.chunks, Last(d.chunks), Last(d.chunks));
    } else {
      var c := Collect(Last(d.chunks), ops[0]);
      var e := d.(chunks := SetLast(d.chunks, c));
      assert WritesOp(body[0], ops[0]);
      OpSteps(d, body[0], ops[0]);
      SetLastTwice(d.chunks, c, CollectAll(c, ops[1..]));
      assert forall i :: 0 <= i < |ops| - 1 ==> body[1..][i] == body[i + 1] && ops[1..][i] == ops[i + 1];
      OpsFeed(body[1..], ops[1..], e);
    }
  }

  lemma {:induction false} NothingFeeds(lines: seq<string>, d: Draft)
    requires Last(d.chunks).endOfFile && forall i :: 0 <= i < |lines| ==> WritesNothing(lines[i])
    ensures Reads(lines, d, d)
  {
    if lines != [] {
      assert WritesNothing(lines[0]);
      assert forall i :: 0 <= i < |lines| - 1 ==> lines[1..][i] == lines[i + 1];
      NothingFeeds(lines[1..], d);
    }
  }

  lemma EndFeeds(end: seq<string>, d: Draft, c: Chunk)
    requires WritesEnd(end) && !IsEmptyChunk(c) && !c.endOfFile
    ensures Reads(end, d.(chunks := d.chunks + [c]), d.(chunks := d.chunks + [c.(endOfFile := true)]))
  {
    var e, f := d.(chunks := d.chunks + [c]), d.(chunks := d.chunks + [c.(endOfFile := true)]);
    EndSteps(e, end[0]);
    assert SetLast(e.chunks, Last(e.chunks).(endOfFile := true)) == f.chunks;
    assert forall i :: 0 <= i < |end| - 1 ==> end[1..][i] == end[i + 1];
    NothingFeeds(end[1..], f);
  }

  /** A section begins with its `@@` line, or without one where there is no chunk yet. */
  lemma HeadFeeds(x: SectionText, s: Section, d: Draft)
    requires SpellsSection(x, s) && CanBegin(d) && (x.head == [] ==> d.chunks == [])
    ensures Reads(x.head + x.body, d, d.(chunks := d.chunks + [ChunkOf(s).(endOfFile := false)]))
  {
    SectionChunk(d, s);
    if x.head == [] {
      OpsFeed(x.body, s.ops, d);
      assert x.head + x.body == x.body;
      assert [] + [NEW_CHUNK] == [NEW_CHUNK];
      assert SetLast([], CollectAll(NEW_CHUNK, s.ops)) == SetLast([NEW_CHUNK], CollectAll(NEW_CHUNK, s.ops));
    } else {
      var begun := d.(chunks := d.chunks + [NEW_CHUNK.(context := s.context)]);
      ContextSteps(d, x.head[0], s.context);
      assert x.head == [x.head[0]];
      FeedsOne(IsHeaderLine, UpdateLine, x.head[0], d, begun);
      OpsFeed(x.body, s.ops, begun);
      ReadsConcat(x.head, x.body, d, begun, AfterOps(begun, s.ops));
    }
  }

  lemma SectionFeeds(x: SectionText, s: Section, d: Draft)
    requires SpellsSection(x, s) && CanBegin(d) && (x.head == [] ==> d.chunks == [])
    ensures Reads(SectionLines(x), d, AddChunk(d, s))
  {
    var c := ChunkOf(s).(endOfFile := false);
    HeadFeeds(x, s, d);
    if s.endOfFile {
      OpsMakeChunks(s.ops);
      EndFeeds(x.end, d, c);
      ReadsConcat(x.head + x.body, x.end, d, d.(chunks := d.chunks + [c]), AddChunk(d, s));
    } else {
      assert SectionLines(x) == x.head + x.body;
    }
  }

  /** A reader makes a chunk of a section written so. */
  ghost predicate ReadsSection(via: Readers, x: SectionText, s: Section) {
    forall d {:trigger AddChunk(d, s)} :: CanBegin(d) && (x.head == [] ==> d.chunks == []) ==>
        Feeds(via.stop, via.update, SectionLines(x), d, AddChunk(d, s))
  }

  lemma ThisReadsSection(x: SectionText, s: Section)
    requires SpellsSection(x, s)
    ensures ReadsSection(LINE_READERS, x, s)
  {
    forall d {:trigger AddChunk(d, s)} | CanBegin(d) && (x.head == [] ==> d.chunks == [])
      ensures Feeds(IsHeaderLine, UpdateLine, SectionLines(x), d, AddChunk(d, s))
    {
      SectionFeeds(x, s, d);
    }
  }

  lemma AlignedTail(fits: (SectionText, Section) -> bool, xs: seq<SectionText>, sections: seq<Section>)
    requires Aligned(fits, xs, sections) && xs != []
    ensures Aligned(fits, xs[1..], sections[1..]) && fits(xs[0], sections[0])
    ensures |xs| > 1 ==> xs[1..][0].head != [] && sections[0].ops != []
  {
    assert forall i :: 0 <= i < |xs| - 1 ==> xs[1..][i] == xs[i + 1] && sections[1..][i] == sections[i + 1];
  }

  lemma {:induction false} SectionsFeed(via: Readers, fits: (SectionText, Section) -> bool, xs: seq<SectionText>,
      sections: seq<Section>, d: Draft)
    requires Aligned(fits, xs, sections) && forall x, s {:trigger fits(x, s)} :: fits(x, s) ==> ReadsSection(via, x, s)
    requires xs != [] ==> CanBegin(d) && (xs[0].head == [] ==> d.chunks == [])
    ensures Feeds(via.stop, via.update, AllSectionLines(xs), d, AddChunks(d, sections))
    decreases |xs|
  {
    if xs == [] {
      assert AddChunks(d, []) == d;
    } else {
      var s, rest := sections[0], xs[1..];
      var e := AddChunk(d, s);
      AlignedTail(fits, xs, sections);
      assert ReadsSection(via, xs[0], s);
      OpsMakeChunks(s.ops);
      SectionsFeed(via, fits, rest, sections[1..], e);
      AddChunksCons(d, sections);
      FeedsConcat(via.stop, via.update, SectionLines(xs[0]), AllSectionLines(rest), d, e, AddChunks(d, sections));
    }
  }

  lemma UpdateFeeds(move: seq<string>, movePath: string, xs: seq<SectionText>, sections: seq<Section>)
    requires WritesMove(move, movePath) && SpellsSections(xs, sections)
    ensures Reads(move + AllSectionLines(xs), Draft("", []), Draft(movePath, ChunksOf(sections)))
  {
    var moved := Draft(movePath, []);
    forall x, s {:trigger SpellsSection(x, s)} | SpellsSection(x, s)
      ensures ReadsSection(LINE_READERS, x, s)
    {
      ThisReadsSection(x, s);
    }
    SectionsFeed(LINE_READERS, SpellsSection, xs, sections, moved);
    assert moved.chunks + ChunksOf(sections) == ChunksOf(sections);
    if movePath == "" {
      assert move + AllSectionLines(xs) == AllSectionLines(xs);
    } else {
      MoveSteps(move[0], movePath);
      assert move == [move[0]];
      FeedsOne(IsHeaderLine, UpdateLine, move[0], Draft("", []), moved);
      ReadsConcat(move, AllSectionLines(xs), Draft("", []), moved, Draft(movePath, ChunksOf(sections)));
    }
  }

  // ---- Files ------------------------------------------------------------------------

  /** A reader sees the header and the body of a written file for what they are. */
  ghost predicate Understands(via: Readers, x: EditText, e: Edit) {
    && via.stop(x.header)
    && match e
       case AddFile(path, lines) =>
         && via.head(x.header) == AddHead(path) && ContentsOf(lines) != ""
         && EditLines(x) == [x.header] + x.added
         && Feeds(via.stop, via.add, x.added, "", ContentsOf(lines))
       case DeleteFile(path) =>
         && via.head(x.header) == DeleteHead(path)
         && EditLines(x) == [x.header] + x.gap
         && forall i :: 0 <= i < |x.gap| ==> via.head(x.gap[i]) == Blank
       case UpdateFile(path, movePath, sections) =>
         && via.head(x.header) == UpdateHead(path) && (movePath != "" || sections != [])
         && EditLines(x) == [x.header] + (x.move + AllSectionLines(x.sections))
         && Feeds(via.stop, via.update, x.move + AllSectionLines(x.sections), Draft("", []),
            Draft(movePath, ChunksOf(sections)))
  }

  lemma HeaderIsSeen(header: string, path: string)
    ensures TrimSpace(header) == "*** Add File: " + path ==> HeadOf(header) == AddHead(path) && IsHeaderLine(header)
    ensures TrimSpace(header) == "*** Delete File: " + path ==>
              HeadOf(header) == DeleteHead(path) && IsHeaderLine(header)
    ensures TrimSpace(header) == "*** Update File: " + path ==>
              HeadOf(header) == UpdateHead(path) && IsHeaderLine(header)
  {
    var t := TrimSpace(header);
    HeadersDiffer(path);
    if t == ADD_FILE + path { assert t[|ADD_FILE|..] == path; }
    if t == DELETE_FILE + path { assert t[|DELETE_FILE|..] == path; }
    if t == UPDATE_FILE + path { assert t[|UPDATE_FILE|..] == path; }
  }

  lemma AddIsUnderstood(x: EditText, path: string, lines: seq<string>)
    requires SpellsEdit(x, AddFile(path, lines))
    ensures Understands(LINE_READERS, x, AddFile(path, lines))
  {
    HeaderIsSeen(x.header, path);
    AddedReads(lines, "");
    AddLinesAre(x);
    assert "" + ContentsOf(lines) == ContentsOf(lines);
  }

  lemma AddLinesAre(x: EditText)
    requires x.move == [] && x.sections == [] && x.gap == []
    ensures EditLines(x) == [x.header] + x.added
  {
  }

  lemma DeleteIsUnderstood(x: EditText, path: string)
    requires SpellsEdit(x, DeleteFile(path))
    ensures Understands(LINE_READERS, x, DeleteFile(path))
  {
    HeaderIsSeen(x.header, path);
    assert EditLines(x) == [x.header] + x.gap;
  }

  lemma UpdateLinesAre(x: EditText)
    requires x.added == [] && x.gap == []
    ensures EditLines(x) == [x.header] + (x.move + AllSectionLines(x.sections))
  {
  }

  lemma UnderstandsUpdate(via: Readers, x: EditText, path: string, movePath: string, sections: seq<Section>)
    requires via.stop(x.header) && via.head(x.header) == UpdateHead(path) && (movePath != "" || sections != [])
    requires x.added == [] && x.gap == []
    requires Feeds(via.stop, via.update, x.move + AllSectionLines(x.sections), Draft("", []),
             Draft(movePath, ChunksOf(sections)))
    ensures Understands(via, x, UpdateFile(path, movePath, sections))
  {
    UpdateLinesAre(x);
  }

  lemma UpdateIsUnderstood(x: EditText, path: string, movePath: string, sections: seq<Section>)
    requires SpellsEdit(x, UpdateFile(path, movePath, sections))
    ensures Understands(LINE_READERS, x, UpdateFile(path, movePath, sections))
  {
    HeaderIsSeen(x.header, path);
    UpdateFeeds(x.move, movePath, x.sections, sections);
    UnderstandsUpdate(LINE_READERS, x, path, movePath, sections);
  }

  lemma SpelledIsUnderstood(x: EditText, e: Edit)
    requires SpellsEdit(x, e)
    ensures Understands(LINE_READERS, x, e)
  {
    match e
    case AddFile(path, lines) => AddIsUnderstood(x, path, lines);
    case DeleteFile(path) => DeleteIsUnderstood(x, path);
    case UpdateFile(path, movePath, sections) => UpdateIsUnderstood(x, path, movePath, sections);
  }

  lemma {:induction false} GapTop(via: Readers, gap: seq<string>, tail: seq<string>, n: nat)
    requires forall i :: 0 <= i < |gap| ==> via.head(gap[i]) == Blank
    ensures Top(via, gap + tail, n) == Top(via, tail, n + |gap|)
    decreases |gap|
  {
    if gap == [] {
      assert gap + tail == tail;
    } else {
      assert (gap + tail)[1..] == gap[1..] + tail;
      assert forall i :: 0 <= i < |gap| - 1 ==> gap[1..][i] == gap[i + 1];
      GapTop(via, gap[1..], tail, n + 1);
    }
  }

  lemma AddTop(via: Readers, x: EditText, path: string, lines: seq<string>, tail: seq<string>, n: nat)
    requires Understands(via, x, AddFile(path, lines)) && Follows(via, tail)
    ensures Top(via, EditLines(x) + tail, n)
         == Prepend(Add(path, ContentsOf(lines)), Top(via, tail, n + |EditLines(x)|))
  {
    var all := EditLines(x) + tail;
    FeedsBody(via, via.add, x.added, tail, n + 1, "", ContentsOf(lines));
    assert all[0] == x.header && all[1..] == x.added + tail;
  }

  lemma DeleteTop(via: Readers, x: EditText, path: string, tail: seq<string>, n: nat)
    requires Understands(via, x, DeleteFile(path))
    ensures Top(via, EditLines(x) + tail, n) == Prepend(Delete(path), Top(via, tail, n + |EditLines(x)|))
  {
    var all := EditLines(x) + tail;
    GapTop(via, x.gap, tail, n + 1);
    assert all[0] == x.header && all[1..] == x.gap + tail;
  }

  /** One written file is read as its hunk, and reading goes on behind it. */
  lemma EditTop(via: Readers, x: EditText, e: Edit, tail: seq<string>, n: nat)
    requires Understands(via, x, e) && Follows(via, tail)
    ensures Top(via, EditLines(x) + tail, n) == Prepend(HunkOf(e), Top(via, tail, n + |EditLines(x)|))
  {
    match e {
      case AddFile(path, lines) => AddTop(via, x, path, lines, tail, n);
      case DeleteFile(path) => DeleteTop(via, x, path, tail, n);
      case UpdateFile(path, movePath, sections) =>
        UpdateStep(via, x.header, path, x.move + AllSectionLines(x.sections), tail, n,
                   Draft(movePath, ChunksOf(sections)));
    }
  }

  ghost predicate UnderstandsAll(via: Readers, xs: seq<EditText>, edits: seq<Edit>) {
    |xs| == |edits| && forall i :: 0 <= i < |xs| ==> Understands(via, xs[i], edits[i])
  }

  lemma OneMoreEdit(via: Readers, x: EditText, e: Edit, tail: seq<string>, hunks: seq<Hunk>, n: nat)
    requires Understands(via, x, e) && Follows(via, tail) && Top(via, tail, n + |EditLines(x)|) == Ok(hunks)
    ensures Top(via, EditLines(x) + tail, n) == Ok([HunkOf(e)] + hunks) && Follows(via, EditLines(x) + tail)
  {
    EditTop(via, x, e, tail, n);
    assert (EditLines(x) + tail)[0] == x.header;
  }

  lemma UnderstandsTail(via: Readers, xs: seq<EditText>, edits: seq<Edit>)
    requires UnderstandsAll(via, xs, edits) && xs != []
    ensures UnderstandsAll(via, xs[1..], edits[1..]) && Understands(via, xs[0], edits[0])
  {
    assert forall i :: 0 <= i < |xs| - 1 ==> xs[1..][i] == xs[i + 1] && edits[1..][i] == edits[i + 1];
  }

  lemma {:induction false} EditsTop(via: Readers, xs: seq<EditText>, edits: seq<Edit>, n: nat)
    requires UnderstandsAll(via, xs, edits)
    ensures Top(via, AllEditLines(xs), n) == Ok(HunksOf(edits))
    ensures Follows(via, AllEditLines(xs))
    decreases |xs|
  {
    if xs != [] {
      UnderstandsTail(via, xs, edits);
      EditsTop(via, xs[1..], edits[1..], n + |EditLines(xs[0])|);
      OneMoreEdit(via, xs[0], edits[0], AllEditLines(xs[1..]), HunksOf(edits[1..]), n);
    }
  }

  lemma AllUnderstood(xs: seq<EditText>, edits: seq<Edit>)
    requires SpellsEdits(xs, edits)
    ensures UnderstandsAll(LINE_READERS, xs, edits)
  {
    forall i | 0 <= i < |xs|
      ensures Understands(LINE_READERS, xs[i], edits[i])
    {
      SpelledIsUnderstood(xs[i], edits[i]);
    }
  }

  lemma UnderstoodTop(via: Readers, gap: seq<string>, xs: seq<EditText>, edits: seq<Edit>, n: nat)
    requires UnderstandsAll(via, xs, edits) && forall i :: 0 <= i < |gap| ==> via.head(gap[i]) == Blank
    ensures Top(via, gap + AllEditLines(xs), n) == Ok(HunksOf(edits))
  {
    EditsTop(via, xs, edits, n + |gap|);
    GapTop(via, gap, AllEditLines(xs), n);
  }

  lemma BlanksAreSeen(gap: seq<string>)
    requires AllBlank(gap)
    ensures forall i :: 0 <= i < |gap| ==> LINE_READERS.head(gap[i]) == Blank
  {
  }

  lemma PatchTop(lines: seq<string>, gap: seq<string>, xs: seq<EditText>, edits: seq<Edit>, n: nat)
    requires SpellsPatch(lines, gap, xs, edits)
    ensures Top(LINE_READERS, lines, n) == Ok(HunksOf(edits))
  {
    AllUnderstood(xs, edits);
    BlanksAreSeen(gap);
    UnderstoodTop(LINE_READERS, gap, xs, edits, n);
  }

  // ---- What is read was written: the body of an update ------------------------------

  lemma {:induction false} FeedsSnoc<T(!new)>(
    stop: string -> bool, read: (T, string) -> Result<T>, lines: seq<string>, t: T, u: T) returns (v: T)
    requires Feeds(stop, read, lines, t, u) && lines != []
    ensures Feeds(stop, read, lines[..|lines| - 1], t, v)
    ensures !stop(lines[|lines| - 1]) && read(v, lines[|lines| - 1]) == Ok(u)
    decreases |lines|
  {
    var rest := lines[1..];
    if rest == [] {
      v := t;
    } else {
      v := FeedsSnoc(stop, read, rest, read(t, lines[0]).value, u);
      assert lines[..|lines| - 1][1..] == rest[..|rest| - 1];
    }
  }

  lemma {:induction false} SectionLinesSnoc(xs: seq<SectionText>, x: SectionText)
    ensures AllSectionLines(xs + [x]) == AllSectionLines(xs) + SectionLines(x)
  {
    if xs == [] {
      assert [] + [x] == [x] && [x][1..] == [];
    } else {
      assert (xs + [x])[1..] == xs[1..] + [x];
      SectionLinesSnoc(xs[1..], x);
    }
  }

  lemma {:induction false} ChunksSnoc(sections: seq<Section>, s: Section)
    ensures ChunksOf(sections + [s]) == ChunksOf(sections) + [ChunkOf(s)]
  {
    if sections == [] {
      assert [] + [s] == [s] && [s][1..] == [];
    } else {
      assert (sections + [s])[1..] == sections[1..] + [s];
      ChunksSnoc(sections[1..], s);
    }
  }

  /** These lines are the sections, which make these chunks. */
  ghost predicate Laid(fits: (SectionText, Section) -> bool, lines: seq<string>, xs: seq<SectionText>,
      sections: seq<Section>, chunks: seq<Chunk>)
  {
    lines == AllSectionLines(xs) && Aligned(fits, xs, sections) && chunks == ChunksOf(sections)
  }

  ghost predicate SectionsWritten(lines: seq<string>, chunks: seq<Chunk>) {
    exists xs: seq<SectionText>, sections: seq<Section> :: Laid(SpellsSection, lines, xs, sections, chunks)
  }

  /** The lines of an update body have been written for the draft they lead to. */
  ghost predicate BodyWritten(lines: seq<string>, d: Draft) {
    exists move, below :: MoveThen(lines, move, below, d)
  }

  ghost predicate MoveThen(lines: seq<string>, move: seq<string>, below: seq<string>, d: Draft) {
    lines == move + below && WritesMove(move, d.movePath) && SectionsWritten(below, d.chunks)
  }

  /** One more section. */
  lemma LaidGrows(fits: (SectionText, Section) -> bool, lines: seq<string>, xs: seq<SectionText>,
      sections: seq<Section>, chunks: seq<Chunk>, x: SectionText, s: Section)
    requires Laid(fits, lines, xs, sections, chunks) && fits(x, s)
    requires xs != [] ==> x.head != [] && sections[|xs| - 1].ops != []
    ensures Laid(fits, lines + SectionLines(x), xs + [x], sections + [s], chunks + [ChunkOf(s)])
  {
    SectionLinesSnoc(xs, x);
    ChunksSnoc(sections, s);
  }

  lemma LaidFront(fits: (SectionText, Section) -> bool, lines: seq<string>, xs: seq<SectionText>,
      sections: seq<Section>, chunks: seq<Chunk>)
    returns (front: seq<string>)
    requires Laid(fits, lines, xs, sections, chunks) && xs != []
    ensures |xs| == |sections| == |chunks|
    ensures var n := |xs| - 1;
            && Laid(fits, front, xs[..n], sections[..n], chunks[..n]) && lines == front + SectionLines(xs[n])
            && fits(xs[n], sections[n]) && (n > 0 ==> xs[n].head != [] && sections[n - 1].ops != [])
            && chunks[n] == ChunkOf(sections[n])
  {
    var n := |xs| - 1;
    assert xs[..n] + [xs[n]] == xs && sections[..n] + [sections[n]] == sections;
    SectionLinesSnoc(xs[..n], xs[n]);
    ChunksSnoc(sections[..n], sections[n]);
    front := AllSectionLines(xs[..n]);
    assert chunks[..n] == ChunksOf(sections[..n]);
  }

  /** One more line at the end of the last section. */
  lemma LastGrows(fits: (SectionText, Section) -> bool, lines: seq<string>, xs: seq<SectionText>,
      sections: seq<Section>, chunks: seq<Chunk>, raw: string, x: SectionText, s: Section)
    requires Laid(fits, lines, xs, sections, chunks) && xs != [] && fits(x, s)
    requires x.head == xs[|xs| - 1].head && SectionLines(x) == SectionLines(xs[|xs| - 1]) + [raw]
    ensures exists ys, more :: Laid(fits, lines + [raw], ys, more, SetLast(chunks, ChunkOf(s)))
  {
    var n := |xs| - 1;
    var front := LaidFront(fits, lines, xs, sections, chunks);
    LaidGrows(fits, front, xs[..n], sections[..n], chunks[..n], x, s);
    assert front + (SectionLines(xs[n]) + [raw]) == lines + [raw];
    assert Laid(fits, lines + [raw], xs[..n] + [x], sections[..n] + [s], SetLast(chunks, ChunkOf(s)));
  }

  lemma OneLineLonger(x: SectionText, raw: string)
    ensures SectionLines(x.(end := x.end + [raw])) == SectionLines(x) + [raw]
    ensures x.end == [] ==> SectionLines(x.(body := x.body + [raw])) == SectionLines(x) + [raw]
  {
  }

  lemma OpsSnoc(s: Section, op: Op)
    ensures ChunkOf(s.(ops := s.ops + [op])) == Collect(ChunkOf(s), op)
  {
    var blank := NEW_CHUNK.(context := s.context, endOfFile := s.endOfFile);
    CollectAllMeans(blank, s.ops);
    CollectAllMeans(blank, s.ops + [op]);
    CollectSnoc(blank, s.ops, op);
    assert forall x: seq<string> :: [] + x == x;
    assert forall x: seq<(nat, nat)> :: [] + x == x;
  }

  lemma {:induction false} CollectSnoc(c: Chunk, ops: seq<Op>, op: Op)
    ensures CollectAll(c, ops + [op]) == Collect(CollectAll(c, ops), op)
    decreases |ops|
  {
    if ops == [] {
      assert [] + [op] == [op] && [op][1..] == [];
    } else {
      assert (ops + [op])[1..] == ops[1..] + [op];
      CollectSnoc(Collect(c, ops[0]), ops[1..], op);
    }
  }

  lemma NothingFits(x: SectionText, s: Section, raw: string)
    requires SpellsSection(x, s) && s.endOfFile && WritesNothing(raw)
    ensures SpellsSection(x.(end := x.end + [raw]), s)
  {
    assert WritesEnd(x.end + [raw]);
  }

  lemma EndFits(x: SectionText, s: Section, raw: string)
    requires SpellsSection(x, s) && !s.endOfFile && s.ops != [] && WritesEnd([raw])
    ensures SpellsSection(x.(end := x.end + [raw]), s.(endOfFile := true))
  {
    assert x.end + [raw] == [raw];
  }

  lemma OpFits(x: SectionText, s: Section, raw: string, op: Op)
    requires SpellsSection(x, s) && !s.endOfFile && WritesOp(raw, op)
    ensures x.end == [] && SpellsSection(x.(body := x.body + [raw]), s.(ops := s.ops + [op]))
  {
  }

  /** A blank line behind the end-of-file line. */
  lemma NothingGrows(lines: seq<string>, chunks: seq<Chunk>, raw: string)
    requires SectionsWritten(lines, chunks) && Last(chunks).endOfFile && WritesNothing(raw)
    ensures SectionsWritten(lines + [raw], chunks)
  {
    var xs: seq<SectionText>, sections: seq<Section> :| Laid(SpellsSection, lines, xs, sections, chunks);
    var front := LaidFront(SpellsSection, lines, xs, sections, chunks);
    var x, s := xs[|xs| - 1], sections[|xs| - 1];
    NothingFits(x, s, raw);
    OneLineLonger(x, raw);
    LastGrows(SpellsSection, lines, xs, sections, chunks, raw, x.(end := x.end + [raw]), s);
    SetLastTwice(chunks, Last(chunks), Last(chunks));
  }

  lemma EndGrows(lines: seq<string>, chunks: seq<Chunk>, raw: string)
    requires SectionsWritten(lines, chunks) && !IsEmptyChunk(Last(chunks)) && !Last(chunks).endOfFile
    requires WritesEnd([raw])
    ensures SectionsWritten(lines + [raw], SetLast(chunks, Last(chunks).(endOfFile := true)))
  {
    var xs: seq<SectionText>, sections: seq<Section> :| Laid(SpellsSection, lines, xs, sections, chunks);
    var front := LaidFront(SpellsSection, lines, xs, sections, chunks);
    var x, s := xs[|xs| - 1], sections[|xs| - 1];
    OpsMakeChunks(s.ops);
    EndFits(x, s, raw);
    OneLineLonger(x, raw);
    LastGrows(SpellsSection, lines, xs, sections, chunks, raw, x.(end := x.end + [raw]), s.(endOfFile := true));
  }

  /** A change in the last section. */
  lemma OpGrows(lines: seq<string>, chunks: seq<Chunk>, raw: string, op: Op)
    requires SectionsWritten(lines, chunks) && chunks != [] && !Last(chunks).endOfFile && WritesOp(raw, op)
    ensures SectionsWritten(lines + [raw], SetLast(chunks, Collect(Last(chunks), op)))
  {
    var xs: seq<SectionText>, sections: seq<Section> :| Laid(SpellsSection, lines, xs, sections, chunks);
    var front := LaidFront(SpellsSection, lines, xs, sections, chunks);
    var x, s := xs[|xs| - 1], sections[|xs| - 1];
    OpFits(x, s, raw, op);
    OneLineLonger(x, raw);
    OpsSnoc(s, op);
    LastGrows(SpellsSection, lines, xs, sections, chunks, raw, x.(body := x.body + [raw]), s.(ops := s.ops + [op]));
  }

  lemma FirstChunk(op: Op)
    ensures ChunkOf(Section("", [op], false)) == Collect(NEW_CHUNK, op)
  {
    OpsSnoc(Section("", [], false), op);
    assert [] + [op] == [op];
    assert ChunkOf(Section("", [], false)) == NEW_CHUNK;
  }

  /** A change that opens the first section. */
  lemma FirstOpGrows(lines: seq<string>, raw: string, op: Op)
    requires SectionsWritten(lines, []) && WritesOp(raw, op)
    ensures SectionsWritten(lines + [raw], [Collect(NEW_CHUNK, op)])
  {
    var xs: seq<SectionText>, sections: seq<Section> :| Laid(SpellsSection, lines, xs, sections, []);
    var x, s := SectionText([], [raw], []), Section("", [op], false);
    FirstChunk(op);
    LaidGrows(SpellsSection, lines, xs, sections, [], x, s);
    assert SectionLines(x) == [raw] && [] + [ChunkOf(s)] == [ChunkOf(s)];
  }

  lemma ContextFits(raw: string, context: string)
    requires WritesContext(raw, context)
    ensures var x, s := SectionText([raw], [], []), Section(context, [], false);
            SpellsSection(x, s) && SectionLines(x) == [raw] && ChunkOf(s) == NEW_CHUNK.(context := context)
  {
  }

  lemma SectionGrows(fits: (SectionText, Section) -> bool, lines: seq<string>, xs: seq<SectionText>,
      sections: seq<Section>, chunks: seq<Chunk>, x: SectionText, s: Section)
    requires Laid(fits, lines, xs, sections, chunks) && fits(x, s) && x.head != []
    requires chunks == [] || !IsEmptyChunk(Last(chunks))
    ensures exists ys: seq<SectionText>, more: seq<Section> ::
              Laid(fits, lines + SectionLines(x), ys, more, chunks + [ChunkOf(s)])
  {
    if xs != [] {
      var front := LaidFront(fits, lines, xs, sections, chunks);
      OpsMakeChunks(sections[|xs| - 1].ops);
    }
    LaidGrows(fits, lines, xs, sections, chunks, x, s);
  }

  lemma ContextGrows(lines: seq<string>, chunks: seq<Chunk>, raw: string, context: string)
    requires SectionsWritten(lines, chunks) && WritesContext(raw, context)
    requires chunks == [] || !IsEmptyChunk(Last(chunks))
    ensures SectionsWritten(lines + [raw], chunks + [NEW_CHUNK.(context := context)])
  {
    var xs: seq<SectionText>, sections: seq<Section> :| Laid(SpellsSection, lines, xs, sections, chunks);
    ContextFits(raw, context);
    SectionGrows(SpellsSection, lines, xs, sections, chunks, SectionText([raw], [], []), Section(context, [], false));
  }

  lemma ContextIsWritten(raw: string) returns (context: string)
    requires !IsHeaderLine(raw) && IsLocator(Clean(raw))
    ensures WritesContext(raw, context) && context == LocatorOf(Clean(raw))
  {
    var t := Clean(raw);
    context := LocatorOf(t);
    if t != EMPTY_CONTEXT {
      assert t == CHANGE_CONTEXT + context;
      assert CHANGE_CONTEXT[|CHANGE_CONTEXT| - 1] == ' ';
    }
  }

  lemma MoveIsWritten(raw: string) returns (name: string)
    requires !IsHeaderLine(raw) && MOVE_TO <= Clean(raw)
    ensures name != "" && WritesMove([raw], name) && name == Clean(raw)[|MOVE_TO|..]
  {
    var t := Clean(raw);
    name := t[|MOVE_TO|..];
    assert t == MOVE_TO + name;
    assert MOVE_TO[|MOVE_TO| - 1] == ' ';
  }

  lemma OpIsWritten(raw: string, c: Chunk, d: Chunk) returns (op: Op)
    requires !IsHeaderLine(raw) && Push(c, Content(raw)) == Ok(d)
    ensures WritesOp(raw, op) && d == Collect(c, op)
  {
    var content := Content(raw);
    op := Keep("");
    if content != "" {
      assert content == [content[0]] + content[1..];
      op := if content[0] == ' ' then Keep(content[1..]) else if content[0] == '+' then Insert(content[1..])
      else Remove(content[1..]);
    }
  }

  /** What a line of an update body is, and what it does. */
  datatype Role = Nothing | Move(name: string) | Context(name: string) | End | Change(op: Op)

  ghost predicate Plays(role: Role, d: Draft, raw: string, e: Draft) {
    var last := Last(d.chunks);
    match role
    case Nothing => last.endOfFile && WritesNothing(raw) && e == d
    case Move(name) => d == Draft("", []) && name != "" && WritesMove([raw], name) && e == Draft(name, [])
    case Context(name) =>
      CanBegin(d) && WritesContext(raw, name) && e == d.(chunks := d.chunks + [NEW_CHUNK.(context := name)])
    case End =>
      && !IsEmptyChunk(last) && !last.endOfFile && WritesEnd([raw])
      && e == d.(chunks := SetLast(d.chunks, last.(endOfFile := true)))
    case Change(op) =>
      !last.endOfFile && WritesOp(raw, op) && e == d.(chunks := SetLast(d.chunks, Collect(last, op)))
  }

  /** Every line that is taken plays a role. */
  lemma LineIsWritten(d: Draft, raw: string, e: Draft) returns (role: Role)
    requires !IsHeaderLine(raw) && UpdateLine(d, raw) == Ok(e)
    ensures Plays(role, d, raw, e)
  {
    var t := Clean(raw);
    if Last(d.chunks).endOfFile && t == "" {
      role := Nothing;
    } else if d.chunks == [] && d.movePath == "" && MOVE_TO <= t {
      var name := MoveIsWritten(raw);
      role := Move(name);
    } else if IsLocator(t) {
      var name := ContextIsWritten(raw);
      role := Context(name);
    } else if t == END_OF_FILE {
      role := End;
    } else {
      var op := OpIsWritten(raw, Last(d.chunks), Push(Last(d.chunks), Content(raw)).value);
      role := Change(op);
    }
  }

  lemma SectionsPlay(role: Role, lines: seq<string>, d: Draft, raw: string, e: Draft)
    requires SectionsWritten(lines, d.chunks) && Plays(role, d, raw, e) && !role.Move?
    ensures SectionsWritten(lines + [raw], e.chunks) && e.movePath == d.movePath
  {
    match role
    case Nothing => NothingGrows(lines, d.chunks, raw);
    case Context(name) => ContextGrows(lines, d.chunks, raw, name);
    case End => EndGrows(lines, d.chunks, raw);
    case Change(op) =>
      if d.chunks == [] {
        FirstOpGrows(lines, raw, op);
      } else {
        OpGrows(lines, d.chunks, raw, op);
      }
  }

  lemma BelowGrows(lines: seq<string>, move: seq<string>, below: seq<string>, d: Draft, raw: string, e: Draft)
    requires MoveThen(lines, move, below, d) && SectionsWritten(below + [raw], e.chunks) && e.movePath == d.movePath
    ensures BodyWritten(lines + [raw], e)
  {
    assert (move + below) + [raw] == move + (below + [raw]);
    assert MoveThen(lines + [raw], move, below + [raw], e);
  }

  lemma BodyGrows(lines: seq<string>, d: Draft, raw: string, e: Draft)
    requires BodyWritten(lines, d) && !IsHeaderLine(raw) && UpdateLine(d, raw) == Ok(e)
    ensures BodyWritten(lines + [raw], e)
  {
    var role := LineIsWritten(d, raw, e);
    if role.Move? {
      MoveGrows(lines, raw, role.name);
    } else {
      var move, below :| MoveThen(lines, move, below, d);
      SectionsPlay(role, below, d, raw, e);
      BelowGrows(lines, move, below, d, raw, e);
    }
  }

  lemma NothingIsWritten()
    ensures SectionsWritten([], []) && BodyWritten([], Draft("", []))
  {
    assert Laid(SpellsSection, [], [], [], []);
    assert MoveThen([], [], [], Draft("", []));
  }

  lemma MoveGrows(lines: seq<string>, raw: string, name: string)
    requires BodyWritten(lines, Draft("", [])) && WritesMove([raw], name) && name != ""
    ensures BodyWritten(lines + [raw], Draft(name, []))
  {
    var move, below :| MoveThen(lines, move, below, Draft("", []));
    var xs: seq<SectionText>, sections: seq<Section> :| Laid(SpellsSection, below, xs, sections, []);
    assert lines + [raw] == [raw] + [];
    NothingIsWritten();
    assert MoveThen(lines + [raw], [raw], [], Draft(name, []));
  }

  /** What holds at the start and is kept by every line holds at the end. */
  lemma {:induction false} FeedsInduct<T(!new)>(
    stop: string -> bool, read: (T, string) -> Result<T>, lines: seq<string>, t: T, u: T,
    p: (seq<string>, T) -> bool)
    requires Feeds(stop, read, lines, t, u) && p([], t)
    requires forall ls, a, raw, b {:trigger p(ls, a), p(ls + [raw], b)} ::
               p(ls, a) && !stop(raw) && read(a, raw) == Ok(b) ==> p(ls + [raw], b)
    ensures p(lines, u)
    decreases |lines|
  {
    if lines != [] {
      var n := |lines| - 1;
      var v := FeedsSnoc(stop, read, lines, t, u);
      FeedsInduct(stop, read, lines[..n], t, v, p);
      assert lines[..n] + [lines[n]] == lines;
      assert p(lines[..n] + [lines[n]], u);
    }
  }

  lemma BodyIsWritten(lines: seq<string>, d: Draft)
    requires Reads(lines, Draft("", []), d)
    ensures BodyWritten(lines, d)
  {
    NothingIsWritten();
    forall ls, a, raw, b {:trigger BodyWritten(ls, a), BodyWritten(ls + [raw], b)} |
      BodyWritten(ls, a) && !IsHeaderLine(raw) && UpdateLine(a, raw) == Ok(b)
      ensures BodyWritten(ls + [raw], b)
    {
      BodyGrows(ls, a, raw, b);
    }
    FeedsInduct(IsHeaderLine, UpdateLine, lines, Draft("", []), d, BodyWritten);
  }

  lemma {:induction false} AddedIsWritten(lines: seq<string>, contents: string, all: string)
    returns (added: seq<string>)
    requires Feeds(IsHeaderLine, AddLine, lines, contents, all)
    ensures lines == RenderAdded(added) && all == contents + ContentsOf(added)
    decreases |lines|
  {
    if lines == [] {
      added := [];
    } else {
      var line := lines[0][1..];
      var rest := AddedIsWritten(lines[1..], contents + line + "\n", all);
      added := [line] + rest;
      OneMoreAdded(lines, line, rest, contents);
    }
  }

  lemma OneMoreAdded(lines: seq<string>, line: string, rest: seq<string>, contents: string)
    requires lines != [] && lines[0] != "" && lines[0][0] == '+' && lines[0][1..] == line
    requires lines[1..] == RenderAdded(rest)
    ensures lines == RenderAdded([line] + rest)
    ensures contents + line + "\n" + ContentsOf(rest) == contents + ContentsOf([line] + rest)
  {
    var added := [line] + rest;
    assert added[1..] == rest && lines == [lines[0]] + lines[1..] && lines[0] == "+" + line;
    assert contents + line + "\n" + ContentsOf(rest) == contents + (line + "\n" + ContentsOf(rest));
  }

  // ---- What is read was written: the files ------------------------------------------

  lemma {:induction false} ConsumeFeeds<T(!new)>(
    stop: string -> bool, read: (T, string) -> Result<T>, rest: seq<string>, n: nat, t: T) returns (lines: seq<string>)
    requires Consume(stop, read, rest, n, t).Ok?
    ensures var b := Consume(stop, read, rest, n, t).value;
            && rest == lines + b.rest && Feeds(stop, read, lines, t, b.value)
            && (b.rest == [] || stop(b.rest[0])) && b.number >= n
    decreases |rest|
  {
    if rest == [] || stop(rest[0]) {
      lines := [];
    } else {
      var more := ConsumeFeeds(stop, read, rest[1..], n + 1, read(t, rest[0]).value);
      lines := [rest[0]] + more;
      assert lines[1..] == more && rest == [rest[0]] + rest[1..];
    }
  }

  /** Which texts write which edits, and which lines are blank. What follows is proved for
      any such two relations. */
  datatype Ways = Ways(ghost fits: (EditText, Edit) -> bool, ghost blank: string -> bool)

  ghost predicate IsBlank(raw: string) { TrimSpace(raw) == "" }

  ghost function TheseWays(): Ways { Ways(SpellsEdit, IsBlank) }

  ghost predicate EachFits(w: Ways, xs: seq<EditText>, edits: seq<Edit>) {
    |xs| == |edits| && forall i :: 0 <= i < |xs| ==> w.fits(xs[i], edits[i])
  }

  ghost predicate EachBlank(w: Ways, gap: seq<string>) { forall i :: 0 <= i < |gap| ==> w.blank(gap[i]) }

  /** These lines are a gap and the files, which mean these hunks. */
  ghost predicate Composed(
    w: Ways, lines: seq<string>, gap: seq<string>, xs: seq<EditText>, edits: seq<Edit>, hunks: seq<Hunk>)
  {
    && lines == gap + AllEditLines(xs) && hunks == HunksOf(edits)
    && EachBlank(w, gap) && EachFits(w, xs, edits)
  }

  ghost predicate PatchWritten(w: Ways, lines: seq<string>, hunks: seq<Hunk>) {
    exists gap, xs, edits :: Composed(w, lines, gap, xs, edits, hunks)
  }

  lemma NoPatch(w: Ways)
    ensures PatchWritten(w, [], [])
  {
    assert [] == [] + AllEditLines([]);
    assert Composed(w, [], [], [], [], []);
  }

  lemma BlankGrows(w: Ways, raw: string, lines: seq<string>, hunks: seq<Hunk>)
    requires w.blank(raw) && PatchWritten(w, lines, hunks)
    ensures PatchWritten(w, [raw] + lines, hunks)
  {
    var gap, xs, edits :| Composed(w, lines, gap, xs, edits, hunks);
    assert [raw] + (gap + AllEditLines(xs)) == ([raw] + gap) + AllEditLines(xs);
    assert Composed(w, [raw] + lines, [raw] + gap, xs, edits, hunks);
  }

  lemma ComposedGrows(w: Ways, x: EditText, e: Edit, lines: seq<string>, xs: seq<EditText>, edits: seq<Edit>,
      hunks: seq<Hunk>)
    requires Composed(w, lines, [], xs, edits, hunks) && w.fits(x, e)
    ensures PatchWritten(w, EditLines(x) + lines, [HunkOf(e)] + hunks)
  {
    var ys, more := [x] + xs, [e] + edits;
    assert ys[1..] == xs && more[1..] == edits;
    assert [] + AllEditLines(ys) == EditLines(x) + lines;
    assert Composed(w, EditLines(x) + lines, [], ys, more, [HunkOf(e)] + hunks);
  }

  /** These lines are a way to write a file that means this hunk. */
  ghost predicate Makes(w: Ways, lines: seq<string>, h: Hunk) {
    exists x, e :: w.fits(x, e) && EditLines(x) == lines && HunkOf(e) == h
  }

  /** One more file in front of a file, or at the end. */
  lemma FileGrows(w: Ways, file: seq<string>, h: Hunk, lines: seq<string>, hunks: seq<Hunk>)
    requires Makes(w, file, h) && PatchWritten(w, lines, hunks) && (lines == [] || !w.blank(lines[0]))
    ensures PatchWritten(w, file + lines, [h] + hunks)
  {
    var x, e :| w.fits(x, e) && EditLines(x) == file && HunkOf(e) == h;
    var gap, xs, edits :| Composed(w, lines, gap, xs, edits, hunks);
    ComposedGrows(w, x, e, lines, xs, edits, hunks);
  }

  lemma Ungapped(w: Ways, lines: seq<string>, gap: seq<string>, xs: seq<EditText>, edits: seq<Edit>, hunks: seq<Hunk>)
    returns (rest: seq<string>)
    requires Composed(w, lines, gap, xs, edits, hunks)
    ensures lines == gap + rest && EachBlank(w, gap) && Composed(w, rest, [], xs, edits, hunks)
  {
    rest := AllEditLines(xs);
    assert [] + rest == rest;
  }

  /** A deletion takes the gap behind it. */
  lemma DeleteGrows(w: Ways, raw: string, h: Hunk, gap: seq<string>, rest: seq<string>, xs: seq<EditText>,
      edits: seq<Edit>, hunks: seq<Hunk>)
    requires Composed(w, rest, [], xs, edits, hunks) && Makes(w, [raw] + gap, h)
    ensures PatchWritten(w, [raw] + (gap + rest), [h] + hunks)
  {
    var x, e :| w.fits(x, e) && EditLines(x) == [raw] + gap && HunkOf(e) == h;
    ComposedGrows(w, x, e, rest, xs, edits, hunks);
    assert [raw] + gap + rest == [raw] + (gap + rest);
  }

  /** What a reader takes for a file was written as one. */
  ghost predicate Suits(via: Readers, w: Ways) {
    && (forall raw :: via.stop(raw) ==> !w.blank(raw))
    && (forall raw :: via.head(raw).Blank? ==> w.blank(raw))
    && (forall raw, body, contents {:trigger via.head(raw), Feeds(via.stop, via.add, body, "", contents)} ::
         via.head(raw).AddHead? && Feeds(via.stop, via.add, body, "", contents) && contents != "" ==>
           Makes(w, [raw] + body, Add(via.head(raw).path, contents)))
    && (forall raw, gap {:trigger via.head(raw), EachBlank(w, gap)} ::
         via.head(raw).DeleteHead? && EachBlank(w, gap) ==> Makes(w, [raw] + gap, Delete(via.head(raw).path)))
    && (forall raw, body, d {:trigger via.head(raw), Feeds(via.stop, via.update, body, Draft("", []), d)} ::
         via.head(raw).UpdateHead? && Feeds(via.stop, via.update, body, Draft("", []), d) && d != Draft("", []) ==>
           Makes(w, [raw] + body, Update(via.head(raw).path, d.movePath, d.chunks)))
  }

  lemma BlankIsBlank(gap: seq<string>)
    ensures EachBlank(TheseWays(), gap) <==> AllBlank(gap)
  {
    if EachBlank(TheseWays(), gap) {
      forall i | 0 <= i < |gap|
        ensures TrimSpace(gap[i]) == ""
      {
        assert IsBlank(gap[i]);
      }
    }
  }

  lemma DeleteFits(raw: string, path: string, gap: seq<string>)
    requires TrimSpace(raw) == "*** Delete File: " + path && EachBlank(TheseWays(), gap)
    ensures Makes(TheseWays(), [raw] + gap, Delete(path))
  {
    var x, e := EditText(raw, [], [], [], gap), DeleteFile(path);
    BlankIsBlank(gap);
    assert EditLines(x) == [raw] + gap;
    assert SpellsEdit(x, e);
  }

  lemma AddFits(raw: string, path: string, body: seq<string>, contents: string)
    requires TrimSpace(raw) == "*** Add File: " + path && Feeds(IsHeaderLine, AddLine, body, "", contents)
    requires contents != ""
    ensures Makes(TheseWays(), [raw] + body, Add(path, contents))
  {
    var added := AddedIsWritten(body, "", contents);
    assert "" + ContentsOf(added) == ContentsOf(added);
    var x, e := EditText(raw, [], RenderAdded(added), [], []), AddFile(path, added);
    AddLinesAre(x);
    assert SpellsEdit(x, e);
  }

  lemma UpdateFits(raw: string, path: string, body: seq<string>, d: Draft)
    requires TrimSpace(raw) == "*** Update File: " + path && BodyWritten(body, d) && d != Draft("", [])
    ensures Makes(TheseWays(), [raw] + body, Update(path, d.movePath, d.chunks))
  {
    var move, below :| MoveThen(body, move, below, d);
    var xs: seq<SectionText>, sections: seq<Section> :| Laid(SpellsSection, below, xs, sections, d.chunks);
    var x, e := EditText(raw, move, [], xs, []), UpdateFile(path, d.movePath, sections);
    UpdateLinesAre(x);
    assert SpellsEdit(x, e);
  }

  /** What a successful reading of a file was, and what follows. */
  lemma AddSplits(via: Readers, raw: string, path: string, lines: seq<string>, n: nat)
    returns (body: seq<string>, contents: string, rest: seq<string>, m: nat)
    requires via.head(raw) == AddHead(path) && Top(via, [raw] + lines, n).Ok?
    ensures lines == body + rest && Feeds(via.stop, via.add, body, "", contents) && contents != ""
    ensures (rest == [] || via.stop(rest[0])) && Top(via, rest, m).Ok?
    ensures Top(via, [raw] + lines, n).value == [Add(path, contents)] + Top(via, rest, m).value
  {
    assert ([raw] + lines)[1..] == lines;
    body := ConsumeFeeds(via.stop, via.add, lines, n + 1, "");
    var b := AddBody(via, lines, n + 1).value;
    contents, rest, m := b.value, b.rest, b.number;
  }

  lemma UpdateSplits(via: Readers, raw: string, path: string, lines: seq<string>, n: nat)
    returns (body: seq<string>, d: Draft, rest: seq<string>, m: nat)
    requires via.head(raw) == UpdateHead(path) && Top(via, [raw] + lines, n).Ok?
    ensures lines == body + rest && Feeds(via.stop, via.update, body, Draft("", []), d) && d != Draft("", [])
    ensures (rest == [] || via.stop(rest[0])) && Top(via, rest, m).Ok?
    ensures Top(via, [raw] + lines, n).value == [Update(path, d.movePath, d.chunks)] + Top(via, rest, m).value
  {
    assert ([raw] + lines)[1..] == lines;
    body := ConsumeFeeds(via.stop, via.update, lines, n + 1, Draft("", []));
    var b := UpdateBody(via, lines, n + 1).value;
    d, rest, m := b.value, b.rest, b.number;
  }

  lemma OtherSplits(via: Readers, raw: string, lines: seq<string>, n: nat)
    requires Top(via, [raw] + lines, n).Ok?
    ensures via.head(raw) != NoHead
    ensures via.head(raw).Blank? || via.head(raw).DeleteHead? ==> Top(via, lines, n + 1).Ok?
    ensures via.head(raw).Blank? ==> Top(via, [raw] + lines, n) == Top(via, lines, n + 1)
    ensures via.head(raw).DeleteHead? ==>
              Top(via, [raw] + lines, n).value == [Delete(via.head(raw).path)] + Top(via, lines, n + 1).value
  {
    assert ([raw] + lines)[1..] == lines;
  }

  lemma HeadIsWritten(raw: string)
    ensures match HeadOf(raw)
            case Blank => TrimSpace(raw) == ""
            case AddHead(path) => TrimSpace(raw) == "*** Add File: " + path
            case DeleteHead(path) => TrimSpace(raw) == "*** Delete File: " + path
            case UpdateHead(path) => TrimSpace(raw) == "*** Update File: " + path
            case NoHead => true
  {
  }

  lemma HeaderIsNotBlank(raw: string)
    requires IsHeaderLine(raw)
    ensures !IsBlank(raw)
  {
    HeaderRunes(TrimSpace(raw));
  }

  lemma TheseSuit()
    ensures Suits(LINE_READERS, TheseWays())
  {
    forall raw | IsHeaderLine(raw)
      ensures !IsBlank(raw)
    {
      HeaderIsNotBlank(raw);
    }
    forall raw
      ensures HeadOf(raw).Blank? ==> IsBlank(raw)
    {
      HeadIsWritten(raw);
    }
    forall raw, body, contents |
      HeadOf(raw).AddHead? && Feeds(IsHeaderLine, AddLine, body, "", contents) && contents != ""
      ensures Makes(TheseWays(), [raw] + body, Add(HeadOf(raw).path, contents))
    {
      HeadIsWritten(raw);
      AddFits(raw, HeadOf(raw).path, body, contents);
    }
    forall raw, gap | HeadOf(raw).DeleteHead? && EachBlank(TheseWays(), gap)
      ensures Makes(TheseWays(), [raw] + gap, Delete(HeadOf(raw).path))
    {
      HeadIsWritten(raw);
      DeleteFits(raw, HeadOf(raw).path, gap);
    }
    forall raw, body, d | HeadOf(raw).UpdateHead? && Reads(body, Draft("", []), d) && d != Draft("", [])
      ensures Makes(TheseWays(), [raw] + body, Update(HeadOf(raw).path, d.movePath, d.chunks))
    {
      HeadIsWritten(raw);
      BodyIsWritten(body, d);
      UpdateFits(raw, HeadOf(raw).path, body, d);
    }
  }

  lemma AddIsWritten(via: Readers, w: Ways, raw: string, body: seq<string>, contents: string, rest: seq<string>,
      hunks: seq<Hunk>)
    requires Suits(via, w) && via.head(raw).AddHead? && Feeds(via.stop, via.add, body, "", contents) && contents != ""
    requires PatchWritten(w, rest, hunks) && (rest == [] || via.stop(rest[0]))
    ensures PatchWritten(w, [raw] + (body + rest), [Add(via.head(raw).path, contents)] + hunks)
  {
    FileGrows(w, [raw] + body, Add(via.head(raw).path, contents), rest, hunks);
    assert [raw] + body + rest == [raw] + (body + rest);
  }

  lemma UpdateIsWritten(via: Readers, w: Ways, raw: string, body: seq<string>, d: Draft, rest: seq<string>,
      hunks: seq<Hunk>)
    requires Suits(via, w) && via.head(raw).UpdateHead?
    requires Feeds(via.stop, via.update, body, Draft("", []), d) && d != Draft("", [])
    requires PatchWritten(w, rest, hunks) && (rest == [] || via.stop(rest[0]))
    ensures PatchWritten(w, [raw] + (body + rest), [Update(via.head(raw).path, d.movePath, d.chunks)] + hunks)
  {
    FileGrows(w, [raw] + body, Update(via.head(raw).path, d.movePath, d.chunks), rest, hunks);
    assert [raw] + body + rest == [raw] + (body + rest);
  }

  lemma DeleteIsWritten(via: Readers, w: Ways, raw: string, lines: seq<string>, hunks: seq<Hunk>)
    requires Suits(via, w) && via.head(raw).DeleteHead? && PatchWritten(w, lines, hunks)
    ensures PatchWritten(w, [raw] + lines, [Delete(via.head(raw).path)] + hunks)
  {
    var gap, xs, edits :| Composed(w, lines, gap, xs, edits, hunks);
    var rest := Ungapped(w, lines, gap, xs, edits, hunks);
    DeleteGrows(w, raw, Delete(via.head(raw).path), gap, rest, xs, edits, hunks);
  }

  lemma {:induction false} TopIsWritten(via: Readers, w: Ways, lines: seq<string>, n: nat)
    requires Suits(via, w) && Top(via, lines, n).Ok?
    ensures PatchWritten(w, lines, Top(via, lines, n).value)
    decreases |lines|
  {
    if lines == [] {
      NoPatch(w);
    } else {
      var raw, more := lines[0], lines[1..];
      assert lines == [raw] + more;
      OtherSplits(via, raw, more, n);
      match via.head(raw) {
        case Blank =>
          TopIsWritten(via, w, more, n + 1);
          BlankGrows(w, raw, more, Top(via, more, n + 1).value);
        case AddHead(path) =>
          var body, contents, rest, m := AddSplits(via, raw, path, more, n);
          TopIsWritten(via, w, rest, m);
          AddIsWritten(via, w, raw, body, contents, rest, Top(via, rest, m).value);
        case DeleteHead(path) =>
          TopIsWritten(via, w, more, n + 1);
          DeleteIsWritten(via, w, raw, more, Top(via, more, n + 1).value);
        case UpdateHead(path) =>
          var body, d, rest, m := UpdateSplits(via, raw, path, more, n);
          TopIsWritten(via, w, rest, m);
          UpdateIsWritten(via, w, raw, body, d, rest, Top(via, rest, m).value);
        case NoHead =>
      }
    }
  }

  // ---- The whole text ---------------------------------------------------------------

  lemma MarkedLines(lines: seq<string>, inner: seq<string>)
    requires Marked(lines, inner)
    ensures lines != [] && ParseLines(LINE_READERS, lines) == Top(LINE_READERS, inner, 2)
  {
    assert lines[1 .. |lines| - 1] == inner;
  }

  lemma BeginIsNoHeredoc(h: string)
    requires h == "<<EOF" || h == "<<'EOF'" || h == "<<\"EOF\""
    ensures IsHeredocStart(h) && TrimSpace(h) != BEGIN_PATCH
  {
    assert h[0] == '<' && BEGIN_PATCH[0] == '*';
    TrimSpaceIsPrefix(h);
  }

  lemma EnvelopedLines(lines: seq<string>, inner: seq<string>)
    requires Enveloped(lines, inner)
    ensures lines != [] && ParseLines(LINE_READERS, Unwrap(lines)) == Top(LINE_READERS, inner, 2)
  {
    if Marked(lines, inner) {
      if IsHeredocStart(lines[0]) { BeginIsNoHeredoc(lines[0]); }
      MarkedLines(lines, inner);
    } else {
      var h, t, marked :| Heredoc(lines, h, t, marked) && Marked(marked, inner);
      assert |marked| >= 2 && lines[1 .. |lines| - 1] == marked;
      MarkedLines(marked, inner);
    }
  }

  lemma LinesAreMarked(lines: seq<string>) returns (inner: seq<string>)
    requires lines != [] && ParseLines(LINE_READERS, lines).Ok?
    ensures Marked(lines, inner) && ParseLines(LINE_READERS, lines) == Top(LINE_READERS, inner, 2)
  {
    BeginIsNotEnd();
    inner := lines[1 .. |lines| - 1];
    assert lines == [lines[0]] + inner + [lines[|lines| - 1]];
  }

  lemma UnwrapsHeredoc(lines: seq<string>)
    requires Unwrap(lines) != lines
    ensures Heredoc(lines, lines[0], lines[|lines| - 1], Unwrap(lines))
  {
    assert lines == [lines[0]] + lines[1 .. |lines| - 1] + [lines[|lines| - 1]];
  }

  lemma LinesAreEnveloped(lines: seq<string>) returns (inner: seq<string>)
    requires lines != [] && ParseLines(LINE_READERS, Unwrap(lines)).Ok?
    ensures Enveloped(lines, inner) && ParseLines(LINE_READERS, Unwrap(lines)) == Top(LINE_READERS, inner, 2)
  {
    inner := LinesAreMarked(Unwrap(lines));
    if Unwrap(lines) != lines { UnwrapsHeredoc(lines); }
  }

  /** Every way of writing edits is read as the hunks they mean. */
  lemma WrittenParses(text: string, edits: seq<Edit>)
    requires Written(text, edits)
    ensures Parse(text) == Ok(HunksOf(edits))
  {
    var inner, gap, xs :| Enveloped(SplitLines(TrimSpace(text)), inner) && SpellsPatch(inner, gap, xs, edits);
    EnvelopedLines(SplitLines(TrimSpace(text)), inner);
    PatchTop(inner, gap, xs, edits, 2);
  }

  lemma PatchIsSpelled(text: string, inner: seq<string>, hunks: seq<Hunk>) returns (edits: seq<Edit>)
    requires Enveloped(SplitLines(TrimSpace(text)), inner) && PatchWritten(TheseWays(), inner, hunks)
    ensures Written(text, edits) && HunksOf(edits) == hunks
  {
    var gap, xs, es :| Composed(TheseWays(), inner, gap, xs, es, hunks);
    BlankIsBlank(gap);
    assert SpellsPatch(inner, gap, xs, es);
    edits := es;
  }

  /** A text is read as these hunks exactly when it is a way of writing edits that mean them;
      every other text is an error. */
  lemma ParseExactly(text: string, hunks: seq<Hunk>)
    ensures Parse(text) == Ok(hunks) <==> exists edits :: Written(text, edits) && HunksOf(edits) == hunks
  {
    if Parse(text) == Ok(hunks) {
      var inner := LinesAreEnveloped(SplitLines(TrimSpace(text)));
      TheseSuit();
      TopIsWritten(LINE_READERS, TheseWays(), inner, 2);
      var edits := PatchIsSpelled(text, inner, hunks);
    }
    forall edits | Written(text, edits) && HunksOf(edits) == hunks
      ensures Parse(text) == Ok(hunks)
    {
      WrittenParses(text, edits);
    }
  }

  // ---- The rendered text is one of them ---------------------------------------------

  function RenderedSection(s: Section): SectionText {
    SectionText([ContextLine(s.context)], RenderOps(s.ops), if s.endOfFile then [END_OF_FILE] else [])
  }

  function RenderedSections(sections: seq<Section>): (xs: seq<SectionText>)
    ensures |xs| == |sections| && forall i :: 0 <= i < |xs| ==> xs[i] == RenderedSection(sections[i])
  {
    if sections == [] then [] else [RenderedSection(sections[0])] + RenderedSections(sections[1..])
  }

  function RenderedEdit(e: Edit): EditText {
    match e
    case AddFile(path, lines) => EditText(ADD_FILE + path, [], RenderAdded(lines), [], [])
    case DeleteFile(path) => EditText(DELETE_FILE + path, [], [], [], [])
    case UpdateFile(path, movePath, sections) =>
      EditText(UPDATE_FILE + path, if movePath == "" then [] else [MOVE_TO + movePath], [],
               RenderedSections(sections), [])
  }

  function RenderedEdits(edits: seq<Edit>): (xs: seq<EditText>)
    ensures |xs| == |edits| && forall i :: 0 <= i < |xs| ==> xs[i] == RenderedEdit(edits[i])
  {
    if edits == [] then [] else [RenderedEdit(edits[0])] + RenderedEdits(edits[1..])
  }

  lemma {:induction false} RenderedSectionLines(sections: seq<Section>)
    ensures AllSectionLines(RenderedSections(sections)) == RenderSections(sections)
  {
    if sections != [] { RenderedSectionLines(sections[1..]); }
  }

  lemma RenderedEditLines(e: Edit)
    ensures EditLines(RenderedEdit(e)) == Render(e)
  {
    if e.UpdateFile? { RenderedSectionLines(e.sections); }
  }

  lemma {:induction false} RenderedLines(edits: seq<Edit>)
    ensures AllEditLines(RenderedEdits(edits)) == RenderAll(edits)
  {
    if edits != [] {
      RenderedEditLines(edits[0]);
      RenderedLines(edits[1..]);
    }
  }

  lemma {:induction false} RenderedOps(ops: seq<Op>)
    requires forall i :: 0 <= i < |ops| ==> OpOk(ops[i])
    ensures WritesOps(RenderOps(ops), ops)
  {
    if ops != [] {
      var op := ops[0];
      assert forall i :: 0 <= i < |ops| - 1 ==> ops[1..][i] == ops[i + 1];
      RenderedOps(ops[1..]);
      RenderedOp(op, op);
      TrimRightKeeps(op.line, {'\r'});
    }
  }

  /** A rendered line is a way of writing the operation without its carriage returns. */
  lemma RenderedOp(op: Op, stripped: Op)
    requires op.Keep? ==> !IsHunkHeader(TrimSpace(op.line))
    requires stripped == Stripped(op) || (stripped == op && OpOk(op))
    ensures WritesOp(RenderOp(op), stripped)
  {
    OpIsNotHeader(op);
    if stripped == op && OpOk(op) { TrimRightKeeps(op.line, {'\r'}); }
    var raw, mark := RenderOp(op), Mark(op);
    assert raw == [mark] + op.line;
    MarkStays(mark, op.line);
    assert Content(raw) == [mark] + stripped.line;
  }

  lemma RenderedSectionFits(s: Section)
    requires SectionOk(s) && (s.endOfFile ==> s.ops != [])
    ensures SpellsSection(RenderedSection(s), s)
  {
    ContextLineOk(s.context);
    assert forall i :: 0 <= i < |s.ops| ==> s.ops[i] in s.ops;
    RenderedOps(s.ops);
    EndOfFileLineOk();
  }

  lemma RenderedSectionsFit(sections: seq<Section>)
    requires SectionsOk(sections)
    ensures SpellsSections(RenderedSections(sections), sections)
  {
    SectionsAreOk(sections);
    forall i | 0 <= i < |sections|
      ensures SpellsSection(RenderedSections(sections)[i], sections[i])
    {
      assert sections[i] in sections;
      RenderedSectionFits(sections[i]);
    }
  }

  lemma MoveLineOk(movePath: string)
    requires LocatorOk(movePath)
    ensures WritesMove(if movePath == "" then [] else [MOVE_TO + movePath], movePath)
  {
    if movePath != "" {
      var line := MOVE_TO + movePath;
      assert line[|line| - 1] !in {'\r', ' ', '\t'};
      assert MOVE_TO[4] == 'M';
      TrimRightKeeps(line, {'\r'});
      TrimRightKeeps(line, BLANKS);
      NotHeader(line);
    }
  }

  lemma RenderedEditFits(e: Edit)
    requires EditOk(e)
    ensures SpellsEdit(RenderedEdit(e), e)
  {
    match e
    case AddFile(path, _) => HeaderKeeps(ADD_FILE, path);
    case DeleteFile(path) => HeaderKeeps(DELETE_FILE, path);
    case UpdateFile(path, movePath, sections) =>
      HeaderKeeps(UPDATE_FILE, path);
      MoveLineOk(movePath);
      RenderedSectionsFit(sections);
  }

  lemma MarkersMark(inner: seq<string>)
    ensures Marked([BEGIN_PATCH] + inner + [END_PATCH], inner)
  {
    MarkersKeep();
  }

  lemma DocumentIsEnveloped(edits: seq<Edit>)
    requires AllOneLine(RenderAll(edits))
    ensures Enveloped(SplitLines(TrimSpace(Document(edits))), RenderAll(edits))
  {
    DocumentLines(edits);
    MarkersMark(RenderAll(edits));
  }

  lemma RenderedIsWritten(edits: seq<Edit>)
    requires PatchOk(edits)
    ensures Written(Document(edits), edits)
  {
    AllEditsOneLine(edits);
    DocumentIsEnveloped(edits);
    RenderedLines(edits);
    forall i | 0 <= i < |edits|
      ensures SpellsEdit(RenderedEdits(edits)[i], edits[i])
    {
      assert edits[i] in edits;
      RenderedEditFits(edits[i]);
    }
    assert [] + RenderAll(edits) == RenderAll(edits);
    assert SpellsPatch(RenderAll(edits), [], RenderedEdits(edits), edits);
  }

  /** Rendering a patch and parsing the text gives back exactly the hunks it means. */
  lemma ParseRendered(edits: seq<Edit>)
    requires PatchOk(edits)
    ensures Parse(Document(edits)) == Ok(HunksOf(edits))
  {
    RenderedIsWritten(edits);
    WrittenParses(Document(edits), edits);
  }

  // ---- What cannot be written -------------------------------------------------------

  /** The update of one line. */
  function OneLineUpdate(path: string, op: Op): Edit { UpdateFile(path, "", [Section("", [op], false)]) }

  lemma OneLineUpdateLines(path: string, op: Op)
    requires PathOk(path) && OneLine(op.line)
    ensures var lines := RenderAll([OneLineUpdate(path, op)]);
            lines == [UPDATE_FILE + path, EMPTY_CONTEXT, RenderOp(op)] && AllOneLine(lines)
  {
    assert RenderOps([op]) == [RenderOp(op)];
    assert RenderSections([Section("", [op], false)]) == [EMPTY_CONTEXT, RenderOp(op)];
    assert OneLine(UPDATE_FILE + path) && OneLine(RenderOp(op)) && OneLine(EMPTY_CONTEXT);
  }

  lemma HunkOfOneLine(path: string, op: Op)
    ensures HunksOf([OneLineUpdate(path, op)]) == [Update(path, "", [Collect(NEW_CHUNK, op)])]
  {
    FirstChunk(op);
    assert ChunksOf([Section("", [op], false)]) == [ChunkOf(Section("", [op], false))];
  }

  /** How the update of one line is written. */
  function OneLineText(path: string, body: seq<string>): EditText {
    EditText(UPDATE_FILE + path, [], [], [SectionText([EMPTY_CONTEXT], body, [])], [])
  }

  lemma OneLineTextFits(path: string, body: seq<string>, ops: seq<Op>)
    requires PathOk(path) && WritesOps(body, ops)
    ensures SpellsEdit(OneLineText(path, body), UpdateFile(path, "", [Section("", ops, false)]))
    ensures EditLines(OneLineText(path, body)) == [UPDATE_FILE + path, EMPTY_CONTEXT] + body
  {
    HeaderKeeps(UPDATE_FILE, path);
    ContextLineOk("");
    var x := SectionText([EMPTY_CONTEXT], body, []);
    assert SectionLines(x) == [EMPTY_CONTEXT] + body;
    assert AllSectionLines([x]) == SectionLines(x);
    UpdateLinesAre(OneLineText(path, body));
  }

  lemma OneLineUpdateParses(path: string, op: Op)
    requires PathOk(path) && OneLine(op.line)
    ensures Parse(Document([OneLineUpdate(path, op)]))
            == Top(LINE_READERS, [UPDATE_FILE + path, EMPTY_CONTEXT, RenderOp(op)], 2)
  {
    OneLineUpdateLines(path, op);
    DocumentIsEnveloped([OneLineUpdate(path, op)]);
    EnvelopedLines(SplitLines(TrimSpace(Document([OneLineUpdate(path, op)]))),
        RenderAll([OneLineUpdate(path, op)]));
  }

  lemma PrependFirst(h: Hunk, r: Result<seq<Hunk>>, g: Hunk)
    requires h != g
    ensures Prepend(h, r) != Ok([g])
  {
    if r.Ok? { assert ([h] + r.value)[0] != [g][0]; }
  }

  lemma EmptyContextReads()
    ensures Reads([EMPTY_CONTEXT], Draft("", []), Draft("", [NEW_CHUNK]))
  {
    ContextLineOk("");
    ContextSteps(Draft("", []), EMPTY_CONTEXT, "");
    assert [] + [NEW_CHUNK] == [NEW_CHUNK];
    FeedsOne(IsHeaderLine, UpdateLine, EMPTY_CONTEXT, Draft("", []), Draft("", [NEW_CHUNK]));
  }

  /** An update without a change, in front of a header. */
  lemma EmptyUpdateTop(via: Readers, header: string, path: string, line: string, n: nat)
    requires via.head(header) == UpdateHead(path) && via.stop(line)
    requires Feeds(via.stop, via.update, [EMPTY_CONTEXT], Draft("", []), Draft("", [NEW_CHUNK]))
    ensures Top(via, [header, EMPTY_CONTEXT, line], n)
            == Prepend(Update(path, "", [NEW_CHUNK]), Top(via, [line], n + 2))
  {
    UpdateStep(via, header, path, [EMPTY_CONTEXT], [line], n, Draft("", [NEW_CHUNK]));
    assert [header, EMPTY_CONTEXT, line] == [header] + [EMPTY_CONTEXT] + [line];
  }

  /** The file's part ends in front of such a line. */
  lemma HeaderLikeLineIsLost(path: string, op: Op)
    requires PathOk(path) && op.Keep? && IsHunkHeader(TrimSpace(op.line))
    ensures Top(LINE_READERS, [UPDATE_FILE + path, EMPTY_CONTEXT, RenderOp(op)], 2)
            != Ok(HunksOf([OneLineUpdate(path, op)]))
  {
    HeaderKeeps(UPDATE_FILE, path);
    HeaderIsSeen(UPDATE_FILE + path, path);
    EmptyContextReads();
    TrimLeftSkips(op.line);
    assert RenderOp(op) == [' '] + op.line;
    EmptyUpdateTop(LINE_READERS, UPDATE_FILE + path, path, RenderOp(op), 2);
    HunkOfOneLine(path, op);
    PrependFirst(Update(path, "", [NEW_CHUNK]), Top(LINE_READERS, [RenderOp(op)], 4),
        Update(path, "", [Collect(NEW_CHUNK, op)]));
  }

  lemma LineIsStripped(path: string, op: Op)
    requires PathOk(path) && (op.Keep? ==> !IsHunkHeader(TrimSpace(op.line)))
    ensures Top(LINE_READERS, [UPDATE_FILE + path, EMPTY_CONTEXT, RenderOp(op)], 2)
            == Ok(HunksOf([OneLineUpdate(path, Stripped(op))]))
  {
    var x, e := OneLineText(path, [RenderOp(op)]), OneLineUpdate(path, Stripped(op));
    RenderedOp(op, Stripped(op));
    OneLineTextFits(path, [RenderOp(op)], [Stripped(op)]);
    var lines := [UPDATE_FILE + path, EMPTY_CONTEXT, RenderOp(op)];
    assert [UPDATE_FILE + path, EMPTY_CONTEXT] + [RenderOp(op)] == lines;
    assert lines == [] + AllEditLines([x]);
    assert SpellsPatch(lines, [], [x], [e]);
    PatchTop(lines, [], [x], [e], 2);
  }

  /** A line survives the round trip exactly when it is well formed: a kept line that
      looks like a file header ends the file's part of the patch, and carriage returns
      at the end of any line are dropped. */
  lemma LineRoundTrips(path: string, op: Op)
    requires PathOk(path) && OneLine(op.line)
    ensures Parse(Document([OneLineUpdate(path, op)])) == Ok(HunksOf([OneLineUpdate(path, op)])) <==> OpOk(op)
  {
    OneLineUpdateParses(path, op);
    if op.Keep? && IsHunkHeader(TrimSpace(op.line)) {
      HeaderLikeLineIsLost(path, op);
    } else {
      LineIsStripped(path, op);
      HunkOfOneLine(path, op);
      HunkOfOneLine(path, Stripped(op));
      StrippedIsSame(op);
    }
  }

  lemma StrippedIsSame(op: Op)
    ensures Collect(NEW_CHUNK, Stripped(op)) == Collect(NEW_CHUNK, op) <==>
              op.line == "" || op.line[|op.line| - 1] != '\r'
  {
    var a, b := Collect(NEW_CHUNK, Stripped(op)), Collect(NEW_CHUNK, op);
    if op.Remove? { assert a.oldLines[0] == Stripped(op).line && b.oldLines[0] == op.line; }
    else { assert a.newLines[0] == Stripped(op).line && b.newLines[0] == op.line; }
  }
}
