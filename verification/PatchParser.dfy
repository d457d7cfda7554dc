/** The patch format of `applypatch/parser.go`: a parser that walks the lines of an
    envelope, against a renderer that writes what a patch means. */
module PatchParser {
  import opened Strings

  const BEGIN_PATCH := "*** Begin Patch"
  const END_PATCH := "*** End Patch"
  const ADD_FILE := "*** Add File: "
  const DELETE_FILE := "*** Delete File: "
  const UPDATE_FILE := "*** Update File: "
  const MOVE_TO := "*** Move to: "
  const END_OF_FILE := "*** End of File"
  const CHANGE_CONTEXT := "@@ "
  const EMPTY_CONTEXT := "@@"

  datatype Chunk = Chunk(
    context: string, oldLines: seq<string>, newLines: seq<string>,
    contextIndices: seq<(nat, nat)>, endOfFile: bool)

  datatype Hunk =
    | Add(path: string, contents: string)
    | Delete(path: string)
    | Update(path: string, movePath: string, chunks: seq<Chunk>)

  /** The diagnostics, without their texts. */
  datatype Problem =
    | FirstLine | LastLine | BadHeader | EmptyUpdate | EmptyAdd
    | ContextExpected | UnexpectedLine | NoLines

  datatype Result<+T> = Ok(value: T) | Err(line: nat, problem: Problem)

  /** An update hunk while its body is being read. */
  datatype Draft = Draft(movePath: string, chunks: seq<Chunk>)

  const NEW_CHUNK := Chunk("", [], [], [], false)

  predicate IsHunkHeader(trimmed: string) {
    ADD_FILE <= trimmed || DELETE_FILE <= trimmed || UPDATE_FILE <= trimmed
  }

  predicate IsEmptyChunk(c: Chunk) { c.oldLines == [] && c.newLines == [] }

  // ---- What the parser does with one line of an update ------------------------------

  function PushContext(c: Chunk, line: string): Chunk {
    c.(contextIndices := c.contextIndices + [(|c.oldLines|, |c.newLines|)],
       oldLines := c.oldLines + [line], newLines := c.newLines + [line])
  }

  /** A change line goes to the last chunk, which the first one opens. */
  function Push(c: Chunk, content: string): Result<Chunk> {
    if content == "" then Ok(PushContext(c, ""))
    else if content[0] == ' ' then Ok(PushContext(c, content[1..]))
    else if content[0] == '+' then Ok(c.(newLines := c.newLines + [content[1..]]))
    else if content[0] == '-' then Ok(c.(oldLines := c.oldLines + [content[1..]]))
    else Err(0, if IsEmptyChunk(c) then UnexpectedLine else ContextExpected)
  }

  function Last(chunks: seq<Chunk>): Chunk { if chunks == [] then NEW_CHUNK else chunks[|chunks| - 1] }

  function SetLast(chunks: seq<Chunk>, c: Chunk): seq<Chunk> {
    if chunks == [] then [c] else chunks[..|chunks| - 1] + [c]
  }

  predicate IsLocator(trimmedEnd: string) { trimmedEnd == EMPTY_CONTEXT || CHANGE_CONTEXT <= trimmedEnd }

  function LocatorOf(trimmedEnd: string): string
    requires IsLocator(trimmedEnd)
  {
    if trimmedEnd == EMPTY_CONTEXT then "" else trimmedEnd[|CHANGE_CONTEXT|..]
  }

  /** A body line that is no header, by the tests of `parseUpdateBody` in their order:
      `content` is the line without carriage returns, `trimmedEnd` also without blanks at
      its end. The line number of an error is the caller's. */
  function UpdateContent(d: Draft, content: string, trimmedEnd: string): Result<Draft> {
    var last := Last(d.chunks);
    if last.endOfFile && trimmedEnd == "" then Ok(d)
    else if last.endOfFile && !IsLocator(trimmedEnd) then Err(0, ContextExpected)
    else if d.chunks == [] && d.movePath == "" && MOVE_TO <= trimmedEnd then
      Ok(d.(movePath := trimmedEnd[|MOVE_TO|..]))
    else if IsLocator(trimmedEnd) then
      if d.chunks != [] && IsEmptyChunk(last) then Err(0, UnexpectedLine)
      else Ok(d.(chunks := d.chunks + [NEW_CHUNK.(context := LocatorOf(trimmedEnd))]))
    else if trimmedEnd == END_OF_FILE then
      if IsEmptyChunk(last) then Err(0, NoLines)
      else Ok(d.(chunks := SetLast(d.chunks, last.(endOfFile := true))))
    else
      match Push(last, content)
      case Ok(c) => Ok(d.(chunks := SetLast(d.chunks, c)))
      case Err(_, what) => Err(0, what)
  }

  function UpdateLine(d: Draft, raw: string): Result<Draft> {
    var content := TrimRight(raw, {'\r'});
    UpdateContent(d, content, TrimRight(content, BLANKS))
  }

  function AddLine(contents: string, raw: string): Result<string> {
    if "+" <= raw then Ok(contents + raw[1..] + "\n") else Err(0, BadHeader)
  }

  // ---- The loops --------------------------------------------------------------------

  predicate IsHeaderLine(raw: string) { IsHunkHeader(TrimSpace(raw)) }

  /** What a body loop leaves: its result and the lines it has not taken; `number` is the
      number of the first of them. */
  datatype Body<T> = Body(value: T, rest: seq<string>, number: nat)

  /** A body loop: it reads lines until the end or a line at which it must stop. */
  function Consume<T>(stop: string -> bool, read: (T, string) -> Result<T>, rest: seq<string>, n: nat,
      t: T): (r: Result<Body<T>>)
    ensures r.Ok? ==> |r.value.rest| <= |rest| && r.value.number + |r.value.rest| == n + |rest|
    decreases |rest|
  {
    if rest == [] || stop(rest[0]) then Ok(Body(t, rest, n))
    else
      match read(t, rest[0])
      case Err(_, what) => Err(n, what)
      case Ok(t') => Consume(stop, read, rest[1..], n + 1, t')
  }

  /** What the top loop sees in a line. */
  datatype Head = Blank | AddHead(path: string) | DeleteHead(path: string) | UpdateHead(path: string) | NoHead

  function HeadOf(raw: string): Head {
    var trimmed := TrimSpace(raw);
    if trimmed == "" then Blank
    else if ADD_FILE <= trimmed then AddHead(trimmed[|ADD_FILE|..])
    else if DELETE_FILE <= trimmed then DeleteHead(trimmed[|DELETE_FILE|..])
    else if UPDATE_FILE <= trimmed then UpdateHead(trimmed[|UPDATE_FILE|..])
    else NoHead
  }

  /** How single lines are read. The loops are written over these four functions, so that
      what holds of the loops is not proved through the details of a line. */
  datatype Readers = Readers(
    head: string -> Head, stop: string -> bool,
    add: (string, string) -> Result<string>, update: (Draft, string) -> Result<Draft>)

  const LINE_READERS := Readers(HeadOf, IsHeaderLine, AddLine, UpdateLine)

  /** `parseAddBody`, on the lines that are left; `n` is the number of the first one. */
  function AddBody(via: Readers, rest: seq<string>, n: nat): (r: Result<Body<string>>)
    ensures r.Ok? ==> |r.value.rest| <= |rest|
  {
    match Consume(via.stop, via.add, rest, n, "")
    case Err(line, what) => Err(line, what)
    case Ok(b) => if b.value == "" then Err(b.number, EmptyAdd) else Ok(b)
  }

  /** `parseUpdateBody` and the check that follows it. */
  function UpdateBody(via: Readers, rest: seq<string>, n: nat): (r: Result<Body<Draft>>)
    ensures r.Ok? ==> |r.value.rest| <= |rest|
  {
    match Consume(via.stop, via.update, rest, n, Draft("", []))
    case Err(line, what) => Err(line, what)
    case Ok(b) => if b.value == Draft("", []) && b.number > 0 then Err(b.number - 1, EmptyUpdate) else Ok(b)
  }

  function Prepend(h: Hunk, r: Result<seq<Hunk>>): Result<seq<Hunk>> {
    match r
    case Ok(hunks) => Ok([h] + hunks)
    case Err(line, what) => Err(line, what)
  }

  /** `parse`. */
  function Top(via: Readers, rest: seq<string>, n: nat): Result<seq<Hunk>>
    decreases |rest|
  {
    if rest == [] then Ok([])
    else
      match via.head(rest[0])
      case Blank => Top(via, rest[1..], n + 1)
      case AddHead(path) =>
        (match AddBody(via, rest[1..], n + 1)
         case Err(line, what) => Err(line, what)
         case Ok(b) => Prepend(Add(path, b.value), Top(via, b.rest, b.number)))
      case DeleteHead(path) => Prepend(Delete(path), Top(via, rest[1..], n + 1))
      case UpdateHead(path) =>
        (match UpdateBody(via, rest[1..], n + 1)
         case Err(line, what) => Err(line, what)
         case Ok(b) => Prepend(Update(path, b.value.movePath, b.value.chunks), Top(via, b.rest, b.number)))
      case NoHead => Err(n, BadHeader)
  }

  predicate IsHeredocStart(line: string) { line == "<<EOF" || line == "<<'EOF'" || line == "<<\"EOF\"" }

  predicate HasSuffix(s: string, suffix: string) { |suffix| <= |s| && s[|s| - |suffix|..] == suffix }

  /** `unwrapHeredoc`. */
  function Unwrap(lines: seq<string>): (r: seq<string>)
    ensures lines != [] ==> r != []
  {
    if |lines| >= 4 && IsHeredocStart(lines[0]) && HasSuffix(lines[|lines| - 1], "EOF") then lines[1 .. |lines| - 1]
    else lines
  }

  lemma BeginIsNotEnd()
    ensures BEGIN_PATCH != END_PATCH
  {
    assert BEGIN_PATCH[4] == 'B' && END_PATCH[4] == 'E';
  }

  /** `Parse`, after the text has been cut into lines. An envelope of one line would have
      to be its own first and last line, which no line is. */
  function ParseLines(via: Readers, lines: seq<string>): Result<seq<Hunk>>
    requires lines != []
  {
    var first, last := TrimSpace(lines[0]), TrimSpace(lines[|lines| - 1]);
    if first != BEGIN_PATCH then Err(0, FirstLine)
    else if last != END_PATCH then Err(0, LastLine)
    else
      BeginIsNotEnd();
      Top(via, lines[1 .. |lines| - 1], 2)
  }

  function Parse(text: string): Result<seq<Hunk>> { ParseLines(LINE_READERS, Unwrap(SplitLines(TrimSpace(text)))) }

  // ---- What a patch means -----------------------------------------------------------

  /** One line of a change section: kept, inserted or removed. */
  datatype Op = Keep(line: string) | Insert(line: string) | Remove(line: string)

  /** A change section: where it starts, what it does, whether it ends the file. */
  datatype Section = Section(context: string, ops: seq<Op>, endOfFile: bool)

  datatype Edit =
    | AddFile(path: string, lines: seq<string>)
    | DeleteFile(path: string)
    | UpdateFile(path: string, movePath: string, sections: seq<Section>)

  /** The lines a section expects to find: those it keeps and those it removes. */
  function OldOf(ops: seq<Op>): seq<string> {
    if ops == [] then [] else (if ops[0].Insert? then [] else [ops[0].line]) + OldOf(ops[1..])
  }

  /** The lines it leaves: those it keeps and those it inserts. */
  function NewOf(ops: seq<Op>): seq<string> {
    if ops == [] then [] else (if ops[0].Remove? then [] else [ops[0].line]) + NewOf(ops[1..])
  }

  /** The places of the kept lines, after `o` old and `n` new lines. */
  function KeptAt(ops: seq<Op>, o: nat, n: nat): seq<(nat, nat)>
    decreases |ops|
  {
    if ops == [] then []
    else if ops[0].Keep? then [(o, n)] + KeptAt(ops[1..], o + 1, n + 1)
    else if ops[0].Insert? then KeptAt(ops[1..], o, n + 1)
    else KeptAt(ops[1..], o + 1, n)
  }

  /** A place is that of one line on both sides. */
  lemma {:induction false} KeptAreOnBothSides(ops: seq<Op>, o: nat, n: nat)
    ensures forall p :: p in KeptAt(ops, o, n) ==>
              && o <= p.0 < o + |OldOf(ops)| && n <= p.1 < n + |NewOf(ops)|
              && OldOf(ops)[p.0 - o] == NewOf(ops)[p.1 - n]
    decreases |ops|
  {
    if ops != [] {
      var op := ops[0];
      KeptAreOnBothSides(ops[1..], if op.Insert? then o else o + 1, if op.Remove? then n else n + 1);
    }
  }

  /** And every kept line has its place, behind the lines in front of it. */
  lemma {:induction false} EachKeptHasPlace(ops: seq<Op>, o: nat, n: nat, i: nat)
    requires i < |ops| && ops[i].Keep?
    ensures (o + |OldOf(ops[..i])|, n + |NewOf(ops[..i])|) in KeptAt(ops, o, n)
    decreases |ops|
  {
    if i > 0 {
      var op, front := ops[0], ops[..i];
      assert front[0] == op && front[1..] == ops[1..][..i - 1];
      EachKeptHasPlace(ops[1..], if op.Insert? then o else o + 1, if op.Remove? then n else n + 1, i - 1);
    }
  }

  function ChunkOf(s: Section): Chunk {
    Chunk(s.context, OldOf(s.ops), NewOf(s.ops), KeptAt(s.ops, 0, 0), s.endOfFile)
  }

  function ChunksOf(sections: seq<Section>): (r: seq<Chunk>)
    ensures |r| == |sections|
  {
    if sections == [] then [] else [ChunkOf(sections[0])] + ChunksOf(sections[1..])
  }

  function ContentsOf(lines: seq<string>): string {
    if lines == [] then [] else lines[0] + "\n" + ContentsOf(lines[1..])
  }

  function HunkOf(e: Edit): Hunk {
    match e
    case AddFile(path, lines) => Add(path, ContentsOf(lines))
    case DeleteFile(path) => Delete(path)
    case UpdateFile(path, movePath, sections) => Update(path, movePath, ChunksOf(sections))
  }

  function HunksOf(edits: seq<Edit>): seq<Hunk> {
    if edits == [] then [] else [HunkOf(edits[0])] + HunksOf(edits[1..])
  }

  // ---- How a patch is written -------------------------------------------------------

  function RenderOp(op: Op): string {
    match op
    case Keep(line) => " " + line
    case Insert(line) => "+" + line
    case Remove(line) => "-" + line
  }

  function RenderOps(ops: seq<Op>): seq<string> {
    if ops == [] then [] else [RenderOp(ops[0])] + RenderOps(ops[1..])
  }

  function RenderSection(s: Section): seq<string> {
    [if s.context == "" then EMPTY_CONTEXT else CHANGE_CONTEXT + s.context]
    + RenderOps(s.ops)
    + (if s.endOfFile then [END_OF_FILE] else [])
  }

  function RenderSections(sections: seq<Section>): seq<string> {
    if sections == [] then [] else RenderSection(sections[0]) + RenderSections(sections[1..])
  }

  function RenderAdded(lines: seq<string>): seq<string> {
    if lines == [] then [] else ["+" + lines[0]] + RenderAdded(lines[1..])
  }

  function Render(e: Edit): seq<string> {
    match e
    case AddFile(path, lines) => [ADD_FILE + path] + RenderAdded(lines)
    case DeleteFile(path) => [DELETE_FILE + path]
    case UpdateFile(path, movePath, sections) =>
      [UPDATE_FILE + path]
      + (if movePath == "" then [] else [MOVE_TO + movePath])
      + RenderSections(sections)
  }

  function RenderAll(edits: seq<Edit>): seq<string> {
    if edits == [] then [] else Render(edits[0]) + RenderAll(edits[1..])
  }

  function Document(edits: seq<Edit>): string {
    JoinLines([BEGIN_PATCH] + RenderAll(edits) + [END_PATCH])
  }

  // ---- Which patches can be written -------------------------------------------------

  /** A header names its path up to the last rune that is no white space. */
  predicate PathOk(path: string) { path != "" && OneLine(path) && path[|path| - 1] !in SPACES }

  /** A move target or context ends before blanks and carriage returns. */
  predicate LocatorOk(s: string) { s == "" || (OneLine(s) && s[|s| - 1] !in {'\r', ' ', '\t'}) }

  /** A carriage return at the end of a line is not seen, and a kept line must not look
      like a file header once it is trimmed. */
  predicate OpOk(op: Op) {
    && OneLine(op.line)
    && (op.line == "" || op.line[|op.line| - 1] != '\r')
    && (op.Keep? ==> !IsHunkHeader(TrimSpace(op.line)))
  }

  predicate OpsOk(ops: seq<Op>) { forall op :: op in ops ==> OpOk(op) }

  /** Every section but the last one must have a line, and one that ends the file too. */
  predicate SectionsOk(sections: seq<Section>) {
    sections == [] ||
    (&& LocatorOk(sections[0].context)
     && OpsOk(sections[0].ops)
     && (sections[0].ops == [] ==> |sections| == 1 && !sections[0].endOfFile)
     && SectionsOk(sections[1..]))
  }

  predicate EditOk(e: Edit) {
    match e
    case AddFile(path, lines) => PathOk(path) && lines != [] && forall l :: l in lines ==> OneLine(l)
    case DeleteFile(path) => PathOk(path)
    case UpdateFile(path, movePath, sections) =>
      PathOk(path) && LocatorOk(movePath) && SectionsOk(sections) && (movePath != "" || sections != [])
  }

  predicate PatchOk(edits: seq<Edit>) { forall e :: e in edits ==> EditOk(e) }

  // ---- One line of a section --------------------------------------------------------

  /** What the section has collected so far. */
  function Collect(c: Chunk, op: Op): Chunk {
    match op
    case Keep(line) => PushContext(c, line)
    case Insert(line) => c.(newLines := c.newLines + [line])
    case Remove(line) => c.(oldLines := c.oldLines + [line])
  }

  /** The line as it is read: carriage returns at its end are not part of it. */
  function Stripped(op: Op): Op { op.(line := TrimRight(op.line, {'\r'})) }

  lemma {:induction false} MarkStays(mark: char, line: string)
    requires mark in {' ', '+', '-'}
    ensures TrimRight([mark] + line, {'\r'}) == [mark] + TrimRight(line, {'\r'})
    decreases |line|
  {
    var s := [mark] + line;
    if line != [] && line[|line| - 1] == '\r' {
      var shorter := line[..|line| - 1];
      MarkStays(mark, shorter);
      assert s[..|s| - 1] == [mark] + shorter;
    }
  }

  lemma BlanksStay(mark: char, line: string)
    requires mark in {' ', '+', '-'}
    ensures var t := TrimRight([mark] + line, BLANKS); t == [] || t[0] == mark
  {
  }

  /** The first rune tells the special lines of a body from the others. */
  lemma FirstRunes(t: string)
    ensures IsLocator(t) ==> t != [] && t[0] == '@'
    ensures MOVE_TO <= t || t == END_OF_FILE ==> t != [] && t[0] == '*'
  {
  }

  lemma OpContent(d: Draft, content: string, trimmedEnd: string, c: Chunk)
    requires !Last(d.chunks).endOfFile && Push(Last(d.chunks), content) == Ok(c)
    requires trimmedEnd == [] || trimmedEnd[0] !in {'@', '*'}
    ensures UpdateContent(d, content, trimmedEnd) == Ok(d.(chunks := SetLast(d.chunks, c)))
  {
    FirstRunes(trimmedEnd);
  }

  lemma PushOp(c: Chunk, op: Op)
    ensures Push(c, RenderOp(op)) == Ok(Collect(c, op))
  {
    var raw := RenderOp(op);
    assert raw[1..] == op.line;
  }

  // ---- One section, and all of them -------------------------------------------------

  lemma HeaderRunes(t: string)
    requires IsHunkHeader(t)
    ensures |t| > 4 && t[0] == '*' && t[4] in {'A', 'D', 'U'}
  {
  }

  /** A line whose beginning no header shares. */
  lemma NotHeader(raw: string)
    requires raw != [] && raw[0] !in SPACES
    requires raw[0] != '*' || (|raw| > 4 && raw[4] !in {'A', 'D', 'U'})
    ensures !IsHunkHeader(TrimSpace(raw))
  {
    TrimSpaceIsPrefix(raw);
    if IsHunkHeader(TrimSpace(raw)) { HeaderRunes(TrimSpace(raw)); }
  }

  lemma OpIsNotHeader(op: Op)
    requires op.Keep? ==> !IsHunkHeader(TrimSpace(op.line))
    ensures !IsHunkHeader(TrimSpace(RenderOp(op)))
  {
    if op.Keep? {
      TrimLeftSkips(op.line);
      assert RenderOp(op) == [' '] + op.line;
    } else {
      NotHeader(RenderOp(op));
    }
  }

  function CollectAll(c: Chunk, ops: seq<Op>): Chunk
    decreases |ops|
  {
    if ops == [] then c else CollectAll(Collect(c, ops[0]), ops[1..])
  }

  /** Collecting line by line gives the old lines, the new lines and the kept places. */
  lemma {:induction false} CollectAllMeans(c: Chunk, ops: seq<Op>)
    ensures CollectAll(c, ops) == c.(
              oldLines := c.oldLines + OldOf(ops), newLines := c.newLines + NewOf(ops),
              contextIndices := c.contextIndices + KeptAt(ops, |c.oldLines|, |c.newLines|))
    decreases |ops|
  {
    if ops != [] {
      var d := Collect(c, ops[0]);
      CollectAllMeans(d, ops[1..]);
      assert d.oldLines + OldOf(ops[1..]) == c.oldLines + OldOf(ops);
      assert d.newLines + NewOf(ops[1..]) == c.newLines + NewOf(ops);
      assert d.contextIndices + KeptAt(ops[1..], |d.oldLines|, |d.newLines|)
          == c.contextIndices + KeptAt(ops, |c.oldLines|, |c.newLines|);
    }
  }

  lemma {:induction false} OpsMakeChunks(ops: seq<Op>)
    ensures OldOf(ops) == [] && NewOf(ops) == [] <==> ops == []
  {
  }

  /** A reader takes these lines one after the other, without stopping, from `t` to `u`. */
  ghost predicate Feeds<T(!new)>(stop: string -> bool, read: (T, string) -> Result<T>, lines: seq<string>, t: T, u: T)
    decreases |lines|
  {
    if lines == [] then t == u
    else !stop(lines[0]) && read(t, lines[0]).Ok? && Feeds(stop, read, lines[1..], read(t, lines[0]).value, u)
  }

  lemma {:induction false} FeedsConsume<T(!new)>(
    stop: string -> bool, read: (T, string) -> Result<T>, lines: seq<string>, rest: seq<string>, n: nat, t: T, u: T)
    requires Feeds(stop, read, lines, t, u)
    ensures Consume(stop, read, lines + rest, n, t) == Consume(stop, read, rest, n + |lines|, u)
    decreases |lines|
  {
    if lines == [] {
      assert lines + rest == rest;
    } else {
      assert (lines + rest)[1..] == lines[1..] + rest;
      FeedsConsume(stop, read, lines[1..], rest, n + 1, read(t, lines[0]).value, u);
    }
  }

  lemma {:induction false} FeedsConcat<T(!new)>(
    stop: string -> bool, read: (T, string) -> Result<T>, a: seq<string>, b: seq<string>, t: T, u: T, v: T)
    requires Feeds(stop, read, a, t, u) && Feeds(stop, read, b, u, v)
    ensures Feeds(stop, read, a + b, t, v)
    decreases |a|
  {
    if a == [] {
      assert a + b == b;
    } else {
      assert (a + b)[1..] == a[1..] + b;
      FeedsConcat(stop, read, a[1..], b, read(t, a[0]).value, u, v);
    }
  }

  lemma FeedsOne<T(!new)>(stop: string -> bool, read: (T, string) -> Result<T>, line: string, t: T, u: T)
    requires !stop(line) && read(t, line) == Ok(u)
    ensures Feeds(stop, read, [line], t, u)
  {
    assert [line][1..] == [];
  }

  /** One draft leads to another by the lines of an update body. */
  ghost predicate Reads(lines: seq<string>, d: Draft, e: Draft) { Feeds(IsHeaderLine, UpdateLine, lines, d, e) }

  lemma ReadsConcat(a: seq<string>, b: seq<string>, d: Draft, e: Draft, f: Draft)
    requires Reads(a, d, e) && Reads(b, e, f)
    ensures Reads(a + b, d, f)
  {
    FeedsConcat(IsHeaderLine, UpdateLine, a, b, d, e, f);
  }

  lemma SetLastTwice(cs: seq<Chunk>, c: Chunk, d: Chunk)
    ensures Last(SetLast(cs, c)) == c && SetLast(cs, c) != []
    ensures SetLast(SetLast(cs, c), d) == SetLast(cs, d)
    ensures cs != [] ==> SetLast(cs, Last(cs)) == cs
  {
  }

  /** The draft after the change lines of a section. */
  function AfterOps(d: Draft, ops: seq<Op>): Draft {
    d.(chunks := SetLast(d.chunks, CollectAll(Last(d.chunks), ops)))
  }

  function ContextLine(context: string): string {
    if context == "" then EMPTY_CONTEXT else CHANGE_CONTEXT + context
  }

  lemma ContextLineOk(context: string)
    requires LocatorOk(context)
    ensures var line := ContextLine(context);
            && IsLocator(line) && LocatorOf(line) == context && !IsHunkHeader(TrimSpace(line))
            && TrimRight(line, {'\r'}) == line && TrimRight(line, BLANKS) == line
  {
    var line := ContextLine(context);
    FirstRunes(line);
    NotHeader(line);
    assert line[|line| - 1] !in {'\r', ' ', '\t'};
    TrimRightKeeps(line, {'\r'});
    TrimRightKeeps(line, BLANKS);
    if context != "" {
      assert |line| > 2;
      assert line[|CHANGE_CONTEXT|..] == context;
    }
  }

  lemma EndOfFileLineOk()
    ensures !IsHunkHeader(TrimSpace(END_OF_FILE)) && !IsLocator(END_OF_FILE) && !(MOVE_TO <= END_OF_FILE)
    ensures TrimRight(END_OF_FILE, {'\r'}) == END_OF_FILE && TrimRight(END_OF_FILE, BLANKS) == END_OF_FILE
  {
    assert END_OF_FILE[4] == 'E' && MOVE_TO[4] == 'M';
    NotHeader(END_OF_FILE);
    FirstRunes(END_OF_FILE);
    TrimRightKeeps(END_OF_FILE, {'\r'});
    TrimRightKeeps(END_OF_FILE, BLANKS);
  }

  lemma SectionChunk(d: Draft, s: Section)
    ensures var begun := d.(chunks := d.chunks + [NEW_CHUNK.(context := s.context)]);
            AfterOps(begun, s.ops) == d.(chunks := d.chunks + [ChunkOf(s).(endOfFile := false)])
  {
    var blank := NEW_CHUNK.(context := s.context);
    CollectAllMeans(blank, s.ops);
    assert [] + OldOf(s.ops) == OldOf(s.ops) && [] + NewOf(s.ops) == NewOf(s.ops);
    assert [] + KeptAt(s.ops, 0, 0) == KeptAt(s.ops, 0, 0);
    assert CollectAll(blank, s.ops) == ChunkOf(s).(endOfFile := false);
    assert (d.chunks + [blank])[..|d.chunks|] == d.chunks;
  }

  function AddChunk(d: Draft, s: Section): Draft { d.(chunks := d.chunks + [ChunkOf(s)]) }

  predicate CanBegin(d: Draft) { d.chunks == [] || !IsEmptyChunk(Last(d.chunks)) }

  predicate SectionOk(s: Section) { LocatorOk(s.context) && OpsOk(s.ops) && (s.endOfFile ==> s.ops != []) }

  function AddChunks(d: Draft, sections: seq<Section>): Draft { d.(chunks := d.chunks + ChunksOf(sections)) }

  lemma AddChunksCons(d: Draft, sections: seq<Section>)
    requires sections != []
    ensures AddChunks(AddChunk(d, sections[0]), sections[1..]) == AddChunks(d, sections)
  {
    assert d.chunks + [ChunkOf(sections[0])] + ChunksOf(sections[1..]) == d.chunks + ChunksOf(sections);
  }

  lemma {:induction false} SectionsAreOk(sections: seq<Section>)
    requires SectionsOk(sections)
    ensures forall s :: s in sections ==> SectionOk(s)
    ensures forall i :: 0 <= i < |sections| - 1 ==> sections[i].ops != []
  {
    if sections != [] { SectionsAreOk(sections[1..]); }
  }

  /** What follows a body: nothing, or the header of the next file. */
  ghost predicate Follows(via: Readers, tail: seq<string>) { tail == [] || via.stop(tail[0]) }

  lemma {:induction false} AddedReads(lines: seq<string>, contents: string)
    ensures Feeds(IsHeaderLine, AddLine, RenderAdded(lines), contents, contents + ContentsOf(lines))
    decreases |lines|
  {
    if lines == [] {
      assert contents + ContentsOf(lines) == contents;
    } else {
      var raw := "+" + lines[0];
      NotHeader(raw);
      assert raw[1..] == lines[0];
      AddedReads(lines[1..], contents + lines[0] + "\n");
      assert contents + lines[0] + "\n" + ContentsOf(lines[1..]) == contents + ContentsOf(lines);
    }
  }

  lemma FeedsBody<T(!new)>(
    via: Readers, read: (T, string) -> Result<T>, lines: seq<string>, tail: seq<string>, n: nat, t: T, u: T)
    requires Feeds(via.stop, read, lines, t, u) && Follows(via, tail)
    ensures Consume(via.stop, read, lines + tail, n, t) == Ok(Body(u, tail, n + |lines|))
  {
    FeedsConsume(via.stop, read, lines, tail, n, t, u);
  }

  // ---- One file, and all of them ----------------------------------------------------

  lemma LetterIsNoSpace(c: char)
    requires c in {'*', '@', 'h'}
    ensures c !in SPACES
  {
  }

  /** A header line is its own trimmed form. */
  lemma HeaderKeeps(marker: string, path: string)
    requires PathOk(path) && marker != [] && marker[0] == '*'
    ensures TrimSpace(marker + path) == marker + path && marker + path != ""
    ensures marker <= marker + path && (marker + path)[|marker|..] == path
  {
    LetterIsNoSpace('*');
    TrimSpaceTrims(marker + path);
  }

  lemma HeadersDiffer(path: string)
    ensures !(ADD_FILE <= DELETE_FILE + path)
    ensures !(ADD_FILE <= UPDATE_FILE + path) && !(DELETE_FILE <= UPDATE_FILE + path)
  {
    assert ADD_FILE[4] == 'A' && DELETE_FILE[4] == 'D';
    assert (DELETE_FILE + path)[4] == 'D' && (UPDATE_FILE + path)[4] == 'U';
  }

  lemma UpdateStep(via: Readers, header: string, path: string, lines: seq<string>, tail: seq<string>, n: nat, d: Draft)
    requires via.head(header) == UpdateHead(path) && d != Draft("", [])
    requires Feeds(via.stop, via.update, lines, Draft("", []), d) && Follows(via, tail)
    ensures Top(via, [header] + lines + tail, n)
         == Prepend(Update(path, d.movePath, d.chunks), Top(via, tail, n + 1 + |lines|))
  {
    var all := [header] + lines + tail;
    FeedsBody(via, via.update, lines, tail, n + 1, Draft("", []), d);
    assert all[1..] == lines + tail;
  }

  // ---- The text ---------------------------------------------------------------------

  predicate AllOneLine(lines: seq<string>) { forall l :: l in lines ==> OneLine(l) }

  lemma {:induction false} OpsOneLine(ops: seq<Op>)
    requires OpsOk(ops)
    ensures AllOneLine(RenderOps(ops))
  {
    if ops != [] {
      assert ops[0] in ops;
      OpsOneLine(ops[1..]);
    }
  }

  lemma {:induction false} SectionsOneLine(sections: seq<Section>)
    requires SectionsOk(sections)
    ensures AllOneLine(RenderSections(sections))
  {
    if sections != [] {
      var s := sections[0];
      OpsOneLine(s.ops);
      SectionsOneLine(sections[1..]);
      assert OneLine(ContextLine(s.context)) && OneLine(END_OF_FILE);
      assert AllOneLine(RenderSection(s));
    }
  }

  lemma {:induction false} AddedOneLine(lines: seq<string>)
    requires AllOneLine(lines)
    ensures AllOneLine(RenderAdded(lines))
  {
    if lines != [] {
      assert lines[0] in lines;
      AddedOneLine(lines[1..]);
    }
  }

  lemma EditOneLine(e: Edit)
    requires EditOk(e)
    ensures AllOneLine(Render(e))
  {
    match e
    case AddFile(path, lines) =>
      AddedOneLine(lines);
      assert OneLine(ADD_FILE + path);
    case DeleteFile(path) =>
      assert OneLine(DELETE_FILE + path);
    case UpdateFile(path, movePath, sections) =>
      SectionsOneLine(sections);
      assert OneLine(UPDATE_FILE + path) && OneLine(MOVE_TO + movePath);
  }

  lemma {:induction false} AllEditsOneLine(edits: seq<Edit>)
    requires PatchOk(edits)
    ensures AllOneLine(RenderAll(edits))
  {
    if edits != [] {
      assert edits[0] in edits;
      EditOneLine(edits[0]);
      AllEditsOneLine(edits[1..]);
    }
  }

  lemma {:induction false} JoinEnds(lines: seq<string>)
    requires lines != [] && lines[0] != "" && lines[|lines| - 1] != ""
    ensures var t := JoinLines(lines); var last := lines[|lines| - 1];
            t != [] && t[0] == lines[0][0] && t[|t| - 1] == last[|last| - 1]
  {
    if |lines| > 1 {
      var rest := lines[1..];
      assert rest[|rest| - 1] == lines[|lines| - 1];
      JoinTail(rest);
    }
  }

  lemma {:induction false} JoinTail(lines: seq<string>)
    requires lines != [] && lines[|lines| - 1] != ""
    ensures var t := JoinLines(lines); var last := lines[|lines| - 1]; t != [] && t[|t| - 1] == last[|last| - 1]
  {
    if |lines| > 1 {
      JoinTail(lines[1..]);
    }
  }

  lemma MarkersKeep()
    ensures TrimSpace(BEGIN_PATCH) == BEGIN_PATCH && TrimSpace(END_PATCH) == END_PATCH
    ensures !IsHeredocStart(BEGIN_PATCH)
  {
    assert BEGIN_PATCH[0] == '*' && BEGIN_PATCH[|BEGIN_PATCH| - 1] == 'h';
    assert END_PATCH[0] == '*' && END_PATCH[|END_PATCH| - 1] == 'h';
    LetterIsNoSpace('*');
    LetterIsNoSpace('h');
    TrimSpaceTrims(BEGIN_PATCH);
    TrimSpaceTrims(END_PATCH);
  }

  lemma MarkersOneLine()
    ensures OneLine(BEGIN_PATCH) && OneLine(END_PATCH)
  {
  }

  /** The text of a patch is cut into the lines that were written. */
  lemma DocumentLines(edits: seq<Edit>)
    requires AllOneLine(RenderAll(edits))
    ensures SplitLines(TrimSpace(Document(edits))) == [BEGIN_PATCH] + RenderAll(edits) + [END_PATCH]
  {
    var lines := [BEGIN_PATCH] + RenderAll(edits) + [END_PATCH];
    MarkersKeep();
    MarkersOneLine();
    JoinEnds(lines);
    assert BEGIN_PATCH[0] == '*' && END_PATCH[|END_PATCH| - 1] == 'h';
    TrimSpaceTrims(Document(edits));
    SplitJoin(lines);
  }

}
