/** The parser of `applypatch/parser.go` as the object it is: an index that moves over the
    lines and a list of hunks that grows, proved to give what `PatchParser.Top` gives. */
module PatchReader {
  import opened Strings
  import opened PatchParser

  /** Hunks that were already there, before those still to be read. */
  function PrependAll(hunks: seq<Hunk>, r: Result<seq<Hunk>>): Result<seq<Hunk>> {
    match r
    case Ok(more) => Ok(hunks + more)
    case Err(line, what) => Err(line, what)
  }

  lemma PrependAllOne(hunks: seq<Hunk>, h: Hunk, r: Result<seq<Hunk>>)
    ensures PrependAll(hunks, Prepend(h, r)) == PrependAll(hunks + [h], r)
  {
    if r.Ok? { assert hunks + ([h] + r.value) == hunks + [h] + r.value; }
  }

  lemma PrependNone(r: Result<seq<Hunk>>)
    ensures PrependAll([], r) == r
  {
    if r.Ok? { assert [] + r.value == r.value; }
  }

  predicate IsEmptyUpdate(h: Hunk) { h.Update? && h.movePath == "" && h.chunks == [] }

  lemma SetLastIsUpdate(chunks: seq<Chunk>, c: Chunk)
    requires chunks != []
    ensures chunks[|chunks| - 1 := c] == SetLast(chunks, c)
  {
  }

  /** One line of an update as the statements that read it, test by test; the reader
      `UpdateLine` is what they compute. */
  method ReadUpdateLine(d: Draft, raw: string) returns (r: Result<Draft>)
    ensures r == UpdateLine(d, raw)
  {
    var content := TrimRight(raw, {'\r'});
    var trimmedEnd := TrimRight(content, BLANKS);
    r := ReadContent(d, content, trimmedEnd);
  }

  method ReadContent(d: Draft, content: string, trimmedEnd: string) returns (r: Result<Draft>)
    ensures r == UpdateContent(d, content, trimmedEnd)
  {
    var chunks := d.chunks;
    if |chunks| > 0 && chunks[|chunks| - 1].endOfFile {
      if trimmedEnd == "" { return Ok(d); }
      if trimmedEnd != EMPTY_CONTEXT && !(CHANGE_CONTEXT <= trimmedEnd) { return Err(0, ContextExpected); }
    }
    if |chunks| == 0 && d.movePath == "" && MOVE_TO <= trimmedEnd {
      return Ok(d.(movePath := trimmedEnd[|MOVE_TO|..]));
    }
    if trimmedEnd == EMPTY_CONTEXT || CHANGE_CONTEXT <= trimmedEnd {
      if |chunks| > 0 && IsEmptyChunk(chunks[|chunks| - 1]) { return Err(0, UnexpectedLine); }
      var chunk := NEW_CHUNK;
      if trimmedEnd != EMPTY_CONTEXT { chunk := chunk.(context := trimmedEnd[|CHANGE_CONTEXT|..]); }
      return Ok(d.(chunks := chunks + [chunk]));
    }
    if trimmedEnd == END_OF_FILE {
      if |chunks| == 0 || IsEmptyChunk(chunks[|chunks| - 1]) { return Err(0, NoLines); }
      SetLastIsUpdate(chunks, chunks[|chunks| - 1].(endOfFile := true));
      return Ok(d.(chunks := chunks[|chunks| - 1 := chunks[|chunks| - 1].(endOfFile := true)]));
    }
    if |chunks| == 0 { chunks := [NEW_CHUNK]; }
    var last := chunks[|chunks| - 1];
    if content == "" {
      last := AppendContext(last, "");
    } else if content[0] == ' ' {
      last := AppendContext(last, content[1..]);
    } else if content[0] == '+' {
      last := last.(newLines := last.newLines + [content[1..]]);
    } else if content[0] == '-' {
      last := last.(oldLines := last.oldLines + [content[1..]]);
    } else if |last.oldLines| > 0 || |last.newLines| > 0 {
      return Err(0, ContextExpected);
    } else {
      return Err(0, UnexpectedLine);
    }
    SetLastIsUpdate(chunks, last);
    assert SetLast(chunks, last) == SetLast(d.chunks, last);
    r := Ok(d.(chunks := chunks[|chunks| - 1 := last]));
  }

  /** `pushContext`: the pair of places is taken before both sides grow. */
  method AppendContext(c: Chunk, line: string) returns (r: Chunk)
    ensures r == PushContext(c, line)
  {
    r := c.(contextIndices := c.contextIndices + [(|c.oldLines|, |c.newLines|)]);
    r := r.(oldLines := r.oldLines + [line]);
    r := r.(newLines := r.newLines + [line]);
  }

  class Parser {
    const via: Readers
    const lines: seq<string>
    var index: nat
    var hunks: seq<Hunk>

    constructor (via: Readers, lines: seq<string>)
      ensures this.via == via && this.lines == lines && index == 0 && hunks == []
    {
      this.via := via;
      this.lines := lines;
      index := 0;
      hunks := [];
    }

    /** The number of the current line in the whole patch. */
    function Number(): nat
      reads this`index
    {
      index + 2
    }

    function Rest(): seq<string>
      requires index <= |lines|
      reads this`index
    {
      lines[index..]
    }

    function Newest(): Hunk
      requires hunks != []
      reads this`hunks
    {
      hunks[|hunks| - 1]
    }

    /** The check for an update without a body. It never fires: such an update has ended
        the parse before. */
    method EnsureUpdateNotPending() returns (pending: bool)
      ensures pending <==> hunks != [] && IsEmptyUpdate(Newest())
    {
      if |hunks| == 0 { return false; }
      pending := IsEmptyUpdate(hunks[|hunks| - 1]);
    }

    /** One line for the contents of the newest hunk. */
    method Grow(line: string) returns (r: Result<()>)
      requires hunks != [] && Newest().Add?
      modifies this`hunks
      ensures match via.add(old(Newest()).contents, line)
              case Err(_, what) => r == Err(0, what) && hunks == old(hunks)
              case Ok(contents) =>
                  r.Ok? && hunks == old(hunks)[..|old(hunks)| - 1] + [Add(old(Newest()).path, contents)]
    {
      var grown := via.add(hunks[|hunks| - 1].contents, line);
      if grown.Err? { return Err(0, grown.problem); }
      hunks := hunks[|hunks| - 1 := hunks[|hunks| - 1].(contents := grown.value)];
      r := Ok(());
    }

    method ParseAddBody() returns (r: Result<()>)
      requires index <= |lines| && hunks != [] && Newest().Add? && Newest().contents == ""
      modifies this
      ensures index <= |lines|
      ensures match AddBody(via, old(Rest()), old(Number()))
              case Err(line, what) => r == Err(line, what)
              case Ok(b) =>
                && r.Ok? && Rest() == b.rest && Number() == b.number
                && hunks == old(hunks)[..|old(hunks)| - 1] + [Add(old(Newest()).path, b.value)]
    {
      ghost var whole := Consume(via.stop, via.add, Rest(), Number(), "");
      var earlier := hunks[..|hunks| - 1];
      while index < |lines| && !via.stop(lines[index])
        invariant index <= |lines| && hunks != [] && Newest().Add?
        invariant hunks == earlier + [Add(old(Newest()).path, Newest().contents)]
        invariant whole == Consume(via.stop, via.add, Rest(), Number(), Newest().contents)
      {
        var grown := Grow(lines[index]);
        if grown.Err? { return Err(Number(), grown.problem); }
        assert Rest()[1..] == lines[index + 1..];
        index := index + 1;
      }
      if hunks[|hunks| - 1].contents == "" { return Err(Number(), EmptyAdd); }
      r := Ok(());
    }

    method ParseUpdateBody() returns (r: Result<Draft>)
      requires index <= |lines|
      modifies this`index
      ensures index <= |lines|
      ensures match Consume(via.stop, via.update, old(Rest()), old(Number()), Draft("", []))
              case Err(line, what) => r == Err(line, what)
              case Ok(b) => r == Ok(b.value) && Rest() == b.rest && Number() == b.number
    {
      ghost var whole := Consume(via.stop, via.update, Rest(), Number(), Draft("", []));
      var d := Draft("", []);
      while index < |lines| && !via.stop(lines[index])
        invariant index <= |lines|
        invariant whole == Consume(via.stop, via.update, Rest(), Number(), d)
      {
        var read := via.update(d, lines[index]);
        if read.Err? { return Err(Number(), read.problem); }
        d := read.value;
        assert Rest()[1..] == lines[index + 1..];
        index := index + 1;
      }
      r := Ok(d);
    }

    /** The whole is the hunks so far and then what the rest of the lines gives; no update
        without a body is among them. */
    ghost predicate Reading(whole: Result<seq<Hunk>>)
      reads this
    {
      && index <= |lines|
      && (hunks == [] || !IsEmptyUpdate(Newest()))
      && whole == PrependAll(hunks, Top(via, Rest(), Number()))
    }

    method ParseAdd(path: string, ghost whole: Result<seq<Hunk>>) returns (r: Result<()>)
      requires Reading(whole) && index < |lines| && via.head(lines[index]) == AddHead(path)
      modifies this
      ensures r.Ok? ==> Reading(whole) && old(index) < index
      ensures r.Err? ==> whole == Err(r.line, r.problem)
    {
      var pending := EnsureUpdateNotPending();
      if pending { return Err(Number(), EmptyUpdate); }
      ghost var before := hunks;
      assert Rest()[1..] == lines[index + 1..];
      hunks := hunks + [Add(path, "")];
      index := index + 1;
      r := ParseAddBody();
      if r.Ok? {
        assert hunks == before + [Newest()];
        PrependAllOne(before, Newest(), Top(via, Rest(), Number()));
      }
    }

    method ParseDelete(path: string, ghost whole: Result<seq<Hunk>>) returns (r: Result<()>)
      requires Reading(whole) && index < |lines| && via.head(lines[index]) == DeleteHead(path)
      modifies this
      ensures r.Ok? ==> Reading(whole) && old(index) < index
      ensures r.Err? ==> whole == Err(r.line, r.problem)
    {
      var pending := EnsureUpdateNotPending();
      if pending { return Err(Number(), EmptyUpdate); }
      ghost var before := hunks;
      assert Rest()[1..] == lines[index + 1..];
      hunks := hunks + [Delete(path)];
      index := index + 1;
      PrependAllOne(before, Newest(), Top(via, Rest(), Number()));
      r := Ok(());
    }

    method ParseUpdate(path: string, ghost whole: Result<seq<Hunk>>) returns (r: Result<()>)
      requires Reading(whole) && index < |lines| && via.head(lines[index]) == UpdateHead(path)
      modifies this
      ensures r.Ok? ==> Reading(whole) && old(index) < index
      ensures r.Err? ==> whole == Err(r.line, r.problem)
    {
      var pending := EnsureUpdateNotPending();
      if pending { return Err(Number(), EmptyUpdate); }
      ghost var before := hunks;
      assert Rest()[1..] == lines[index + 1..];
      index := index + 1;
      var body := ParseUpdateBody();
      if body.Err? { return Err(body.line, body.problem); }
      if body.value.movePath == "" && |body.value.chunks| == 0 { return Err(Number() - 1, EmptyUpdate); }
      hunks := hunks + [Update(path, body.value.movePath, body.value.chunks)];
      PrependAllOne(before, Newest(), Top(via, Rest(), Number()));
      r := Ok(());
    }

    /** One line of the top loop: a blank one, or a hunk with its body. */
    method ParseOne(ghost whole: Result<seq<Hunk>>) returns (r: Result<()>)
      requires Reading(whole) && index < |lines|
      modifies this
      ensures r.Ok? ==> Reading(whole) && old(index) < index
      ensures r.Err? ==> whole == Err(r.line, r.problem)
    {
      match via.head(lines[index]) {
        case Blank =>
          assert Rest()[1..] == lines[index + 1..];
          index := index + 1;
          r := Ok(());
        case AddHead(path) => r := ParseAdd(path, whole);
        case DeleteHead(path) => r := ParseDelete(path, whole);
        case UpdateHead(path) => r := ParseUpdate(path, whole);
        case NoHead => r := Err(Number(), BadHeader);
      }
    }

    /** The hunks of the lines, in order, or the error of the first line that is wrong. */
    method ParseAll() returns (r: Result<seq<Hunk>>)
      requires index == 0 && hunks == []
      modifies this
      ensures r == Top(via, lines, 2)
    {
      ghost var whole := Top(via, lines, 2);
      assert Rest() == lines;
      PrependNone(whole);
      while index < |lines|
        invariant Reading(whole)
        decreases |lines| - index
      {
        var step := ParseOne(whole);
        if step.Err? { return Err(step.line, step.problem); }
      }
      assert hunks + [] == hunks;
      r := Ok(hunks);
    }
  }

  /** The whole of `Parse`, with the parser object. */
  method ParsePatch(text: string) returns (r: Result<seq<Hunk>>)
    ensures r == Parse(text)
  {
    var lines := Unwrap(SplitLines(TrimSpace(text)));
    if TrimSpace(lines[0]) != BEGIN_PATCH { return Err(0, FirstLine); }
    if TrimSpace(lines[|lines| - 1]) != END_PATCH { return Err(0, LastLine); }
    BeginIsNotEnd();
    var parser := new Parser(LINE_READERS, lines[1 .. |lines| - 1]);
    r := parser.ParseAll();
  }
}
