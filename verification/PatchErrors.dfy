/** Which texts are refused, and what is said about them: the errors of the parser of
    `applypatch/parser.go`, told in terms of the grammar. */
module PatchErrors {
  import opened Options
  import opened Strings
  import opened PatchParser
  import opened PatchGrammar

  // ---- A wrong line of an update ----------------------------------------------------

  ghost predicate IsContext(raw: string) { exists context :: WritesContext(raw, context) }

  ghost predicate IsMove(raw: string) { exists name :: name != "" && WritesMove([raw], name) }

  ghost predicate IsOp(raw: string) { exists op :: WritesOp(raw, op) }

  /** A line that cannot stand where it does, behind lines that were read as a draft. Behind
      the end of a file only blank lines and a `@@` line may; a section without a line can
      neither end the file nor be followed by another one; and any other line must be a
      change. */
  ghost predicate Wrong(d: Draft, raw: string, what: Problem) {
    var last := Last(d.chunks);
    && !IsHeaderLine(raw)
    && if IsContext(raw) then d.chunks != [] && IsEmptyChunk(last) && what == UnexpectedLine
       else if last.endOfFile then Clean(raw) != "" && what == ContextExpected
       else if WritesEnd([raw]) then IsEmptyChunk(last) && what == NoLines
       else !IsOp(raw) && !(d == Draft("", []) && IsMove(raw))
            && what == if IsEmptyChunk(last) then UnexpectedLine else ContextExpected
  }

  lemma ContextsAreSeen(raw: string)
    requires !IsHeaderLine(raw)
    ensures IsContext(raw) <==> IsLocator(Clean(raw))
  {
    if IsLocator(Clean(raw)) { var context := ContextIsWritten(raw); }
    if IsContext(raw) {
      var context :| WritesContext(raw, context);
      if context != "" { assert CHANGE_CONTEXT <= Clean(raw); }
    }
  }

  lemma MovesAreSeen(raw: string)
    requires !IsHeaderLine(raw)
    ensures IsMove(raw) <==> MOVE_TO <= Clean(raw)
  {
    if MOVE_TO <= Clean(raw) { var name := MoveIsWritten(raw); }
  }

  lemma OpsAreSeen(raw: string, c: Chunk)
    requires !IsHeaderLine(raw)
    ensures IsOp(raw) <==> Push(c, Content(raw)).Ok?
    ensures Push(c, Content(raw)).Err? ==>
              Push(c, Content(raw)) == Err(0, if IsEmptyChunk(c) then UnexpectedLine else ContextExpected)
  {
    if Push(c, Content(raw)).Ok? { var op := OpIsWritten(raw, c, Push(c, Content(raw)).value); }
    if IsOp(raw) {
      var op :| WritesOp(raw, op);
      if Content(raw) != "" { assert Content(raw)[0] == Mark(op); }
    }
  }

  /** How a line fails, from what it looks like. */
  function Fault(d: Draft, t: string, pushed: Result<Chunk>): Option<Problem> {
    var last := Last(d.chunks);
    if last.endOfFile && t == "" then None
    else if last.endOfFile && !IsLocator(t) then Some(ContextExpected)
    else if d == Draft("", []) && MOVE_TO <= t then None
    else if IsLocator(t) then if d.chunks != [] && IsEmptyChunk(last) then Some(UnexpectedLine) else None
    else if t == END_OF_FILE then if IsEmptyChunk(last) then Some(NoLines) else None
    else if pushed.Ok? then None
    else Some(pushed.problem)
  }

  lemma FaultIsFound(d: Draft, raw: string)
    ensures UpdateLine(d, raw)
            == match Fault(d, Clean(raw), Push(Last(d.chunks), Content(raw)))
               case Some(what) => Err(0, what)
               case None => UpdateLine(d, raw)
    ensures UpdateLine(d, raw).Ok? <==> Fault(d, Clean(raw), Push(Last(d.chunks), Content(raw))).None?
  {
  }

  lemma OpsLookPlain(raw: string, op: Op)
    requires WritesOp(raw, op)
    ensures !IsLocator(Clean(raw)) && !(MOVE_TO <= Clean(raw)) && Clean(raw) != END_OF_FILE
  {
    FirstRunes(Clean(raw));
    if Content(raw) != "" { BlanksStay(Mark(op), op.line); }
  }

  lemma WrongIsFault(d: Draft, raw: string)
    requires !IsHeaderLine(raw)
    ensures forall what ::
              Fault(d, Clean(raw), Push(Last(d.chunks), Content(raw))) == Some(what) <==> Wrong(d, raw, what)
  {
    var t := Clean(raw);
    ContextsAreSeen(raw);
    MovesAreSeen(raw);
    OpsAreSeen(raw, Last(d.chunks));
    FirstRunes(t);
    assert END_OF_FILE[4] == 'E' && MOVE_TO[4] == 'M';
    if IsOp(raw) {
      var op :| WritesOp(raw, op);
      OpsLookPlain(raw, op);
    }
    assert WritesEnd([raw]) <==> t == END_OF_FILE;
  }

  /** A line is refused, and for this reason, exactly when it is wrong. */
  lemma WrongMeans(d: Draft, raw: string, what: Problem)
    requires !IsHeaderLine(raw)
    ensures UpdateLine(d, raw) == Err(0, what) <==> Wrong(d, raw, what)
    ensures UpdateLine(d, raw).Err? ==> UpdateLine(d, raw).line == 0
  {
    FaultIsFound(d, raw);
    WrongIsFault(d, raw);
  }

  // ---- A wrong file -----------------------------------------------------------------

  /** A line that begins no file. */
  predicate IsStray(rest: seq<string>, n: nat, m: nat, what: Problem) {
    rest != [] && TrimSpace(rest[0]) != "" && !IsHeaderLine(rest[0]) && m == n && what == BadHeader
  }

  /** Nothing is left behind the first line, or the header of another file. */
  predicate IsAlone(rest: seq<string>) { |rest| == 1 || (|rest| > 1 && IsHeaderLine(rest[1])) }

  /** An added file without a line. */
  ghost predicate IsEmptyAdd(rest: seq<string>, n: nat, m: nat, what: Problem, path: string) {
    IsAlone(rest) && TrimSpace(rest[0]) == "*** Add File: " + path && m == n + 1 && what == EmptyAdd
  }

  /** One with a line that does not begin with a plus. */
  ghost predicate IsBadAdd(rest: seq<string>, n: nat, m: nat, what: Problem, path: string, added: seq<string>,
      tail: seq<string>)
  {
    && rest != [] && TrimSpace(rest[0]) == "*** Add File: " + path && rest[1..] == RenderAdded(added) + tail
    && tail != [] && !IsHeaderLine(tail[0]) && (tail[0] == "" || tail[0][0] != '+')
    && m == n + 1 + |added| && what == BadHeader
  }

  /** An update without a line. */
  ghost predicate IsEmptyUpdate(rest: seq<string>, n: nat, m: nat, what: Problem, path: string) {
    IsAlone(rest) && TrimSpace(rest[0]) == "*** Update File: " + path && m == n && what == EmptyUpdate
  }

  /** One with a line that is wrong behind those in front of it. */
  ghost predicate IsBadUpdate(
    rest: seq<string>, n: nat, m: nat, what: Problem, path: string, body: seq<string>, d: Draft, tail: seq<string>)
  {
    && rest != [] && TrimSpace(rest[0]) == "*** Update File: " + path && rest[1..] == body + tail
    && BodyWritten(body, d) && tail != [] && Wrong(d, tail[0], what) && m == n + 1 + |body|
  }

  /** The first of these lines, whose number is `n`, begins something that is wrong, which
      is said of line `m`. */
  ghost predicate IsBad(rest: seq<string>, n: nat, m: nat, what: Problem) {
    || IsStray(rest, n, m, what)
    || (exists path :: IsEmptyAdd(rest, n, m, what, path))
    || (exists path, added, tail :: IsBadAdd(rest, n, m, what, path, added, tail))
    || (exists path :: IsEmptyUpdate(rest, n, m, what, path))
    || (exists path, body, d, tail :: IsBadUpdate(rest, n, m, what, path, body, d, tail))
  }

  type Badness = (seq<string>, nat, nat, Problem) -> bool

  /** Good files, and then a bad one. A stray line can only be behind a deletion or in front
      of all files: behind other files it would belong to them. */
  ghost predicate Broken(w: Ways, stop: string -> bool, bad: Badness, lines: seq<string>, n: nat, m: nat, what: Problem,
      gap: seq<string>, xs: seq<EditText>, edits: seq<Edit>, rest: seq<string>)
  {
    && lines == gap + AllEditLines(xs) + rest && rest != []
    && EachBlank(w, gap) && EachFits(w, xs, edits)
    && (edits == [] || edits[|edits| - 1].DeleteFile? || stop(rest[0]))
    && bad(rest, n + |gap| + |AllEditLines(xs)|, m, what)
  }

  ghost predicate IsBroken(
    w: Ways, stop: string -> bool, bad: Badness, lines: seq<string>, n: nat, m: nat, what: Problem)
  {
    exists gap, xs, edits, rest :: Broken(w, stop, bad, lines, n, m, what, gap, xs, edits, rest)
  }

  /** The lines of a patch are refused, with this problem at line `m`. */
  ghost predicate Refused(lines: seq<string>, m: nat, what: Problem) {
    IsBroken(TheseWays(), IsHeaderLine, IsBad, lines, 2, m, what)
  }

  // ---- What is bad is refused -------------------------------------------------------

  lemma StrayFails(rest: seq<string>, n: nat, m: nat, what: Problem)
    requires IsStray(rest, n, m, what)
    ensures Top(LINE_READERS, rest, n) == Err(m, what)
  {
    HeadIsWritten(rest[0]);
  }

  /** A loop that comes to a line it cannot read. */
  lemma FeedsFail<T(!new)>(stop: string -> bool, read: (T, string) -> Result<T>, lines: seq<string>, tail: seq<string>,
      n: nat, t: T, u: T)
    requires Feeds(stop, read, lines, t, u) && tail != [] && !stop(tail[0]) && read(u, tail[0]).Err?
    ensures Consume(stop, read, lines + tail, n, t) == Err(n + |lines|, read(u, tail[0]).problem)
  {
    FeedsConsume(stop, read, lines, tail, n, t, u);
  }

  lemma AddFails(via: Readers, header: string, path: string, body: seq<string>, contents: string, tail: seq<string>,
      n: nat)
    requires via.head(header) == AddHead(path) && Feeds(via.stop, via.add, body, "", contents)
    ensures var r := Top(via, [header] + (body + tail), n);
            && (Follows(via, tail) && contents == "" ==> r == Err(n + 1 + |body|, EmptyAdd))
            && (!Follows(via, tail) && via.add(contents, tail[0]).Err? ==>
                  r == Err(n + 1 + |body|, via.add(contents, tail[0]).problem))
  {
    assert ([header] + (body + tail))[1..] == body + tail;
    if Follows(via, tail) {
      FeedsBody(via, via.add, body, tail, n + 1, "", contents);
    } else if via.add(contents, tail[0]).Err? {
      FeedsFail(via.stop, via.add, body, tail, n + 1, "", contents);
    }
  }

  lemma UpdateFails(via: Readers, header: string, path: string, body: seq<string>, d: Draft, tail: seq<string>, n: nat)
    requires via.head(header) == UpdateHead(path) && Feeds(via.stop, via.update, body, Draft("", []), d)
    ensures var r := Top(via, [header] + (body + tail), n);
            && (Follows(via, tail) && d == Draft("", []) ==> r == Err(n + |body|, EmptyUpdate))
            && (!Follows(via, tail) && via.update(d, tail[0]).Err? ==>
                  r == Err(n + 1 + |body|, via.update(d, tail[0]).problem))
  {
    assert ([header] + (body + tail))[1..] == body + tail;
    if Follows(via, tail) {
      FeedsBody(via, via.update, body, tail, n + 1, Draft("", []), d);
    } else if via.update(d, tail[0]).Err? {
      FeedsFail(via.stop, via.update, body, tail, n + 1, Draft("", []), d);
    }
  }

  lemma PlusMeans(contents: string, raw: string)
    ensures AddLine(contents, raw).Err? <==> raw == "" || raw[0] != '+'
    ensures AddLine(contents, raw).Err? ==> AddLine(contents, raw) == Err(0, BadHeader)
  {
  }

  lemma NoLinesFail(via: Readers, header: string, tail: seq<string>, n: nat)
    requires Follows(via, tail)
    ensures via.head(header).AddHead? ==> Top(via, [header] + tail, n) == Err(n + 1, EmptyAdd)
    ensures via.head(header).UpdateHead? ==> Top(via, [header] + tail, n) == Err(n, EmptyUpdate)
  {
    assert ([header] + tail)[1..] == tail;
  }

  lemma EmptyAddFails(rest: seq<string>, n: nat, m: nat, what: Problem, path: string)
    requires IsEmptyAdd(rest, n, m, what, path)
    ensures Top(LINE_READERS, rest, n) == Err(m, what)
  {
    HeaderIsSeen(rest[0], path);
    NoLinesFail(LINE_READERS, rest[0], rest[1..], n);
    assert [rest[0]] + rest[1..] == rest;
  }

  lemma BadAddFails(rest: seq<string>, n: nat, m: nat, what: Problem, path: string, added: seq<string>,
      tail: seq<string>)
    requires IsBadAdd(rest, n, m, what, path, added, tail)
    ensures Top(LINE_READERS, rest, n) == Err(m, what)
  {
    HeaderIsSeen(rest[0], path);
    AddedReads(added, "");
    AddedLength(added);
    PlusMeans("" + ContentsOf(added), tail[0]);
    AddFails(LINE_READERS, rest[0], path, RenderAdded(added), "" + ContentsOf(added), tail, n);
    assert [rest[0]] + (RenderAdded(added) + tail) == rest;
  }

  lemma {:induction false} AddedLength(added: seq<string>)
    ensures |RenderAdded(added)| == |added|
  {
    if added != [] { AddedLength(added[1..]); }
  }

  lemma BodyIsRead(body: seq<string>, d: Draft)
    requires BodyWritten(body, d)
    ensures Reads(body, Draft("", []), d) && (body == [] <==> d == Draft("", []))
  {
    var move, below :| MoveThen(body, move, below, d);
    var xs: seq<SectionText>, sections: seq<Section> :| Laid(SpellsSection, below, xs, sections, d.chunks);
    UpdateFeeds(move, d.movePath, xs, sections);
    if body == [] {
      assert Feeds(IsHeaderLine, UpdateLine, [], Draft("", []), d);
    }
  }

  lemma WrongLineFails(header: string, path: string, body: seq<string>, d: Draft, tail: seq<string>, n: nat,
      what: Problem)
    requires HeadOf(header) == UpdateHead(path) && Reads(body, Draft("", []), d)
    requires tail != [] && Wrong(d, tail[0], what)
    ensures Top(LINE_READERS, [header] + (body + tail), n) == Err(n + 1 + |body|, what)
  {
    WrongMeans(d, tail[0], what);
    UpdateFails(LINE_READERS, header, path, body, d, tail, n);
  }

  lemma WrongBodyFails(header: string, path: string, body: seq<string>, d: Draft, tail: seq<string>, n: nat,
      what: Problem)
    requires HeadOf(header) == UpdateHead(path) && BodyWritten(body, d) && tail != [] && Wrong(d, tail[0], what)
    ensures Top(LINE_READERS, [header] + (body + tail), n) == Err(n + 1 + |body|, what)
  {
    BodyIsRead(body, d);
    WrongLineFails(header, path, body, d, tail, n, what);
  }

  lemma EmptyUpdateFails(rest: seq<string>, n: nat, m: nat, what: Problem, path: string)
    requires IsEmptyUpdate(rest, n, m, what, path)
    ensures Top(LINE_READERS, rest, n) == Err(m, what)
  {
    HeaderIsSeen(rest[0], path);
    NoLinesFail(LINE_READERS, rest[0], rest[1..], n);
    assert [rest[0]] + rest[1..] == rest;
  }

  lemma BadUpdateFails(rest: seq<string>, n: nat, m: nat, what: Problem, path: string, body: seq<string>, d: Draft,
      tail: seq<string>)
    requires IsBadUpdate(rest, n, m, what, path, body, d, tail)
    ensures Top(LINE_READERS, rest, n) == Err(m, what)
  {
    HeaderIsSeen(rest[0], path);
    WrongBodyFails(rest[0], path, body, d, tail, n, what);
    assert rest == [rest[0]] + (body + tail);
  }

  lemma BadFails(rest: seq<string>, n: nat, m: nat, what: Problem)
    requires IsBad(rest, n, m, what)
    ensures Top(LINE_READERS, rest, n) == Err(m, what)
  {
    if IsStray(rest, n, m, what) {
      StrayFails(rest, n, m, what);
    } else if path :| IsEmptyAdd(rest, n, m, what, path) {
      EmptyAddFails(rest, n, m, what, path);
    } else if path, added, tail :| IsBadAdd(rest, n, m, what, path, added, tail) {
      BadAddFails(rest, n, m, what, path, added, tail);
    } else if path :| IsEmptyUpdate(rest, n, m, what, path) {
      EmptyUpdateFails(rest, n, m, what, path);
    } else {
      var path, body, d, tail :| IsBadUpdate(rest, n, m, what, path, body, d, tail);
      BadUpdateFails(rest, n, m, what, path, body, d, tail);
    }
  }

  lemma LinesCons(xs: seq<EditText>, rest: seq<string>)
    requires xs != []
    ensures AllEditLines(xs) + rest == EditLines(xs[0]) + (AllEditLines(xs[1..]) + rest)
    ensures |AllEditLines(xs)| == |EditLines(xs[0])| + |AllEditLines(xs[1..])|
  {
  }

  /** Where the files end for what follows them. */
  predicate MayFollow(via: Readers, edits: seq<Edit>, rest: seq<string>) {
    rest != [] && (edits == [] || edits[|edits| - 1].DeleteFile? || via.stop(rest[0]))
  }

  /** Reading goes on behind every file that `good` holds of. */
  ghost predicate GoesOn(via: Readers, good: (EditText, Edit) -> bool) {
    && (forall x, e {:trigger good(x, e)} :: good(x, e) ==> via.stop(x.header))
    && forall x, e, tail: seq<string>, n: nat {:trigger good(x, e), Top(via, EditLines(x) + tail, n)} ::
         good(x, e) && (e.DeleteFile? || Follows(via, tail)) ==>
           Top(via, EditLines(x) + tail, n) == Prepend(HunkOf(e), Top(via, tail, n + |EditLines(x)|))
  }

  ghost predicate EachGood(good: (EditText, Edit) -> bool, xs: seq<EditText>, edits: seq<Edit>) {
    |xs| == |edits| && forall i :: 0 <= i < |xs| ==> good(xs[i], edits[i])
  }

  lemma OneFileFails(via: Readers, good: (EditText, Edit) -> bool, x: EditText, e: Edit, tail: seq<string>, n: nat,
      m: nat, what: Problem)
    requires GoesOn(via, good) && good(x, e) && (e.DeleteFile? || Follows(via, tail))
    requires Top(via, tail, n + |EditLines(x)|) == Err(m, what)
    ensures Top(via, EditLines(x) + tail, n) == Err(m, what)
  {
  }

  /** Good files in front of an error do not change it. */
  lemma {:induction false} FilesFail(via: Readers, good: (EditText, Edit) -> bool, xs: seq<EditText>, edits: seq<Edit>,
      rest: seq<string>, n: nat, m: nat, what: Problem)
    requires GoesOn(via, good) && EachGood(good, xs, edits) && MayFollow(via, edits, rest)
    requires Top(via, rest, n + |AllEditLines(xs)|) == Err(m, what)
    ensures Top(via, AllEditLines(xs) + rest, n) == Err(m, what)
    decreases |xs|
  {
    if xs == [] {
      assert AllEditLines(xs) + rest == rest;
    } else {
      var tail := AllEditLines(xs[1..]) + rest;
      GoodTail(good, xs, edits);
      LinesCons(xs, rest);
      FilesFail(via, good, xs[1..], edits[1..], rest, n + |EditLines(xs[0])|, m, what);
      assert Follows(via, tail) || edits[0].DeleteFile? by {
        if |xs| > 1 { TailBegins(via, good, xs[1..], edits[1..], rest); } else { assert tail == rest; }
      }
      OneFileFails(via, good, xs[0], edits[0], tail, n, m, what);
    }
  }

  lemma GoodTail(good: (EditText, Edit) -> bool, xs: seq<EditText>, edits: seq<Edit>)
    requires EachGood(good, xs, edits) && xs != []
    ensures EachGood(good, xs[1..], edits[1..]) && good(xs[0], edits[0])
    ensures |xs| > 1 ==> edits[1..][|edits| - 2] == edits[|edits| - 1]
  {
    assert forall i :: 0 <= i < |xs| - 1 ==> xs[1..][i] == xs[i + 1] && edits[1..][i] == edits[i + 1];
  }

  lemma TailBegins(via: Readers, good: (EditText, Edit) -> bool, xs: seq<EditText>, edits: seq<Edit>, rest: seq<string>)
    requires GoesOn(via, good) && EachGood(good, xs, edits) && xs != []
    ensures Follows(via, AllEditLines(xs) + rest)
  {
    assert good(xs[0], edits[0]);
    assert (AllEditLines(xs) + rest)[0] == xs[0].header;
  }

  lemma BrokenFails(via: Readers, good: (EditText, Edit) -> bool, gap: seq<string>, xs: seq<EditText>, edits: seq<Edit>,
      rest: seq<string>, n: nat, m: nat, what: Problem)
    requires GoesOn(via, good) && EachGood(good, xs, edits) && MayFollow(via, edits, rest)
    requires forall i :: 0 <= i < |gap| ==> via.head(gap[i]) == Blank
    requires Top(via, rest, n + |gap| + |AllEditLines(xs)|) == Err(m, what)
    ensures Top(via, gap + AllEditLines(xs) + rest, n) == Err(m, what)
  {
    FilesFail(via, good, xs, edits, rest, n + |gap|, m, what);
    GapTop(via, gap, AllEditLines(xs) + rest, n);
    assert gap + (AllEditLines(xs) + rest) == gap + AllEditLines(xs) + rest;
  }

  lemma SpelledGoesOn()
    ensures GoesOn(LINE_READERS, SpellsEdit)
  {
    forall x, e | SpellsEdit(x, e)
      ensures IsHeaderLine(x.header)
    {
      SpelledIsUnderstood(x, e);
    }
    forall x, e, tail: seq<string>, n: nat | SpellsEdit(x, e) && (e.DeleteFile? || Follows(LINE_READERS, tail))
      ensures Top(LINE_READERS, EditLines(x) + tail, n)
           == Prepend(HunkOf(e), Top(LINE_READERS, tail, n + |EditLines(x)|))
    {
      SpelledIsUnderstood(x, e);
      if e.DeleteFile? { DeleteTop(LINE_READERS, x, e.path, tail, n); } else { EditTop(LINE_READERS, x, e, tail, n); }
    }
  }

  /** Everything that is bad is an error, and what is blank is skipped. */
  ghost predicate Catches(via: Readers, w: Ways, bad: Badness) {
    && (forall raw :: w.blank(raw) ==> via.head(raw) == Blank)
    && forall rest, n, m, what :: bad(rest, n, m, what) ==> Top(via, rest, n) == Err(m, what)
  }

  lemma BrokenIsCaught(via: Readers, w: Ways, bad: Badness, lines: seq<string>, n: nat, m: nat, what: Problem)
    requires GoesOn(via, w.fits) && Catches(via, w, bad) && IsBroken(w, via.stop, bad, lines, n, m, what)
    ensures Top(via, lines, n) == Err(m, what)
  {
    var gap, xs, edits, rest :| Broken(w, via.stop, bad, lines, n, m, what, gap, xs, edits, rest);
    assert EachGood(w.fits, xs, edits) && MayFollow(via, edits, rest);
    BrokenFails(via, w.fits, gap, xs, edits, rest, n, m, what);
  }

  lemma TheseAreCaught()
    ensures Catches(LINE_READERS, TheseWays(), IsBad)
  {
    forall raw | IsBlank(raw)
      ensures HeadOf(raw) == Blank
    {
    }
    forall rest, n, m, what | IsBad(rest, n, m, what)
      ensures Top(LINE_READERS, rest, n) == Err(m, what)
    {
      BadFails(rest, n, m, what);
    }
  }

  lemma RefusedFails(lines: seq<string>, m: nat, what: Problem)
    requires Refused(lines, m, what)
    ensures Top(LINE_READERS, lines, 2) == Err(m, what)
  {
    SpelledGoesOn();
    TheseAreCaught();
    BrokenIsCaught(LINE_READERS, TheseWays(), IsBad, lines, 2, m, what);
  }

  // ---- What is refused is bad -------------------------------------------------------

  lemma {:induction false} ConsumeFails<T(!new)>(
    stop: string -> bool, read: (T, string) -> Result<T>, rest: seq<string>, n: nat, t: T)
    returns (lines: seq<string>, u: T, tail: seq<string>)
    requires Consume(stop, read, rest, n, t).Err?
    ensures rest == lines + tail && Feeds(stop, read, lines, t, u)
    ensures tail != [] && !stop(tail[0]) && read(u, tail[0]).Err?
    ensures Consume(stop, read, rest, n, t) == Err(n + |lines|, read(u, tail[0]).problem)
    decreases |rest|
  {
    if read(t, rest[0]).Err? {
      lines, u, tail := [], t, rest;
    } else {
      var more;
      more, u, tail := ConsumeFails(stop, read, rest[1..], n + 1, read(t, rest[0]).value);
      lines := [rest[0]] + more;
      assert lines[1..] == more && rest == [rest[0]] + rest[1..];
    }
  }

  /** The first file fails. */
  predicate FileFails(via: Readers, raw: string, more: seq<string>, n: nat, m: nat, what: Problem) {
    match via.head(raw)
    case NoHead => m == n && what == BadHeader
    case AddHead(_) => AddBody(via, more, n + 1) == Err(m, what)
    case UpdateHead(_) => UpdateBody(via, more, n + 1) == Err(m, what)
    case _ => false
  }

  ghost predicate Explains(via: Readers, bad: Badness) {
    forall raw, more, n, m, what {:trigger FileFails(via, raw, more, n, m, what)} ::
      FileFails(via, raw, more, n, m, what) ==> bad([raw] + more, n, m, what)
  }

  /** Nothing is good in front of it. */
  lemma BadAtOnce(w: Ways, stop: string -> bool, bad: Badness, rest: seq<string>, n: nat, m: nat, what: Problem)
    requires rest != [] && bad(rest, n, m, what)
    ensures IsBroken(w, stop, bad, rest, n, m, what)
  {
    assert [] + AllEditLines([]) + rest == rest;
    assert Broken(w, stop, bad, rest, n, m, what, [], [], [], rest);
  }

  lemma BlankBreaks(w: Ways, stop: string -> bool, bad: Badness, raw: string, lines: seq<string>, n: nat, m: nat,
      what: Problem)
    requires w.blank(raw) && IsBroken(w, stop, bad, lines, n + 1, m, what)
    ensures IsBroken(w, stop, bad, [raw] + lines, n, m, what)
  {
    var gap, xs, edits, rest :| Broken(w, stop, bad, lines, n + 1, m, what, gap, xs, edits, rest);
    assert [raw] + (gap + AllEditLines(xs) + rest) == ([raw] + gap) + AllEditLines(xs) + rest;
    assert Broken(w, stop, bad, [raw] + lines, n, m, what, [raw] + gap, xs, edits, rest);
  }

  lemma FrontBreaks(w: Ways, stop: string -> bool, bad: Badness, x: EditText, e: Edit, n: nat, m: nat, what: Problem,
      xs: seq<EditText>, edits: seq<Edit>, rest: seq<string>)
    requires w.fits(x, e) && EachFits(w, xs, edits) && rest != []
    requires (edits == [] && e.DeleteFile?) || (edits != [] && edits[|edits| - 1].DeleteFile?) || stop(rest[0])
    requires bad(rest, n + |EditLines(x)| + |AllEditLines(xs)|, m, what)
    ensures IsBroken(w, stop, bad, EditLines(x) + (AllEditLines(xs) + rest), n, m, what)
  {
    var ys, more := [x] + xs, [e] + edits;
    assert ys[1..] == xs && more[1..] == edits;
    assert [] + AllEditLines(ys) + rest == EditLines(x) + (AllEditLines(xs) + rest);
    assert Broken(w, stop, bad, EditLines(x) + (AllEditLines(xs) + rest), n, m, what, [], ys, more, rest);
  }

  lemma NoGap(w: Ways, gap: seq<string>, rest: seq<string>)
    requires EachBlank(w, gap) && gap + rest != [] && !w.blank((gap + rest)[0])
    ensures gap == []
  {
  }

  lemma FirstBreaks(w: Ways, stop: string -> bool, bad: Badness, x: EditText, e: Edit, lines: seq<string>, n: nat,
      m: nat, what: Problem, gap: seq<string>, xs: seq<EditText>, edits: seq<Edit>, rest: seq<string>)
    requires w.fits(x, e) && Broken(w, stop, bad, lines, n + |EditLines(x)|, m, what, gap, xs, edits, rest)
    requires lines != [] && stop(lines[0]) && !w.blank(lines[0])
    ensures IsBroken(w, stop, bad, EditLines(x) + lines, n, m, what)
  {
    assert lines == gap + (AllEditLines(xs) + rest);
    NoGap(w, gap, AllEditLines(xs) + rest);
    assert lines == AllEditLines(xs) + rest;
    if edits == [] { assert lines == rest; }
    FrontBreaks(w, stop, bad, x, e, n, m, what, xs, edits, rest);
  }

  /** One more good file in front of a file. */
  lemma FileBreaks(w: Ways, stop: string -> bool, bad: Badness, file: seq<string>, h: Hunk, lines: seq<string>, n: nat,
      m: nat, what: Problem)
    requires Makes(w, file, h) && IsBroken(w, stop, bad, lines, n + |file|, m, what)
    requires lines != [] && stop(lines[0]) && !w.blank(lines[0])
    ensures IsBroken(w, stop, bad, file + lines, n, m, what)
  {
    var x, e :| w.fits(x, e) && EditLines(x) == file && HunkOf(e) == h;
    var gap, xs, edits, rest :| Broken(w, stop, bad, lines, n + |file|, m, what, gap, xs, edits, rest);
    FirstBreaks(w, stop, bad, x, e, lines, n, m, what, gap, xs, edits, rest);
  }

  lemma LinesRegroup(raw: string, gap: seq<string>, lines: seq<string>, rest: seq<string>)
    ensures [raw] + gap + (lines + rest) == [raw] + (gap + lines + rest)
  {
  }

  /** A deletion takes the gap behind it. */
  lemma DeleteBreaks(w: Ways, stop: string -> bool, bad: Badness, raw: string, h: Hunk, n: nat, m: nat, what: Problem,
      gap: seq<string>, xs: seq<EditText>, edits: seq<Edit>, rest: seq<string>)
    requires h.Delete? && Makes(w, [raw] + gap, h) && EachFits(w, xs, edits) && rest != []
    requires edits == [] || edits[|edits| - 1].DeleteFile? || stop(rest[0])
    requires bad(rest, n + 1 + |gap| + |AllEditLines(xs)|, m, what)
    ensures IsBroken(w, stop, bad, [raw] + (gap + AllEditLines(xs) + rest), n, m, what)
  {
    var x, e :| w.fits(x, e) && EditLines(x) == [raw] + gap && HunkOf(e) == h;
    LinesRegroup(raw, gap, AllEditLines(xs), rest);
    FrontBreaks(w, stop, bad, x, e, n, m, what, xs, edits, rest);
  }

  lemma DeleteIsBroken(via: Readers, w: Ways, bad: Badness, raw: string, lines: seq<string>, n: nat, m: nat,
      what: Problem)
    requires Suits(via, w) && via.head(raw).DeleteHead? && IsBroken(w, via.stop, bad, lines, n + 1, m, what)
    ensures IsBroken(w, via.stop, bad, [raw] + lines, n, m, what)
  {
    var gap, xs, edits, rest :| Broken(w, via.stop, bad, lines, n + 1, m, what, gap, xs, edits, rest);
    assert EachBlank(w, gap);
    DeleteBreaks(w, via.stop, bad, raw, Delete(via.head(raw).path), n, m, what, gap, xs, edits, rest);
  }

  lemma AddIsBroken(via: Readers, w: Ways, bad: Badness, raw: string, body: seq<string>, contents: string,
      rest: seq<string>, n: nat, m: nat, what: Problem)
    requires Suits(via, w) && via.head(raw).AddHead? && Feeds(via.stop, via.add, body, "", contents) && contents != ""
    requires rest != [] && via.stop(rest[0]) && IsBroken(w, via.stop, bad, rest, n + 1 + |body|, m, what)
    ensures IsBroken(w, via.stop, bad, [raw] + (body + rest), n, m, what)
  {
    FileBreaks(w, via.stop, bad, [raw] + body, Add(via.head(raw).path, contents), rest, n, m, what);
    assert [raw] + body + rest == [raw] + (body + rest);
  }

  lemma UpdateIsBroken(via: Readers, w: Ways, bad: Badness, raw: string, body: seq<string>, d: Draft,
      rest: seq<string>, n: nat, m: nat, what: Problem)
    requires Suits(via, w) && via.head(raw).UpdateHead?
    requires Feeds(via.stop, via.update, body, Draft("", []), d) && d != Draft("", [])
    requires rest != [] && via.stop(rest[0]) && IsBroken(w, via.stop, bad, rest, n + 1 + |body|, m, what)
    ensures IsBroken(w, via.stop, bad, [raw] + (body + rest), n, m, what)
  {
    FileBreaks(w, via.stop, bad, [raw] + body, Update(via.head(raw).path, d.movePath, d.chunks), rest, n, m, what);
    assert [raw] + body + rest == [raw] + (body + rest);
  }

  /** A first file that does not fail, in front of a failure. */
  lemma LaterFailure(via: Readers, raw: string, more: seq<string>, n: nat, m: nat, what: Problem)
    requires Top(via, [raw] + more, n) == Err(m, what) && !FileFails(via, raw, more, n, m, what)
    ensures !via.head(raw).NoHead?
    ensures via.head(raw).Blank? || via.head(raw).DeleteHead? ==> Top(via, more, n + 1) == Err(m, what)
  {
    assert ([raw] + more)[1..] == more;
  }

  lemma AddBeforeFailure(via: Readers, raw: string, more: seq<string>, n: nat, m: nat, what: Problem)
    returns (body: seq<string>, contents: string, rest: seq<string>)
    requires Top(via, [raw] + more, n) == Err(m, what) && !FileFails(via, raw, more, n, m, what)
    requires via.head(raw).AddHead?
    ensures more == body + rest && Feeds(via.stop, via.add, body, "", contents) && contents != ""
    ensures rest != [] && via.stop(rest[0]) && Top(via, rest, n + 1 + |body|) == Err(m, what)
  {
    assert ([raw] + more)[1..] == more;
    body := ConsumeFeeds(via.stop, via.add, more, n + 1, "");
    var b := AddBody(via, more, n + 1).value;
    contents, rest := b.value, b.rest;
  }

  lemma UpdateBeforeFailure(via: Readers, raw: string, more: seq<string>, n: nat, m: nat, what: Problem)
    returns (body: seq<string>, d: Draft, rest: seq<string>)
    requires Top(via, [raw] + more, n) == Err(m, what) && !FileFails(via, raw, more, n, m, what)
    requires via.head(raw).UpdateHead?
    ensures more == body + rest && Feeds(via.stop, via.update, body, Draft("", []), d) && d != Draft("", [])
    ensures rest != [] && via.stop(rest[0]) && Top(via, rest, n + 1 + |body|) == Err(m, what)
  {
    assert ([raw] + more)[1..] == more;
    body := ConsumeFeeds(via.stop, via.update, more, n + 1, Draft("", []));
    var b := UpdateBody(via, more, n + 1).value;
    d, rest := b.value, b.rest;
  }

  lemma {:induction false} FailureIsBroken(via: Readers, w: Ways, bad: Badness, lines: seq<string>, n: nat, m: nat,
      what: Problem)
    requires Suits(via, w) && Explains(via, bad) && Top(via, lines, n) == Err(m, what)
    ensures IsBroken(w, via.stop, bad, lines, n, m, what)
    decreases |lines|
  {
    var raw, more := lines[0], lines[1..];
    assert lines == [raw] + more;
    if FileFails(via, raw, more, n, m, what) {
      BadAtOnce(w, via.stop, bad, lines, n, m, what);
    } else if via.head(raw).AddHead? {
      var body, contents, rest := AddBeforeFailure(via, raw, more, n, m, what);
      FailureIsBroken(via, w, bad, rest, n + 1 + |body|, m, what);
      AddIsBroken(via, w, bad, raw, body, contents, rest, n, m, what);
    } else if via.head(raw).UpdateHead? {
      var body, d, rest := UpdateBeforeFailure(via, raw, more, n, m, what);
      FailureIsBroken(via, w, bad, rest, n + 1 + |body|, m, what);
      UpdateIsBroken(via, w, bad, raw, body, d, rest, n, m, what);
    } else {
      LaterFailure(via, raw, more, n, m, what);
      FailureIsBroken(via, w, bad, more, n + 1, m, what);
      if via.head(raw).Blank? {
        BlankBreaks(w, via.stop, bad, raw, more, n, m, what);
      } else {
        DeleteIsBroken(via, w, bad, raw, more, n, m, what);
      }
    }
  }

  // ---- What the parser says ---------------------------------------------------------

  lemma StrayIsBad(raw: string, more: seq<string>, n: nat)
    requires HeadOf(raw).NoHead?
    ensures IsStray([raw] + more, n, n, BadHeader)
  {
  }

  lemma AddIsBad(raw: string, path: string, more: seq<string>, n: nat, m: nat, what: Problem)
    requires TrimSpace(raw) == "*** Add File: " + path && AddBody(LINE_READERS, more, n + 1) == Err(m, what)
    ensures IsBad([raw] + more, n, m, what)
  {
    var rest := [raw] + more;
    assert rest[1..] == more;
    if Consume(IsHeaderLine, AddLine, more, n + 1, "").Err? {
      var body, u, tail := ConsumeFails(IsHeaderLine, AddLine, more, n + 1, "");
      var added := AddedIsWritten(body, "", u);
      AddedLength(added);
      PlusMeans(u, tail[0]);
      assert IsBadAdd(rest, n, m, what, path, added, tail);
    } else {
      var body := ConsumeFeeds(IsHeaderLine, AddLine, more, n + 1, "");
      var added := AddedIsWritten(body, "", "");
      assert "" + ContentsOf(added) == ContentsOf(added);
      assert body == [];
      assert IsEmptyAdd(rest, n, m, what, path);
    }
  }

  lemma UpdateLineIsBad(raw: string, path: string, more: seq<string>, n: nat, m: nat, what: Problem)
    requires TrimSpace(raw) == "*** Update File: " + path
    requires Consume(IsHeaderLine, UpdateLine, more, n + 1, Draft("", [])) == Err(m, what)
    ensures IsBad([raw] + more, n, m, what)
  {
    var rest := [raw] + more;
    var body, d, tail := ConsumeFails(IsHeaderLine, UpdateLine, more, n + 1, Draft("", []));
    BodyIsWritten(body, d);
    WrongMeans(d, tail[0], what);
    assert IsBadUpdate(rest, n, m, what, path, body, d, tail);
  }

  lemma UpdateIsBad(raw: string, path: string, more: seq<string>, n: nat, m: nat, what: Problem)
    requires TrimSpace(raw) == "*** Update File: " + path && UpdateBody(LINE_READERS, more, n + 1) == Err(m, what)
    ensures IsBad([raw] + more, n, m, what)
  {
    if Consume(IsHeaderLine, UpdateLine, more, n + 1, Draft("", [])).Err? {
      UpdateLineIsBad(raw, path, more, n, m, what);
    } else {
      var body := ConsumeFeeds(IsHeaderLine, UpdateLine, more, n + 1, Draft("", []));
      NoLineIsRead(body);
      assert ([raw] + more)[1..] == more;
      assert IsEmptyUpdate([raw] + more, n, m, what, path);
    }
  }

  /** Every line that is read leaves something in the draft. */
  lemma NoLineIsRead(body: seq<string>)
    requires Reads(body, Draft("", []), Draft("", []))
    ensures body == []
  {
    BodyIsWritten(body, Draft("", []));
    BodyIsRead(body, Draft("", []));
  }

  lemma TheseExplain()
    ensures Explains(LINE_READERS, IsBad)
  {
    forall raw, more, n, m, what | FileFails(LINE_READERS, raw, more, n, m, what)
      ensures IsBad([raw] + more, n, m, what)
    {
      HeadIsWritten(raw);
      match HeadOf(raw) {
        case NoHead => StrayIsBad(raw, more, n);
        case AddHead(path) => AddIsBad(raw, path, more, n, m, what);
        case UpdateHead(path) => UpdateIsBad(raw, path, more, n, m, what);
        case _ =>
      }
    }
  }

  /** The lines of a patch are refused with this problem at this line exactly when what is
      there is bad: behind files that are good, the first of that is wrong. */
  lemma RefusedExactly(lines: seq<string>, m: nat, what: Problem)
    ensures Top(LINE_READERS, lines, 2) == Err(m, what) <==> Refused(lines, m, what)
  {
    if Top(LINE_READERS, lines, 2) == Err(m, what) {
      TheseSuit();
      TheseExplain();
      FailureIsBroken(LINE_READERS, TheseWays(), IsBad, lines, 2, m, what);
    }
    if Refused(lines, m, what) { RefusedFails(lines, m, what); }
  }

  // ---- The whole text ---------------------------------------------------------------

  /** A text of at least four lines whose first and last are those of a here-document is
      read without them. */
  ghost predicate Unwrapped(lines: seq<string>, marked: seq<string>) {
    if exists h, t, inside :: Heredoc(lines, h, t, inside) && |inside| >= 2
    then exists h, t :: Heredoc(lines, h, t, marked) && |marked| >= 2
    else marked == lines
  }

  lemma HeredocIs(lines: seq<string>, h: string, t: string, inside: seq<string>)
    requires Heredoc(lines, h, t, inside) && |inside| >= 2
    ensures Unwrap(lines) == inside
  {
    assert lines[1 .. |lines| - 1] == inside;
  }

  lemma UnwrapMeans(lines: seq<string>, marked: seq<string>)
    requires lines != []
    ensures Unwrapped(lines, marked) <==> marked == Unwrap(lines)
  {
    if h, t, inside :| Heredoc(lines, h, t, inside) && |inside| >= 2 {
      HeredocIs(lines, h, t, inside);
      forall g, u, other | Heredoc(lines, g, u, other) && |other| >= 2
        ensures other == Unwrap(lines)
      {
        HeredocIs(lines, g, u, other);
      }
    } else {
      if Unwrap(lines) != lines { UnwrapsHeredoc(lines); }
    }
  }

  /** The markers first, then what is between them. */
  ghost predicate IsRefused(marked: seq<string>, m: nat, what: Problem)
    requires marked != []
  {
    if TrimSpace(marked[0]) != "*** Begin Patch" then m == 0 && what == FirstLine
    else if TrimSpace(marked[|marked| - 1]) != "*** End Patch" then m == 0 && what == LastLine
    else exists inner :: Marked(marked, inner) && Refused(inner, m, what)
  }

  lemma InnerIs(marked: seq<string>, inner: seq<string>)
    requires Marked(marked, inner)
    ensures marked != [] && |marked| >= 2 && inner == marked[1 .. |marked| - 1]
  {
  }

  lemma InnerIsRead(marked: seq<string>) returns (inner: seq<string>)
    requires marked != [] && TrimSpace(marked[0]) == BEGIN_PATCH && TrimSpace(marked[|marked| - 1]) == END_PATCH
    ensures Marked(marked, inner) && ParseLines(LINE_READERS, marked) == Top(LINE_READERS, inner, 2)
  {
    BeginIsNotEnd();
    inner := marked[1 .. |marked| - 1];
    assert marked == [marked[0]] + inner + [marked[|marked| - 1]];
  }

  lemma LinesAreRefused(marked: seq<string>, inner: seq<string>, m: nat, what: Problem)
    requires Marked(marked, inner)
    ensures (exists other :: Marked(marked, other) && Refused(other, m, what)) <==> Refused(inner, m, what)
  {
    InnerIs(marked, inner);
    if other :| Marked(marked, other) && Refused(other, m, what) { InnerIs(marked, other); }
  }

  lemma MarkedIsRefused(marked: seq<string>, m: nat, what: Problem)
    requires marked != []
    ensures ParseLines(LINE_READERS, marked) == Err(m, what) <==> IsRefused(marked, m, what)
  {
    if TrimSpace(marked[0]) == BEGIN_PATCH && TrimSpace(marked[|marked| - 1]) == END_PATCH {
      var inner := InnerIsRead(marked);
      RefusedExactly(inner, m, what);
      LinesAreRefused(marked, inner, m, what);
    }
  }

  /** What a text is refused for, and at which line. With `ParseExactly` this says what the
      parser gives for every text. */
  lemma ErrorsExactly(text: string, m: nat, what: Problem)
    ensures Parse(text) == Err(m, what) <==>
              exists marked ::
                Unwrapped(SplitLines(TrimSpace(text)), marked) && marked != [] && IsRefused(marked, m, what)
  {
    var lines := SplitLines(TrimSpace(text));
    UnwrapMeans(lines, Unwrap(lines));
    MarkedIsRefused(Unwrap(lines), m, what);
    if marked :| Unwrapped(lines, marked) && marked != [] && IsRefused(marked, m, what) {
      UnwrapMeans(lines, marked);
    }
  }
}
