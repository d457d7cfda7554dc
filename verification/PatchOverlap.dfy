/** When the replacements of a patch keep apart, told from the lines and the chunks as
    `computeReplacements` of `applypatch/apply.go` walks over them. */
module PatchOverlap {
  import opened Strings
  import opened PatchParser
  import opened PatchApply
  import opened PatchSplice

  /** The walk over the chunks. `ends` is the end of the latest match so far; `put` the
      latest place in front of the end of the file where lines went in because an empty old
      line was not there; `inside` tells that lines were inserted before an empty last line. */
  datatype Walk = Walk(cursor: nat, ends: nat, put: nat, inside: bool)

  const START := Walk(0, 0, 0, false)

  /** A match at the end of the file must begin at or behind `ends` and `put`, so that its
      length is compared with what is left of the lines. An insertion before an empty last
      line must not follow a match that took this line, and no later match may begin before
      that line and reach the end. */
  predicate Clear(lines: seq<string>, chunk: Chunk, n: nat, next: nat, w: Walk) {
    if chunk.oldLines == [] then
      Insertion(lines, chunk.endOfFile) < |lines| ==> w.ends < |lines|
    else
      n > 0 ==>
        && (chunk.endOfFile ==> w.ends <= |lines| - n && w.put <= |lines| - n)
        && (w.inside && n > 1 ==> next < |lines|)
  }

  function After(lines: seq<string>, chunk: Chunk, n: nat, next: nat, w: Walk): Walk {
    if chunk.oldLines == [] then w.(cursor := next, inside := w.inside || Insertion(lines, chunk.endOfFile) < |lines|)
    else if n == 0 then w.(cursor := next, put := if next < |lines| then next else w.put)
    else w.(cursor := next, ends := next)
  }

  /** Each chunk, with the number of lines that it takes out and the cursor behind it. */
  predicate StayApart(key: Keys, lines: seq<string>, chunks: seq<Chunk>, w: Walk)
    decreases |chunks|
  {
    chunks == [] ||
    match Locate(key, lines, chunks[0], w.cursor)
    case Located(edit, next) =>
      && Clear(lines, chunks[0], edit.oldLen, next, w)
      && StayApart(key, lines, chunks[1..], After(lines, chunks[0], edit.oldLen, next, w))
    case _ => true
  }

  // ---- What the walk knows of the replacements so far -------------------------------

  ghost predicate EndsOf(rs: seq<Replacement>, ends: nat) {
    && (forall r :: r in rs && r.oldLen > 0 ==> End(r) <= ends)
    && (ends > 0 ==> exists r :: r in rs && r.oldLen > 0 && End(r) == ends)
  }

  ghost predicate PutOf(rs: seq<Replacement>, n: nat, put: nat, inside: bool) {
    && (forall r :: r in rs && r.oldLen == 0 ==> r.start <= put || r.start == n || (inside && r.start + 1 == n))
    && (put > 0 ==> put < n && exists r :: r in rs && r.oldLen == 0 && r.start == put)
    && (inside ==> n > 0 && exists r :: r in rs && r.oldLen == 0 && r.start + 1 == n)
  }

  ghost predicate Known(rs: seq<Replacement>, n: nat, w: Walk) {
    EndsOf(rs, w.ends) && PutOf(rs, n, w.put, w.inside) && w.ends <= w.cursor <= n && w.put <= w.cursor
  }

  /** An insertion is compatible with what comes before it unless a match has passed it. */
  lemma PointCompatible(rs: seq<Replacement>, n: nat, w: Walk, r: Replacement)
    requires Known(rs, n, w) && r.oldLen == 0 && r.start <= n && (w.ends <= r.start || r.start + 1 == n)
    ensures CompatibleWith(rs, r) <==> w.ends <= r.start
  {
    if w.ends > r.start {
      var e :| e in rs && e.oldLen > 0 && End(e) == w.ends;
      assert !Compatible(e, r);
    }
  }

  lemma MatchCompatible(rs: seq<Replacement>, n: nat, w: Walk, r: Replacement)
    requires Known(rs, n, w) && r.oldLen > 0 && End(r) <= n && (w.cursor <= r.start || End(r) == n)
    ensures CompatibleWith(rs, r) <==>
              w.ends <= r.start && w.put <= r.start && (w.inside && r.oldLen > 1 ==> End(r) < n)
  {
    if w.ends > r.start {
      var e :| e in rs && e.oldLen > 0 && End(e) == w.ends;
      assert !Compatible(e, r);
    } else if w.put > r.start {
      var e :| e in rs && e.oldLen == 0 && e.start == w.put;
      assert !Compatible(e, r);
    } else if w.inside && r.oldLen > 1 && End(r) == n {
      var e :| e in rs && e.oldLen == 0 && e.start + 1 == n;
      assert !Compatible(e, r);
    }
  }

  lemma KnownMatch(rs: seq<Replacement>, n: nat, w: Walk, r: Replacement)
    requires Known(rs, n, w) && r.oldLen > 0 && w.cursor <= End(r) <= n
    ensures Known(rs + [r], n, w.(cursor := End(r), ends := End(r)))
  {
    assert r in rs + [r];
    assert forall e :: e in rs ==> e in rs + [r];
  }

  lemma KnownInsertion(rs: seq<Replacement>, n: nat, w: Walk, r: Replacement, next: nat)
    requires Known(rs, n, w) && r.oldLen == 0 && w.cursor <= next <= n && (r.start == n || r.start + 1 == n)
    ensures Known(rs + [r], n, w.(cursor := next, inside := w.inside || r.start < n))
  {
    assert r in rs + [r];
    assert forall e :: e in rs ==> e in rs + [r];
  }

  lemma KnownPut(rs: seq<Replacement>, n: nat, w: Walk, r: Replacement)
    requires Known(rs, n, w) && r.oldLen == 0 && w.cursor <= r.start <= n
    ensures Known(rs + [r], n, w.(cursor := r.start, put := if r.start < n then r.start else w.put))
  {
    assert r in rs + [r];
    assert forall e :: e in rs ==> e in rs + [r];
  }

  /** Lines for an empty old line that the file lacks go in at the cursor. */
  lemma NothingToMatch(key: Keys, lines: seq<string>, chunk: Chunk, cursor: nat)
    requires chunk.oldLines != [] && Locate(key, lines, chunk, cursor).Located?
             && Locate(key, lines, chunk, cursor).edit.oldLen == 0
    ensures var l := Locate(key, lines, chunk, cursor); cursor <= l.cursor == l.edit.start
  {
  }

  /** One chunk. */
  lemma StepIsExact(key: Keys, lines: seq<string>, chunk: Chunk, w: Walk, done: seq<Replacement>, r: Replacement,
      next: nat)
    requires Known(done, |lines|, w) && Locate(key, lines, chunk, w.cursor) == Located(r, next)
    ensures Clear(lines, chunk, r.oldLen, next, w) <==> CompatibleWith(done, r)
    ensures Known(done + [r], |lines|, After(lines, chunk, r.oldLen, next, w))
  {
    LocateInBounds(key, lines, chunk, w.cursor);
    if chunk.oldLines == [] {
      PointCompatible(done, |lines|, w, r);
      KnownInsertion(done, |lines|, w, r, next);
    } else if r.oldLen == 0 {
      NothingToMatch(key, lines, chunk, w.cursor);
      PointCompatible(done, |lines|, w, r);
      KnownPut(done, |lines|, w, r);
    } else {
      MatchCompatible(done, |lines|, w, r);
      KnownMatch(done, |lines|, w, r);
    }
  }

  lemma FrontCompatible(a: seq<Replacement>, b: seq<Replacement>)
    requires AllCompatible(a + b)
    ensures AllCompatible(a)
  {
    forall i, j | 0 <= i < j < |a|
      ensures Compatible(a[i], a[j])
    {
      assert (a + b)[i] == a[i] && (a + b)[j] == a[j];
    }
  }

  lemma {:induction false} WalkIsExact(key: Keys, lines: seq<string>, chunks: seq<Chunk>, w: Walk,
      done: seq<Replacement>)
    requires Known(done, |lines|, w) && AllCompatible(done) && PlanAll(key, lines, chunks, w.cursor).Plan?
    ensures StayApart(key, lines, chunks, w) <==> AllCompatible(done + PlanAll(key, lines, chunks, w.cursor).edits)
    decreases |chunks|
  {
    var rs := PlanAll(key, lines, chunks, w.cursor).edits;
    if chunks == [] {
      assert done + rs == done;
    } else {
      var l := Locate(key, lines, chunks[0], w.cursor);
      PlanCons(key, lines, chunks, w.cursor);
      var r, more := l.edit, PlanAll(key, lines, chunks[1..], l.cursor).edits;
      assert done + [r] + more == done + rs;
      CompatibleSnoc(done, r);
      StepIsExact(key, lines, chunks[0], w, done, r, l.cursor);
      if CompatibleWith(done, r) {
        WalkIsExact(key, lines, chunks[1..], After(lines, chunks[0], r.oldLen, l.cursor, w), done + [r]);
      } else if AllCompatible(done + rs) {
        FrontCompatible(done + [r], more);
      }
    }
  }

  /** The replacements of a patch keep apart exactly when the walk over its chunks finds
      no match at the end that goes back too far and no insertion inside a match. */
  lemma StayApartIsExact(key: Keys, lines: seq<string>, chunks: seq<Chunk>)
    requires PlanAll(key, lines, chunks, 0).Plan?
    ensures StayApart(key, lines, chunks, START) <==> Apart(Sorted(PlanAll(key, lines, chunks, 0).edits))
  {
    var rs := PlanAll(key, lines, chunks, 0).edits;
    WalkIsExact(key, lines, chunks, START, []);
    assert [] + rs == rs;
    SortedApart(rs);
  }
}
