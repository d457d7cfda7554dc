/** One durable model step: `callModelDurable`, `supersedeActiveAttempt` and
    `callModelAttemptDurable` of `agent.go`, over the attempts that `harness/state.go`
    keeps and validates. */
module ModelAttempts {
  import opened Options

  type ID = nat

  datatype Status = Started | Streaming | Interrupted | Superseded | Committed

  datatype Attempt = Attempt(
    id: ID, step: nat, status: Status, text: string, calls: seq<string>, replacesID: Option<ID>,
        replacementID: Option<ID>)

  const HISTORY_LIMIT := 64

  // ---- What a stream says -----------------------------------------------------------

  datatype Final = Final(content: string, calls: seq<string>)

  /** A stream event; reasoning never enters the answer. */
  datatype Chunk = Reasoning(text: string) | Chunk(delta: string, calls: seq<string>, message: Option<Final>)

  /** A stream that was read to its end, or until it failed. */
  datatype Stream = Stream(chunks: seq<Chunk>, failed: bool)

  datatype Draft = Draft(text: string, calls: seq<string>, final: Option<Final>)

  const NO_DRAFT := Draft("", [], None)

  function Feed(d: Draft, c: Chunk): Draft {
    match c
    case Reasoning(_) => d
    case Chunk(delta, calls, message) =>
      var text, more := d.text + delta, d.calls + calls;
      match message
      case None => d.(text := text, calls := more)
      case Some(m) => Draft(if m.content != "" then m.content else text, if m.calls != [] then m.calls
          else more, Some(m))
  }

  function Drafted(chunks: seq<Chunk>): Draft {
    if chunks == [] then NO_DRAFT else Feed(Drafted(chunks[..|chunks| - 1]), chunks[|chunks| - 1])
  }

  datatype Message = Message(content: string, calls: seq<string>)

  /** The answer: the provider's own final text counts, where it has one. */
  function Answer(chunks: seq<Chunk>): Message {
    var d := Drafted(chunks);
    Message(if d.final.Some? && d.final.value.content != "" then d.final.value.content else d.text, d.calls)
  }

  // ---- What that comes to -----------------------------------------------------------

  function Delta(c: Chunk): string { if c.Chunk? then c.delta else "" }

  function NewCalls(c: Chunk): seq<string> { if c.Chunk? then c.calls else [] }

  /** The text of a final message, and its calls. */
  function FinalText(c: Chunk): string { if c.Chunk? && c.message.Some? then c.message.value.content else "" }

  function FinalCalls(c: Chunk): seq<string> { if c.Chunk? && c.message.Some? then c.message.value.calls else [] }

  /** The lists one after the other. */
  function Joined<T>(parts: seq<seq<T>>): seq<T> { if parts == [] then [] else parts[0] + Joined(parts[1..]) }

  function Each<T>(f: Chunk -> seq<T>, chunks: seq<Chunk>): seq<seq<T>> { seq(|chunks|, i requires 0 <= i < |chunks| =>
      f(chunks[i])) }

  /** The newest of the lists that say something replaces everything before it, here the one
      before `k`, and `whole` is that one with the parts since. */
  ghost predicate From<T(!new)>(whole: seq<T>, parts: seq<seq<T>>, finals: seq<seq<T>>, k: nat) {
    && k <= |parts| == |finals|
    && (k > 0 ==> finals[k - 1] != []) && (forall i :: k <= i < |finals| ==> finals[i] == [])
    && whole == (if k > 0 then finals[k - 1] else []) + Joined(parts[k..])
  }

  ghost predicate SinceFinal<T(!new)>(whole: seq<T>, parts: seq<seq<T>>, finals: seq<seq<T>>) {
    exists k: nat :: From(whole, parts, finals, k)
  }

  ghost predicate HasText(text: string, chunks: seq<Chunk>) {
    SinceFinal(text, Each(Delta, chunks), Each(FinalText, chunks))
  }

  ghost predicate HasCalls(calls: seq<string>, chunks: seq<Chunk>) {
    SinceFinal(calls, Each(NewCalls, chunks), Each(FinalCalls, chunks))
  }

  /** An attempt has the text and the calls of a stream. */
  ghost predicate Holds(a: Attempt, chunks: seq<Chunk>) { HasText(a.text, chunks) && HasCalls(a.calls, chunks) }

  /** The last final message of a stream. */
  ghost predicate IsFinal(m: Final, chunks: seq<Chunk>, k: nat) {
    && k < |chunks| && chunks[k].Chunk? && chunks[k].message == Some(m)
    && forall i :: k < i < |chunks| ==> HasNone(chunks[i])
  }

  predicate HasNone(c: Chunk) { c.Reasoning? || c.message.None? }

  /** An answer has the text of the last final message, and what the draft has when there is
      no such message or it has no text. */
  ghost predicate Answers(m: Message, chunks: seq<Chunk>) {
    && HasCalls(m.calls, chunks)
    && (|| (exists f, k: nat :: IsFinal(f, chunks, k) && (if f.content != "" then m.content == f.content
          else HasText(m.content, chunks)))
        || ((forall c :: c in chunks ==> HasNone(c)) && HasText(m.content, chunks)))
  }

  /** Joining keeps the order, and a single list as it is. */
  lemma {:induction false} JoinedInOrder<T>(a: seq<seq<T>>, b: seq<seq<T>>)
    ensures Joined(a + b) == Joined(a) + Joined(b)
  {
    if a == [] {
      assert a + b == b;
    } else {
      assert (a + b)[1..] == a[1..] + b;
      JoinedInOrder(a[1..], b);
    }
  }

  lemma FromGrows<T(!new)>(whole: seq<T>, parts: seq<seq<T>>, finals: seq<seq<T>>, k: nat, part: seq<T>)
    requires From(whole, parts, finals, k)
    ensures From(whole + part, parts + [part], finals + [[]], k)
  {
    var more, ends := parts + [part], finals + [[]];
    assert more[k..] == parts[k..] + [part];
    JoinedInOrder(parts[k..], [part]);
    assert [part][1..] == [];
    assert Joined([part]) == part + [];
    var first := if k > 0 then finals[k - 1] else [];
    assert first + Joined(parts[k..]) + part == first + (Joined(parts[k..]) + part);
    assert k > 0 ==> ends[k - 1] == finals[k - 1];
  }

  lemma SinceFinalGrows<T(!new)>(whole: seq<T>, parts: seq<seq<T>>, finals: seq<seq<T>>, part: seq<T>, final: seq<T>)
    requires SinceFinal(whole, parts, finals)
    ensures SinceFinal(if final != [] then final else whole + part, parts + [part], finals + [final])
  {
    var k: nat :| From(whole, parts, finals, k);
    if final != [] {
      var n := |parts| + 1;
      assert (parts + [part])[n..] == [] && (finals + [final])[n - 1] == final;
      assert From(final, parts + [part], finals + [final], n);
    } else {
      FromGrows(whole, parts, finals, k, part);
    }
  }

  lemma EachGrows<T>(f: Chunk -> seq<T>, chunks: seq<Chunk>, c: Chunk)
    ensures Each(f, chunks + [c]) == Each(f, chunks) + [f(c)]
  {
  }

  lemma {:induction false} DraftHasText(chunks: seq<Chunk>)
    ensures HasText(Drafted(chunks).text, chunks)
  {
    if chunks == [] {
      assert From("", Each(Delta, chunks), Each(FinalText, chunks), 0);
    } else {
      var n := |chunks| - 1;
      var front, c := chunks[..n], chunks[n];
      assert chunks == front + [c];
      DraftHasText(front);
      EachGrows(Delta, front, c);
      EachGrows(FinalText, front, c);
      SinceFinalGrows(Drafted(front).text, Each(Delta, front), Each(FinalText, front), Delta(c), FinalText(c));
      assert Drafted(front).text + "" == Drafted(front).text;
    }
  }

  lemma {:induction false} DraftHasCalls(chunks: seq<Chunk>)
    ensures HasCalls(Drafted(chunks).calls, chunks)
  {
    if chunks == [] {
      assert From([], Each(NewCalls, chunks), Each(FinalCalls, chunks), 0);
    } else {
      var n := |chunks| - 1;
      var front, c := chunks[..n], chunks[n];
      assert chunks == front + [c];
      DraftHasCalls(front);
      EachGrows(NewCalls, front, c);
      EachGrows(FinalCalls, front, c);
      SinceFinalGrows(Drafted(front).calls, Each(NewCalls, front), Each(FinalCalls, front), NewCalls(c), FinalCalls(c));
      assert Drafted(front).calls + [] == Drafted(front).calls;
    }
  }

  lemma {:induction false} DraftHasFinal(chunks: seq<Chunk>)
    ensures match Drafted(chunks).final
            case None => forall c :: c in chunks ==> HasNone(c)
            case Some(m) => exists k: nat :: IsFinal(m, chunks, k)
  {
    if chunks != [] {
      var n := |chunks| - 1;
      var front, c := chunks[..n], chunks[n];
      DraftHasFinal(front);
      assert chunks == front + [c];
      assert Drafted(chunks) == Feed(Drafted(front), c);
      match Drafted(chunks).final {
        case None =>
        case Some(m) =>
          if HasNone(c) {
            var k: nat :| IsFinal(m, front, k);
            assert IsFinal(m, chunks, k);
          } else {
            assert IsFinal(m, chunks, n);
          }
      }
    }
  }

  lemma AnswerMeans(chunks: seq<Chunk>)
    ensures Answers(Answer(chunks), chunks)
  {
    DraftHasText(chunks);
    DraftHasCalls(chunks);
    DraftHasFinal(chunks);
  }

  /** Without a final message an answer is what was streamed, in the order of the stream. */
  lemma StreamedInOrder(m: Message, chunks: seq<Chunk>)
    requires Answers(m, chunks) && forall c :: c in chunks ==> HasNone(c)
    ensures m == Message(Joined(Each(Delta, chunks)), Joined(Each(NewCalls, chunks)))
  {
    assert forall i :: 0 <= i < |chunks| ==> HasNone(chunks[i]);
    assert forall i :: 0 <= i < |chunks| ==> FinalText(chunks[i]) == "" && FinalCalls(chunks[i]) == [];
    OnlyStreamed(m.content, Each(Delta, chunks), Each(FinalText, chunks));
    OnlyStreamed(m.calls, Each(NewCalls, chunks), Each(FinalCalls, chunks));
  }

  lemma OnlyStreamed<T(!new)>(whole: seq<T>, parts: seq<seq<T>>, finals: seq<seq<T>>)
    requires SinceFinal(whole, parts, finals) && forall i :: 0 <= i < |finals| ==> finals[i] == []
    ensures whole == Joined(parts)
  {
    var k: nat :| From(whole, parts, finals, k);
    assert parts[0..] == parts;
  }

  /** Reasoning never gets into an answer. */
  lemma {:induction false} ReasoningIsLeftOut(front: seq<Chunk>, text: string, rest: seq<Chunk>)
    ensures Drafted(front + [Reasoning(text)] + rest) == Drafted(front + rest)
  {
    var with, without := front + [Reasoning(text)] + rest, front + rest;
    if rest == [] {
      assert with == front + [Reasoning(text)] && without == front;
      assert with[..|with| - 1] == front;
    } else {
      var n := |rest| - 1;
      ReasoningIsLeftOut(front, text, rest[..n]);
      assert with[..|with| - 1] == front + [Reasoning(text)] + rest[..n];
      assert without[..|without| - 1] == front + rest[..n];
    }
  }

  predicate IsEmpty(m: Message) { m.content == "" && m.calls == [] }

  // ---- The history of attempts ------------------------------------------------------

  /** The archived attempts and then the active one. */
  function All(attempts: seq<Attempt>, active: Option<Attempt>): seq<Attempt> {
    attempts + if active.Some? then [active.value] else []
  }

  /** Neighbours in the history agree on whether one replaces the other. */
  predicate Linked2(a: Attempt, b: Attempt) {
    (a.replacementID.None? && b.replacesID.None?) || (a.replacementID == Some(b.id) && b.replacesID == Some(a.id))
  }

  ghost predicate Linked(all: seq<Attempt>) {
    && (forall i :: 0 <= i < |all| - 1 ==> Linked2(all[i], all[i + 1]))
    && (all != [] ==> all[0].replacesID.None? && all[|all| - 1].replacementID.None?)
    && (forall i, j :: 0 <= i < j < |all| ==> all[i].id != all[j].id)
  }

  /** An archived attempt is superseded and replaced, or committed and not. */
  predicate Archived(a: Attempt) {
    (a.status.Superseded? && a.replacementID.Some?) || (a.status.Committed? && a.replacementID.None?)
  }

  ghost predicate History(attempts: seq<Attempt>, active: Option<Attempt>, step: nat) {
    && Linked(All(attempts, active))
    && |attempts| <= HISTORY_LIMIT
    && (forall i :: 0 <= i < |attempts| ==> Archived(attempts[i]) && attempts[i].step <= step)
    && (active.Some? ==> !active.value.status.Committed? && active.value.step == step)
  }

  /** What `ValidateRunState` asks of attempts before a run is taken up. */
  ghost predicate Validates(attempts: seq<Attempt>, active: Option<Attempt>, step: nat) {
    var all := All(attempts, active);
    && |attempts| <= HISTORY_LIMIT
    && (forall i, j :: 0 <= i < j < |all| ==> all[i].id != all[j].id)
    && (forall i :: 0 <= i < |attempts| ==>
       (attempts[i].status.Superseded? || attempts[i].status.Committed?) && attempts[i].step <= step)
    && (active.Some? ==> !active.value.status.Committed? && active.value.step == step)
    && (forall a :: a in all && a.replacesID.Some? ==> exists b ::
       b in all && b.id == a.replacesID.value && b.replacementID == Some(a.id))
    && (forall a :: a in all && a.replacementID.Some? ==> exists b ::
       b in all && b.id == a.replacementID.value && b.replacesID == Some(a.id))
    && (forall a :: a in attempts && a.status.Superseded? ==> a.replacementID.Some?)
  }

  lemma HistoryValidates(attempts: seq<Attempt>, active: Option<Attempt>, step: nat)
    requires History(attempts, active, step)
    ensures Validates(attempts, active, step)
  {
    var all := All(attempts, active);
    forall a | a in all && a.replacesID.Some?
      ensures exists b :: b in all && b.id == a.replacesID.value && b.replacementID == Some(a.id)
    {
      var i :| 0 <= i < |all| && all[i] == a;
      assert i > 0 && Linked2(all[i - 1], all[i - 1 + 1]);
    }
    forall a | a in all && a.replacementID.Some?
      ensures exists b :: b in all && b.id == a.replacementID.value && b.replacesID == Some(a.id)
    {
      var i :| 0 <= i < |all| && all[i] == a;
      assert i < |all| - 1 && Linked2(all[i], all[i + 1]);
    }
  }

  /** `AppendAttempt`: the oldest go when there are too many, and the link to them. */
  function Append(attempts: seq<Attempt>, a: Attempt): seq<Attempt> {
    var more := attempts + [a];
    if |more| <= HISTORY_LIMIT then more
    else
      var kept: seq<Attempt> := more[|more| - HISTORY_LIMIT..];
      kept[0 := kept[0].(replacesID := None)]
  }

  /** The newest 64 are kept in their order; one whose predecessor was dropped no longer
      points at it, and nothing else changes. */
  lemma AppendKeepsNewest(attempts: seq<Attempt>, a: Attempt)
    requires |attempts| <= 64
    ensures var kept, more := Append(attempts, a), attempts + [a];
            if |attempts| < 64 then kept == more
            else |kept| == 64 && kept[1..] == more[2..] && kept[0] == more[1].(replacesID := None)
  {
  }

  lemma CutKeepsLinks(all: seq<Attempt>, n: nat)
    requires Linked(all) && n < |all|
    ensures Linked(all[n..][0 := all[n].(replacesID := None)])
  {
    var cut := all[n..][0 := all[n].(replacesID := None)];
    forall i | 0 <= i < |cut| - 1
      ensures Linked2(cut[i], cut[i + 1])
    {
      assert Linked2(all[n + i], all[n + i + 1]);
    }
  }

  /** Archiving the active attempt, with a new one in its place or none. */
  lemma AppendKeeps(attempts: seq<Attempt>, a: Attempt, next: Option<Attempt>, step: nat)
    requires Linked(attempts + [a] + if next.Some? then [next.value] else [])
    requires |attempts| <= HISTORY_LIMIT
             && (forall i :: 0 <= i < |attempts| ==> Archived(attempts[i]) && attempts[i].step <= step)
    requires Archived(a) && a.step <= step && (next.Some? ==> !next.value.status.Committed? && next.value.step == step)
    ensures History(Append(attempts, a), next, step)
  {
    var more := attempts + [a];
    var tail := if next.Some? then [next.value] else [];
    if |more| > HISTORY_LIMIT {
      var n := |more| - HISTORY_LIMIT;
      CutKeepsLinks(more + tail, n);
      var all: seq<Attempt> := more + tail;
      assert all[n..][0 := all[n].(replacesID := None)] == Append(attempts, a) + tail;
    } else {
      assert Append(attempts, a) + tail == more + tail;
    }
  }

  /** A superseded attempt and the one in its place point at each other. */
  lemma ReplacingLinks(attempts: seq<Attempt>, a: Attempt, next: Attempt)
    requires Linked(attempts + [a]) && next.replacesID == Some(a.id) && next.replacementID.None?
    requires forall b :: b in attempts + [a] ==> b.id != next.id
    ensures Linked(attempts + [a.(replacementID := Some(next.id))] + [next])
  {
    var before, after := attempts + [a], attempts + [a.(replacementID := Some(next.id))] + [next];
    forall i | 0 <= i < |after| - 1
      ensures Linked2(after[i], after[i + 1])
    {
      if i < |after| - 2 { assert Linked2(before[i], before[i + 1]); }
    }
    assert forall i :: 0 <= i < |before| ==> before[i] in before && after[i].id == before[i].id;
  }

  lemma AppendMembers(attempts: seq<Attempt>, a: Attempt, bound: ID)
    requires (forall b :: b in attempts ==> b.id < bound) && a.id < bound
    ensures forall b :: b in Append(attempts, a) ==> b.id < bound
  {
    var more := attempts + [a];
    if |more| > HISTORY_LIMIT {
      var kept: seq<Attempt> := more[|more| - HISTORY_LIMIT..];
      assert forall i :: 0 <= i < |kept| ==> kept[i] in more;
    }
  }

  /** A history whose ids have all been given out. */
  ghost predicate Sound(attempts: seq<Attempt>, active: Option<Attempt>, step: nat, nextID: ID) {
    && History(attempts, active, step)
    && (forall a :: a in attempts ==> a.id < nextID)
    && (active.Some? ==> active.value.id < nextID)
  }

  /** A change of the active attempt that leaves its place in the history alone. */
  lemma ActiveChanges(attempts: seq<Attempt>, a: Attempt, b: Attempt, step: nat, nextID: ID)
    requires Sound(attempts, Some(a), step, nextID)
    requires b.id == a.id && b.step == a.step && b.replacesID == a.replacesID && b.replacementID == a.replacementID
             && !b.status.Committed?
    ensures Sound(attempts, Some(b), step, nextID)
  {
    var before, after := attempts + [a], attempts + [b];
    assert All(attempts, Some(a)) == before && All(attempts, Some(b)) == after;
    forall i | 0 <= i < |after| - 1
      ensures Linked2(after[i], after[i + 1])
    {
      assert Linked2(before[i], before[i + 1]);
    }
    assert forall i :: 0 <= i < |after| ==> after[i].id == before[i].id;
    assert after[0].replacesID == before[0].replacesID
        && after[|after| - 1].replacementID == before[|before| - 1].replacementID;
  }

  /** The attempt that takes the place of the active one. */
  function Opened(active: Option<Attempt>, step: nat, id: ID): Attempt {
    Attempt(id, step, Started, "", [], if active.Some? then Some(active.value.id) else None, None)
  }

  function ArchivedWith(attempts: seq<Attempt>, active: Option<Attempt>, id: ID): seq<Attempt> {
    if active.Some? then Append(attempts, active.value.(replacementID := Some(id))) else attempts
  }

  lemma OpeningKeeps(attempts: seq<Attempt>, active: Option<Attempt>, step: nat, nextID: ID)
    requires Sound(attempts, active, step, nextID) && (active.Some? ==> active.value.status.Superseded?)
    ensures Sound(ArchivedWith(attempts, active, nextID), Some(Opened(active, step, nextID)), step, nextID + 1)
  {
    var next := Opened(active, step, nextID);
    if active.Some? {
      var a := active.value;
      assert All(attempts, active) == attempts + [a];
      var replaced := a.(replacementID := Some(nextID));
      assert forall b :: b in attempts + [a] ==> b.id != nextID;
      ReplacingLinks(attempts, a, next);
      assert attempts + [replaced] + [next] == attempts + [replaced] + if Some(next).Some? then [next] else [];
      AppendKeeps(attempts, replaced, Some(next), step);
      AppendMembers(attempts, a.(replacementID := Some(nextID)), nextID + 1);
    } else {
      assert All(attempts, active) == attempts && All(attempts, Some(next)) == attempts + [next];
      FirstLinks(attempts, next);
    }
  }

  lemma FirstLinks(attempts: seq<Attempt>, next: Attempt)
    requires Linked(attempts) && next.replacesID.None? && next.replacementID.None? && forall b ::
             b in attempts ==> b.id != next.id
    ensures Linked(attempts + [next])
  {
    var all := attempts + [next];
    forall i | 0 <= i < |all| - 1
      ensures Linked2(all[i], all[i + 1])
    {
      if i < |attempts| - 1 { assert Linked2(attempts[i], attempts[i + 1]); }
    }
  }

  /** `commitActiveAttempt`. */
  lemma CommittingKeeps(attempts: seq<Attempt>, a: Attempt, step: nat, nextID: ID)
    requires Sound(attempts, Some(a), step, nextID)
    ensures Sound(Append(attempts, a.(status := Committed)), None, step, nextID)
  {
    var c := a.(status := Committed);
    var before, after := attempts + [a], attempts + [c];
    assert All(attempts, Some(a)) == before;
    forall i | 0 <= i < |after| - 1
      ensures Linked2(after[i], after[i + 1])
    {
      assert Linked2(before[i], before[i + 1]);
    }
    assert forall i :: 0 <= i < |after| ==> after[i].id == before[i].id;
    assert after[0].replacesID == before[0].replacesID
        && after[|after| - 1].replacementID == before[|before| - 1].replacementID;
    assert after + [] == after;
    AppendKeeps(attempts, c, None, step);
    AppendMembers(attempts, c, nextID);
  }

  // ---- The step ---------------------------------------------------------------------

  /** What is seen of the error of an attempt, its own or that of a save: whether its text
      says that the context overflowed, and how the retry policy classifies it. */
  datatype Failure = Failure(overflow: bool, retryable: bool)

  /** An answer that is empty may be retried as well. */
  predicate Retryable(f: Option<Failure>) { f.None? || f.value.retryable }

  predicate Overflowed(f: Option<Failure>) { f.Some? && f.value.overflow }

  /** How an attempt ended, and before it how many overflows might still be answered and how
      many of the other retries were done. */
  datatype Turn = Turn(failure: Option<Failure>, left: int, done: int)

  /** Another attempt is made after this one, with one retry of its kind less. */
  predicate Follows(t: Turn, left: int, done: int, retries: Option<nat>) {
    if t.failure.Some? && t.failure.value.overflow && t.left > 0 then left == t.left - 1 && done == t.done
    else
      && (t.failure.None? || t.failure.value.retryable) && retries.Some? && t.done < retries.value
      && left == t.left && done == t.done + 1
  }

  /** Nothing is left that could be done after this attempt. */
  predicate IsLast(t: Turn, retries: Option<nat>) {
    && !(t.failure.Some? && t.failure.value.overflow && t.left > 0)
    && !((t.failure.None? || t.failure.value.retryable) && retries.Some? && t.done < retries.value)
  }

  /** The turns of a step, up to one before which so much is left and done. */
  ghost predicate Turns(turns: seq<Turn>, left: int, done: int, overflows: nat, retries: Option<nat>) {
    && |turns| == overflows - left + done && 0 <= left <= overflows
    && 0 <= done <= (if retries.Some? then retries.value else 0)
    && (turns != [] ==> turns[0].left == overflows && turns[0].done == 0)
    && (forall i :: 0 <= i < |turns| - 1 ==> Follows(turns[i], turns[i + 1].left, turns[i + 1].done, retries))
    && (turns != [] ==> Follows(turns[|turns| - 1], left, done, retries))
  }

  /** The turns of a whole step; after the last one nothing is left to do if `final` says so. */
  ghost predicate Ended(turns: seq<Turn>, final: bool, overflows: nat, retries: Option<nat>) {
    && turns != [] && (final ==> IsLast(turns[|turns| - 1], retries))
    && Turns(turns[..|turns| - 1], turns[|turns| - 1].left, turns[|turns| - 1].done, overflows, retries)
  }

  lemma TurnsGrow(turns: seq<Turn>, t: Turn, overflows: nat, retries: Option<nat>)
    requires Turns(turns, t.left, t.done, overflows, retries)
    ensures Ended(turns + [t], IsLast(t, retries), overflows, retries)
    ensures Follows(t, t.left - 1, t.done, retries) ==> Turns(turns + [t], t.left - 1, t.done, overflows, retries)
    ensures Follows(t, t.left, t.done + 1, retries) ==> Turns(turns + [t], t.left, t.done + 1, overflows, retries)
  {
    assert (turns + [t])[..|turns|] == turns;
  }

  /** What follows on an attempt: its answer is taken, nothing can be done, way could not be
      made, or another attempt. */
  datatype Course = Accept | GiveUp | Blocked | AfterOverflow | AfterFailure

  /** What follows is what such a failure, or an empty answer, allows. */
  predicate Fits(course: Course, m: Message, f: Option<Failure>, left: nat, done: nat, retries: Option<nat>) {
    match course
    case Accept => f.None? && (m.content != "" || m.calls != [])
    case GiveUp => (f.None? ==> m.content == "" && m.calls == []) && IsLast(Turn(f, left, done), retries)
    case Blocked => f.None? ==> m.content == "" && m.calls == []
    case AfterOverflow => Follows(Turn(f, left, done), left - 1, done, retries)
    case AfterFailure => Follows(Turn(f, left, done), left, done + 1, retries)
  }

  /** What a checkpoint keeps of the attempts. */
  datatype Snapshot = Snapshot(attempts: seq<Attempt>, active: Option<Attempt>, step: nat)

  /** What the stream had said by each of its events is in a checkpoint. */
  ghost predicate EachSaved(saved: seq<Snapshot>, chunks: seq<Chunk>) {
    forall n :: 0 <= n < |chunks| && chunks[n].Chunk? ==> SavedWith(saved, chunks[..n + 1])
  }

  ghost predicate SavedWith(saved: seq<Snapshot>, chunks: seq<Chunk>) {
    exists s :: s in saved && s.active.Some? && Holds(s.active.value, chunks)
  }

  lemma SavesGrow(saved: seq<Snapshot>, more: seq<Snapshot>, chunks: seq<Chunk>, c: Chunk)
    requires EachSaved(saved, chunks) && saved <= more && (c.Chunk? ==> SavedWith(more, chunks + [c]))
    ensures EachSaved(more, chunks + [c])
  {
    var longer := chunks + [c];
    SavesStay(saved, more, chunks);
    forall n | 0 <= n < |longer| && longer[n].Chunk?
      ensures SavedWith(more, longer[..n + 1])
    {
      if n < |chunks| {
        assert longer[..n + 1] == chunks[..n + 1];
      } else {
        assert longer[..n + 1] == longer;
      }
    }
  }

  lemma SavesStay(saved: seq<Snapshot>, more: seq<Snapshot>, chunks: seq<Chunk>)
    requires saved <= more && EachSaved(saved, chunks)
    ensures EachSaved(more, chunks)
  {
    forall n | 0 <= n < |chunks| && chunks[n].Chunk?
      ensures SavedWith(more, chunks[..n + 1])
    {
      var s :| s in saved && s.active.Some? && Holds(s.active.value, chunks[..n + 1]);
      assert s in more;
    }
  }

  ghost predicate Loadable(saved: seq<Snapshot>) { forall s :: s in saved ==> Validates(s.attempts, s.active, s.step) }

  /** At least `n` attempts are archived, or as many as the history holds; the newest `n`
      are superseded and were opened one after the other, the last of them as `last`. */
  ghost predicate Chained(attempts: seq<Attempt>, n: nat, last: int) {
    && |attempts| >= (if n <= HISTORY_LIMIT then n else HISTORY_LIMIT)
    && forall i :: 0 <= i < |attempts| && i >= |attempts| - n ==>
      attempts[i].status.Superseded? && attempts[i].id == last - (|attempts| - 1 - i)
  }

  /** Such attempts and the one after them point at each other. */
  lemma ChainIsLinked(attempts: seq<Attempt>, active: Option<Attempt>, step: nat, n: nat, last: int, i: nat)
    requires History(attempts, active, step) && Chained(attempts, n, last) && i < |attempts| && i >= |attempts| - n
    ensures i + 1 < |All(attempts, active)|
    ensures var next := All(attempts, active)[i + 1];
            attempts[i].replacementID == Some(next.id) && next.replacesID == Some(attempts[i].id)
  {
    var all := All(attempts, active);
    assert all[i] == attempts[i] && Archived(attempts[i]);
    assert i < |all| - 1;
    assert Linked2(all[i], all[i + 1]);
  }

  lemma ChainGrows(attempts: seq<Attempt>, a: Attempt, n: nat)
    requires Chained(attempts, n, a.id as int - 1) && a.status.Superseded?
    ensures Chained(Append(attempts, a), n + 1, a.id)
  {
    var more := attempts + [a];
    if |more| > HISTORY_LIMIT {
      var kept: seq<Attempt> := more[|more| - HISTORY_LIMIT..];
      assert forall i :: 0 <= i < |kept| ==> kept[i] == more[|more| - HISTORY_LIMIT + i];
    }
  }

  class ModelStep {
    const step: nat
    var attempts: seq<Attempt>
    var active: Option<Attempt>
    var nextID: ID
    ghost var saved: seq<Snapshot>

    ghost predicate Valid()
      reads this
    {
      Sound(attempts, active, step, nextID) && Loadable(saved)
    }

    constructor (attempts: seq<Attempt>, active: Option<Attempt>, step: nat, nextID: ID)
      requires Sound(attempts, active, step, nextID)
      ensures Valid() && this.attempts == attempts && this.active == active && this.step == step && saved == []
    {
      this.attempts, this.active, this.step, this.nextID := attempts, active, step, nextID;
      saved := [];
    }

    method Checkpoint() returns (ok: bool)
      requires Valid()
      modifies this`saved
      ensures Valid() && saved == old(saved) + [Snapshot(attempts, active, step)]
    {
      HistoryValidates(attempts, active, step);
      saved := saved + [Snapshot(attempts, active, step)];
      ok := *;
    }

    /** `supersedeActiveAttempt`, and what a resumed run does with an attempt it finds. */
    method Supersede() returns (ok: bool)
      requires Valid()
      modifies this`active, this`saved
      ensures Valid() && active == (match old(active) case None => None case Some(a) => Some(a.(status := Superseded)))
      ensures saved == old(saved) + if active.Some? then [Snapshot(attempts, active, step)] else []
    {
      if active.None? { return true; }
      var a := active.value.(status := Superseded);
      ActiveChanges(attempts, active.value, a, step, nextID);
      active := Some(a);
      ok := Checkpoint();
    }

    /** The new attempt takes the place of the superseded one. */
    method Begin() returns (ok: bool)
      requires Valid() && (active.Some? ==> active.value.status.Superseded?)
      modifies this
      ensures Valid() && nextID == old(nextID) + 1
      ensures active == Some(Opened(old(active), step, old(nextID)))
      ensures attempts == ArchivedWith(old(attempts), old(active), old(nextID))
      ensures saved == old(saved) + [Snapshot(attempts, active, step)]
    {
      OpeningKeeps(attempts, active, step, nextID);
      var attempt := Attempt(nextID, step, Started, "", [], None, None);
      match active {
        case None =>
        case Some(a) =>
          attempt := attempt.(replacesID := Some(a.id));
          attempts := Append(attempts, a.(replacementID := Some(attempt.id)));
      }
      nextID := nextID + 1;
      active := Some(attempt);
      ok := Checkpoint();
    }

    /** `callModelAttemptDurable`: every event of the stream goes into the draft of the
        attempt and is saved. The answer depends on this stream alone. */
    method CallAttempt() returns (message: Message, failure: Option<Failure>, ghost stream: Stream)
      requires Valid() && (active.Some? ==> active.value.status.Superseded?)
      modifies this
      ensures Valid() && active.Some? && nextID == old(nextID) + 1 && active.value.id == old(nextID)
      ensures attempts == ArchivedWith(old(attempts), old(active), old(nextID))
      ensures old(saved) <= saved && EachSaved(saved, stream.chunks)
      ensures failure.None? ==> !stream.failed && Answers(message, stream.chunks) && Holds(active.value, stream.chunks)
    {
      message, stream := Message("", []), Stream([], true);
      var started := Begin();
      var fault: Failure, refused: bool := *, *;
      if !started || refused { return message, Some(fault), stream; }
      var final: Option<Final> := None;
      var more: nat := *;
      ghost var archived := attempts;
      while more > 0
        invariant Valid() && active.Some? && nextID == old(nextID) + 1 && attempts == archived
                  && active.value.id == old(nextID)
        invariant old(saved) <= saved && EachSaved(saved, stream.chunks)
        invariant Drafted(stream.chunks) == Draft(active.value.text, active.value.calls, final)
        decreases more
      {
        var chunk: Chunk, error: Option<Failure> := *, *;
        if error.Some? { return message, error, Stream(stream.chunks, true); }
        var ok;
        final, ok := Take(chunk, final, stream.chunks);
        stream := Stream(stream.chunks + [chunk], true);
        if !ok { return message, Some(fault), stream; }
        more := more - 1;
      }
      stream := Stream(stream.chunks, false);
      message := Message(active.value.text, active.value.calls);
      if final.Some? && final.value.content != "" { message := message.(content := final.value.content); }
      failure := None;
      DraftHasText(stream.chunks);
      DraftHasCalls(stream.chunks);
      AnswerMeans(stream.chunks);
    }

    /** One event of the stream; reasoning is not kept. */
    method Take(chunk: Chunk, final: Option<Final>, ghost chunks: seq<Chunk>)
      returns (newest: Option<Final>, ok: bool)
      requires Valid() && active.Some? && EachSaved(saved, chunks)
      requires Drafted(chunks) == Draft(active.value.text, active.value.calls, final)
      modifies this`active, this`saved
      ensures Valid() && active.Some? && active.value.id == old(active.value.id)
      ensures old(saved) <= saved && EachSaved(saved, chunks + [chunk])
      ensures Drafted(chunks + [chunk]) == Draft(active.value.text, active.value.calls, newest)
    {
      ghost var more := chunks + [chunk];
      assert more[..|chunks|] == chunks;
      newest, ok := final, true;
      if chunk.Chunk? {
        newest := Record(chunk, final);
        DraftHasText(more);
        DraftHasCalls(more);
        ok := Checkpoint();
        assert saved[|saved| - 1].active == active;
      }
      SavesGrow(old(saved), saved, chunks, chunk);
    }

    /** One event into the draft. */
    method Record(chunk: Chunk, final: Option<Final>) returns (newest: Option<Final>)
      requires Valid() && active.Some? && chunk.Chunk?
      modifies this`active
      ensures Valid() && active.Some? && active.value.id == old(active.value.id)
      ensures Draft(active.value.text, active.value.calls, newest)
              == Feed(Draft(old(active.value.text), old(active.value.calls), final), chunk)
      ensures active.value.text
              == if FinalText(chunk) != "" then FinalText(chunk) else old(active.value.text) + chunk.delta
      ensures active.value.calls
              == if FinalCalls(chunk) != [] then FinalCalls(chunk) else old(active.value.calls) + chunk.calls
    {
      newest := final;
      var a := active.value.(status := Streaming);
      a := a.(text := a.text + chunk.delta);
      if |chunk.calls| > 0 { a := a.(calls := a.calls + chunk.calls); }
      match chunk.message {
        case None =>
        case Some(m) =>
          newest := Some(m);
          if m.content != "" { a := a.(text := m.content); }
          if |m.calls| > 0 { a := a.(calls := m.calls); }
      }
      assert old(active.value.calls) + [] == old(active.value.calls);
      ActiveChanges(attempts, active.value, a, step, nextID);
      active := Some(a);
    }

    /** An attempt after `n` others of this step. */
    method CallNext(ghost n: nat) returns (message: Message, failure: Option<Failure>, ghost stream: Stream)
      requires Valid() && (active.Some? ==> active.value.status.Superseded?)
      requires n > 0 ==> active.Some? && active.value.id == nextID - 1
      requires Chained(attempts, if n > 0 then n - 1 else 0, nextID as int - 2)
      modifies this
      ensures Valid() && active.Some? && nextID == old(nextID) + 1 && active.value.id == old(nextID)
      ensures Chained(attempts, n, old(nextID) as int - 1)
      ensures old(saved) <= saved && EachSaved(saved, stream.chunks)
      ensures failure.None? ==> !stream.failed && Answers(message, stream.chunks) && Holds(active.value, stream.chunks)
    {
      ghost var archived, before, id := attempts, active, nextID;
      message, failure, stream := CallAttempt();
      if n > 0 { ChainGrows(archived, before.value.(replacementID := Some(id)), n - 1); }
    }

    /** The attempt is superseded and, after an overflow, the context compacted. */
    method MakeWay(overflow: bool) returns (ok: bool)
      requires Valid() && active.Some?
      modifies this`active, this`saved
      ensures Valid() && active.Some? && active.value.status.Superseded?
      ensures active == Some(old(active).value.(status := Superseded)) && old(saved) <= saved
    {
      ok := Supersede();
      if overflow {
        var compacted := *;
        ok := ok && compacted;
      }
    }

    /** What is done about an attempt that failed or said nothing. */
    method Recover(ghost message: Message, failure: Option<Failure>, overflowsLeft: nat, retriesDone: nat,
        retries: Option<nat>)
      returns (course: Course)
      requires Valid() && active.Some? && (failure.None? ==> IsEmpty(message))
      modifies this`active, this`saved
      ensures Valid() && active.Some? && active.value.id == old(active).value.id && old(saved) <= saved
      ensures Fits(course, message, failure, overflowsLeft, retriesDone, retries) && !course.Accept?
      ensures course.AfterOverflow? || course.AfterFailure? ==> active.value.status.Superseded?
      ensures course.GiveUp? ==> active == old(active)
    {
      if Overflowed(failure) && overflowsLeft > 0 {
        var ready := MakeWay(true);
        return if ready then AfterOverflow else Blocked;
      }
      if retries.None? || !Retryable(failure) || retriesDone >= retries.value { return GiveUp; }
      var ready := MakeWay(false);
      course := if ready then AfterFailure else Blocked;
    }

    /** The `n` newest attempts were made one after the other, and all but the active one are
        archived. */
    ghost predicate Made(n: nat)
      requires n > 0
      reads this
    {
      active.Some? && active.value.id == nextID - 1 && Chained(attempts, n - 1, nextID as int - 2)
    }

    /** One attempt after `n` others, and what follows on it. */
    method TryNext(ghost n: nat, overflowsLeft: nat, retriesDone: nat, retries: Option<nat>)
      returns (message: Message, failure: Option<Failure>, course: Course, ghost stream: Stream)
      requires Valid() && (active.Some? ==> active.value.status.Superseded?) && (n > 0 ==> Made(n))
      modifies this
      ensures Valid() && nextID == old(nextID) + 1 && Made(n + 1)
      ensures EachSaved(saved, stream.chunks)
      ensures Fits(course, message, failure, overflowsLeft, retriesDone, retries)
      ensures course.AfterOverflow? || course.AfterFailure? ==> active.value.status.Superseded?
      ensures failure.None? ==> !stream.failed && Answers(message, stream.chunks)
      ensures failure.None? && (course.Accept? || course.GiveUp?) ==> Holds(active.value, stream.chunks)
    {
      message, failure, stream := CallNext(n);
      if failure.None? && !IsEmpty(message) { return message, failure, Accept, stream; }
      ghost var kept := saved;
      course := Recover(message, failure, overflowsLeft, retriesDone, retries);
      SavesStay(kept, saved, stream.chunks);
    }

    /** `callModelDurable`: at most so many attempts as there are retries of both kinds and
        one more, each with an id of its own. All but the last are superseded, each by the
        next, and archived in their order, and the answer is that of the last one. Each but
        the last overflowed while that could be answered, or was empty or might be retried
        while retries were left; it gives up only when neither is so, or when way could not
        be made. */
    method CallModel(overflows: nat, retries: Option<nat>)
      returns (message: Message, ok: bool, ghost stream: Stream, ghost turns: seq<Turn>,
          ghost blocked: bool)
      requires Valid() && (active.Some? ==> active.value.status.Superseded?)
      modifies this
      ensures Valid() && turns != [] && nextID == old(nextID) + |turns| && Made(|turns|)
      ensures Ended(turns, !blocked && (!ok || (message.content == "" && message.calls == [])), overflows, retries)
      ensures ok ==> turns[|turns| - 1].failure.None? && !stream.failed && !blocked
      ensures ok ==> Answers(message, stream.chunks) && Holds(active.value, stream.chunks)
      ensures EachSaved(saved, stream.chunks)
    {
      var overflowsLeft, retriesDone, most := overflows, 0, if retries.Some? then retries.value else 0;
      turns, blocked := [], false;
      while true
        invariant Valid() && (active.Some? ==> active.value.status.Superseded?)
        invariant |turns| > 0 ==> Made(|turns|)
        invariant Turns(turns, overflowsLeft, retriesDone, overflows, retries) && !blocked
        invariant nextID == old(nextID) + |turns|
        decreases overflowsLeft + most - retriesDone
      {
        var failure: Option<Failure>;
        var course;
        message, failure, course, stream := TryNext(|turns|, overflowsLeft, retriesDone, retries);
        ghost var turn := Turn(failure, overflowsLeft, retriesDone);
        TurnsGrow(turns, turn, overflows, retries);
        turns := turns + [turn];
        match course {
          case Accept => return message, true, stream, turns, false;
          case GiveUp => return message, failure.None?, stream, turns, false;
          case Blocked => return message, false, stream, turns, true;
          case AfterOverflow => overflowsLeft := overflowsLeft - 1;
          case AfterFailure => retriesDone := retriesDone + 1;
        }
      }
    }

    /** `commitActiveAttempt`: the attempt whose answer was taken is archived. */
    method Commit()
      requires Valid() && active.Some?
      modifies this`attempts, this`active
      ensures Valid() && active == None && attempts == Append(old(attempts), old(active).value.(status := Committed))
    {
      CommittingKeeps(attempts, active.value, step, nextID);
      attempts := Append(attempts, active.value.(status := Committed));
      active := None;
    }
  }
}
