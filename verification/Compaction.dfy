/** Context compaction: what a rewritten history keeps, from `compaction/compactor.go`,
    `compaction/prune.go` and `compaction/estimator.go`. */
module Compaction {
  import opened Options
  import opened Strings

  datatype Role = System | User | Assistant | Tool

  datatype ToolCall = ToolCall(id: string, name: string, arguments: string)

  /** A message; `pruned` is what pruning notes: the rune counts before and after. */
  datatype Message = Message(
    role: Role, content: string, name: string, toolCallID: string, calls: seq<ToolCall>, pruned: Option<(nat, nat)>)

  type History = seq<Message>

  // ---- Estimates --------------------------------------------------------------------

  const OVERHEAD := 4

  /** The heuristic: so many runes make a token, and a part of a token counts as one. */
  function EstimateText(ratio: nat, text: string): (n: nat)
    requires ratio > 0
    ensures n * ratio >= |text| && (n > 0 ==> (n - 1) * ratio < |text|)
  {
    (|text| + ratio - 1) / ratio
  }

  function EstimateCalls(ratio: nat, calls: seq<ToolCall>): nat
    requires ratio > 0
  {
    if calls == [] then 0
    else
      var first := EstimateText(ratio, calls[0].name) + EstimateText(ratio, calls[0].arguments);
      first + OVERHEAD + EstimateCalls(ratio, calls[1..])
  }

  function EstimateOne(ratio: nat, m: Message): (n: nat)
    requires ratio > 0
    ensures n >= OVERHEAD
  {
    OVERHEAD + EstimateText(ratio, m.content) + EstimateText(ratio, m.name) + EstimateCalls(ratio, m.calls)
  }

  function Estimate(ratio: nat, messages: History): nat
    requires ratio > 0
  {
    if messages == [] then 0 else EstimateOne(ratio, messages[0]) + Estimate(ratio, messages[1..])
  }

  lemma {:induction false} EstimateConcat(ratio: nat, a: History, b: History)
    requires ratio > 0
    ensures Estimate(ratio, a + b) == Estimate(ratio, a) + Estimate(ratio, b)
  {
    if a == [] {
      assert a + b == b;
    } else {
      EstimateConcat(ratio, a[1..], b);
      assert (a + b)[1..] == a[1..] + b;
    }
  }

  lemma {:induction false} EstimateCallsConcat(ratio: nat, a: seq<ToolCall>, b: seq<ToolCall>)
    requires ratio > 0
    ensures EstimateCalls(ratio, a + b) == EstimateCalls(ratio, a) + EstimateCalls(ratio, b)
  {
    if a == [] {
      assert a + b == b;
    } else {
      EstimateCallsConcat(ratio, a[1..], b);
      assert (a + b)[1..] == a[1..] + b;
    }
  }

  /** The least number of tokens that has room for so many runes. */
  predicate HasRoom(ratio: nat, tokens: nat, runes: nat) {
    tokens * ratio >= runes && (tokens > 0 ==> (tokens - 1) * ratio < runes)
  }

  lemma RoomIsUnique(ratio: nat, a: nat, b: nat, runes: nat)
    requires ratio > 0 && HasRoom(ratio, a, runes) && HasRoom(ratio, b, runes)
    ensures a == b
  {
    if a < b { RoomGrows(ratio, a, b - 1); }
    if b < a { RoomGrows(ratio, b, a - 1); }
  }

  lemma RoomGrows(ratio: nat, a: nat, b: nat)
    requires a <= b
    ensures a * ratio <= b * ratio
  {
  }

  /** A message without calls costs four tokens and what its text and its name take. */
  lemma TextsCost(ratio: nat, m: Message, content: nat, name: nat)
    requires ratio > 0 && m.calls == []
    requires HasRoom(ratio, content, |m.content|) && HasRoom(ratio, name, |m.name|)
    ensures Estimate(ratio, [m]) == 4 + content + name
  {
    RoomIsUnique(ratio, content, EstimateText(ratio, m.content), |m.content|);
    RoomIsUnique(ratio, name, EstimateText(ratio, m.name), |m.name|);
    SuffixStep(ratio, [m], 0);
  }

  /** Every call costs four more, and what its name and its arguments take. */
  lemma CallCosts(ratio: nat, m: Message, call: ToolCall, name: nat, arguments: nat)
    requires ratio > 0
    requires HasRoom(ratio, name, |call.name|) && HasRoom(ratio, arguments, |call.arguments|)
    ensures Estimate(ratio, [m.(calls := m.calls + [call])]) == Estimate(ratio, [m]) + 4 + name + arguments
  {
    var more := m.(calls := m.calls + [call]);
    RoomIsUnique(ratio, name, EstimateText(ratio, call.name), |call.name|);
    RoomIsUnique(ratio, arguments, EstimateText(ratio, call.arguments), |call.arguments|);
    EstimateCallsConcat(ratio, m.calls, [call]);
    assert [call][1..] == [];
    SuffixStep(ratio, [m], 0);
    SuffixStep(ratio, [more], 0);
  }

  method EstimateMessages(ratio: nat, messages: History) returns (total: nat)
    requires ratio > 0
    ensures total == Estimate(ratio, messages)
  {
    total := 0;
    assert messages[..0] == [];
    for i := 0 to |messages|
      invariant total == Estimate(ratio, messages[..i])
    {
      var message := messages[i];
      ghost var before := total;
      total := total + OVERHEAD;
      total := total + EstimateText(ratio, message.content);
      total := total + EstimateText(ratio, message.name);
      assert message.calls[..0] == [];
      for j := 0 to |message.calls|
        invariant total == before + OVERHEAD + EstimateText(ratio, message.content) + EstimateText(ratio, message.name)
                           + EstimateCalls(ratio, message.calls[..j])
      {
        var call := message.calls[j];
        total := total + EstimateText(ratio, call.name);
        total := total + EstimateText(ratio, call.arguments);
        total := total + OVERHEAD;
        EstimateCallsConcat(ratio, message.calls[..j], [call]);
        assert [call][1..] == [];
        assert message.calls[..j + 1] == message.calls[..j] + [call];
      }
      assert message.calls[..|message.calls|] == message.calls;
      EstimateConcat(ratio, messages[..i], [message]);
      assert [message][1..] == [];
      assert messages[..i + 1] == messages[..i] + [message];
    }
    assert messages[..|messages|] == messages;
  }

  // ---- The cut ----------------------------------------------------------------------

  /** The last message at or before `i` that is no tool result: the turn it belongs to. */
  function Owner(messages: History, i: nat): (k: nat)
    requires i < |messages|
    ensures k <= i && (messages[k].role.Tool? ==> k == 0)
    ensures forall j :: k < j <= i ==> messages[j].role.Tool?
  {
    if i == 0 || !messages[i].role.Tool? then i else Owner(messages, i - 1)
  }

  /** Tool results directly follow the assistant turn that called. */
  ghost predicate Grouped(messages: History) {
    forall i :: 0 <= i < |messages| && messages[i].role.Tool? ==> HasTurn(messages, i)
  }

  /** A message belongs to a turn that called tools. */
  predicate HasTurn(messages: History, i: nat)
    requires i < |messages|
  {
    var k := Owner(messages, i);
    messages[k].role.Assistant? && messages[k].calls != []
  }

  /** The suffixes that fit into the budget. */
  predicate Fits(ratio: nat, messages: History, i: nat, budget: nat)
    requires ratio > 0 && i <= |messages|
  {
    Estimate(ratio, messages[i..]) <= budget
  }

  /** The longest suffix within the budget, or the last message alone. */
  ghost predicate IsRetained(ratio: nat, messages: History, budget: nat, b: nat)
    requires ratio > 0
  {
    && b < |messages|
    && (b < |messages| - 1 ==> Fits(ratio, messages, b, budget))
    && (forall i :: 0 <= i < b ==> !Fits(ratio, messages, i, budget))
  }

  lemma SuffixStep(ratio: nat, messages: History, i: nat)
    requires ratio > 0 && i < |messages|
    ensures Estimate(ratio, messages[i..]) == EstimateOne(ratio, messages[i]) + Estimate(ratio, messages[i + 1..])
    ensures messages[i .. i + 1] == [messages[i]] && Estimate(ratio, [messages[i]]) == EstimateOne(ratio, messages[i])
  {
    assert messages[i..][1..] == messages[i + 1..];
    assert [messages[i]][1..] == [];
  }

  lemma {:induction false} LongerIsMore(ratio: nat, messages: History, i: nat, j: nat)
    requires ratio > 0 && i <= j <= |messages|
    ensures Estimate(ratio, messages[i..]) >= Estimate(ratio, messages[j..])
    decreases j - i
  {
    if i < j {
      SuffixStep(ratio, messages, i);
      LongerIsMore(ratio, messages, i + 1, j);
    }
  }

  /** The first loop of `retainBoundary`. */
  method BudgetBoundary(ratio: nat, messages: History, budget: nat) returns (boundary: nat)
    requires ratio > 0 && messages != []
    ensures IsRetained(ratio, messages, budget, boundary)
  {
    boundary := |messages|;
    var accumulated := 0;
    var i := |messages| - 1;
    while i >= 0
      invariant -1 <= i < |messages| && boundary == i + 1
      invariant accumulated == Estimate(ratio, messages[boundary..])
      invariant boundary < |messages| - 1 ==> accumulated <= budget
    {
      SuffixStep(ratio, messages, i);
      var cost := EstimateMessages(ratio, messages[i .. i + 1]);
      if accumulated + cost > budget && boundary < |messages| {
        forall k | 0 <= k < boundary
          ensures !Fits(ratio, messages, k, budget)
        {
          LongerIsMore(ratio, messages, k, i);
        }
        return;
      }
      accumulated := accumulated + cost;
      boundary := i;
      i := i - 1;
    }
  }

  /** `retainBoundary`: then back to the beginning of the turn. */
  method RetainBoundary(ratio: nat, messages: History, budget: nat) returns (boundary: nat)
    requires ratio > 0
    ensures messages == [] ==> boundary == 0
    ensures messages != [] ==> exists b :: IsRetained(ratio, messages, budget, b) && boundary == Owner(messages, b)
  {
    if |messages| == 0 { return 0; }
    var b := BudgetBoundary(ratio, messages, budget);
    boundary := b;
    while boundary > 0 && boundary < |messages| && messages[boundary].role.Tool?
      invariant boundary < |messages| && Owner(messages, boundary) == Owner(messages, b)
    {
      boundary := boundary - 1;
    }
  }

  /** There is only one such boundary. */
  lemma RetainedIsUnique(ratio: nat, messages: History, budget: nat, a: nat, b: nat)
    requires ratio > 0 && IsRetained(ratio, messages, budget, a) && IsRetained(ratio, messages, budget, b)
    ensures a == b
  {
  }

  /** In a grouped history no retained tool result has lost its turn, and what is retained
      is grouped again. */
  lemma GroupsStayWhole(messages: History, b: nat)
    requires Grouped(messages) && b < |messages|
    ensures var c := Owner(messages, b);
            && !messages[c].role.Tool?
            && (forall i :: c <= i < |messages| && messages[i].role.Tool? ==> Owner(messages, i) >= c)
            && Grouped(messages[c..])
  {
    var c := Owner(messages, b);
    assert Owner(messages, 0) == 0;
    assert !messages[c].role.Tool?;
    forall i | c <= i < |messages|
      ensures Owner(messages, i) >= c
    {
    }
    forall i | 0 <= i < |messages[c..]| && messages[c..][i].role.Tool?
      ensures HasTurn(messages[c..], i)
    {
      OwnerInSuffix(messages, c, i);
      assert messages[c + i].role.Tool?;
    }
  }

  lemma {:induction false} OwnerInSuffix(messages: History, c: nat, i: nat)
    requires c + i < |messages| && !messages[c].role.Tool?
    ensures Owner(messages[c..], i) + c == Owner(messages, c + i)
    decreases i
  {
    if i > 0 && messages[c + i].role.Tool? { OwnerInSuffix(messages, c, i - 1); }
  }

  /** Without a budget only the last message is retained, and with it its turn. */
  lemma OverflowKeepsNewest(ratio: nat, messages: History, b: nat)
    requires ratio > 0 && IsRetained(ratio, messages, 0, b)
    ensures b == |messages| - 1
  {
    SuffixStep(ratio, messages, b);
  }

  // ---- Pruning ----------------------------------------------------------------------

  /** The limits, and the text that stands for so many omitted runes. */
  datatype PrunePolicy = PrunePolicy(enabled: bool, threshold: nat, head: nat, tail: nat, marker: nat -> string)

  /** What `Policy.WithDefaults` lets through. */
  predicate ValidPolicy(p: PrunePolicy) { p.enabled ==> p.head + p.tail < p.threshold }

  predicate TooLong(m: Message, p: PrunePolicy) { p.enabled && m.role.Tool? && |m.content| > p.threshold }

  function Shortened(content: string, p: PrunePolicy): string
    requires p.head + p.tail <= |content|
  {
    content[..p.head] + p.marker(|content| - p.head - p.tail) + content[|content| - p.tail..]
  }

  function PruneOne(m: Message, p: PrunePolicy): Message
    requires ValidPolicy(p)
  {
    if TooLong(m, p)
    then m.(content := Shortened(m.content, p), pruned := Some((|m.content|, |Shortened(m.content, p)|)))
    else m
  }

  function PruneAll(messages: History, p: PrunePolicy): (out: History)
    requires ValidPolicy(p)
    ensures |out| == |messages|
  {
    if messages == [] then [] else PruneAll(messages[..|messages| - 1], p) + [PruneOne(messages[|messages| - 1], p)]
  }

  lemma {:induction false} PruneAt(messages: History, p: PrunePolicy, i: nat)
    requires ValidPolicy(p) && i < |messages|
    ensures PruneAll(messages, p)[i] == PruneOne(messages[i], p)
  {
    if i < |messages| - 1 { PruneAt(messages[..|messages| - 1], p, i); }
  }

  function Runes(messages: History): nat {
    if messages == [] then 0 else Runes(messages[..|messages| - 1]) + |messages[|messages| - 1].content|
  }

  /** Of a long tool result the head and the tail are kept around a marker, which says how
      much went, and the lengths are noted; nothing else changes. */
  predicate IsPruned(m: Message, out: Message, p: PrunePolicy)
    requires ValidPolicy(p)
  {
    if p.enabled && m.role.Tool? && |m.content| > p.threshold then
      var omitted: nat := |m.content| - p.head - p.tail;
      && out == m.(content := out.content, pruned := Some((|m.content|, |out.content|)))
      && out.content == m.content[..p.head] + p.marker(omitted) + m.content[p.head + omitted..]
    else out == m
  }

  lemma OneIsPruned(m: Message, p: PrunePolicy)
    requires ValidPolicy(p)
    ensures IsPruned(m, PruneOne(m, p), p)
  {
  }

  /** The history with its long tool results pruned. */
  ghost predicate AllPruned(messages: History, kept: History, p: PrunePolicy)
    requires ValidPolicy(p)
  {
    |kept| == |messages| && forall i :: 0 <= i < |messages| ==> IsPruned(messages[i], kept[i], p)
  }

  lemma PruningKeepsShape(messages: History, p: PrunePolicy)
    requires ValidPolicy(p)
    ensures AllPruned(messages, PruneAll(messages, p), p)
  {
    var out := PruneAll(messages, p);
    forall i | 0 <= i < |messages|
      ensures IsPruned(messages[i], out[i], p)
    {
      PruneAt(messages, p, i);
      OneIsPruned(messages[i], p);
    }
  }

  lemma PruningKeepsGroups(messages: History, p: PrunePolicy)
    requires ValidPolicy(p) && Grouped(messages)
    ensures Grouped(PruneAll(messages, p))
  {
    var out := PruneAll(messages, p);
    PruningKeepsShape(messages, p);
    forall i | 0 <= i < |out| && out[i].role.Tool?
      ensures HasTurn(out, i)
    {
      SameOwner(messages, out, i);
      assert messages[i].role.Tool? && HasTurn(messages, i);
    }
  }

  lemma {:induction false} SameOwner(a: History, b: History, i: nat)
    requires |a| == |b| && i < |a| && forall k :: 0 <= k < |a| ==> a[k].role == b[k].role
    ensures Owner(a, i) == Owner(b, i)
    decreases i
  {
    if i > 0 && a[i].role.Tool? { SameOwner(a, b, i - 1); }
  }

  function Changed(messages: History, p: PrunePolicy): nat {
    if messages == [] then 0
    else Changed(messages[..|messages| - 1], p) + if TooLong(messages[|messages| - 1], p) then 1 else 0
  }

  /** As many messages are counted as there are long tool results. */
  lemma {:induction false} ChangedAreLong(messages: History, p: PrunePolicy)
    ensures Changed(messages, p) == |LongResults(messages, p)|
  {
    if messages != [] {
      var n := |messages| - 1;
      ChangedAreLong(messages[..n], p);
      var before, after := LongResults(messages[..n], p), LongResults(messages, p);
      assert after == if TooLong(messages[n], p) then before + {n} else before;
    }
  }

  function LongResults(messages: History, p: PrunePolicy): set<nat> {
    set i | 0 <= i < |messages| && p.enabled && messages[i].role.Tool? && |messages[i].content| > p.threshold
  }

  lemma {:induction false} RunesConcat(a: History, b: History)
    ensures Runes(a + b) == Runes(a) + Runes(b)
    ensures forall m: Message :: Runes([m]) == |m.content|
  {
    if b == [] {
      assert a + b == a;
    } else {
      assert (a + b)[..|a + b| - 1] == a + b[..|b| - 1];
      RunesConcat(a, b[..|b| - 1]);
    }
  }

  /** The loop of `PruneToolResults`. The runes that went are counted exactly; they are
      fewer than none where the marker is longer than what it stands for. */
  method PruneToolResults(messages: History, p: PrunePolicy) returns (out: History, changed: nat, removed: int)
    requires ValidPolicy(p)
    ensures out == PruneAll(messages, p) && changed == |LongResults(messages, p)|
    ensures removed == Runes(messages) - Runes(out)
  {
    out, changed, removed := [], 0, 0;
    if !p.enabled {
      NothingPruned(messages, p);
      ChangedAreLong(messages, p);
      return messages, 0, 0;
    }
    assert messages[..0] == [];
    for i := 0 to |messages|
      invariant out == PruneAll(messages[..i], p) && changed == Changed(messages[..i], p)
      invariant removed == Runes(messages[..i]) - Runes(out)
    {
      var message := messages[i];
      assert messages[..i + 1][..i] == messages[..i] && messages[..i + 1][i] == message;
      var kept := message;
      if message.role.Tool? && |message.content| > p.threshold {
        kept := message.(content := Shortened(message.content, p),
            pruned := Some((|message.content|, |Shortened(message.content, p)|)));
        changed := changed + 1;
        removed := removed + |message.content| - |kept.content|;
      }
      assert (out + [kept])[..|out|] == out;
      out := out + [kept];
    }
    assert messages[..|messages|] == messages;
    ChangedAreLong(messages, p);
  }

  lemma {:induction false} NothingPruned(messages: History, p: PrunePolicy)
    requires !p.enabled
    ensures PruneAll(messages, p) == messages && Changed(messages, p) == 0
  {
    if messages != [] { NothingPruned(messages[..|messages| - 1], p); }
  }

  // ---- Compaction -------------------------------------------------------------------

  datatype Outcome =
    | NothingToCompact
    | SummaryFailed
    | NoReduction(before: nat, after: nat)
    | Compacted(messages: History, shadowed: nat, changed: nat, removed: int, before: nat, after: nat)

  /** Where a history is cut under a budget. */
  ghost predicate IsCut(ratio: nat, messages: History, budget: nat, c: nat)
    requires ratio > 0
  {
    exists b :: IsRetained(ratio, messages, budget, b) && c == Owner(messages, b)
  }

  /** What a success gives, and when there is none: the text of the summary as a message of
      the user, in front of what is retained. */
  ghost predicate IsOutcome(o: Outcome, ratio: nat, messages: History, kept: History, cut: nat, changed: nat,
      summary: Option<string>)
    requires ratio > 0 && cut <= |kept|
  {
    if cut == 0 then o == NothingToCompact
    else
      match summary
      case None => o == SummaryFailed
      case Some(text) =>
        var out := [Message(User, text, "", "", [], None)] + kept[cut..];
        var before, after := Estimate(ratio, messages), Estimate(ratio, out);
        o == if after >= before then NoReduction(before, after)
        else Compacted(out, cut, changed, Runes(messages) - Runes(kept), before, after)
  }

  /** `Compact`, once it is known where to cut. */
  method Rewrite(ratio: nat, messages: History, pruned: History, boundary: nat, changed: nat, removed: int,
      summarize: History -> Option<string>)
    returns (o: Outcome)
    requires ratio > 0 && boundary <= |pruned| && removed == Runes(messages) - Runes(pruned)
    ensures IsOutcome(o, ratio, messages, pruned, boundary, changed, summarize(pruned[..boundary]))
  {
    if boundary <= 0 { return NothingToCompact; }
    var summary := summarize(pruned[..boundary]);
    if summary.None? { return SummaryFailed; }
    var out := [Message(User, summary.value, "", "", [], None)] + pruned[boundary..];
    var before := EstimateMessages(ratio, messages);
    var after := EstimateMessages(ratio, out);
    if after >= before { return NoReduction(before, after); }
    o := Compacted(out, boundary, changed, removed, before, after);
  }

  /** What a compaction does with a history: `kept` is the pruned history, cut at `cut`, and
      the part in front of the cut is what the summarizer is handed. */
  ghost predicate Compacts(o: Outcome, ratio: nat, p: PrunePolicy, retain: nat, overflow: bool, messages: History,
      summarize: History -> Option<string>, kept: History, cut: nat)
    requires ratio > 0 && ValidPolicy(p)
  {
    && AllPruned(messages, kept, p)
    && cut <= |kept|
    && (if messages == [] then cut == 0 else IsCut(ratio, kept, if overflow then 0 else retain, cut))
    && IsOutcome(o, ratio, messages, kept, cut, |LongResults(messages, p)|, summarize(kept[..cut]))
  }

  /** `Compact`; the summarizer gives a text for the messages it is handed, prefix and all,
      or fails. The history is pruned and cut; the part in front is summarized. */
  method Compact(ratio: nat, p: PrunePolicy, retain: nat, overflow: bool, messages: History,
      summarize: History -> Option<string>)
    returns (o: Outcome)
    requires ratio > 0 && ValidPolicy(p)
    ensures exists kept, cut :: Compacts(o, ratio, p, retain, overflow, messages, summarize, kept, cut)
  {
    if |messages| == 0 {
      assert Compacts(NothingToCompact, ratio, p, retain, overflow, messages, summarize, [], 0);
      return NothingToCompact;
    }
    var pruned, changed, removed := PruneToolResults(messages, p);
    PruningKeepsShape(messages, p);
    var budget := retain;
    if overflow { budget := 0; }
    var boundary := RetainBoundary(ratio, pruned, budget);
    o := Rewrite(ratio, messages, pruned, boundary, changed, removed, summarize);
    assert Compacts(o, ratio, p, retain, overflow, messages, summarize, pruned, boundary);
  }

  /** A compacted history is grouped when the history was, so that it can be compacted
      again: every tool result in it has its turn. */
  lemma CompactedIsGrouped(ratio: nat, p: PrunePolicy, budget: nat, messages: History, c: nat, summary: string)
    requires ratio > 0 && ValidPolicy(p) && Grouped(messages) && IsCut(ratio, PruneAll(messages, p), budget, c)
    ensures Grouped([Message(User, summary, "", "", [], None)] + PruneAll(messages, p)[c..])
  {
    var kept := PruneAll(messages, p);
    var b :| IsRetained(ratio, kept, budget, b) && c == Owner(kept, b);
    PruningKeepsGroups(messages, p);
    GroupsStayWhole(kept, b);
    GroupedCons(Message(User, summary, "", "", [], None), kept[c..]);
  }

  lemma TurnCons(m: Message, rest: History, i: nat)
    requires i < |rest| && !rest[0].role.Tool? && HasTurn(rest, i)
    ensures HasTurn([m] + rest, i + 1)
  {
    var out := [m] + rest;
    assert out[1..] == rest;
    OwnerInSuffix(out, 1, i);
    var k := Owner(rest, i);
    assert out[k + 1] == rest[k];
  }

  lemma GroupedCons(m: Message, rest: History)
    requires Grouped(rest) && rest != [] && !rest[0].role.Tool? && !m.role.Tool?
    ensures Grouped([m] + rest)
  {
    var out := [m] + rest;
    forall i | 0 <= i < |out| && out[i].role.Tool?
      ensures HasTurn(out, i)
    {
      assert rest[i - 1] == out[i];
      TurnCons(m, rest, i - 1);
    }
  }

  /** On overflow exactly the newest turn with its results is retained. */
  lemma OverflowCut(ratio: nat, messages: History, c: nat)
    requires ratio > 0 && messages != [] && IsCut(ratio, messages, 0, c)
    ensures c == Owner(messages, |messages| - 1)
  {
    var b :| IsRetained(ratio, messages, 0, b) && c == Owner(messages, b);
    OverflowKeepsNewest(ratio, messages, b);
  }
}
