/** What an operator's answer does to a call, and what every history says of it, told in
    terms of the answers themselves and of the texts in a request's payload:
    `agent.go:1456-1558` and `agent.go:2193-2438`. */
module ToolApprovals {
  import opened Options
  import opened Approval
  import opened ApprovalReuse
  import opened ApprovalMeaning
  import opened ToolLoop

  /** A call that is invoked under a decision about its request. */
  ghost predicate UnderDecision(i: Invocation, call: Call, r: Request, d: Decision) {
    i.basis == Decided && Carrying(i.call, call, r, d) && i.call.meta == Some(i.meta)
  }

  /** A call with its approval. */
  ghost predicate Carrying(again: Call, call: Call, r: Request, d: Decision) {
    && again.id == call.id && again.name == call.name && again.meta.Some?
    && again.meta.value.requestID == r.id && again.meta.value.action == d.action
    && (forall text :: again.meta.value.fingerprint == Some(text) <==>
          "fingerprint" in r.payload && r.payload["fingerprint"] == Text(text))
    && (forall text :: again.meta.value.ruleKey == Some(text) <==>
          "ruleKey" in r.payload && r.payload["ruleKey"] == Text(text))
  }

  /** What is asked belongs to this run and this call; an id and a time are only filled in
      where the tool gave none, and all else is what the tool said. */
  lemma BoundMeans(raw: Request, runID: string, call: Call, stamp: string, now: int)
    ensures var r := Bound(raw, runID, call, stamp, now);
            && r == raw.(id := r.id, runID := runID, toolCallID := call.id, toolName := call.name,
                         createdAt := r.createdAt)
            && r.id == (if raw.id != "" then raw.id else "approval_" + stamp)
            && r.createdAt == (if raw.createdAt != 0 then raw.createdAt else now)
  {
  }

  // ---- What an answer does ----------------------------------------------------------

  /** In the loop a call that was approved is invoked, once, under the approval. */
  lemma ApprovedIsInvoked(s: State, reply: ToolReply)
    requires s.at.Answered? && !s.at.resumed && SaysYes(s.at.decision)
    ensures var t := Next(s, Commit(true, reply));
            && t.run == s.run && t.saved == s.saved + [s.run] && t.at == Settling(s.at.call, Output(reply))
            && |t.invoked| == |s.invoked| + 1 && s.invoked <= t.invoked
            && UnderDecision(t.invoked[|s.invoked|], s.at.call, s.at.request, s.at.decision)
  {
    MetadataMeans(s.at.request, s.at.decision);
  }

  /** One that was rejected is not, and its message is the refusal. */
  lemma RejectedIsRefused(s: State, reply: ToolReply)
    requires s.at.Answered? && !s.at.resumed && s.at.decision.action == Reject
    ensures var t := Next(s, Commit(true, reply));
            var u := Next(Next(t, Clear), Append);
            && t.at == Settling(s.at.call, Refused(s.at.decision)) && t.saved == s.saved + [s.run]
            && u.invoked == t.invoked == s.invoked && u.run.pending == t.run.pending == s.run.pending
            && u.run.messages == s.run.messages + [Message(s.at.call.id, Refused(s.at.decision))]
            && u.run.active == None
  {
  }

  /** On resume a call that was approved goes to the front of the queue under the approval. */
  lemma ApprovedIsQueued(s: State, reply: ToolReply)
    requires s.at.Answered? && s.at.resumed && SaysYes(s.at.decision)
    ensures var t := Next(s, Commit(true, reply));
            && t.run.messages == s.run.messages && t.run.active == None && t.invoked == s.invoked && t.at == Requeued
            && |t.run.pending| == |s.run.pending| + 1 && t.run.pending[1..] == s.run.pending
            && Carrying(t.run.pending[0], s.at.call, s.at.request, s.at.decision)
  {
    MetadataMeans(s.at.request, s.at.decision);
  }

  /** One that was rejected gets its refusal as its message and leaves the queue. */
  lemma RejectedIsAnswered(s: State, reply: ToolReply)
    requires s.at.Answered? && s.at.resumed && s.at.decision.action == Reject
    ensures var t := Next(s, Commit(true, reply));
            && t.run.pending == s.run.pending && t.run.active == None && t.invoked == s.invoked && t.at == Appended
            && t.run.messages == s.run.messages + [Message(s.at.call.id, Refused(s.at.decision))]
  {
  }

  /** An abort, or an answer that cannot be saved, ends the run: nothing is invoked or
      queued, and the call stays the active one. */
  lemma AbortEndsTheRun(s: State, saved: bool, reply: ToolReply)
    requires s.at.Answered? && (s.at.decision.action == Abort || !saved)
    ensures var t := Next(s, Commit(saved, reply));
            t.at == Failing && t.run == s.run && t.invoked == s.invoked
  {
  }

  /** A call that is taken with an approval is invoked under it. */
  lemma QueuedIsInvoked(s: State, reply: ToolReply, asks: Option<Request>, stamp: string, now: int)
    requires s.at.Running?
    ensures var t := Next(s, Reply(reply, asks, stamp, now));
            && (s.at.call.meta.None? ==> t.invoked == s.invoked)
            && (s.at.call.meta.Some? ==>
                  t.invoked == s.invoked + [Invocation(s.at.call, s.at.call.meta.value, Decided)])
            && (asks.None? ==> t.at == Settling(s.at.call, Output(reply)) && t.run == s.run)
  {
  }

  /** A request that comes up is answered from the run's own grants exactly when an earlier
      decision speaks for it; only then is nobody asked. */
  lemma CoveredIsNotAsked(s: State, order: seq<string>, reply: ToolReply, raw: Request, stamp: string, now: int)
    requires Inv(s, order) && s.at.Running? && ValidRequest(Bound(raw, s.run.runID, s.at.call, stamp, now))
    ensures var req, t := Bound(raw, s.run.runID, s.at.call, stamp, now), Next(s, Reply(reply, Some(raw), stamp, now));
            if exists a :: a in s.run.decided && SpeaksFor(a, req)
            then t.at.Reusing? && t.at.call == s.at.call && t.at.request == req && t.at.basis == RunReuse(req)
                 && exists a :: a in s.run.decided && AnswersFor(a, req, now, t.at.decision)
            else t.at == Unmatched(s.at.call, req)
  {
    ReusedMeans(s.run.decided, Bound(raw, s.run.runID, s.at.call, stamp, now), now);
  }

  /** And then it is invoked under that answer, if the save succeeds. */
  lemma ReusedIsInvoked(s: State, saved: bool, reply: ToolReply)
    requires s.at.Reusing?
    ensures var t := Next(s, InvokeReused(saved, reply));
            if saved
            then && t.at == Settling(s.at.call, Output(reply))
                 && |t.invoked| == |s.invoked| + 1 && s.invoked <= t.invoked
                 && t.invoked[|s.invoked|].basis == s.at.basis
                 && Carrying(t.invoked[|s.invoked|].call, s.at.call, s.at.request, s.at.decision)
            else t.invoked == s.invoked && t.at == Failing
  {
    MetadataMeans(s.at.request, s.at.decision);
  }

  /** An answer is taken exactly when it fits the request, as it was given but for an unset
      scope and time. */
  lemma FittingIsTaken(s: State, raw: Decision, now: int)
    requires s.at.Asking?
    ensures var t := Next(s, Answer(raw, now));
            if ValidFor(s.at.request, Normalized(raw, now))
            then && t.at.Answered? && t.at.call == s.at.call && t.at.request == s.at.request
                 && t.at.resumed == s.at.resumed
                 && Given(raw, t.at.decision, now) && t.accepted == s.accepted + [Accepted(s.at.request, t.at.decision)]
                 && t.run.decided == s.run.decided + [Accepted(s.at.request, t.at.decision)] && t.run.waiting == None
                 && t.run.resolved == s.run.resolved + [t.at.decision]
            else t.at == Failing && t.run == s.run && t.accepted == s.accepted
  {
  }

  predicate Given(raw: Decision, d: Decision, now: int) {
    && d.requestID == raw.requestID && d.action == raw.action && d.reason == raw.reason && d.payload == raw.payload
    && d.scope == (if raw.scope == Unset then Once else raw.scope)
    && d.decidedAt == if raw.decidedAt == 0 then now else raw.decidedAt
  }

  // ---- Over every history -----------------------------------------------------------

  /** A yes to the request of this very call. */
  ghost predicate YesTo(a: Accepted, i: Invocation) {
    && SaysYes(a.decision) && a.request.id == a.decision.requestID && a.request.toolCallID == i.call.id
    && i.meta.requestID == a.request.id && i.meta.action == a.decision.action
  }

  ghost predicate Lasting(g: Grant, n: Namespace, r: Request, now: int) {
    && g.namespace == n && (g.action == Approve || g.action == Always)
    && (g.expiresAt == None || now < g.expiresAt.value)
    && Carries(r, "ruleKey", g.ruleKey)
    && exists text :: Carries(r, "fingerprint", text) && (g.fingerprint == "" || g.fingerprint == text)
  }

  /** What an invocation under an approval rests on. */
  ghost predicate RestsOnYes(i: Invocation, accepted: seq<Accepted>) {
    match i.basis
    case Decided => exists a :: a in accepted && YesTo(a, i)
    case RunReuse(r) =>
      r.id == i.meta.requestID && r.toolCallID == i.call.id && exists a :: a in accepted && SpeaksFor(a, r)
    case StoreReuse(g, n, r, now) => r.id == i.meta.requestID && r.toolCallID == i.call.id && Lasting(g, n, r, now)
  }

  lemma JustifiedRests(i: Invocation, accepted: seq<Accepted>)
    requires Justified(i, accepted)
    ensures RestsOnYes(i, accepted)
  {
    match i.basis {
      case Decided =>
        var a :| a in accepted && Grants(a, i.meta, i.call.id);
        assert YesTo(a, i);
      case RunReuse(r) =>
        var a :| a in accepted && Covers(a, r);
        CoversMeans(a, r);
      case StoreReuse(g, n, r, now) => AuthorizesMeans(g, n, r, now);
    }
  }

  /** In every history whatever is invoked under an approval rests on a yes: to the request
      of this very call, to one with the same fingerprint for the run or the same rule, or
      on a lasting grant. A rejected request never leads to an invocation. */
  lemma EveryInvocationRestsOnYes(s: State, order: seq<string>, steps: seq<Step>)
    requires Initial(s, order)
    ensures forall i :: i in After(s, steps).invoked ==> RestsOnYes(i, After(s, steps).accepted)
  {
    EveryApprovalWasGiven(s, order, steps);
    forall i | i in After(s, steps).invoked
      ensures RestsOnYes(i, After(s, steps).accepted)
    {
      JustifiedRests(i, After(s, steps).accepted);
    }
  }

  /** A call that waits in the queue with an approval has it from a yes as well. */
  lemma EveryQueuedApprovalIsYes(s: State, order: seq<string>, steps: seq<Step>, r: Durable, c: Call)
    requires Initial(s, order) && r in After(s, steps).saved && c in r.pending && c.meta.Some?
    ensures RestsOnYes(Invocation(c, c.meta.value, Decided), After(s, steps).accepted)
  {
    InitialHolds(s, order);
    AfterKeeps(s, order, steps);
    assert Good(r, order, After(s, steps).accepted);
    assert CallOk(c, After(s, steps).accepted);
    JustifiedRests(Invocation(c, c.meta.value, Decided), After(s, steps).accepted);
  }

  // ---- Refusals ---------------------------------------------------------------------

  /** A no to the request of the call. */
  ghost predicate WasRejected(callID: string, d: Decision, accepted: seq<Accepted>) {
    d.action == Reject && exists a :: a in accepted && a.decision == d && a.request.toolCallID == callID
  }

  ghost predicate ContentOk(callID: string, content: Content, accepted: seq<Accepted>) {
    content.Refused? ==> WasRejected(callID, content.decision, accepted)
  }

  ghost predicate MessagesOk(run: Durable, accepted: seq<Accepted>) {
    forall m :: m in run.messages ==> ContentOk(m.callID, m.content, accepted)
  }

  ghost predicate RefusalsOk(s: State) {
    && MessagesOk(s.run, s.accepted)
    && (forall r :: r in s.saved ==> MessagesOk(r, s.accepted))
    && match s.at
       case Settling(call, content) => ContentOk(call.id, content, s.accepted)
       case Window(call, content) => ContentOk(call.id, content, s.accepted)
       case _ => true
  }

  lemma MoreRejected(run: Durable, few: seq<Accepted>, a: Accepted)
    requires MessagesOk(run, few)
    ensures MessagesOk(run, few + [a])
  {
    assert forall x :: x in few ==> x in few + [a];
  }

  lemma AnswerKeepsRefusals(s: State, raw: Decision, now: int)
    requires RefusalsOk(s)
    ensures RefusalsOk(WasAnswered(s, raw, now))
  {
    var t := WasAnswered(s, raw, now);
    if t.accepted != s.accepted {
      var a := t.accepted[|s.accepted|];
      MoreRejected(s.run, s.accepted, a);
      forall r | r in s.saved
        ensures MessagesOk(r, t.accepted)
      {
        MoreRejected(r, s.accepted, a);
      }
    }
  }

  lemma CommitKeepsRefusals(s: State, order: seq<string>, saved: bool, reply: ToolReply)
    requires Inv(s, order) && RefusalsOk(s)
    ensures RefusalsOk(Committed(s, saved, reply))
  {
    if s.at.Answered? {
      var call, r, d := s.at.call, s.at.request, s.at.decision;
      FittingMeans(r, d);
      if d.action == Reject { assert WasRejected(call.id, d, s.accepted); }
    }
  }

  lemma LoadKeepsRefusals(s: State, k: nat, options: seq<Choice>, now: int)
    requires RefusalsOk(s)
    ensures RefusalsOk(Loaded(s, k, options, now))
  {
    if s.at.Down? && k < |s.saved| { assert s.saved[k] in s.saved; }
  }

  lemma TakeKeepsRefusals(s: State, saved: bool)
    requires RefusalsOk(s)
    ensures RefusalsOk(Took(s, saved)) && RefusalsOk(Asked(s, saved)) && RefusalsOk(WasSaved(s, saved))
  {
  }

  lemma ReplyKeepsRefusals(s: State, reply: ToolReply, asks: Option<Request>, stamp: string, now: int)
    requires RefusalsOk(s)
    ensures RefusalsOk(Replied(s, reply, asks, stamp, now))
  {
  }

  lemma LookKeepsRefusals(s: State, grant: Option<Grant>, namespace: Namespace, now: int, saved: bool, reply: ToolReply)
    requires RefusalsOk(s)
    ensures RefusalsOk(Looked(s, grant, namespace, now)) && RefusalsOk(InvokedReused(s, saved, reply))
  {
  }

  lemma EndKeepsRefusals(s: State, saved: bool)
    requires RefusalsOk(s)
    ensures RefusalsOk(Cleared(s)) && RefusalsOk(WasAppended(s)) && RefusalsOk(Abandoned(s, saved))
  {
  }

  lemma StepKeepsRefusals(s: State, order: seq<string>, step: Step)
    requires Inv(s, order) && RefusalsOk(s)
    ensures RefusalsOk(Next(s, step))
  {
    match step
    case Take(saved) => TakeKeepsRefusals(s, saved);
    case Reply(reply, asks, stamp, now) => ReplyKeepsRefusals(s, reply, asks, stamp, now);
    case Look(grant, namespace, now) => LookKeepsRefusals(s, grant, namespace, now, false, ToolReply(false, ""));
    case InvokeReused(saved, reply) => LookKeepsRefusals(s, None, Namespace("", ""), 0, saved, reply);
    case Ask(saved) => TakeKeepsRefusals(s, saved);
    case Answer(d, now) => AnswerKeepsRefusals(s, d, now);
    case Commit(saved, reply) => CommitKeepsRefusals(s, order, saved, reply);
    case Clear => EndKeepsRefusals(s, false);
    case Append => EndKeepsRefusals(s, false);
    case Save(saved) => TakeKeepsRefusals(s, saved);
    case Abandon(saved) => EndKeepsRefusals(s, saved);
    case Load(k, options, now) => LoadKeepsRefusals(s, k, options, now);
  }

  lemma {:induction false} AfterKeepsRefusals(s: State, order: seq<string>, steps: seq<Step>)
    requires Inv(s, order) && RefusalsOk(s)
    ensures RefusalsOk(After(s, steps))
    decreases |steps|
  {
    if steps != [] {
      NextKeeps(s, order, steps[0]);
      StepKeepsRefusals(s, order, steps[0]);
      AfterKeepsRefusals(Next(s, steps[0]), order, steps[1..]);
    }
  }

  /** In every checkpoint a message that says a call was refused stands for a no that was
      given to a request of that very call. */
  lemma EveryRefusalWasGiven(s: State, order: seq<string>, steps: seq<Step>, r: Durable, m: Message)
    requires Initial(s, order) && r in After(s, steps).saved && m in r.messages && m.content.Refused?
    ensures WasRejected(m.callID, m.content.decision, After(s, steps).accepted)
  {
    InitialHolds(s, order);
    AfterKeepsRefusals(s, order, steps);
    assert MessagesOk(r, After(s, steps).accepted);
  }
}
