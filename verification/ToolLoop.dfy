/** The tool queue of a run: `runPendingTools` and `resumeWaitingApproval` of `agent.go`
    and the part of `harness/runner.go` that takes a queue up again. One state machine
    covers every reply of a tool, every decision, every save that fails, a crash at any
    point and the reload of any checkpoint. */
module ToolLoop {
  import opened Options
  import opened Approval
  import opened ApprovalReuse

  // ---- State ------------------------------------------------------------------------

  /** A queued call; `meta` is the approval under which it is to be invoked. */
  datatype Call = Call(id: string, name: string, meta: Option<Metadata>)

  datatype ToolReply = ToolReply(ok: bool, text: string)

  /** What a tool message says: what the tool replied, or that the call was refused. */
  datatype Content = Output(reply: ToolReply) | Refused(decision: Decision)

  datatype Message = Message(callID: string, content: Content)

  /** The durable state of a run, as far as one queue of calls is concerned: the tool
      messages of the turn, the queue, and the approvals. `decided` is not in the code: it
      records which decisions the state has accepted. */
  datatype Durable = Durable(
    runID: string, messages: seq<Message>, active: Option<Call>, pending: seq<Call>,
    waiting: Option<StoredRequest>, resolved: seq<Decision>, grants: seq<RunGrant>, decided: seq<Accepted>)

  /** Why a call was invoked under an approval: a decision about this request, a decision
      accepted before by this run, or a grant that outlives runs. */
  datatype Basis = Decided | RunReuse(request: Request) | StoreReuse(grant: Grant, namespace: Namespace,
      request: Request, now: int)

  datatype Invocation = Invocation(call: Call, meta: Metadata, basis: Basis)

  /** Where the process is. */
  datatype Point =
    | Down
    | Loop
    | Running(call: Call)
    | Reusing(call: Call, request: Request, decision: Decision, basis: Basis)
    | Unmatched(call: Call, request: Request)
    | ToAsk(call: Call, request: Request)
    | Asking(call: Call, request: Request, resumed: bool)
    | Answered(call: Call, request: Request, decision: Decision, resumed: bool)
    | Settling(call: Call, content: Content)
    | Window(call: Call, content: Content)
    | Appended
    | Requeued
    | Failing

  /** The whole: the run in memory, the checkpoints, every invocation under an approval
      and every decision accepted so far, by whatever process. */
  datatype State = State(
    run: Durable, at: Point, saved: seq<Durable>, invoked: seq<Invocation>, accepted: seq<Accepted>)

  // ---- Steps ------------------------------------------------------------------------

  datatype Step =
    | Take(saved: bool)
    | Reply(reply: ToolReply, asks: Option<Request>, stamp: string, now: int)
    | Look(grant: Option<Grant>, namespace: Namespace, now: int)
    | InvokeReused(saved: bool, reply: ToolReply)
    | Ask(saved: bool)
    | Answer(decision: Decision, now: int)
    | Commit(saved: bool, reply: ToolReply)
    | Clear
    | Append
    | Save(saved: bool)
    | Abandon(saved: bool)
    | Load(checkpoint: nat, options: seq<Choice>, now: int)

  /** A checkpoint of the run as it is, and where to go on; a failed save ends the run. */
  function Saving(s: State, run: Durable, saved: bool, next: Point): State {
    if saved then s.(run := run, saved := s.saved + [run], at := next) else s.(run := run, at := Failing)
  }

  function Took(s: State, saved: bool): State {
    if s.at.Loop? && s.run.pending != [] then
      var call := s.run.pending[0];
      Saving(s, s.run.(pending := s.run.pending[1..], active := Some(call)), saved, Running(call))
    else s
  }

  /** A call under an approval goes on record. */
  function Record(invoked: seq<Invocation>, call: Call, basis: Basis): seq<Invocation> {
    match call.meta
    case None => invoked
    case Some(meta) => invoked + [Invocation(call, meta, basis)]
  }

  const NEW_REQUEST := "approval_"

  /** `normalizeApprovalRequest`: the request belongs to this run and this call, and has an
      id; a new one is `NEW_REQUEST` and a stamp. */
  function Bound(raw: Request, runID: string, call: Call, stamp: string, now: int): Request {
    raw.(id := if raw.id == "" then NEW_REQUEST + stamp
        else raw.id, runID := runID, toolCallID := call.id, toolName := call.name,
         createdAt := if raw.createdAt == 0 then now else raw.createdAt)
  }

  /** The first invocation of a call; its reply may ask for approval. */
  function Replied(s: State, reply: ToolReply, asks: Option<Request>, stamp: string, now: int): State {
    if !s.at.Running? then s
    else
      var call := s.at.call;
      var t := s.(invoked := Record(s.invoked, call, Decided));
      match asks
      case None => t.(at := Settling(call, Output(reply)))
      case Some(raw) =>
        var req := Bound(raw, s.run.runID, call, stamp, now);
        if !ValidRequest(req) then t.(at := Failing)
        else
          match Reused(s.run.grants, req, now)
          case Some(d) => t.(run := s.run.(waiting := None, resolved := s.run.resolved + [d]),
              at := Reusing(call, req, d, RunReuse(req)))
          case None => t.(at := Unmatched(call, req))
  }

  function Looked(s: State, grant: Option<Grant>, namespace: Namespace, now: int): State {
    if !s.at.Unmatched? then s
    else
      var call, req := s.at.call, s.at.request;
      match grant
      case Some(g) =>
        if !Authorizes(g, namespace, req, now) then s.(at := Failing)
        else
          var d := Decision(req.id, g.action, EffectiveScope(g), REASON_REUSED, map[], now);
          s.(run := s.run.(waiting := None, resolved := s.run.resolved + [d]),
              at := Reusing(call, req, d, StoreReuse(g, namespace, req, now)))
      case None => s.(run := s.run.(waiting := Some(StoreRequest(req, call.id))), at := ToAsk(call, req))
  }

  function Approved(call: Call, r: Request, d: Decision): Call { call.(meta := Some(ApprovedMetadata(r, d))) }

  function InvokedReused(s: State, saved: bool, reply: ToolReply): State {
    if !s.at.Reusing? then s
    else if !saved then s.(at := Failing)
    else
      var call := Approved(s.at.call, s.at.request, s.at.decision);
      s.(saved := s.saved + [s.run], invoked := Record(s.invoked, call, s.at.basis),
         at := Settling(s.at.call, Output(reply)))
  }

  function Asked(s: State, saved: bool): State {
    if s.at.ToAsk? then Saving(s, s.run, saved, Asking(s.at.call, s.at.request, false)) else s
  }

  /** `resolveApproval`: an accepted decision ends the waiting and may leave a grant. */
  function Resolve(run: Durable, r: Request, d: Decision): Durable {
    run.(waiting := None, resolved := run.resolved + [d], grants := AfterDecision(run.grants, r, d),
         decided := run.decided + [Accepted(r, d)])
  }

  function WasAnswered(s: State, raw: Decision, now: int): State {
    if !s.at.Asking? then s
    else
      var d, req := Normalized(raw, now), s.at.request;
      if !ValidFor(req, d) then s.(at := Failing)
      else
        s.(run := Resolve(s.run, req, d), accepted := s.accepted + [Accepted(req, d)],
           at := Answered(s.at.call, req, d, s.at.resumed))
  }

  /** The accepted decision is saved and takes effect: within the loop the call is invoked
      or refused; on resume it goes back to the front of the queue, or its refusal to the
      messages. */
  function Committed(s: State, saved: bool, reply: ToolReply): State {
    if !s.at.Answered? then s
    else if !saved || s.at.decision.action.Abort? then
      s.(saved := if saved then s.saved + [s.run] else s.saved, at := Failing)
    else
      var call, d := s.at.call, s.at.decision;
      var t := s.(saved := s.saved + [s.run]);
      if IsApproved(d.action) then
        var again := Approved(call, s.at.request, d);
        if s.at.resumed then
          t.(run := s.run.(pending := [again] + s.run.pending, active := None), at := Requeued)
        else t.(invoked := Record(s.invoked, again, Decided), at := Settling(call, Output(reply)))
      else if s.at.resumed then
        t.(run := s.run.(active := None, messages := s.run.messages + [Message(call.id, Refused(d))]), at := Appended)
      else t.(at := Settling(call, Refused(d)))
  }

  function Cleared(s: State): State {
    if s.at.Settling? then s.(run := s.run.(active := None), at := Window(s.at.call, s.at.content)) else s
  }

  function WasAppended(s: State): State {
    if s.at.Window? then
      s.(run := s.run.(messages := s.run.messages + [Message(s.at.call.id, s.at.content)]), at := Appended)
    else s
  }

  function WasSaved(s: State, saved: bool): State {
    if s.at.Appended? || s.at.Requeued? then Saving(s, s.run, saved, Loop) else s
  }

  /** The run ends, by an error, a pause or a crash. An error is saved before it ends the
      run, except one of the event log, and no other can happen in the window. */
  function Abandoned(s: State, saved: bool): State {
    if s.at.Down? then s
    else s.(saved := if saved && !s.at.Window? then s.saved + [s.run] else s.saved, at := Down)
  }

  function Requeue(run: Durable): Durable {
    match run.active
    case None => run
    case Some(call) => run.(pending := [call] + run.pending, active := None)
  }

  /** A process takes a checkpoint up: a waiting call is asked for again, an active one
      goes back to the front of the queue. */
  function Loaded(s: State, k: nat, options: seq<Choice>, now: int): State {
    if !s.at.Down? || k >= |s.saved| then s
    else
      var run := s.saved[k];
      match run.waiting
      case Some(w) =>
        (match run.active
         case None => s.(run := run, at := Failing)
         case Some(call) => s.(run := run,
             at := Asking(call, RebuildRequest(w, run.runID, call.id, call.name, options, now), true)))
      case None => s.(run := Requeue(run), at := if run.active.Some? then Requeued else Loop)
  }

  function Next(s: State, step: Step): State {
    match step
    case Take(saved) => Took(s, saved)
    case Reply(reply, asks, stamp, now) => Replied(s, reply, asks, stamp, now)
    case Look(grant, namespace, now) => Looked(s, grant, namespace, now)
    case InvokeReused(saved, reply) => InvokedReused(s, saved, reply)
    case Ask(saved) => Asked(s, saved)
    case Answer(d, now) => WasAnswered(s, d, now)
    case Commit(saved, reply) => Committed(s, saved, reply)
    case Clear => Cleared(s)
    case Append => WasAppended(s)
    case Save(saved) => WasSaved(s, saved)
    case Abandon(saved) => Abandoned(s, saved)
    case Load(k, options, now) => Loaded(s, k, options, now)
  }

  /** A turn begins with its calls queued, none of them approved yet, and saved. */
  predicate Initial(s: State, order: seq<string>) {
    && s.run.messages == [] && s.run.active == None && Ids(s.run.pending) == order && s.run.waiting == None
    && (forall c :: c in s.run.pending ==> c.meta == None)
    && s.run.grants == GrantsAfter(s.run.decided) && Within(s.run.decided, s.accepted)
    && s.saved == [s.run] && s.invoked == [] && (s.at.Loop? || s.at.Down?)
  }

  function After(s: State, steps: seq<Step>): State
    decreases |steps|
  {
    if steps == [] then s else After(Next(s, steps[0]), steps[1..])
  }

  // ---- What always holds ------------------------------------------------------------

  function Ids(calls: seq<Call>): (ids: seq<string>)
    ensures |ids| == |calls|
  {
    if calls == [] then [] else [calls[0].id] + Ids(calls[1..])
  }

  function Answers(messages: seq<Message>): (ids: seq<string>)
    ensures |ids| == |messages|
  {
    if messages == [] then [] else [messages[0].callID] + Answers(messages[1..])
  }

  function ActiveId(active: Option<Call>): seq<string> { if active.Some? then [active.value.id] else [] }

  /** Answered calls, the active one and the queue are the calls of the turn, in order. */
  predicate Conserves(run: Durable, order: seq<string>) {
    Answers(run.messages) + ActiveId(run.active) + Ids(run.pending) == order
  }

  predicate Within(few: seq<Accepted>, all: seq<Accepted>) { forall a :: a in few ==> a in all }

  /** An approving decision about this very request of this very call. */
  predicate Grants(a: Accepted, meta: Metadata, callID: string) {
    && IsApproved(a.decision.action) && meta == ApprovedMetadata(a.request, a.decision)
    && a.request.id == a.decision.requestID && a.request.toolCallID == callID
  }

  /** Such a decision has been accepted. */
  ghost predicate Granted(meta: Metadata, callID: string, accepted: seq<Accepted>) {
    exists a :: a in accepted && Grants(a, meta, callID)
  }

  ghost predicate CallOk(call: Call, accepted: seq<Accepted>) {
    call.meta.Some? ==> Granted(call.meta.value, call.id, accepted)
  }

  /** A request that is about this call and named in its approval. */
  predicate About(r: Request, i: Invocation) { r.id == i.meta.requestID && r.toolCallID == i.call.id }

  /** Nothing runs under an approval that was not given for it. */
  ghost predicate Justified(i: Invocation, accepted: seq<Accepted>) {
    match i.basis
    case Decided => Granted(i.meta, i.call.id, accepted)
    case RunReuse(r) => About(r, i) && exists a :: a in accepted && Covers(a, r)
    case StoreReuse(g, n, r, now) => About(r, i) && Authorizes(g, n, r, now)
  }

  ghost predicate Durably(run: Durable, accepted: seq<Accepted>) {
    && (run.active.Some? ==> CallOk(run.active.value, accepted))
    && (forall c :: c in run.pending ==> CallOk(c, accepted))
    && run.grants == GrantsAfter(run.decided)
    && Within(run.decided, accepted)
    && (run.waiting.Some? ==> run.active.Some? && run.waiting.value.toolCallID == run.active.value.id)
  }

  /** A state that may be checkpointed. */
  ghost predicate Good(run: Durable, order: seq<string>, accepted: seq<Accepted>) {
    Conserves(run, order) && Durably(run, accepted)
  }

  /** The run in memory, by the point the process has reached. */
  ghost predicate InMemory(s: State, order: seq<string>) {
    match s.at
    case Down => true
    case Loop => Good(s.run, order, s.accepted) && s.run.active == None
    case Running(call) => Good(s.run, order, s.accepted) && s.run.active == Some(call) && s.run.waiting == None
    case Reusing(call, r, d, basis) =>
      && Good(s.run, order, s.accepted) && s.run.active == Some(call) && s.run.waiting == None && IsApproved(d.action)
      && Justified(Invocation(Approved(call, r, d), ApprovedMetadata(r, d), basis), s.accepted)
    case Unmatched(call, r) =>
      Good(s.run, order, s.accepted) && s.run.active == Some(call) && s.run.waiting == None && r.toolCallID == call.id
    case ToAsk(call, r) => Good(s.run, order, s.accepted) && s.run.active == Some(call) && r.toolCallID == call.id
    case Asking(call, r, _) => Good(s.run, order, s.accepted) && s.run.active == Some(call) && r.toolCallID == call.id
    case Answered(call, r, d, _) =>
      && Good(s.run, order, s.accepted) && s.run.active == Some(call) && s.run.waiting == None
      && ValidFor(r, d) && Accepted(r, d) in s.accepted && r.toolCallID == call.id
    case Settling(call, _) => Good(s.run, order, s.accepted) && s.run.active == Some(call) && s.run.waiting == None
    case Window(call, _) =>
      && s.run.active == None && Durably(s.run, s.accepted)
      && Answers(s.run.messages) + [call.id] + Ids(s.run.pending) == order
    case Appended => Good(s.run, order, s.accepted) && s.run.active == None
    case Requeued => Good(s.run, order, s.accepted) && s.run.active == None
    case Failing => Good(s.run, order, s.accepted)
  }

  ghost predicate SavedGood(s: State, order: seq<string>) { forall r :: r in s.saved ==> Good(r, order, s.accepted) }

  ghost predicate AllJustified(s: State) { forall i :: i in s.invoked ==> Justified(i, s.accepted) }

  ghost predicate Inv(s: State, order: seq<string>) {
    InMemory(s, order) && SavedGood(s, order) && AllJustified(s)
  }

  // ---- Small facts ------------------------------------------------------------------

  lemma AnswersCons(m: Message, rest: seq<Message>)
    ensures Answers([m] + rest) == [m.callID] + Answers(rest)
  {
    assert ([m] + rest)[1..] == rest;
  }

  lemma Regrouped(first: string, a: seq<string>, b: seq<string>)
    ensures [first] + (a + b) == [first] + a + b
  {
  }

  lemma {:induction false} AnswersConcat(a: seq<Message>, b: seq<Message>)
    ensures Answers(a + b) == Answers(a) + Answers(b)
  {
    if a == [] {
      assert a + b == b;
    } else {
      AnswersConcat(a[1..], b);
      AnswersCons(a[0], a[1..] + b);
      assert a + b == [a[0]] + (a[1..] + b);
      Regrouped(a[0].callID, Answers(a[1..]), Answers(b));
    }
  }

  lemma MoreAccepted(run: Durable, order: seq<string>, few: seq<Accepted>, a: Accepted)
    requires Good(run, order, few)
    ensures Good(run, order, few + [a])
  {
    assert forall x :: x in few ==> x in few + [a];
    MoreGranted(run.active, few, a);
    forall c | c in run.pending
      ensures CallOk(c, few + [a])
    {
      MoreGranted(Some(c), few, a);
    }
  }

  lemma MoreGranted(call: Option<Call>, few: seq<Accepted>, a: Accepted)
    requires call.Some? ==> CallOk(call.value, few)
    ensures call.Some? ==> CallOk(call.value, few + [a])
  {
    if call.Some? && call.value.meta.Some? {
      var meta := call.value.meta.value;
      var x :| x in few && Grants(x, meta, call.value.id);
      assert x in few + [a];
    }
  }

  lemma MoreJustified(i: Invocation, few: seq<Accepted>, a: Accepted)
    requires Justified(i, few)
    ensures Justified(i, few + [a])
  {
    match i.basis {
      case Decided =>
        var x :| x in few && Grants(x, i.meta, i.call.id);
        assert x in few + [a];
      case RunReuse(r) =>
        var x :| x in few && Covers(x, r);
        assert x in few + [a];
      case StoreReuse(_, _, _, _) =>
    }
  }

  // ---- Every step keeps it ----------------------------------------------------------

  lemma SavingKeeps(s: State, order: seq<string>, run: Durable, saved: bool, next: Point)
    requires SavedGood(s, order) && AllJustified(s) && Good(run, order, s.accepted)
    requires InMemory(s.(run := run, at := next), order)
    ensures Inv(Saving(s, run, saved, next), order)
  {
  }

  lemma TakeKeeps(s: State, order: seq<string>, saved: bool)
    requires Inv(s, order)
    ensures Inv(Took(s, saved), order)
  {
    if s.at.Loop? && s.run.pending != [] {
      var call := s.run.pending[0];
      var run := s.run.(pending := s.run.pending[1..], active := Some(call));
      assert Answers(run.messages) + [call.id] + Ids(run.pending) == Answers(s.run.messages) + [] + Ids(s.run.pending);
      SavingKeeps(s, order, run, saved, Running(call));
    }
  }

  lemma RecordKeeps(s: State, call: Call, basis: Basis)
    requires AllJustified(s) && (call.meta.Some? ==> Justified(Invocation(call, call.meta.value, basis), s.accepted))
    ensures AllJustified(s.(invoked := Record(s.invoked, call, basis)))
  {
  }

  lemma ReplyKeeps(s: State, order: seq<string>, reply: ToolReply, asks: Option<Request>, stamp: string, now: int)
    requires Inv(s, order)
    ensures Inv(Replied(s, reply, asks, stamp, now), order)
  {
    if s.at.Running? {
      var call := s.at.call;
      RecordKeeps(s, call, Decided);
      if asks.Some? {
        ReusedExactly(s.run.decided, Bound(asks.value, s.run.runID, call, stamp, now), now);
      }
    }
  }

  lemma LookKeeps(s: State, order: seq<string>, grant: Option<Grant>, namespace: Namespace, now: int)
    requires Inv(s, order)
    ensures Inv(Looked(s, grant, namespace, now), order)
  {
  }

  lemma InvokeReusedKeeps(s: State, order: seq<string>, saved: bool, reply: ToolReply)
    requires Inv(s, order)
    ensures Inv(InvokedReused(s, saved, reply), order)
  {
    if s.at.Reusing? && saved { RecordKeeps(s, Approved(s.at.call, s.at.request, s.at.decision), s.at.basis); }
  }

  lemma AskKeeps(s: State, order: seq<string>, saved: bool)
    requires Inv(s, order)
    ensures Inv(Asked(s, saved), order)
  {
  }

  lemma AnswerKeeps(s: State, order: seq<string>, raw: Decision, now: int)
    requires Inv(s, order)
    ensures Inv(WasAnswered(s, raw, now), order)
  {
    if s.at.Asking? {
      var d, req := Normalized(raw, now), s.at.request;
      var a := Accepted(req, d);
      if ValidFor(req, d) {
        var t := WasAnswered(s, raw, now);
        forall r | r in s.saved
          ensures Good(r, order, t.accepted)
        {
          MoreAccepted(r, order, s.accepted, a);
        }
        forall i | i in s.invoked
          ensures Justified(i, t.accepted)
        {
          MoreJustified(i, s.accepted, a);
        }
        MoreAccepted(s.run, order, s.accepted, a);
        ResolveKeeps(s.run, order, t.accepted, req, d);
      }
    }
  }

  lemma ResolveKeeps(run: Durable, order: seq<string>, accepted: seq<Accepted>, r: Request, d: Decision)
    requires Good(run, order, accepted) && Accepted(r, d) in accepted
    ensures Good(Resolve(run, r, d), order, accepted)
  {
    var decided := run.decided + [Accepted(r, d)];
    assert decided[..|decided| - 1] == run.decided;
  }

  /** A call that goes back to the front of the queue. */
  lemma RequeuedConserves(run: Durable, order: seq<string>, call: Call, again: Call)
    requires Answers(run.messages) + [call.id] + Ids(run.pending) == order && again.id == call.id
    ensures Conserves(run.(pending := [again] + run.pending, active := None), order)
  {
    assert ([again] + run.pending)[1..] == run.pending;
    assert Answers(run.messages) + [] + ([call.id] + Ids(run.pending))
        == Answers(run.messages) + [call.id] + Ids(run.pending);
  }

  lemma CommitKeeps(s: State, order: seq<string>, saved: bool, reply: ToolReply)
    requires Inv(s, order)
    ensures Inv(Committed(s, saved, reply), order)
  {
    if s.at.Answered? && saved && !s.at.decision.action.Abort? {
      var call, d := s.at.call, s.at.decision;
      var again := Approved(call, s.at.request, d);
      if IsApproved(d.action) {
        assert CallOk(again, s.accepted);
        if s.at.resumed {
          RequeuedConserves(s.run, order, call, again);
        } else {
          RecordKeeps(s, again, Decided);
        }
      } else if s.at.resumed {
        AppendedConserves(s.run, order, call, Refused(d));
      }
    }
  }

  lemma AppendedConserves(run: Durable, order: seq<string>, call: Call, content: Content)
    requires Answers(run.messages) + [call.id] + Ids(run.pending) == order
    ensures Conserves(run.(active := None, messages := run.messages + [Message(call.id, content)]), order)
  {
    AnswersConcat(run.messages, [Message(call.id, content)]);
    assert Answers([Message(call.id, content)]) == [call.id];
  }

  lemma ClearKeeps(s: State, order: seq<string>)
    requires Inv(s, order)
    ensures Inv(Cleared(s), order)
  {
  }

  lemma AppendKeeps(s: State, order: seq<string>)
    requires Inv(s, order)
    ensures Inv(WasAppended(s), order)
  {
    if s.at.Window? { AppendedConserves(s.run, order, s.at.call, s.at.content); }
  }

  lemma SaveKeeps(s: State, order: seq<string>, saved: bool)
    requires Inv(s, order)
    ensures Inv(WasSaved(s, saved), order)
  {
  }

  lemma AbandonKeeps(s: State, order: seq<string>, saved: bool)
    requires Inv(s, order)
    ensures Inv(Abandoned(s, saved), order)
  {
  }

  lemma LoadKeeps(s: State, order: seq<string>, k: nat, options: seq<Choice>, now: int)
    requires Inv(s, order)
    ensures Inv(Loaded(s, k, options, now), order)
  {
    if s.at.Down? && k < |s.saved| {
      var run := s.saved[k];
      assert run in s.saved;
      if run.waiting.None? && run.active.Some? {
        RequeuedConserves(run, order, run.active.value, run.active.value);
      }
    }
  }

  lemma NextKeeps(s: State, order: seq<string>, step: Step)
    requires Inv(s, order)
    ensures Inv(Next(s, step), order)
  {
    match step
    case Take(saved) => TakeKeeps(s, order, saved);
    case Reply(reply, asks, stamp, now) => ReplyKeeps(s, order, reply, asks, stamp, now);
    case Look(grant, namespace, now) => LookKeeps(s, order, grant, namespace, now);
    case InvokeReused(saved, reply) => InvokeReusedKeeps(s, order, saved, reply);
    case Ask(saved) => AskKeeps(s, order, saved);
    case Answer(d, now) => AnswerKeeps(s, order, d, now);
    case Commit(saved, reply) => CommitKeeps(s, order, saved, reply);
    case Clear => ClearKeeps(s, order);
    case Append => AppendKeeps(s, order);
    case Save(saved) => SaveKeeps(s, order, saved);
    case Abandon(saved) => AbandonKeeps(s, order, saved);
    case Load(k, options, now) => LoadKeeps(s, order, k, options, now);
  }

  lemma InitialHolds(s: State, order: seq<string>)
    requires Initial(s, order)
    ensures Inv(s, order)
  {
    assert Answers([]) + [] + Ids(s.run.pending) == order;
  }

  lemma {:induction false} AfterKeeps(s: State, order: seq<string>, steps: seq<Step>)
    requires Inv(s, order)
    ensures Inv(After(s, steps), order)
    decreases |steps|
  {
    if steps != [] {
      NextKeeps(s, order, steps[0]);
      AfterKeeps(Next(s, steps[0]), order, steps[1..]);
    }
  }

  // ---- The results ------------------------------------------------------------------

  /** However a turn goes, through pauses, refusals, crashes and reloads of any of its
      checkpoints: in every checkpoint the calls that have an answer, the active one and
      the queue are the calls of the turn in their order, so that the answers are a prefix
      of the calls and no call has two. */
  lemma EveryCheckpointKeepsTheQueue(s: State, order: seq<string>, steps: seq<Step>)
    requires Initial(s, order)
    ensures forall r :: r in After(s, steps).saved ==> Conserves(r, order) && Answers(r.messages) <= order
    ensures (forall i, j :: 0 <= i < j < |order| ==> order[i] != order[j]) ==>
              forall r :: r in After(s, steps).saved ==>
                forall i, j :: 0 <= i < j < |r.messages| ==> r.messages[i].callID != r.messages[j].callID
  {
    InitialHolds(s, order);
    AfterKeeps(s, order, steps);
    forall r | r in After(s, steps).saved
      ensures Answers(r.messages) <= order
      ensures (forall i, j :: 0 <= i < j < |order| ==> order[i] != order[j]) ==>
                forall i, j :: 0 <= i < j < |r.messages| ==> r.messages[i].callID != r.messages[j].callID
    {
      assert Good(r, order, After(s, steps).accepted);
      AnswersAt(r.messages);
      assert forall i :: 0 <= i < |r.messages| ==> order[i] == Answers(r.messages)[i];
    }
  }

  lemma {:induction false} AnswersAt(messages: seq<Message>)
    ensures forall i :: 0 <= i < |messages| ==> Answers(messages)[i] == messages[i].callID
  {
    if messages != [] { AnswersAt(messages[1..]); }
  }

  /** A call is invoked under an approval only after an approving decision about a request
      of this very call was accepted, or one that covers such a request, or with a stored
      grant that authorises it and has not expired. */
  lemma EveryApprovalWasGiven(s: State, order: seq<string>, steps: seq<Step>)
    requires Initial(s, order)
    ensures forall i :: i in After(s, steps).invoked ==> Justified(i, After(s, steps).accepted)
  {
    InitialHolds(s, order);
    AfterKeeps(s, order, steps);
  }

  /** In every checkpoint, and so in every run taken up from one, a request is answered
      from the run's own grants exactly when the run has accepted a decision that covers
      it. `RebuiltAsksTheSame` says that a stored request is covered in the same cases. */
  lemma EveryCheckpointReusesExactly(s: State, order: seq<string>, steps: seq<Step>, r: Durable, req: Request, now: int)
    requires Initial(s, order) && r in After(s, steps).saved
    ensures Reused(r.grants, req, now).Some? <==> exists a :: a in r.decided && Covers(a, req)
    ensures forall a :: a in r.decided ==> a in After(s, steps).accepted
  {
    InitialHolds(s, order);
    AfterKeeps(s, order, steps);
    ReusedExactly(r.decided, req, now);
    assert Good(r, order, After(s, steps).accepted);
  }
}
