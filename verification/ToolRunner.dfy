/** The loops of `runPendingTools` and `resumeWaitingApproval` over the fields of a run
    state, each statement a step of `ToolLoop`. What tools reply, what an operator decides,
    what the grant store holds and whether a save succeeds are arbitrary. */
module ToolRunner {
  import opened Options
  import opened Approval
  import opened ApprovalReuse
  import opened ApprovalMeaning
  import opened ToolLoop
  import opened ToolApprovals

  lemma {:induction false} AfterSnoc(s: State, steps: seq<Step>, step: Step)
    ensures After(s, steps + [step]) == Next(After(s, steps), step)
    decreases |steps|
  {
    if steps == [] {
      assert steps + [step] == [step] && [step][1..] == [];
    } else {
      AfterSnoc(Next(s, steps[0]), steps[1..], step);
      assert (steps + [step])[1..] == steps[1..] + [step];
    }
  }

  class Run {
    const runID: string
    var messages: seq<Message>
    var active: Option<Call>
    var pending: seq<Call>
    var waiting: Option<StoredRequest>
    var resolved: seq<Decision>
    var grants: seq<RunGrant>

    /** The state the machine is in, the one it began with, and how it came here. */
    ghost var now: State
    ghost var first: State
    ghost var steps: seq<Step>

    ghost predicate Matches()
      reads this
    {
      && now == After(first, steps)
      && now.run == Durable(runID, messages, active, pending, waiting, resolved, grants, now.run.decided)
    }

    /** A process that has taken up a checkpoint with nothing waiting and no active call. */
    constructor (s: State)
      requires s.at.Loop?
      ensures Matches() && now == first == s && steps == []
    {
      runID, messages, active, pending := s.run.runID, s.run.messages, s.run.active, s.run.pending;
      waiting, resolved, grants := s.run.waiting, s.run.resolved, s.run.grants;
      now, first, steps := s, s, [];
    }

    /** A process that has loaded a checkpoint with a waiting request. */
    constructor Resuming(s: State)
      requires s.at.Asking? && s.at.resumed
      ensures Matches() && now == first == s && steps == []
    {
      runID, messages, active, pending := s.run.runID, s.run.messages, s.run.active, s.run.pending;
      waiting, resolved, grants := s.run.waiting, s.run.resolved, s.run.grants;
      now, first, steps := s, s, [];
    }

    ghost method Go(step: Step)
      requires now == After(first, steps)
      modifies this`now, this`steps
      ensures now == Next(old(now), step) == After(first, steps) && steps == old(steps) + [step]
    {
      AfterSnoc(first, steps, step);
      now, steps := Next(now, step), steps + [step];
    }

    method ResolveApproval(r: Request, d: Decision)
      modifies this`waiting, this`resolved, this`grants
      ensures waiting == None && resolved == old(resolved) + [d] && grants == AfterDecision(old(grants), r, d)
    {
      waiting := None;
      resolved := resolved + [d];
      if IsApproved(d.action) && !d.scope.Once? {
        var key := ScopeKey(r, d.scope);
        if key.Some? && key.value != "" {
          var fingerprint, ruleKey := "", "";
          if d.scope.Run? { fingerprint := key.value; }
          else if d.scope.Rule? { ruleKey := key.value; }
          grants := AddApprovalGrant(grants, RunGrant(d.requestID, d.action, d.scope, fingerprint, ruleKey));
        }
      }
    }

    /** The call that has just been taken, up to its first result or a request to judge. */
    method Invoke(call: Call) returns (content: Content, asked: Option<Request>, ok: bool)
      requires Matches() && now.at == Running(call)
      modifies this
      ensures Matches() && first == old(first) && pending == old(pending)
      ensures ok && asked.None? ==> now.at == Settling(call, content)
      ensures ok && asked.Some? ==> now.at == Unmatched(call, asked.value)
      ensures asked.Some? ==>
              asked.value.runID == runID && asked.value.toolCallID == call.id && asked.value.toolName == call.name
    {
      var reply: ToolReply, asks: Option<Request>, stamp: string, clock: int := *, *, *, *;
      content, asked, ok := Output(reply), None, true;
      Go(Reply(reply, asks, stamp, clock));
      if asks.None? { return; }
      var raw := asks.value;
      var req := raw.(runID := runID, toolCallID := call.id, toolName := call.name,
                      createdAt := if raw.createdAt == 0 then clock else raw.createdAt);
      if raw.id == "" { req := req.(id := NEW_REQUEST + stamp); }
      if !ValidRequest(req) { return content, None, false; }
      var again := ReusedApprovalDecision(grants, req, clock);
      if again.None? { return content, Some(req), true; }
      waiting, resolved := None, resolved + [again.value];
      content, ok := InvokeAgain(call);
    }

    /** The invocation under an earlier decision, once that is saved. */
    method InvokeAgain(call: Call) returns (content: Content, ok: bool)
      requires Matches() && now.at.Reusing? && now.at.call == call
      modifies this`now, this`steps
      ensures Matches() && first == old(first)
      ensures ok ==> now.at == Settling(call, content)
    {
      var reply: ToolReply := *;
      content, ok := Output(reply), *;
      Go(InvokeReused(ok, reply));
    }

    /** A request no grant of the run covers: a stored grant, or the operator. */
    method Judge(call: Call, req: Request) returns (content: Content, ok: bool)
      requires Matches() && now.at == Unmatched(call, req)
      modifies this
      ensures Matches() && first == old(first) && pending == old(pending)
      ensures ok ==> now.at == Settling(call, content)
    {
      var reply: ToolReply, clock: int := *, *;
      content := Output(reply);
      var again, failed := LookUp(call, req, clock);
      if failed { return content, false; }
      if again {
        content, ok := InvokeAgain(call);
      } else {
        content, ok := Enquire(call, req, clock);
      }
    }

    /** The stored grants, and what the run notes of the answer. */
    method LookUp(call: Call, req: Request, clock: int) returns (again: bool, failed: bool)
      requires Matches() && now.at == Unmatched(call, req)
      modifies this`now, this`steps, this`waiting, this`resolved
      ensures Matches()
      ensures !failed ==> if again then now.at.Reusing? && now.at.call == call else now.at == ToAsk(call, req)
      ensures !failed && !again ==> waiting == Some(StoreRequest(req, call.id)) && resolved == old(resolved)
      ensures !failed && again ==>
              && waiting == None && resolved == old(resolved) + [now.at.decision]
              && now.at.decision.requestID == req.id && now.at.decision.reason == "approval_scope_reused"
    {
      var namespace: Namespace, rule: Option<Grant>, pinned: Option<Grant> := *, *, *;
      var d, from, bad := ReusedPersistentApproval(namespace, req, rule, pinned, clock);
      if bad { return false, true; }
      again, failed := d.Some?, false;
      Go(Look(from, namespace, clock));
      if again {
        waiting, resolved := None, resolved + [d.value];
      } else {
        waiting := Some(StoreRequest(req, call.id));
      }
    }

    /** The waiting request is saved and the operator is asked. */
    method Enquire(call: Call, req: Request, clock: int) returns (content: Content, ok: bool)
      requires Matches() && now.at == ToAsk(call, req)
      modifies this
      ensures Matches() && first == old(first) && pending == old(pending)
      ensures ok ==> now.at == Settling(call, content)
    {
      var reply: ToolReply, asked, decision: Decision, answered: bool := *, *, *, *;
      content := Output(reply);
      Go(Ask(asked));
      if !asked || !answered { return content, false; }
      content, ok := Decide(call, req, decision, clock);
    }

    /** A decision is checked against its request and resolves it. */
    method Accept(req: Request, decision: Decision, clock: int) returns (d: Decision, ok: bool)
      requires Matches() && now.at.Asking? && now.at.request == req
      modifies this
      ensures Matches() && first == old(first) && pending == old(pending) && messages == old(messages)
              && active == old(active)
      ensures d == Normalized(decision, clock)
      ensures d.action == decision.action && d.requestID == decision.requestID && d.reason == decision.reason
      ensures d.scope == if decision.scope == Unset then Once else decision.scope
      ensures ok ==> now.at == Answered(old(now.at.call), req, d, old(now.at.resumed)) && d.requestID == req.id
      ensures ok ==> waiting == None && resolved == old(resolved) + [d]
      ensures (ok <==> ValidFor(req, d)) && now.invoked == old(now.invoked)
    {
      d := Normalized(decision, clock);
      ok := ValidFor(req, d);
      Go(Answer(decision, clock));
      if ok { ResolveApproval(req, d); }
    }

    /** The decision takes effect for the active call of the loop: an approved call is
        invoked under it, a rejected one is refused and not invoked. */
    method Decide(call: Call, req: Request, decision: Decision, clock: int) returns (content: Content, ok: bool)
      requires Matches() && now.at == Asking(call, req, false)
      modifies this
      ensures Matches() && first == old(first) && pending == old(pending)
      ensures ok ==> now.at == Settling(call, content)
      ensures ok ==> decision.action == Approve || decision.action == Always || decision.action == Reject
      ensures ok && decision.action == Reject ==>
                && content.Refused? && content.decision.action == Reject && content.decision.requestID == req.id
                && content.decision.reason == decision.reason && now.invoked == old(now.invoked)
      ensures ok && decision.action != Reject ==>
                && content.Output? && |now.invoked| == |old(now.invoked)| + 1 && old(now.invoked) <= now.invoked
                && UnderDecision(now.invoked[|old(now.invoked)|], call, req, Normalized(decision, clock))
    {
      var d, accepted := Accept(req, decision, clock);
      var reply: ToolReply, saved := *, *;
      content := Output(reply);
      if !accepted { return content, false; }
      ghost var was := now;
      FittingMeans(req, d);
      Go(Commit(saved, reply));
      if saved && SaysYes(d) { ApprovedIsInvoked(was, reply); }
      if saved && d.action == Reject { RejectedIsRefused(was, reply); }
      ok := saved && !d.action.Abort?;
      if ok && !IsApproved(d.action) { content := Refused(d); }
    }

    /** The result of a call becomes its message. */
    method Settle(call: Call, content: Content) returns (ok: bool)
      requires Matches() && now.at == Settling(call, content)
      modifies this`now, this`steps, this`active, this`messages
      ensures Matches()
      ensures ok ==> now.at.Loop? && active == None && messages == old(messages) + [Message(call.id, content)]
    {
      active := None;
      Go(Clear);
      var logged := *;
      if !logged { return false; }
      messages := messages + [Message(call.id, content)];
      Go(Append);
      ok := Checkpoint();
    }

    /** A save after which the loop goes on. */
    method Checkpoint() returns (ok: bool)
      requires Matches() && (now.at.Appended? || now.at.Requeued?)
      modifies this`now, this`steps
      ensures Matches() && now.invoked == old(now.invoked)
      ensures ok ==> now.at.Loop?
    {
      ok := *;
      Go(Save(ok));
    }

    /** One call from its start to its message. */
    method RunCall(call: Call) returns (ok: bool)
      requires Matches() && now.at == Running(call)
      modifies this
      ensures Matches() && first == old(first) && pending == old(pending)
      ensures ok ==> now.at.Loop?
    {
      var content, asked, fine := Invoke(call);
      if fine && asked.Some? { content, fine := Judge(call, asked.value); }
      if !fine { return false; }
      ok := Settle(call, content);
    }

    /** `runPendingTools`. Whatever happens, it is a run of the machine; when it ends well
        every call of the turn has its answer, in order. */
    method RunPendingTools(ghost order: seq<string>) returns (ok: bool)
      requires Matches() && now.at.Loop? && Inv(first, order)
      modifies this
      ensures Matches() && first == old(first) && Inv(now, order)
      ensures ok ==> now.at.Loop? && pending == [] && active == None && Answers(messages) == order
    {
      while |pending| > 0
        invariant Matches() && first == old(first) && now.at.Loop?
        decreases |pending|
      {
        var cancelled := *;
        if cancelled { StepsKeep(order); return false; }
        var call := pending[0];
        pending := pending[1..];
        active := Some(call);
        var saved := *;
        Go(Take(saved));
        var fine := saved;
        if fine { fine := RunCall(call); }
        if !fine { StepsKeep(order); return false; }
      }
      ok := true;
      StepsKeep(order);
      assert Answers(messages) + [] + [] == order;
    }

    ghost method StepsKeep(order: seq<string>)
      requires now == After(first, steps) && Inv(first, order)
      ensures Inv(now, order)
    {
      AfterKeeps(first, order, steps);
    }

    /** `resumeWaitingApproval`: an approved call goes back to the front of the queue with
        its approval, a refused one to the messages. */
    method ResumeWaitingApproval(req: Request) returns (ok: bool)
      requires Matches() && now.at.Asking? && now.at.resumed && active == Some(now.at.call) && req == now.at.request
      modifies this
      ensures Matches() && first == old(first)
      ensures ok ==> now.at.Loop? && active == None && waiting == None && resolved != []
      ensures ok ==> Resumed(old(active.value), req, resolved[|resolved| - 1], old(messages), old(pending))
    {
      var decision: Decision, clock: int, answered: bool := *, *, *;
      if !answered { return false; }
      var d, accepted := Accept(req, decision, clock);
      if !accepted { return false; }
      ok := Resume(active.value, req, d);
    }

    /** An approved call is at the front of the queue under its approval and has no message
        yet; a rejected one has its refusal as its message and is not in the queue. */
    ghost predicate Resumed(call: Call, req: Request, d: Decision, before: seq<Message>, queue: seq<Call>)
      reads this
    {
      && d.requestID == req.id && (SaysYes(d) || d.action == Reject)
      && (d.action == Reject ==> pending == queue && messages == before + [Message(call.id, Refused(d))])
      && (SaysYes(d) ==>
            messages == before && pending != [] && pending[1..] == queue && Carrying(pending[0], call, req, d))
    }

    method Resume(call: Call, req: Request, d: Decision) returns (ok: bool)
      requires Matches() && now.at == Answered(call, req, d, true) && ValidFor(req, d)
      modifies this`now, this`steps, this`pending, this`active, this`messages
      ensures Matches() && now.invoked == old(now.invoked)
      ensures ok ==> now.at.Loop? && active == None
      ensures ok ==> Resumed(call, req, d, old(messages), old(pending))
    {
      var saved, unused: ToolReply := *, *;
      ghost var was := now;
      FittingMeans(req, d);
      Go(Commit(saved, unused));
      if !saved || d.action.Abort? { return false; }
      if SaysYes(d) { ApprovedIsQueued(was, unused); }
      active := None;
      if IsApproved(d.action) {
        pending := [call.(meta := Some(ApprovedMetadata(req, d)))] + pending;
      } else {
        messages := messages + [Message(call.id, Refused(d))];
      }
      ok := Checkpoint();
    }
  }
}
