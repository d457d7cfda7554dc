/** The hand-off between a tool call that waits for an approval and the operator who
    answers it: `PendingBroker` of `approval/broker.go`, as the interleaving of the locked
    sections, the send after the lock and the two ways a waiter can end. */
module PendingBroker {
  import opened Options
  import opened Approval

  type WaiterID = nat
  type SubmitID = nat

  /** Where one `Request` call is. `Stuck` has seen its context end, has found its entry
      gone, and now receives without a way out. */
  datatype Place = Waiting | Stuck | Returned(decision: Decision) | GaveUp

  /** One `Request` call with its own channel of capacity one. `claim` is history: the
      `Submit` that consumed the registration. */
  datatype Waiter = Waiter(request: Request, inbox: seq<Decision>, place: Place, claim: Option<SubmitID>)

  /** One `Submit` call that got past its locked section: it will return nil. */
  datatype Submission = Submission(waiter: WaiterID, decision: Decision, sent: bool)

  datatype State = State(
    pending: map<string, WaiterID>, waiters: map<WaiterID, Waiter>, submits: map<SubmitID, Submission>)

  const INIT := State(map[], map[], map[])

  datatype Step =
    | Register(w: WaiterID, request: Request)
    | Claim(s: SubmitID, decision: Decision, now: int)
    | Send(s: SubmitID)
    | Take(w: WaiterID)
    | Cancel(w: WaiterID)

  predicate Enabled(st: State, step: Step) {
    match step
    case Register(w, r) => w !in st.waiters && ValidRequest(r)
    case Claim(s, d, now) => s !in st.submits && ValidDecision(Normalized(d, now))
    case Send(s) =>
      s in st.submits && !st.submits[s].sent &&
      st.submits[s].waiter in st.waiters && st.waiters[st.submits[s].waiter].inbox == []
    case Take(w) =>
      w in st.waiters && (st.waiters[w].place.Waiting? || st.waiters[w].place.Stuck?) && st.waiters[w].inbox != []
    case Cancel(w) => w in st.waiters && st.waiters[w].place.Waiting?
  }

  /** The entry `pending[id]` is this waiter's own, as `remove` compares channels. */
  predicate Owns(st: State, w: WaiterID)
    requires w in st.waiters
  {
    var id := st.waiters[w].request.id;
    id in st.pending && st.pending[id] == w
  }

  /** The locked section of `Submit` finds an entry and accepts the decision. */
  predicate Accepts(st: State, d: Decision) {
    d.requestID in st.pending && st.pending[d.requestID] in st.waiters &&
    ValidFor(st.waiters[st.pending[d.requestID]].request, d)
  }

  function Registered(st: State, w: WaiterID, r: Request): State {
    if r.id in st.pending then st
    else st.(pending := st.pending[r.id := w], waiters := st.waiters[w := Waiter(r, [], Waiting, None)])
  }

  function Claimed(st: State, s: SubmitID, d: Decision): State
    requires d.requestID in st.pending && st.pending[d.requestID] in st.waiters
  {
    var w := st.pending[d.requestID];
    State(st.pending - {d.requestID},
          st.waiters[w := st.waiters[w].(claim := Some(s))],
          st.submits[s := Submission(w, d, false)])
  }

  function Sent(st: State, s: SubmitID): State
    requires s in st.submits && st.submits[s].waiter in st.waiters
  {
    var sub := st.submits[s];
    var x := st.waiters[sub.waiter];
    st.(waiters := st.waiters[sub.waiter := x.(inbox := x.inbox + [sub.decision])],
        submits := st.submits[s := sub.(sent := true)])
  }

  function Taken(st: State, w: WaiterID): State
    requires w in st.waiters && st.waiters[w].inbox != []
  {
    var x := st.waiters[w];
    st.(waiters := st.waiters[w := x.(inbox := x.inbox[1..], place := Returned(x.inbox[0]))])
  }

  /** The context ends: `remove` deletes the entry if it is still the waiter's own. */
  function Cancelled(st: State, w: WaiterID): State
    requires w in st.waiters
  {
    var x := st.waiters[w];
    if Owns(st, w)
    then st.(pending := st.pending - {x.request.id}, waiters := st.waiters[w := x.(place := GaveUp)])
    else st.(waiters := st.waiters[w := x.(place := Stuck)])
  }

  function Next(st: State, step: Step): State
    requires Enabled(st, step)
  {
    match step
    case Register(w, r) => Registered(st, w, r)
    case Claim(s, d, now) => if Accepts(st, Normalized(d, now)) then Claimed(st, s, Normalized(d, now)) else st
    case Send(s) => Sent(st, s)
    case Take(w) => Taken(st, w)
    case Cancel(w) => Cancelled(st, w)
  }

  // ---- What every step keeps ------------------------------------------------------

  /** A waiter is registered, or one submission has consumed its registration and travels
      to it, or it removed itself: never two of these. */
  ghost predicate WaiterOk(st: State, w: WaiterID)
    requires w in st.waiters
  {
    var x := st.waiters[w];
    match x.claim
    case None =>
      && x.inbox == []
      && (x.place.Waiting? || x.place.GaveUp?)
      && (x.place.Waiting? <==> Owns(st, w))
    case Some(s) =>
      && !Owns(st, w)
      && s in st.submits && st.submits[s].waiter == w
      && var d := st.submits[s].decision;
         if st.submits[s].sent
         then (x.inbox == [d] && (x.place.Waiting? || x.place.Stuck?)) || (x.inbox == [] && x.place == Returned(d))
         else x.inbox == [] && (x.place.Waiting? || x.place.Stuck?)
  }

  /** A submission past its lock belongs to one waiter. */
  ghost predicate SubmitOk(st: State, s: SubmitID)
    requires s in st.submits
  {
    var sub := st.submits[s];
    sub.waiter in st.waiters && st.waiters[sub.waiter].claim == Some(s) &&
    sub.decision.requestID == st.waiters[sub.waiter].request.id
  }

  ghost predicate PendingOk(st: State) {
    forall id :: id in st.pending ==> st.pending[id] in st.waiters && st.waiters[st.pending[id]].request.id == id
  }

  ghost predicate Inv(st: State) {
    && PendingOk(st)
    && (forall w :: w in st.waiters ==> WaiterOk(st, w))
    && (forall s :: s in st.submits ==> SubmitOk(st, s))
  }

  lemma RegisterKeeps(st: State, o: WaiterID, r: Request)
    requires Inv(st) && o !in st.waiters
    ensures Inv(Registered(st, o, r))
  {
    var t := Registered(st, o, r);
    if r.id in st.pending { return; }
    forall w | w in t.waiters ensures WaiterOk(t, w) {
      if w != o { assert WaiterOk(st, w) && (Owns(t, w) <==> Owns(st, w)); }
    }
    forall s | s in t.submits ensures SubmitOk(t, s) { assert SubmitOk(st, s); }
  }

  lemma ClaimKeepsWaiter(st: State, s: SubmitID, d: Decision, w: WaiterID)
    requires PendingOk(st) && s !in st.submits && d.requestID in st.pending
    requires w in st.waiters && WaiterOk(st, w)
    ensures WaiterOk(Claimed(st, s, d), w)
  {
    var t := Claimed(st, s, d);
    if w != st.pending[d.requestID] { assert Owns(t, w) <==> Owns(st, w); }
  }

  lemma ClaimKeeps(st: State, s: SubmitID, d: Decision)
    requires Inv(st) && s !in st.submits && d.requestID in st.pending
    ensures Inv(Claimed(st, s, d))
  {
    var t := Claimed(st, s, d);
    forall w | w in t.waiters ensures WaiterOk(t, w) { ClaimKeepsWaiter(st, s, d, w); }
    var owner := st.pending[d.requestID];
    assert WaiterOk(st, owner);
    forall r | r in t.submits ensures SubmitOk(t, r) {
      if r != s { assert SubmitOk(st, r); }
    }
  }

  lemma SendKeeps(st: State, s: SubmitID)
    requires Inv(st) && Enabled(st, Send(s))
    ensures Inv(Sent(st, s))
  {
    var t := Sent(st, s);
    assert SubmitOk(st, s) && WaiterOk(st, st.submits[s].waiter);
    forall w | w in t.waiters ensures WaiterOk(t, w) {
      assert WaiterOk(st, w) && (Owns(t, w) <==> Owns(st, w));
    }
    forall r | r in t.submits ensures SubmitOk(t, r) { assert SubmitOk(st, r); }
  }

  lemma TakeKeeps(st: State, o: WaiterID)
    requires Inv(st) && Enabled(st, Take(o))
    ensures Inv(Taken(st, o))
  {
    var t := Taken(st, o);
    forall w | w in t.waiters ensures WaiterOk(t, w) {
      assert WaiterOk(st, w) && (Owns(t, w) <==> Owns(st, w));
    }
    forall r | r in t.submits ensures SubmitOk(t, r) { assert SubmitOk(st, r); }
  }

  lemma CancelKeeps(st: State, o: WaiterID)
    requires Inv(st) && Enabled(st, Cancel(o))
    ensures Inv(Cancelled(st, o))
  {
    var t := Cancelled(st, o);
    forall w | w in t.waiters ensures WaiterOk(t, w) {
      assert WaiterOk(st, w);
      if w != o { assert Owns(t, w) <==> Owns(st, w); }
    }
    forall r | r in t.submits ensures SubmitOk(t, r) { assert SubmitOk(st, r); }
  }

  lemma NextKeeps(st: State, step: Step)
    requires Inv(st) && Enabled(st, step)
    ensures Inv(Next(st, step))
  {
    match step
    case Register(w, r) => RegisterKeeps(st, w, r);
    case Claim(s, d, now) => if Accepts(st, Normalized(d, now)) { ClaimKeeps(st, s, Normalized(d, now)); }
    case Send(s) => SendKeeps(st, s);
    case Take(w) => TakeKeeps(st, w);
    case Cancel(w) => CancelKeeps(st, w);
  }

  /** The claimed decision passed the validation against the request it answers. */
  ghost predicate Fits(st: State, s: SubmitID) {
    s in st.submits && st.submits[s].waiter in st.waiters ==>
      ValidFor(st.waiters[st.submits[s].waiter].request, st.submits[s].decision)
  }

  lemma ClaimFits(st: State, s: SubmitID, d: Decision, o: SubmitID)
    requires PendingOk(st) && Accepts(st, d) && Fits(st, o)
    ensures Fits(Claimed(st, s, d), o)
  {
    var t := Claimed(st, s, d);
    if o == s {
      var request := st.waiters[st.pending[d.requestID]].request;
      assert t.waiters[t.submits[s].waiter].request == request && t.submits[s].decision == d;
    }
  }

  /** Steps other than a claim keep every request and every claimed decision. */
  lemma OtherStepsFit(st: State, step: Step, s: SubmitID)
    requires Enabled(st, step) && !step.Claim? && s in st.submits
    requires st.submits[s].waiter in st.waiters && Fits(st, s)
    ensures Fits(Next(st, step), s)
  {
    var t, w := Next(st, step), st.submits[s].waiter;
    assert t.submits[s].waiter == w && t.submits[s].decision == st.submits[s].decision;
    assert t.waiters[w].request == st.waiters[w].request;
  }

  lemma NextKeepsFits(st: State, step: Step, s: SubmitID)
    requires Inv(st) && Enabled(st, step) && (forall r :: r in st.submits ==> Fits(st, r))
    requires s in Next(st, step).submits
    ensures Fits(Next(st, step), s)
  {
    if s in st.submits { assert SubmitOk(st, s); }
    match step
    case Claim(r, d, now) => if Accepts(st, Normalized(d, now)) { ClaimFits(st, r, Normalized(d, now), s); }
    case _ => OtherStepsFit(st, step, s);
  }

  // ---- Over whole runs ------------------------------------------------------------

  ghost predicate Runs(st: State, steps: seq<Step>, t: State)
    decreases steps
  {
    if steps == [] then st == t
    else Enabled(st, steps[0]) && Runs(Next(st, steps[0]), steps[1..], t)
  }

  ghost predicate Good(st: State) {
    Inv(st) && forall s :: s in st.submits ==> Fits(st, s)
  }

  lemma NextKeepsGood(st: State, step: Step)
    requires Good(st) && Enabled(st, step)
    ensures Good(Next(st, step))
  {
    NextKeeps(st, step);
    forall s | s in Next(st, step).submits ensures Fits(Next(st, step), s) { NextKeepsFits(st, step, s); }
  }

  lemma StepKeepsGood(st: State, step: Step, t: State)
    requires Good(st) && Enabled(st, step) && Next(st, step) == t
    ensures Good(t)
  {
    NextKeepsGood(st, step);
  }

  lemma {:induction false} RunKeeps(st: State, steps: seq<Step>, t: State)
    requires Good(st) && Runs(st, steps, t)
    ensures Good(t)
    decreases steps
  {
    if steps != [] {
      NextKeepsGood(st, steps[0]);
      RunKeeps(Next(st, steps[0]), steps[1..], t);
    }
  }

  /** A submission and the one waiter whose registration it consumed: before the send that
      waiter's channel has room, after it the decision is in the channel or returned. */
  ghost predicate Reaches(t: State, s: SubmitID)
    requires s in t.submits
  {
    var sub := t.submits[s];
    && sub.waiter in t.waiters
    && var x := t.waiters[sub.waiter];
       && x.claim == Some(s)
       && ValidFor(x.request, sub.decision)
       && (!sub.sent ==> Enabled(t, Send(s)))
       && (sub.sent ==> x.inbox == [sub.decision] || x.place == Returned(sub.decision))
       && forall w :: w in t.waiters && t.waiters[w].claim == Some(s) ==> w == sub.waiter
  }

  lemma GoodReaches(t: State, s: SubmitID)
    requires Good(t) && s in t.submits
    ensures Reaches(t, s)
  {
    assert SubmitOk(t, s) && WaiterOk(t, t.submits[s].waiter) && Fits(t, s);
    forall w | w in t.waiters && t.waiters[w].claim == Some(s) ensures w == t.submits[s].waiter {
      assert WaiterOk(t, w);
    }
  }

  /** In every interleaving a `Submit` that goes on to return nil cannot block in its send
      and answers exactly the waiter whose registration it consumed. */
  lemma SubmitReachesItsWaiter(steps: seq<Step>, t: State, s: SubmitID)
    requires Runs(INIT, steps, t) && s in t.submits
    ensures Reaches(t, s)
  {
    RunKeeps(INIT, steps, t);
    GoodReaches(t, s);
  }

  /** How a waiter ends. With a decision: exactly the one a submission claimed for it. With
      its context's error: no submission ever claimed it. And one that could not remove
      itself has its decision in the channel, or a submission about to send it. */
  ghost predicate EndsOnce(t: State, w: WaiterID)
    requires w in t.waiters
  {
    match t.waiters[w].place
    case Waiting => t.waiters[w].claim.None? ==> Owns(t, w)
    case GaveUp => !Owns(t, w) && forall s :: s in t.submits ==> t.submits[s].waiter != w
    case Returned(d) => exists s :: s in t.submits && t.submits[s] == Submission(w, d, true)
    case Stuck => Enabled(t, Take(w)) || exists s :: s in t.submits && t.submits[s].waiter == w && Enabled(t, Send(s))
  }

  lemma GoodEndsOnce(t: State, w: WaiterID)
    requires Inv(t) && w in t.waiters
    ensures EndsOnce(t, w)
  {
    assert WaiterOk(t, w);
    match t.waiters[w].claim {
      case None =>
        forall s | s in t.submits ensures t.submits[s].waiter != w { assert SubmitOk(t, s); }
      case Some(s) =>
        assert s in t.submits && t.submits[s].waiter == w;
    }
  }

  lemma WaiterEndsOnce(steps: seq<Step>, t: State, w: WaiterID)
    requires Runs(INIT, steps, t) && w in t.waiters
    ensures EndsOnce(t, w)
  {
    RunKeeps(INIT, steps, t);
    GoodEndsOnce(t, w);
  }

  /** `remove` takes away nobody else's registration, whatever ids were used before. */
  lemma CancelSparesOthers(st: State, w: WaiterID, other: WaiterID)
    requires Inv(st) && Enabled(st, Cancel(w)) && other in st.waiters && other != w
    ensures Owns(Cancelled(st, w), other) <==> Owns(st, other)
    ensures Cancelled(st, w).waiters[other] == st.waiters[other]
    ensures Cancelled(st, w).submits == st.submits
  {
  }

  /** Two registrations of one id are never alive together, yet an id can be used again as
      soon as its entry is gone. */
  lemma IdsAreReusable(st: State, w: WaiterID, r: Request)
    requires Inv(st) && w !in st.waiters
    ensures w in Registered(st, w, r).waiters <==>
              forall o :: o in st.waiters && st.waiters[o].request.id == r.id ==> !Owns(st, o)
  {
    if r.id in st.pending { assert Owns(st, st.pending[r.id]); }
  }

  // ---- The object -----------------------------------------------------------------

  datatype Failure = Nil | ContextDone | InvalidRequest | AlreadyPending | InvalidDecision | NotFound

  /** `PendingBroker`, cut where another goroutine can come in: `Register` and `Wait` make
      up `Request`, `Claim` and `Send` make up `Submit`. */
  class Broker {
    var pending: map<string, WaiterID>
    var waiters: map<WaiterID, Waiter>
    var submits: map<SubmitID, Submission>

    ghost function Abs(): State
      reads this
    {
      State(pending, waiters, submits)
    }

    ghost predicate Valid()
      reads this
    {
      Good(Abs())
    }

    constructor ()
      ensures Valid() && Abs() == INIT
    {
      pending, waiters, submits := map[], map[], map[];
    }

    /** `Request` up to its select: a fresh channel and a registration, unless the context
        has ended, the request is malformed or its id is already pending. */
    method Register(w: WaiterID, contextDone: bool, r: Request) returns (err: Failure)
      requires Valid() && w !in waiters
      modifies this
      ensures Valid()
      ensures err.Nil? <==> !contextDone && ValidRequest(r) && r.id !in old(pending)
      ensures err.Nil? ==> Abs() == Registered(old(Abs()), w, r) && w in waiters && Owns(Abs(), w)
      ensures err.Nil? ==> pending == old(pending)[r.id := w] && submits == old(submits)
                           && waiters == old(waiters)[w := Waiter(r, [], Waiting, None)]
      ensures !err.Nil? ==> Abs() == old(Abs())
      ensures err.ContextDone? <==> contextDone
      ensures err.InvalidRequest? <==> !contextDone && !ValidRequest(r)
      ensures err.AlreadyPending? <==> !contextDone && ValidRequest(r) && r.id in old(pending)
    {
      if contextDone { return ContextDone; }
      if !ValidRequest(r) { return InvalidRequest; }
      if r.id in pending { return AlreadyPending; }
      ghost var was := Abs();
      NextKeepsGood(was, Step.Register(w, r));
      waiters := waiters[w := Waiter(r, [], Waiting, None)];
      pending := pending[r.id := w];
      return Nil;
    }

    /** `Submit` up to its unlock. */
    method Claim(s: SubmitID, contextDone: bool, raw: Decision, now: int) returns (err: Failure)
      requires Valid() && s !in submits
      modifies this
      ensures Valid()
      ensures err.Nil? <==>
              !contextDone && ValidDecision(Normalized(raw, now)) && Accepts(old(Abs()), Normalized(raw, now))
      ensures err.Nil? ==> Abs() == Claimed(old(Abs()), s, Normalized(raw, now)) && Enabled(Abs(), Step.Send(s))
      ensures err.Nil? ==>
              && pending == old(pending) - {raw.requestID}
              && var w := old(pending)[raw.requestID];
                 && waiters == old(waiters)[w := old(waiters)[w].(claim := Some(s))]
                 && submits == old(submits)[s := Submission(w, Normalized(raw, now), false)]
                 && ValidFor(waiters[w].request, Normalized(raw, now))
      ensures !err.Nil? ==> Abs() == old(Abs())
      ensures err.ContextDone? <==> contextDone
      ensures err.NotFound? <==> !contextDone && ValidDecision(Normalized(raw, now)) && raw.requestID !in old(pending)
    {
      if contextDone { return ContextDone; }
      var d := Normalized(raw, now);
      if !ValidDecision(d) { return InvalidDecision; }
      if d.requestID !in pending { return NotFound; }
      var w := pending[d.requestID];
      if !ValidFor(waiters[w].request, d) { return InvalidDecision; }
      ghost var was := Abs();
      NextKeepsGood(was, Step.Claim(s, raw, now));
      pending := pending - {d.requestID};
      waiters := waiters[w := waiters[w].(claim := Some(s))];
      submits := submits[s := Submission(w, d, false)];
      GoodReaches(Abs(), s);
      return Nil;
    }

    /** `waiting.decision <- decision`: the precondition is that the send does not block. */
    method Send(s: SubmitID)
      requires Valid() && Enabled(Abs(), Step.Send(s))
      modifies this
      ensures Valid() && Abs() == Sent(old(Abs()), s)
      ensures var sub := old(submits[s]);
              && pending == old(pending) && submits == old(submits)[s := Submission(sub.waiter, sub.decision, true)]
              && sub.waiter in old(waiters)
              && waiters == old(waiters)[sub.waiter := old(waiters[submits[s].waiter]).(inbox := [sub.decision])]
    {
      ghost var was := Abs();
      StepKeepsGood(was, Step.Send(s), Sent(was, s));
      var sub := submits[s];
      var x := waiters[sub.waiter];
      waiters := waiters[sub.waiter := x.(inbox := x.inbox + [sub.decision])];
      submits := submits[s := sub.(sent := true)];
      assert Abs() == Sent(was, s);
    }

    /** `remove`: deletes the entry only when it is the caller's own. */
    method Remove(id: string, w: WaiterID) returns (removed: bool)
      requires Valid() && Enabled(Abs(), Step.Cancel(w)) && waiters[w].request.id == id
      modifies this
      ensures Valid() && Abs() == Cancelled(old(Abs()), w)
      ensures removed <==> id in old(pending) && old(pending)[id] == w
      ensures pending == if removed then old(pending) - {id} else old(pending)
      ensures submits == old(submits)
      ensures waiters == old(waiters)[w := old(waiters[w]).(place := if removed then GaveUp else Stuck)]
    {
      ghost var was := Abs();
      StepKeepsGood(was, Step.Cancel(w), Cancelled(was, w));
      removed := id in pending && pending[id] == w;
      if removed {
        pending := pending - {id};
        waiters := waiters[w := waiters[w].(place := GaveUp)];
      } else {
        waiters := waiters[w := waiters[w].(place := Stuck)];
      }
      assert Abs() == Cancelled(was, w);
    }

    /** The receive, once the channel has something. */
    method Receive(w: WaiterID) returns (d: Decision)
      requires Valid() && Enabled(Abs(), Step.Take(w))
      modifies this
      ensures Valid() && Abs() == Taken(old(Abs()), w)
      ensures ValidFor(waiters[w].request, d) && old(waiters[w]).inbox == [d]
      ensures pending == old(pending) && submits == old(submits)
      ensures waiters == old(waiters)[w := old(waiters[w]).(inbox := [], place := Returned(d))]
    {
      NextKeepsGood(Abs(), Step.Take(w));
      var x := waiters[w];
      d := x.inbox[0];
      waiters := waiters[w := x.(inbox := x.inbox[1..], place := Returned(d))];
      assert WaiterOk(Abs(), w);
      GoodReaches(Abs(), x.claim.value);
    }
  }
}
