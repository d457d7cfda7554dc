/** When an earlier decision is used again: the grants a run keeps and the grants that
    outlive it, `agent.go:2641-2921` and `harness/approval.go`. */
module ApprovalReuse {
  import opened Strings
  import opened Options
  import opened Approval

  /** A grant in the state of a run. */
  datatype RunGrant = RunGrant(requestID: string, action: Action, scope: Scope, fingerprint: string, ruleKey: string)

  /** A decision the run accepted, with the request it was made for. */
  datatype Accepted = Accepted(request: Request, decision: Decision)

  /** `AddApprovalGrant`: a grant for the same scope and keys is replaced. */
  function AddGrant(grants: seq<RunGrant>, g: RunGrant): seq<RunGrant> {
    if grants == [] then [g]
    else if grants[0].scope == g.scope && grants[0].fingerprint == g.fingerprint && grants[0].ruleKey == g.ruleKey then
      [g] + grants[1..]
    else [grants[0]] + AddGrant(grants[1..], g)
  }

  lemma AddGrantAt(grants: seq<RunGrant>, g: RunGrant, i: nat)
    requires i < |grants|
    ensures var h := grants[i];
            grants[..i] + AddGrant(grants[i..], g)
              == if h.scope == g.scope && h.fingerprint == g.fingerprint && h.ruleKey == g.ruleKey then grants[i := g]
                 else grants[..i + 1] + AddGrant(grants[i + 1..], g)
  {
    var rest := grants[i..];
    assert rest[0] == grants[i] && rest[1..] == grants[i + 1..];
    assert grants[..i] + [grants[i]] == grants[..i + 1];
    assert grants[..i] + ([grants[i]] + AddGrant(rest[1..], g)) == grants[..i + 1] + AddGrant(rest[1..], g);
    assert grants[..i] + ([g] + rest[1..]) == grants[i := g];
  }

  /** It, as the loop that overwrites one element or appends. */
  method AddApprovalGrant(grants: seq<RunGrant>, g: RunGrant) returns (out: seq<RunGrant>)
    ensures out == AddGrant(grants, g)
  {
    assert grants[0..] == grants && grants[..0] + AddGrant(grants, g) == AddGrant(grants, g);
    for i := 0 to |grants|
      invariant AddGrant(grants, g) == grants[..i] + AddGrant(grants[i..], g)
    {
      var current := grants[i];
      AddGrantAt(grants, g, i);
      if current.scope == g.scope && current.fingerprint == g.fingerprint && current.ruleKey == g.ruleKey {
        return grants[i := g];
      }
    }
    assert grants[..|grants|] == grants && grants[|grants|..] == [];
    out := grants + [g];
  }

  /** The grant an accepted decision leaves in the run; a once-only or rejecting decision
      leaves none. */
  function GrantOf(r: Request, d: Decision): Option<RunGrant> {
    if !IsApproved(d.action) || d.scope.Once? then None
    else
      match ScopeKey(r, d.scope)
      case None => None
      case Some(key) =>
        if key == "" then None
        else Some(RunGrant(d.requestID, d.action, d.scope,
                           if d.scope.Run? then key else "", if d.scope.Rule? then key else ""))
  }

  function AfterDecision(grants: seq<RunGrant>, r: Request, d: Decision): seq<RunGrant> {
    match GrantOf(r, d)
    case None => grants
    case Some(g) => AddGrant(grants, g)
  }

  /** The grants of a run that accepted these decisions. */
  function GrantsAfter(decided: seq<Accepted>): seq<RunGrant> {
    if decided == [] then []
    else
      var last := decided[|decided| - 1];
      AfterDecision(GrantsAfter(decided[..|decided| - 1]), last.request, last.decision)
  }

  /** The test of `reusedApprovalDecision` for one grant. */
  predicate Matches(g: RunGrant, r: Request) {
    && IsApproved(g.action)
    && ((g.scope.Run? && ScopeKey(r, Run) == Some(g.fingerprint))
       || (g.scope.Rule? && ScopeKey(r, Rule) == Some(g.ruleKey)))
  }

  function ReuseDecision(g: RunGrant, r: Request, now: int): Decision {
    Decision(r.id, g.action, g.scope, REASON_REUSED, map[], now)
  }

  /** `reusedApprovalDecision`: the newest grant that matches. */
  function Reused(grants: seq<RunGrant>, r: Request, now: int): Option<Decision> {
    if grants == [] then None
    else
      var g := grants[|grants| - 1];
      if Matches(g, r) then Some(ReuseDecision(g, r, now)) else Reused(grants[..|grants| - 1], r, now)
  }

  method ReusedApprovalDecision(grants: seq<RunGrant>, r: Request, now: int) returns (d: Option<Decision>)
    ensures d == Reused(grants, r, now)
  {
    assert grants[..|grants|] == grants;
    for i := |grants| downto 0
      invariant Reused(grants, r, now) == Reused(grants[..i], r, now)
    {
      var g := grants[i];
      var front := grants[..i + 1];
      assert front[|front| - 1] == g && front[..|front| - 1] == grants[..i];
      match ScopeKey(r, g.scope) {
        case None =>
        case Some(key) =>
          if ((g.scope.Run? && g.fingerprint == key) || (g.scope.Rule? && g.ruleKey == key)) && IsApproved(g.action) {
            return Some(Decision(r.id, g.action, g.scope, REASON_REUSED, map[], now));
          }
      }
    }
    d := None;
  }

  /** The last grant that matches. */
  ghost predicate IsNewest(grants: seq<RunGrant>, r: Request, i: nat) {
    i < |grants| && Matches(grants[i], r) && forall j :: i < j < |grants| ==> !Matches(grants[j], r)
  }

  lemma {:induction false} ReusedFinds(grants: seq<RunGrant>, r: Request, now: int)
    ensures Reused(grants, r, now).Some? <==> exists g :: g in grants && Matches(g, r)
    ensures Reused(grants, r, now).Some? ==> exists g ::
            g in grants && Matches(g, r) && Reused(grants, r, now).value == ReuseDecision(g, r, now)
    ensures forall i: nat :: IsNewest(grants, r, i) ==> Reused(grants, r, now) == Some(ReuseDecision(grants[i], r, now))
  {
    if grants != [] {
      var front, g := grants[..|grants| - 1], grants[|grants| - 1];
      ReusedFinds(front, r, now);
      assert forall x :: x in grants <==> x in front || x == g;
      forall i: nat | IsNewest(grants, r, i)
        ensures Reused(grants, r, now) == Some(ReuseDecision(grants[i], r, now))
      {
        if Matches(g, r) {
          assert i == |grants| - 1;
        } else {
          assert IsNewest(front, r, i);
        }
      }
    }
  }

  // ---- What is covered --------------------------------------------------------------

  /** An accepted decision that approves more than the one call. */
  predicate Standing(a: Accepted) { IsApproved(a.decision.action) && (a.decision.scope.Run? || a.decision.scope.Rule?) }

  /** It speaks about a later request as well. */
  predicate Covers(a: Accepted, r: Request) {
    && Standing(a)
    && ScopeKey(a.request, a.decision.scope).Some?
    && ScopeKey(a.request, a.decision.scope) == ScopeKey(r, a.decision.scope)
  }

  lemma {:induction false} AddGrantMembers(grants: seq<RunGrant>, g: RunGrant, r: Request)
    requires IsApproved(g.action) && forall h :: h in grants ==> IsApproved(h.action)
    ensures forall h :: h in AddGrant(grants, g) ==> IsApproved(h.action)
    ensures (exists h :: h in AddGrant(grants, g) && Matches(h, r)) <==>
              Matches(g, r) || exists h :: h in grants && Matches(h, r)
  {
    if grants == [] {
    } else {
      var first, rest := grants[0], grants[1..];
      assert forall h :: h in grants <==> h == first || h in rest;
      if first.scope == g.scope && first.fingerprint == g.fingerprint && first.ruleKey == g.ruleKey {
        assert forall h :: h in AddGrant(grants, g) <==> h == g || h in rest;
        assert Matches(first, r) <==> Matches(g, r);
      } else {
        AddGrantMembers(rest, g, r);
        assert forall h :: h in AddGrant(grants, g) <==> h == first || h in AddGrant(rest, g);
      }
    }
  }

  lemma NamedIsNotBlank(r: Request, key: string)
    ensures Named(r, key).Some? ==> Named(r, key).value != ""
  {
    assert Blank("");
  }

  /** A decision's grant matches the requests the decision covers. */
  lemma GrantReaches(a: Accepted, r: Request)
    ensures GrantOf(a.request, a.decision).Some? ==> IsApproved(GrantOf(a.request, a.decision).value.action)
    ensures GrantOf(a.request, a.decision).Some? && Matches(GrantOf(a.request, a.decision).value, r) <==> Covers(a, r)
  {
    NamedIsNotBlank(a.request, FINGERPRINT);
    NamedIsNotBlank(a.request, RULE_KEY);
  }

  lemma {:induction false} GrantsCover(decided: seq<Accepted>, r: Request)
    ensures forall g :: g in GrantsAfter(decided) ==> IsApproved(g.action)
    ensures (exists g :: g in GrantsAfter(decided) && Matches(g, r)) <==> exists a :: a in decided && Covers(a, r)
  {
    if decided != [] {
      var front, a := decided[..|decided| - 1], decided[|decided| - 1];
      GrantsCover(front, r);
      GrantReaches(a, r);
      assert forall x :: x in decided <==> x in front || x == a;
      if GrantOf(a.request, a.decision).Some? {
        AddGrantMembers(GrantsAfter(front), GrantOf(a.request, a.decision).value, r);
      }
    }
  }

  /** A request is answered from the run's grants exactly when the run has accepted an
      approving decision of run or rule scope whose key the request shares. Replacing a
      grant by a newer one of the same keys loses nothing. */
  lemma ReusedExactly(decided: seq<Accepted>, r: Request, now: int)
    ensures Reused(GrantsAfter(decided), r, now).Some? <==> exists a :: a in decided && Covers(a, r)
    ensures Reused(GrantsAfter(decided), r, now).Some? ==>
              var d := Reused(GrantsAfter(decided), r, now).value; d.requestID == r.id && IsApproved(d.action)
  {
    ReusedFinds(GrantsAfter(decided), r, now);
    GrantsCover(decided, r);
  }

  // ---- A request in the state of a run ----------------------------------------------

  datatype StoredRequest = StoredRequest(
    id: string, runID: string, toolCallID: string, toolName: string, operation: string, title: string,
    description: string, risk: Risk, options: seq<string>, payload: map<string, Value>, expiresAt: Option<int>)

  function ActionName(a: Action): string {
    match a
    case Approve => "approve"
    case Reject => "reject"
    case Always => "always"
    case Abort => "abort"
    case OtherAction(name) => name
  }

  function OptionNames(options: seq<Choice>): (names: seq<string>)
    ensures |names| == |options|
  {
    if options == [] then []
    else
      var first := if options[0].caption != "" then options[0].caption else ActionName(options[0].action);
      [first] + OptionNames(options[1..])
  }

  function OrElse(s: string, other: string): string { if s == "" then other else s }

  /** `approvalRequestState`. */
  function StoreRequest(r: Request, callID: string): StoredRequest {
    StoredRequest(r.id, r.runID, OrElse(r.toolCallID, callID), r.toolName, r.operation, r.title, r.description,
                  r.risk, OptionNames(r.options), r.payload, r.expiresAt)
  }

  /** `approvalRequestFromState`; the options are the default ones. */
  function RebuildRequest(s: StoredRequest, runID: string, callID: string, callName: string, options: seq<Choice>,
      now: int): Request
  {
    Request(s.id, OrElse(s.runID, runID), OrElse(s.toolCallID, callID), OrElse(s.toolName, callName),
            OrElse(s.operation, "approval.resume"), s.title, s.description,
            if s.risk.NoRisk? then Medium else s.risk, options, s.payload, now, s.expiresAt)
  }

  /** A stored request that is rebuilt asks for the same thing: the same decisions are
      valid for it, in the same scopes, and the same earlier decisions cover it. */
  lemma RebuiltAsksTheSame(r: Request, runID: string, callID: string, callName: string, options: seq<Choice>, now: int)
    ensures var b := RebuildRequest(StoreRequest(r, callID), runID, callID, callName, options, now);
            && b.id == r.id
            && (forall d :: ValidFor(b, d) <==> ValidFor(r, d))
            && (forall d :: GrantOf(b, d) == GrantOf(r, d))
            && (forall a :: Covers(a, b) <==> Covers(a, r))
            && (forall d :: ApprovedMetadata(b, d) == ApprovedMetadata(r, d))
            && (ValidRequest(r) ==>
                  b == r.(toolCallID := if r.toolCallID == "" then callID else r.toolCallID,
                          toolName := if r.toolName == "" then callName else r.toolName,
                          options := options, createdAt := now))
  {
    assert Blank("");
    var b := RebuildRequest(StoreRequest(r, callID), runID, callID, callName, options, now);
    assert b.payload == r.payload;
    assert forall scope :: ScopeKey(b, scope) == ScopeKey(r, scope);
  }

  // ---- Grants that outlive the run --------------------------------------------------

  /** `persistApprovalGrant`: what it puts into the store. */
  function PersistedGrant(n: Namespace, r: Request, d: Decision, ttl: nat): Option<Grant> {
    if !d.scope.Rule? || !IsApproved(d.action) || d.reason == REASON_REUSED || Named(r, RULE_KEY).None? then None
    else Some(Grant(n, Rule, Named(r, RULE_KEY).value, "", d.action, d.requestID, d.decidedAt,
                    if ttl > 0 then Some(d.decidedAt + ttl) else None))
  }

  /** The test `reusedPersistentApproval` makes of a grant it has loaded under a key. */
  predicate Usable(g: Grant, n: Namespace, ruleKey: string, pinned: string, now: int) {
    && g.namespace == n && g.ruleKey == ruleKey && g.fingerprint == pinned
    && !Expired(g, now) && IsApproved(g.action)
  }

  /** A loaded grant authorises a request: for the rule, or pinned to the request itself. */
  predicate Authorizes(g: Grant, n: Namespace, r: Request, now: int) {
    && Named(r, RULE_KEY).Some? && Named(r, FINGERPRINT).Some?
    && (Usable(g, n, Named(r, RULE_KEY).value, "", now)
       || Usable(g, n, Named(r, RULE_KEY).value, Named(r, FINGERPRINT).value, now))
  }

  /** A decision that was persisted authorises, until it expires, exactly the requests of
      its namespace with a fingerprint and the same rule: those its run would reuse it for. */
  lemma PersistedReaches(n: Namespace, m: Namespace, a: Accepted, ttl: nat, r: Request, now: int)
    requires PersistedGrant(n, a.request, a.decision, ttl).Some?
    ensures Authorizes(PersistedGrant(n, a.request, a.decision, ttl).value, m, r, now) <==>
              && n == m && Covers(a, r) && Named(r, FINGERPRINT).Some?
              && (ttl == 0 || now < a.decision.decidedAt + ttl)
  {
    NamedIsNotBlank(r, FINGERPRINT);
  }

  predicate Applies(g: Option<Grant>, n: Namespace, ruleKey: string, pinned: string, now: int) {
    g.Some? && Usable(g.value, n, ruleKey, pinned, now)
  }

  predicate LoadedOk(g: Option<Grant>) { g.Some? ==> ValidGrant(g.value) }

  /** The lookup of `reusedPersistentApproval`, over what the store returns for the two
      keys: a grant of the rule first, then one pinned to the request. */
  method ReusedPersistentApproval(n: Namespace, r: Request, rule: Option<Grant>, pinned: Option<Grant>, now: int)
    returns (d: Option<Decision>, from: Option<Grant>, failed: bool)
    ensures d.Some? <==> from.Some?
    ensures d.Some? ==>
              && !failed && (from == rule || from == pinned) && ValidGrant(from.value)
              && Authorizes(from.value, n, r, now)
              && d.value == Decision(r.id, from.value.action, EffectiveScope(from.value), REASON_REUSED, map[], now)
    ensures ValidNamespace(n) && LoadedOk(rule) && LoadedOk(pinned) ==> !failed
    ensures !failed && Named(r, RULE_KEY).Some? && Named(r, FINGERPRINT).Some? ==>
              (d.Some? <==> || Applies(rule, n, Named(r, RULE_KEY).value, "", now)
                            || Applies(pinned, n, Named(r, RULE_KEY).value, Named(r, FINGERPRINT).value, now))
    ensures d.Some? && Applies(rule, n, Named(r, RULE_KEY).value, "", now) ==> from == rule
  {
    d, from, failed := None, None, !ValidNamespace(n);
    if failed { return; }
    if Named(r, RULE_KEY).None? || Named(r, FINGERPRINT).None? { return; }
    var ruleKey, keys, loaded := Named(r, RULE_KEY).value, ["", Named(r, FINGERPRINT).value], [rule, pinned];
    assert loaded[0] == rule && loaded[1] == pinned && keys[0] == "" && keys[1] == Named(r, FINGERPRINT).value;
    for i := 0 to 2
      invariant i > 0 ==> LoadedOk(rule) && !Applies(rule, n, ruleKey, "", now)
      invariant i > 1 ==> LoadedOk(pinned) && !Applies(pinned, n, ruleKey, keys[1], now)
    {
      if !LoadedOk(loaded[i]) { return None, None, true; }
      if Applies(loaded[i], n, ruleKey, keys[i], now) {
        var g := loaded[i].value;
        return Some(Decision(r.id, g.action, EffectiveScope(g), REASON_REUSED, map[], now)), Some(g), false;
      }
    }
  }
}
