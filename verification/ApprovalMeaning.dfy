/** What approvals mean in terms of what an operator has chosen and of the texts in a
    request's payload: which decisions approve, which fit a request, and which earlier ones
    answer a later request (`approval/request.go`, `agent.go:2641-2921`). */
module ApprovalMeaning {
  import opened Options
  import opened Strings
  import opened Approval
  import opened ApprovalReuse

  /** The operator has said yes. */
  predicate SaysYes(d: Decision) { d.action == Approve || d.action == Always }

  /** A text with something to see in it. */
  ghost predicate Visible(s: string) { exists i :: 0 <= i < |s| && s[i] !in SPACES }

  /** A request carries a visible text under a name. */
  ghost predicate Carries(r: Request, name: string, text: string) {
    name in r.payload && r.payload[name] == Text(text) && Visible(text)
  }

  /** Two requests carry the same text under a name. */
  ghost predicate Share(a: Request, b: Request, name: string) {
    exists text :: Carries(a, name, text) && Carries(b, name, text)
  }

  /** A decision for one request speaks for another one as well: a yes for the run, and both
      have the same fingerprint, or a yes for the rule, and both have the same rule. */
  ghost predicate SpeaksFor(a: Accepted, r: Request) {
    && SaysYes(a.decision)
    && ((a.decision.scope == Run && Share(a.request, r, "fingerprint"))
       || (a.decision.scope == Rule && Share(a.request, r, "ruleKey")))
  }

  lemma BlankMeans(s: string)
    ensures Blank(s) <==> !Visible(s)
  {
    LeadTrims(s, SPACES);
    var n := Lead(s, SPACES);
    TrimRightDrops(s[n..], SPACES);
    if n < |s| {
      assert s[n] !in SPACES;
      assert s[n..][0] == s[n];
    }
  }

  lemma NamedMeans(r: Request, key: string)
    ensures Named(r, key).Some? ==> Carries(r, key, Named(r, key).value)
    ensures forall text :: Carries(r, key, text) ==> Named(r, key) == Some(text)
  {
    if key in r.payload && r.payload[key].Text? { BlankMeans(r.payload[key].text); }
  }

  lemma KeyMeans(r: Request)
    ensures forall text :: ScopeKey(r, Run) == Some(text) <==> Carries(r, "fingerprint", text)
    ensures forall text :: ScopeKey(r, Rule) == Some(text) <==> Carries(r, "ruleKey", text)
  {
    NamedMeans(r, FINGERPRINT);
    NamedMeans(r, RULE_KEY);
  }

  lemma CoversMeans(a: Accepted, r: Request)
    ensures Covers(a, r) <==> SpeaksFor(a, r)
  {
    KeyMeans(a.request);
    KeyMeans(r);
    if Covers(a, r) {
      var text := ScopeKey(r, a.decision.scope).value;
      if a.decision.scope == Run {
        assert Carries(a.request, "fingerprint", text) && Carries(r, "fingerprint", text);
      } else {
        assert Carries(a.request, "ruleKey", text) && Carries(r, "ruleKey", text);
      }
    }
  }

  /** A grant of a run is what some decision it accepted has left. */
  lemma {:induction false} AddedFrom(grants: seq<RunGrant>, g: RunGrant, h: RunGrant)
    ensures h in AddGrant(grants, g) ==> h == g || h in grants
  {
    if grants != [] { AddedFrom(grants[1..], g, h); }
  }

  ghost predicate LeftBy(a: Accepted, g: RunGrant) { GrantOf(a.request, a.decision) == Some(g) }

  lemma {:induction false} GrantsStem(decided: seq<Accepted>, g: RunGrant)
    requires g in GrantsAfter(decided)
    ensures exists a :: a in decided && LeftBy(a, g)
  {
    if decided != [] {
      var front, last := decided[..|decided| - 1], decided[|decided| - 1];
      if LeftBy(last, g) {
        assert last in decided;
      } else {
        if GrantOf(last.request, last.decision).Some? {
          AddedFrom(GrantsAfter(front), GrantOf(last.request, last.decision).value, g);
        }
        GrantsStem(front, g);
        var a :| a in front && LeftBy(a, g);
        assert a in decided;
      }
    }
  }

  /** The answer that an earlier yes gives. */
  ghost predicate AnswersFor(a: Accepted, r: Request, now: int, d: Decision) {
    && SpeaksFor(a, r)
    && d.requestID == r.id && d.action == a.decision.action && d.scope == a.decision.scope
    && d.reason == "approval_scope_reused" && d.decidedAt == now
  }

  /** A run answers a request from its own grants exactly when it has accepted a decision
      that speaks for the request, and then the answer is one of these decisions. */
  lemma ReusedMeans(decided: seq<Accepted>, r: Request, now: int)
    ensures Reused(GrantsAfter(decided), r, now).Some? <==> exists a :: a in decided && SpeaksFor(a, r)
    ensures Reused(GrantsAfter(decided), r, now).Some? ==>
              exists a :: a in decided && AnswersFor(a, r, now, Reused(GrantsAfter(decided), r, now).value)
  {
    ReusedExactly(decided, r, now);
    forall a | a in decided
      ensures Covers(a, r) <==> SpeaksFor(a, r)
    {
      CoversMeans(a, r);
    }
    ReusedFinds(GrantsAfter(decided), r, now);
    if Reused(GrantsAfter(decided), r, now).Some? {
      var d := Reused(GrantsAfter(decided), r, now).value;
      var g :| g in GrantsAfter(decided) && Matches(g, r) && d == ReuseDecision(g, r, now);
      GrantsStem(decided, g);
      var a :| a in decided && LeftBy(a, g);
      GrantReaches(a, r);
      assert AnswersFor(a, r, now, ReuseDecision(g, r, now));
    }
  }

  /** Which decisions fit a request: they name it, they are one of the four answers in one
      of the three scopes, and a yes for a run or a rule needs what it will be found by. */
  lemma FittingMeans(r: Request, d: Decision)
    ensures ValidFor(r, d) <==>
              && d.requestID == r.id && Visible(d.requestID)
              && (d.action == Approve || d.action == Always || d.action == Reject || d.action == Abort)
              && (d.scope == Unset || d.scope == Once || d.scope == Run || d.scope == Rule)
              && (SaysYes(d) && d.scope == Run ==> exists text :: Carries(r, "fingerprint", text))
              && (SaysYes(d) && d.scope == Rule ==> exists text :: Carries(r, "ruleKey", text))
  {
    BlankMeans(d.requestID);
    KeyMeans(r);
    if ScopeKey(r, Run).Some? { assert Carries(r, "fingerprint", ScopeKey(r, Run).value); }
    if ScopeKey(r, Rule).Some? { assert Carries(r, "ruleKey", ScopeKey(r, Rule).value); }
  }

  /** What is passed on of a decision: without a scope it is for once, without a time it was
      made now, and the rest is the operator's. */
  lemma NormalizedMeans(raw: Decision, now: int)
    ensures Normalized(raw, now)
            == Decision(raw.requestID, raw.action, if raw.scope == Unset then Once else raw.scope, raw.reason,
                        raw.payload, if raw.decidedAt == 0 then now else raw.decidedAt)
  {
  }

  /** Which requests are asked at all. */
  lemma AskedMeans(r: Request)
    ensures ValidRequest(r) <==>
              && Visible(r.id) && Visible(r.runID) && Visible(r.operation) && Visible(r.title)
              && (r.risk == Low || r.risk == Medium || r.risk == High || r.risk == Critical) && r.options != []
              && (forall o :: o in r.options ==>
                   && Visible(o.caption) && (o.action in {Approve, Always, Reject, Abort})
                   && (o.scope in {Unset, Once, Run, Rule}))
              && (r.createdAt == 0 || r.expiresAt == None || r.createdAt <= r.expiresAt.value)
  {
    BlankMeans(r.id);
    BlankMeans(r.runID);
    BlankMeans(r.operation);
    BlankMeans(r.title);
    forall o | o in r.options
      ensures Blank(o.caption) <==> !Visible(o.caption)
    {
      BlankMeans(o.caption);
    }
  }

  /** Which grants may be stored. */
  lemma StorableMeans(g: Grant)
    ensures ValidGrant(g) <==>
              && Visible(g.namespace.tenant) && Visible(g.namespace.subject) && Visible(g.ruleKey)
              && (if Visible(g.fingerprint) then g.scope in {Unset, Run} else g.scope in {Unset, Rule})
              && (g.action == Approve || g.action == Always)
              && g.grantedAt != 0 && (g.expiresAt == None || g.grantedAt < g.expiresAt.value)
  {
    BlankMeans(g.namespace.tenant);
    BlankMeans(g.namespace.subject);
    BlankMeans(g.ruleKey);
    BlankMeans(g.fingerprint);
  }

  /** What goes with a call that is invoked under an approval. */
  lemma MetadataMeans(r: Request, d: Decision)
    ensures var m := ApprovedMetadata(r, d);
            && m.requestID == r.id && m.action == d.action
            && (forall text :: m.fingerprint == Some(text) <==>
                  "fingerprint" in r.payload && r.payload["fingerprint"] == Text(text))
            && (forall text :: m.ruleKey == Some(text) <==>
                  "ruleKey" in r.payload && r.payload["ruleKey"] == Text(text))
  {
  }

  /** When a stored grant authorises a request: one of the same namespace for its rule, or
      for its rule and its very fingerprint, that says yes and has not expired. */
  lemma AuthorizesMeans(g: Grant, n: Namespace, r: Request, now: int)
    ensures Authorizes(g, n, r, now) <==>
              && g.namespace == n && (g.action == Approve || g.action == Always)
              && (g.expiresAt == None || now < g.expiresAt.value)
              && Carries(r, "ruleKey", g.ruleKey)
              && exists text :: Carries(r, "fingerprint", text) && (g.fingerprint == "" || g.fingerprint == text)
  {
    NamedMeans(r, FINGERPRINT);
    NamedMeans(r, RULE_KEY);
    if Named(r, FINGERPRINT).Some? { assert Carries(r, "fingerprint", Named(r, FINGERPRINT).value); }
  }

  /** What is put into the store of lasting grants: a yes for a rule that is not itself a
      reuse, for as long as such grants last. */
  lemma PersistedMeans(n: Namespace, r: Request, d: Decision, ttl: nat)
    ensures PersistedGrant(n, r, d, ttl).Some? <==>
              && d.scope == Rule && SaysYes(d) && d.reason != "approval_scope_reused"
              && exists text :: Carries(r, "ruleKey", text)
    ensures PersistedGrant(n, r, d, ttl).Some? ==>
              var g := PersistedGrant(n, r, d, ttl).value;
              && g.namespace == n && g.scope == Rule && Carries(r, "ruleKey", g.ruleKey) && g.fingerprint == ""
              && g.action == d.action && g.requestID == d.requestID && g.grantedAt == d.decidedAt
              && g.expiresAt == if ttl > 0 then Some(d.decidedAt + ttl) else None
  {
    NamedMeans(r, RULE_KEY);
    if Named(r, RULE_KEY).Some? { assert Carries(r, "ruleKey", Named(r, RULE_KEY).value); }
  }
}
