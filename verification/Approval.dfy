/** Approval requests, decisions and scopes: `approval/request.go`. */
module Approval {
  import opened Options
  import opened Strings

  /** A payload value: only strings matter to the scopes. */
  datatype Value = Text(text: string) | NotText(tag: int)

  datatype Action = Approve | Reject | Always | Abort | OtherAction(name: string)

  datatype Scope = Unset | Once | Run | Rule | OtherScope(name: string)

  datatype Risk = NoRisk | Low | Medium | High | Critical | OtherRisk(name: string)

  datatype Choice = Choice(action: Action, caption: string, scope: Scope)

  datatype Request = Request(
    id: string, runID: string, toolCallID: string, toolName: string, operation: string,
    title: string, description: string, risk: Risk, options: seq<Choice>,
    payload: map<string, Value>, createdAt: int, expiresAt: Option<int>)

  datatype Decision = Decision(
    requestID: string, action: Action, scope: Scope, reason: string,
    payload: map<string, Value>, decidedAt: int)

  const FINGERPRINT := "fingerprint"
  const RULE_KEY := "ruleKey"
  const REASON_REUSED := "approval_scope_reused"

  predicate Blank(s: string) { TrimSpace(s) == "" }

  predicate IsApproved(a: Action) { a.Approve? || a.Always? }

  predicate ValidDecision(d: Decision) {
    !Blank(d.requestID) && !d.action.OtherAction? && !d.scope.OtherScope?
  }

  /** `Request.Validate`. */
  predicate ValidRequest(r: Request) {
    && !Blank(r.id) && !Blank(r.runID) && !Blank(r.operation) && !Blank(r.title)
    && !r.risk.NoRisk? && !r.risk.OtherRisk?
    && r.options != []
    && (forall o :: o in r.options ==> !Blank(o.caption) && !o.action.OtherAction? && !o.scope.OtherScope?)
    && (r.expiresAt.Some? && r.createdAt != 0 ==> r.createdAt <= r.expiresAt.value)
  }

  /** A payload entry that is a string with more than white space in it. */
  function Named(r: Request, key: string): Option<string> {
    if key in r.payload && r.payload[key].Text? && !Blank(r.payload[key].text) then Some(r.payload[key].text) else None
  }

  /** `ScopeKey`; None is its error. A once-only scope has the empty key. */
  function ScopeKey(r: Request, scope: Scope): Option<string> {
    match scope
    case Unset => Some("")
    case Once => Some("")
    case Run => Named(r, FINGERPRINT)
    case Rule => Named(r, RULE_KEY)
    case OtherScope(_) => None
  }

  /** `ValidateDecisionForRequest`. */
  predicate ValidFor(r: Request, d: Decision) {
    && ValidDecision(d)
    && d.requestID == r.id
    && (IsApproved(d.action) && (d.scope.Run? || d.scope.Rule?) ==> ScopeKey(r, d.scope).Some?)
  }

  /** `normalizeDecision`: an unset scope means once, a zero time means now. */
  function Normalized(d: Decision, now: int): Decision {
    d.(scope := if d.scope.Unset? then Once else d.scope,
       decidedAt := if d.decidedAt == 0 then now else d.decidedAt)
  }

  /** The metadata under which an approved call is invoked again. */
  datatype Metadata = Metadata(requestID: string, action: Action, fingerprint: Option<string>, ruleKey: Option<string>)

  function PayloadText(r: Request, key: string): Option<string> {
    if key in r.payload && r.payload[key].Text? then Some(r.payload[key].text) else None
  }

  /** `ApprovedMetadata`. */
  function ApprovedMetadata(r: Request, d: Decision): Metadata {
    Metadata(r.id, d.action, PayloadText(r, FINGERPRINT), PayloadText(r, RULE_KEY))
  }

  // ---- Persistent grants ------------------------------------------------------------

  datatype Namespace = Namespace(tenant: string, subject: string)

  predicate ValidNamespace(n: Namespace) { !Blank(n.tenant) && !Blank(n.subject) }

  /** A grant of `approval/store.go`; a time is a number. */
  datatype Grant = Grant(
    namespace: Namespace, scope: Scope, ruleKey: string, fingerprint: string, action: Action,
    requestID: string, grantedAt: int, expiresAt: Option<int>)

  /** `Grant.EffectiveScope`: a grant without a scope is one for a rule when it pins no
      fingerprint. */
  function EffectiveScope(g: Grant): Scope {
    if !g.scope.Unset? then g.scope else if Blank(g.fingerprint) then Rule else Run
  }

  /** `Grant.Validate`. */
  predicate ValidGrant(g: Grant) {
    && ValidNamespace(g.namespace)
    && !Blank(g.ruleKey)
    && (EffectiveScope(g).Rule? || EffectiveScope(g).Run?)
    && (EffectiveScope(g).Rule? <==> Blank(g.fingerprint))
    && IsApproved(g.action)
    && g.grantedAt != 0
    && (g.expiresAt.Some? ==> g.grantedAt < g.expiresAt.value)
  }

  predicate Expired(g: Grant, now: int) { g.expiresAt.Some? && g.expiresAt.value <= now }
}
