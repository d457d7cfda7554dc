/** The in-memory store of standing grants, `MemoryGrantStore` of `approval/store.go`: it
    deletes expired grants when somebody happens to look, against a store that never does. */
module GrantStore {
  import opened Sequences
  import opened Options
  import opened Strings
  import opened Approval
  import ApprovalMeaning

  datatype Key = Key(namespace: Namespace, ruleKey: string, fingerprint: string)

  type Grants = map<Key, Grant>

  predicate ValidKey(k: Key) { ValidNamespace(k.namespace) && !Blank(k.ruleKey) }

  function KeyOf(g: Grant): Key { Key(g.namespace, g.ruleKey, g.fingerprint) }

  /** A returned grant names its scope. */
  function Effective(g: Grant): Grant { g.(scope := EffectiveScope(g)) }

  function Stored(s: Grants, k: Key): Option<Grant> { if k in s then Some(s[k]) else None }

  /** What a store stands for at a time: the last grant put under a key, if it has not been
      revoked and has not expired. */
  function Live(s: Grants, k: Key, now: int): Option<Grant> {
    if k in s && !Expired(s[k], now) then Some(s[k]) else None
  }

  /** A store that has deleted nothing but expired grants. */
  ghost predicate Lazy(kept: Grants, all: Grants, now: int) {
    && (forall k :: k in kept ==> k in all && kept[k] == all[k])
    && (forall k :: k in all && k !in kept ==> Expired(all[k], now))
  }

  /** Nobody can tell it from a store that deletes nothing, now or later. */
  lemma LazyIsLive(kept: Grants, all: Grants, now: int, k: Key, later: int)
    requires Lazy(kept, all, now) && now <= later
    ensures Lazy(kept, all, later) && Live(kept, k, later) == Live(all, k, later)
  {
  }

  /** Every grant that is live is in the store. */
  lemma LiveIsKept(kept: Grants, all: Grants, now: int, k: Key)
    requires Lazy(kept, all, now) && Live(all, k, now).Some?
    ensures Stored(kept, k) == Live(all, k, now)
  {
  }

  datatype Answer = Invalid | NotFound | Found(grant: Grant)

  /** The answer of a `Get` that found `stored` and then looked at the clock. */
  function AnswerFor(stored: Option<Grant>, now: int): Answer {
    match stored
    case None => NotFound
    case Some(g) => if Expired(g, now) then NotFound else Found(Effective(g))
  }

  /** A stored grant is given out until it expires, with its scope filled in: one without a
      scope is for a rule, and for a run when it pins a fingerprint. */
  lemma AnswerMeans(stored: Option<Grant>, now: int)
    ensures AnswerFor(stored, now)
            == match stored
               case None => NotFound
               case Some(g) =>
                 if g.expiresAt.Some? && g.expiresAt.value <= now then NotFound
                 else Found(g.(scope := if g.scope != Unset then g.scope
                               else if ApprovalMeaning.Visible(g.fingerprint) then Run else Rule))
  {
    if stored.Some? { ApprovalMeaning.BlankMeans(stored.value.fingerprint); }
  }

  /** Grants are looked up by their namespace, their rule and the fingerprint they pin. */
  lemma KeyMeans(k: Key, g: Grant)
    ensures ValidKey(k) <==>
              && ApprovalMeaning.Visible(k.namespace.tenant) && ApprovalMeaning.Visible(k.namespace.subject)
              && ApprovalMeaning.Visible(k.ruleKey)
    ensures KeyOf(g) == k <==> k.namespace == g.namespace && k.ruleKey == g.ruleKey && k.fingerprint == g.fingerprint
  {
    ApprovalMeaning.BlankMeans(k.namespace.tenant);
    ApprovalMeaning.BlankMeans(k.namespace.subject);
    ApprovalMeaning.BlankMeans(k.ruleKey);
  }

  /** A lazy store and one that deletes nothing give the same answer, whatever the clock
      shows when it is looked at. */
  lemma LazyAnswers(kept: Grants, all: Grants, read: int, k: Key, checked: int)
    requires Lazy(kept, all, read) && read <= checked
    ensures AnswerFor(Stored(kept, k), checked) == AnswerFor(Stored(all, k), checked)
  {
  }

  // ---- When an answer is right ------------------------------------------------------

  /** What a store that deletes nothing expired holds, and what the clock shows. */
  datatype Moment = Moment(all: Grants, now: int)

  /** All grants are under their own keys. */
  ghost predicate Filed(all: Grants) { forall k :: k in all ==> KeyOf(all[k]) == k }

  /** A grant is put, a key is revoked, or the clock goes on. */
  predicate PutBetween(a: Moment, b: Moment, g: Grant) { b == Moment(a.all[KeyOf(g) := g], a.now) }

  predicate RevokedBetween(a: Moment, b: Moment, k: Key) { b == Moment(a.all - {k}, a.now) }

  predicate Passed(a: Moment, b: Moment) { a.all == b.all && a.now <= b.now }

  ghost predicate Follows(a: Moment, b: Moment) {
    Passed(a, b) || (exists g :: PutBetween(a, b, g)) || exists k :: RevokedBetween(a, b, k)
  }

  ghost predicate IsHistory(h: seq<Moment>) {
    h != [] && Filed(h[0].all) && forall i :: 0 <= i < |h| - 1 ==> Follows(h[i], h[i + 1])
  }

  function LiveAt(m: Moment, k: Key): Option<Grant> { Live(m.all, k, m.now) }

  /** The answer a store that deletes nothing would give at that moment. */
  predicate RightAt(a: Answer, m: Moment, k: Key) { a == AnswerFor(Stored(m.all, k), m.now) }

  /** The answer of a `Get` that reads at the first moment and looks at the clock at the last. */
  function AnswerOver(h: seq<Moment>, k: Key): Answer
    requires h != []
  {
    AnswerFor(Stored(h[0].all, k), h[|h| - 1].now)
  }

  lemma {:induction false} TimeGoesOn(h: seq<Moment>, i: nat, j: nat)
    requires IsHistory(h) && i <= j < |h|
    ensures h[i].now <= h[j].now
    decreases j - i
  {
    if i < j {
      TimeGoesOn(h, i, j - 1);
      assert Follows(h[j - 1], h[j - 1 + 1]);
    }
  }

  /** A history from one moment on until the clock shows a time. */
  ghost predicate From(h: seq<Moment>, m: Moment, clock: int) { IsHistory(h) && h[0] == m && h[|h| - 1].now == clock }

  ghost predicate RightSometime(h: seq<Moment>, k: Key)
    requires h != []
  {
    exists i :: 0 <= i < |h| && RightAt(AnswerOver(h, k), h[i], k)
  }

  /** The grant that is read is live and will have expired when the clock is looked at. */
  predicate ExpiresInBetween(m: Moment, clock: int, k: Key) {
    k in m.all && !Expired(m.all[k], m.now) && Expired(m.all[k], clock)
  }

  /** Otherwise the answer is right when the store was read. */
  lemma RightAtReading(h: seq<Moment>, m: Moment, clock: int, k: Key)
    requires From(h, m, clock) && !ExpiresInBetween(m, clock, k)
    ensures RightSometime(h, k)
  {
    TimeGoesOn(h, 0, |h| - 1);
    assert RightAt(AnswerOver(h, k), h[0], k);
  }

  /** A grant that expires is replaced by one that does not, before it has expired. The new
      one is as valid as the old one. */
  function Outlived(m: Moment, clock: int, k: Key): seq<Moment>
    requires k in m.all
  {
    var later := m.all[k := m.all[k].(expiresAt := None)];
    [m, Moment(later, m.now), Moment(later, clock)]
  }

  lemma OutlivedIsWrong(m: Moment, clock: int, k: Key)
    requires Filed(m.all) && m.now <= clock && ExpiresInBetween(m, clock, k)
    ensures From(Outlived(m, clock, k), m, clock) && !RightSometime(Outlived(m, clock, k), k)
    ensures ValidGrant(m.all[k]) ==> ValidGrant(Outlived(m, clock, k)[1].all[k])
  {
    var h, g := Outlived(m, clock, k), m.all[k].(expiresAt := None);
    assert PutBetween(h[0], h[1], g);
    assert Passed(h[1], h[2]);
  }

  /** Whatever others do in between, an answer is right at some moment between reading the
      store and looking at the clock, exactly unless the grant that was read was live and
      has expired when the clock is looked at. */
  lemma AnswerIsRight(m: Moment, clock: int, k: Key)
    requires Filed(m.all) && m.now <= clock
    ensures (forall h :: From(h, m, clock) ==> RightSometime(h, k)) <==> !ExpiresInBetween(m, clock, k)
  {
    if ExpiresInBetween(m, clock, k) {
      OutlivedIsWrong(m, clock, k);
    } else {
      forall h | From(h, m, clock)
        ensures RightSometime(h, k)
      {
        RightAtReading(h, m, clock, k);
      }
    }
  }

  /** An answer read at moment `i` and given at moment `j` of a history. */
  ghost predicate Answers(a: Answer, past: seq<Moment>, i: nat, j: nat, k: Key) {
    && i <= j < |past|
    && a == AnswerFor(Stored(past[i].all, k), past[j].now)
    && (!ExpiresInBetween(past[i], past[j].now, k) ==> RightAt(a, past[i], k))
  }

  lemma Between(past: seq<Moment>, i: nat, j: nat, k: Key)
    requires IsHistory(past) && i <= j < |past|
    ensures Answers(AnswerFor(Stored(past[i].all, k), past[j].now), past, i, j, k)
  {
    TimeGoesOn(past, i, j);
  }

  /** An answer that is right at no moment: the grant that was read has been replaced while
      it was live. There are two moments next to each other, at the first of which it is live
      and still there, and at the second of which another one is. */
  lemma WrongIsReplaced(h: seq<Moment>, k: Key) returns (i: nat)
    requires IsHistory(h) && !RightSometime(h, k)
    ensures ExpiresInBetween(h[0], h[|h| - 1].now, k) && AnswerOver(h, k).NotFound?
    ensures i + 1 < |h| && LiveAt(h[i], k) == Stored(h[0].all, k)
    ensures LiveAt(h[i + 1], k).Some? && LiveAt(h[i + 1], k) != LiveAt(h[i], k) && h[i + 1].now == h[i].now
  {
    if !ExpiresInBetween(h[0], h[|h| - 1].now, k) { RightAtReading(h, h[0], h[|h| - 1].now, k); }
    forall j | 0 <= j < |h|
      ensures LiveAt(h[j], k).Some?
    {
      assert !RightAt(NotFound, h[j], k);
    }
    i := 0;
    while i + 1 < |h| && Stored(h[i + 1].all, k) == Stored(h[0].all, k)
      invariant i < |h| && Stored(h[i].all, k) == Stored(h[0].all, k)
    {
      i := i + 1;
    }
    assert LiveAt(h[i], k).Some?;
    assert i + 1 < |h| ==> LiveAt(h[i + 1], k).Some? && Follows(h[i], h[i + 1]);
  }

  /** Such a case: a grant read at 5 that expires at 10 is replaced at 8 by one that lasts,
      and the clock is looked at at 12. The answer is that there is none. */
  lemma LiveGrantIsMissed(first: Grant, second: Grant)
    requires KeyOf(first) == KeyOf(second) && first.expiresAt == Some(10) && second.expiresAt.None?
    ensures var k := KeyOf(first);
            var h := [Moment(map[k := first], 5), Moment(map[k := first], 8), Moment(map[k := second], 8),
                Moment(map[k := second], 12)];
            IsHistory(h) && AnswerOver(h, k) == NotFound && !RightSometime(h, k)
  {
    var k := KeyOf(first);
    var h := [Moment(map[k := first], 5), Moment(map[k := first], 8), Moment(map[k := second], 8),
        Moment(map[k := second], 12)];
    assert Passed(h[0], h[1]) && Passed(h[2], h[3]);
    assert h[1].all[k := second] == map[k := second];
    assert PutBetween(h[1], h[2], second);
  }

  // ---- Listing ----------------------------------------------------------------------

  /** The grants of a namespace that have not expired at a time. */
  function Listed(s: Grants, n: Namespace, now: int): set<Grant> {
    set k | k in s && k.namespace == n && !Expired(s[k], now) :: Effective(s[k])
  }

  /** A list made of a lazy store, with a clock read before the store was: it has all that
      is live when the store is read, and nothing that was not live when the clock was. */
  lemma ListIsBetween(kept: Grants, all: Grants, clock: int, read: int, n: Namespace)
    requires Lazy(kept, all, read) && clock <= read
    ensures Listed(all, n, read) <= Listed(kept, n, clock) <= Listed(all, n, clock)
  {
    forall g | g in Listed(all, n, read)
      ensures g in Listed(kept, n, clock)
    {
      var k :| k in all && k.namespace == n && !Expired(all[k], read) && g == Effective(all[k]);
      assert k in kept && kept[k] == all[k];
    }
  }

  /** A grant of the namespace expires after the clock was read and before the store is. */
  ghost predicate ExpiresBetween(all: Grants, k: Key, clock: int, read: int, n: Namespace) {
    k in all && k.namespace == n && !Expired(all[k], clock) && Expired(all[k], read)
  }

  /** A grant that expires in between, and that somebody's look deletes, is missing though
      it was live when the clock was read. */
  lemma ListMayMiss(all: Grants, k: Key, clock: int, read: int, n: Namespace)
    requires ExpiresBetween(all, k, clock, read, n) && forall x :: x in all ==> KeyOf(all[x]) == x
    ensures Lazy(all - {k}, all, read)
    ensures Effective(all[k]) in Listed(all, n, clock) && Effective(all[k]) !in Listed(all - {k}, n, clock)
  {
    forall x | x in all - {k}
      ensures Effective((all - {k})[x]) != Effective(all[k])
    {
      assert KeyOf(Effective(all[x])) == x && KeyOf(Effective(all[k])) == k;
    }
  }

  /** A list is what a store that deletes nothing would list, whatever has been deleted,
      exactly when no grant of the namespace expires between the clock and the store. */
  lemma ListIsExact(all: Grants, clock: int, read: int, n: Namespace)
    requires clock <= read && forall x :: x in all ==> KeyOf(all[x]) == x
    ensures (forall kept: Grants :: Lazy(kept, all, read) ==> Listed(kept, n, clock) == Listed(all, n, clock)) <==>
              forall k :: !ExpiresBetween(all, k, clock, read, n)
  {
    if k :| ExpiresBetween(all, k, clock, read, n) {
      ListMayMiss(all, k, clock, read, n);
    } else {
      forall kept: Grants | Lazy(kept, all, read)
        ensures Listed(kept, n, clock) == Listed(all, n, clock)
      {
        ListIsBetween(kept, all, clock, read, n);
        NothingExpires(all, clock, read, n);
      }
    }
  }

  lemma NothingExpires(all: Grants, clock: int, read: int, n: Namespace)
    requires forall k :: !ExpiresBetween(all, k, clock, read, n)
    ensures Listed(all, n, clock) <= Listed(all, n, read)
  {
    forall g | g in Listed(all, n, clock)
      ensures g in Listed(all, n, read)
    {
      var k :| k in all && k.namespace == n && !Expired(all[k], clock) && g == Effective(all[k]);
      assert !ExpiresBetween(all, k, clock, read, n);
    }
  }

  /** `sortGrants`: by rule key, then by fingerprint. */
  predicate ListsBefore(a: Grant, b: Grant) {
    if a.ruleKey != b.ruleKey then TextLess(a.ruleKey, b.ruleKey) else TextLess(a.fingerprint, b.fingerprint)
  }

  lemma ListsBeforeOneWay(a: Grant, b: Grant)
    requires ListsBefore(a, b)
    ensures !ListsBefore(b, a)
  {
    if a.ruleKey != b.ruleKey { TextLessOneWay(a.ruleKey, b.ruleKey); }
        else { TextLessOneWay(a.fingerprint, b.fingerprint); }
  }

  lemma ListsBeforeOn(a: Grant, b: Grant, c: Grant)
    requires ListsBefore(a, b) && ListsBefore(b, c)
    ensures ListsBefore(a, c)
  {
    if a.ruleKey != b.ruleKey && b.ruleKey != c.ruleKey {
      TextLessOn(a.ruleKey, b.ruleKey, c.ruleKey);
      if a.ruleKey == c.ruleKey { TextLessOneWay(a.ruleKey, b.ruleKey); }
    } else if a.ruleKey == b.ruleKey == c.ruleKey {
      TextLessOn(a.fingerprint, b.fingerprint, c.fingerprint);
    }
  }

  lemma ListsOneWayOrOther(a: Grant, b: Grant)
    ensures ListsBefore(a, b) || ListsBefore(b, a) || (a.ruleKey == b.ruleKey && a.fingerprint == b.fingerprint)
  {
    TextsCompare(a.ruleKey, b.ruleKey);
    TextsCompare(a.fingerprint, b.fingerprint);
  }

  lemma NotBeforeOn(a: Grant, b: Grant, c: Grant)
    requires !ListsBefore(a, b) && !ListsBefore(b, c)
    ensures !ListsBefore(a, c)
  {
    ListsOneWayOrOther(a, b);
    if ListsBefore(b, a) && ListsBefore(a, c) { ListsBeforeOn(b, a, c); }
  }

  lemma ListsBeforeCompares()
    ensures Comparison(ListsBefore)
  {
    forall a, b | ListsBefore(a, b)
      ensures !ListsBefore(b, a)
    {
      ListsBeforeOneWay(a, b);
    }
    forall a, b, c | ListsBefore(a, b) && ListsBefore(b, c)
      ensures ListsBefore(a, c)
    {
      ListsBeforeOn(a, b, c);
    }
    forall a, b, c | !ListsBefore(a, b) && !ListsBefore(b, c)
      ensures !ListsBefore(a, c)
    {
      NotBeforeOn(a, b, c);
    }
  }

  function Elements(s: seq<Grant>): set<Grant> { set g | g in s }

  /** Grants of one namespace that are all under their own keys. */
  ghost predicate UnderKeys(s: seq<Grant>, n: Namespace) {
    && (forall g :: g in s ==> g.namespace == n)
    && forall i, j :: 0 <= i < j < |s| ==> KeyOf(s[i]) != KeyOf(s[j])
  }

  lemma KeysKeepApart(s: seq<Grant>, n: Namespace)
    requires UnderKeys(s, n)
    ensures ApartBy(ListsBefore, s)
  {
    forall i, j | 0 <= i < j < |s|
      ensures ListsBefore(s[i], s[j]) || ListsBefore(s[j], s[i])
    {
      assert s[i] in s && s[j] in s;
      ListsOneWayOrOther(s[i], s[j]);
    }
  }

  /** The loop of `List` over the map, in any order. */
  method Pick(kept: Grants, n: Namespace, at: int) returns (out: seq<Grant>)
    requires forall k :: k in kept ==> KeyOf(kept[k]) == k
    ensures Elements(out) == Listed(kept, n, at) && UnderKeys(out, n)
  {
    out := [];
    var todo := kept.Keys;
    while todo != {}
      invariant todo <= kept.Keys && UnderKeys(out, n)
      invariant forall g :: g in out ==> KeyOf(g) in kept.Keys - todo && g in Listed(kept, n, at)
      invariant forall k ::
                k in kept.Keys - todo && k.namespace == n && !Expired(kept[k], at) ==> Effective(kept[k]) in out
      decreases todo
    {
      var k :| k in todo;
      todo := todo - {k};
      if k.namespace == n && !Expired(kept[k], at) {
        assert KeyOf(Effective(kept[k])) == KeyOf(kept[k]) == k;
        out := out + [Effective(kept[k])];
      }
    }
  }

  // ---- What calls keep --------------------------------------------------------------

  ghost predicate Keeps(kept: Grants, all: Grants, now: int) { Lazy(kept, all, now) && Filed(all) }

  lemma LazyPut(kept: Grants, all: Grants, now: int, k: Key, g: Grant)
    requires Lazy(kept, all, now)
    ensures Lazy(kept[k := g], all[k := g], now)
  {
  }

  lemma LazyRevoke(kept: Grants, all: Grants, now: int, k: Key)
    requires Lazy(kept, all, now)
    ensures Lazy(kept - {k}, all - {k}, now)
    ensures k in kept && Expired(kept[k], now) ==> Lazy(kept - {k}, all, now)
    ensures k !in kept ==> kept - {k} == kept
  {
  }

  lemma FiledPut(all: Grants, g: Grant)
    requires Filed(all)
    ensures Filed(all[KeyOf(g) := g])
  {
  }

  lemma FiledRevoke(all: Grants, k: Key)
    requires Filed(all)
    ensures Filed(all - {k})
  {
  }

  lemma PutFollows(all: Grants, now: int, g: Grant)
    ensures Follows(Moment(all, now), Moment(all[KeyOf(g) := g], now))
  {
    assert PutBetween(Moment(all, now), Moment(all[KeyOf(g) := g], now), g);
  }

  lemma RevokeFollows(all: Grants, now: int, k: Key)
    ensures Follows(Moment(all, now), Moment(all - {k}, now))
  {
    assert RevokedBetween(Moment(all, now), Moment(all - {k}, now), k);
  }

  lemma TimeKeeps(kept: Grants, all: Grants, now: int, later: int)
    requires Keeps(kept, all, now) && now <= later
    ensures Keeps(kept, all, later) && Follows(Moment(all, now), Moment(all, later))
  {
    assert Passed(Moment(all, now), Moment(all, later));
  }

  lemma Longer(past: seq<Moment>, m: Moment)
    requires IsHistory(past) && Follows(past[|past| - 1], m)
    ensures IsHistory(past + [m])
  {
    var h := past + [m];
    forall i | 0 <= i < |h| - 1
      ensures Follows(h[i], h[i + 1])
    {
      if i + 1 < |past| { assert Follows(past[i], past[i + 1]); }
    }
  }

  // ---- The store --------------------------------------------------------------------

  class MemoryGrantStore {
    var grants: Grants
    /** The clock, which never goes back. */
    var now: int
    /** The store that deletes nothing that has expired, and all its moments so far. */
    ghost var all: Grants
    ghost var past: seq<Moment>

    ghost predicate Valid()
      reads this
    {
      && Keeps(grants, all, now)
      && IsHistory(past) && past[|past| - 1] == Moment(all, now)
    }

    constructor (now: int)
      ensures Valid() && all == map[] && grants == map[] && this.now == now
    {
      grants, this.now, all, past := map[], now, map[], [Moment(map[], now)];
    }

    /** The store is left as it is now: one more moment. */
    method Store(grants: Grants, ghost all: Grants, now: int)
      requires Keeps(grants, all, now) && IsHistory(past) && Follows(past[|past| - 1], Moment(all, now))
      modifies this
      ensures Valid() && this.grants == grants && this.all == all && this.now == now
      ensures past == old(past) + [Moment(all, now)]
    {
      Longer(past, Moment(all, now));
      this.grants, this.all, this.now := grants, all, now;
      past := past + [Moment(all, now)];
    }

    method Tick(seconds: nat)
      requires Valid()
      modifies this
      ensures Valid() && now == old(now) + seconds && grants == old(grants) && all == old(all)
      ensures past == old(past) + [Moment(all, now)]
    {
      TimeKeeps(grants, all, now, now + seconds);
      Store(grants, all, now + seconds);
    }

    method Put(g: Grant) returns (ok: bool)
      requires Valid()
      modifies this
      ensures Valid() && ok == ValidGrant(g) && now == old(now)
      ensures all == if ok then old(all)[KeyOf(g) := g] else old(all)
      ensures grants == if ok then old(grants)[KeyOf(g) := g] else old(grants)
      ensures past == if ok then old(past) + [Moment(all, now)] else old(past)
    {
      ok := ValidGrant(g);
      if ok {
        LazyPut(grants, all, now, KeyOf(g), g);
        FiledPut(all, g);
        PutFollows(all, now, g);
        Store(grants[KeyOf(g) := g], all[KeyOf(g) := g], now);
      }
    }

    /** Whether a grant is reported as not found depends on what has been deleted. */
    method Revoke(k: Key) returns (a: Answer)
      requires Valid()
      modifies this
      ensures Valid() && now == old(now)
      ensures if ValidKey(k) then all == old(all) - {k} && grants == old(grants) - {k}
              else all == old(all) && grants == old(grants)
      ensures a == if !ValidKey(k) then Invalid else if k in old(grants) then Found(old(grants)[k]) else NotFound
      ensures past == if ValidKey(k) then old(past) + [Moment(all, now)] else old(past)
    {
      if !ValidKey(k) { return Invalid; }
      LazyRevoke(grants, all, now, k);
      FiledRevoke(all, k);
      RevokeFollows(all, now, k);
      if k !in grants {
        Store(grants, all - {k}, now);
        return NotFound;
      }
      a := Found(grants[k]);
      Store(grants - {k}, all - {k}, now);
    }

    /** The second half of a `Get` that found an expired grant: it deletes what is there
        now, if that has expired. */
    method Sweep(k: Key)
      requires Valid()
      modifies this`grants
      ensures Valid()
      ensures grants == if k in old(grants) && Expired(old(grants)[k], now) then old(grants) - {k} else old(grants)
    {
      if k in grants && Expired(grants[k], now) {
        LazyRevoke(grants, all, now, k);
        grants := grants - {k};
      }
    }

    /** Whatever other callers do while one has let go of the lock. */
    method Interfere()
      requires Valid()
      modifies this
      ensures Valid() && old(now) <= now && old(past) <= past
    {
      var steps: nat := *;
      while steps > 0
        invariant Valid() && old(now) <= now && old(past) <= past
        decreases steps
      {
        var choice: int, g: Grant, k: Key, seconds: nat := *, *, *, *;
        if choice == 0 {
          var ok := Put(g);
        } else if choice == 1 {
          var a := Revoke(k);
        } else if choice == 2 {
          Sweep(k);
        } else {
          Tick(seconds);
        }
        steps := steps - 1;
      }
    }

    /** The first half of `Get`: it reads, and the lock is let go. */
    method Look(k: Key) returns (grant: Option<Grant>)
      requires Valid()
      modifies this
      ensures Valid() && old(past) <= past
      ensures AnswerFor(grant, now) == AnswerFor(Stored(old(all), k), now)
    {
      grant := Stored(grants, k);
      ghost var kept, seen, before := grants, all, now;
      Interfere();
      LazyAnswers(kept, seen, before, k, now);
    }

    /** The second half, when the grant that was read has expired. */
    method Collect(k: Key)
      requires Valid()
      modifies this
      ensures Valid() && old(past) <= past
    {
      Interfere();
      Sweep(k);
    }

    /** `Get`, with the lock let go after reading and after looking at the clock, which it
        does at moment `checked`. The answer is the one a store that deletes nothing gives,
        and is right at some moment from reading on exactly as `AnswerIsRight` says. */
    method Get(k: Key) returns (a: Answer, ghost checked: nat)
      requires Valid()
      modifies this
      ensures Valid() && old(past) <= past
      ensures if ValidKey(k) then Answers(a, past, |old(past)| - 1, checked, k) else a == Invalid
    {
      ghost var read := |past| - 1;
      checked := read;
      if !ValidKey(k) { return Invalid, checked; }
      var grant := Look(k);
      checked := |past| - 1;
      ghost var reached := past;
      a := AnswerFor(grant, now);
      Between(past, read, checked, k);
      if grant.Some? && Expired(grant.value, now) {
        Collect(k);
        assert past[read] == reached[read] && past[checked] == reached[checked];
      }
    }

    /** `List`: the clock first, then the store; what it finds is sorted. */
    method List(n: Namespace) returns (valid: bool, grants: seq<Grant>)
      requires Valid()
      modifies this
      ensures Valid() && valid == ValidNamespace(n) && old(now) <= now
      ensures forall i, j :: 0 <= i < j < |grants| ==>
                TextLess(grants[i].ruleKey, grants[j].ruleKey)
                || (grants[i].ruleKey == grants[j].ruleKey && TextLess(grants[i].fingerprint, grants[j].fingerprint))
      ensures valid ==> Listed(all, n, now) <= Elements(grants) <= Listed(all, n, old(now))
    {
      if !ValidNamespace(n) { return false, []; }
      var at := now;
      Interfere();
      var out := Pick(this.grants, n, at);
      KeysKeepApart(out, n);
      ListsBeforeCompares();
      SortSorts(ListsBefore, out);
      SortStrictly(ListsBefore, out);
      valid, grants := true, SortBy(ListsBefore, out);
      ListIsBetween(this.grants, all, at, now, n);
    }
  }
}
