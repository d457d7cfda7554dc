/** Managed requirements: `Requirements.Apply`, `cloneDocument` and `Set` of
    `configlayer`. A document is copied under a new owner, then the enforced values are
    written into the copy. */
module ConfigRequirements {
  import opened Options
  import opened ConfigLayer
  import opened ConfigStack

  /** `Get`: the empty path is the document itself. */
  function Get(h: Heap, doc: nat, q: Path): Option<Value> { if q == [] then Some(Object(doc)) else Show(h, doc, q, 0) }

  /** Neither path leads through the other. */
  predicate Apart(p: Path, q: Path) { !(p <= q) && !(q <= p) }

  /** A document that owns its objects: the cell of every parent is there. */
  ghost predicate Rooted(h: Heap, doc: nat) {
    forall q: Path {:trigger At(h, doc, q)} ::
        At(h, doc, q).Some? ==> q != [] && (|q| > 1 ==> At(h, doc, q[..|q| - 1]).Some?)
  }

  lemma {:induction false} RootedParents(h: Heap, doc: nat, q: Path, i: nat)
    requires Rooted(h, doc) && At(h, doc, q).Some? && 1 <= i <= |q|
    ensures At(h, doc, q[..i]).Some?
    decreases |q| - i
  {
    if i < |q| {
      var parent := q[..|q| - 1];
      assert At(h, doc, parent).Some?;
      RootedParents(h, doc, parent, i);
      assert parent[..i] == q[..i];
    } else {
      assert q[..i] == q;
    }
  }

  // ---- The copy ---------------------------------------------------------------------

  /** A copied value: an object belongs to the copy. */
  function CopyOf(v: Option<Value>, copy: nat): Option<Value> {
    match v
    case Some(Object(_)) => Some(Object(copy))
    case _ => v
  }

  /** The cells of the copy below a path are what the document shows there, except under
      the keys still to be copied. */
  ghost predicate CopiedBut(h: Heap, g: Heap, doc: nat, copy: nat, prefix: Path, todo: set<string>) {
    forall o: nat, q: Path {:trigger At(g, o, q)} ::
      At(g, o, q) == if o == copy && prefix < q && q[|prefix|] !in todo then CopyOf(Show(h, doc, q, |prefix|), copy)
          else At(h, o, q)
  }

  ghost predicate Empty(h: Heap, o: nat, prefix: Path) {
    forall q: Path {:trigger At(h, o, q)} :: prefix < q ==> At(h, o, q).None?
  }

  class Settings {
    var heap: Heap

    constructor (heap: Heap)
      ensures this.heap == heap
    {
      this.heap := heap;
    }

    /** `cloneDocument`, below a path. */
    method Clone(doc: nat, copy: nat, prefix: Path, ghost owners: set<nat>, ghost bound: nat)
      requires Bounded(heap, bound) && copy !in owners && doc in owners && Closed(heap, owners)
               && Empty(heap, copy, prefix)
      modifies this
      ensures Bounded(heap, bound) && CopiedBut(old(heap), heap, doc, copy, prefix, {})
      decreases bound - |prefix|
    {
      var todo := Keys(heap, doc, prefix);
      ghost var h := heap;
      NothingCopied(h, doc, copy, prefix);
      while todo != {}
        invariant todo <= Keys(h, doc, prefix) && Bounded(heap, bound)
        invariant CopiedBut(h, heap, doc, copy, prefix, todo)
        decreases todo
      {
        var key :| key in todo;
        var path := prefix + [key];
        ghost var g := heap;
        assert At(g, doc, path) == At(h, doc, path);
        match heap[(doc, path)] {
          case Scalar(v) =>
            heap := heap[(copy, path) := Scalar(v)];
            ScalarCopied(h, g, heap, doc, copy, prefix, todo, key);
          case Object(inner) =>
            heap := heap[(copy, path) := Object(copy)];
            ghost var g1 := heap;
            ReadyBelow(h, g, g1, doc, copy, prefix, todo, key, owners);
            Clone(inner, copy, path, owners, bound);
            ObjectCopied(h, g, g1, heap, doc, copy, prefix, todo, key, inner, owners);
        }
        todo := todo - {key};
      }
    }

    /** `Set`: intermediate objects that are missing are made, other values are in the way. */
    method Set(doc: nat, p: Path, value: Value) returns (ok: bool)
      requires p != [] && OwnOn(heap, doc, p) && Rooted(heap, doc)
      modifies this
      ensures ok <==> Open(old(heap), doc, p)
      ensures ok ==> WasSet(old(heap), heap, doc, p, value)
    {
      ghost var h := heap;
      var current := doc;
      for i := 0 to |p| - 1
        invariant current == doc && forall k :: 1 <= k <= i ==> Passable(At(h, doc, p[..k]))
        invariant MadeTo(h, heap, doc, p, i)
      {
        var part := p[..i + 1];
        ghost var g := heap;
        assert At(heap, doc, part) == At(h, doc, part);
        if (current, part) !in heap {
          NothingBelow(h, doc, part);
          heap := heap[(current, part) := Object(current)];
        } else if heap[(current, part)].Object? {
          assert At(h, doc, p[..i + 1]).value.owner == doc;
          current := heap[(current, part)].owner;
          assert heap == heap[(doc, part) := Object(doc)];
        } else {
          assert !Open(h, doc, p);
          return false;
        }
        NextIsMade(h, g, heap, doc, p, i);
      }
      ghost var g := heap;
      heap := heap[(current, p) := value];
      LastIsSet(h, g, heap, doc, p, value);
      ok := true;
    }

    /** `Apply`: the allowed sets first, then the enforced values in their order. */
    method Apply(rules: Rules, candidate: nat, copy: nat, ghost owners: set<nat>, ghost bound: nat) returns (ok: bool)
      requires PrefixFree(rules) && Bounded(heap, bound)
      requires copy !in owners && candidate in owners && Closed(heap, owners) && NewRoot(heap, copy)
      modifies this
      ensures ok <==> Admits(old(heap), rules, candidate) && AllOpen(old(heap), rules, candidate)
      ensures ok ==> Applied(old(heap), heap, rules, rules.order, candidate, copy)
    {
      ghost var h := heap;
      var todo := rules.allowed.Keys;
      while todo != {}
        invariant todo <= rules.allowed.Keys
        invariant forall a :: a in rules.allowed && a !in todo ==> Accepts(rules.allowed[a], Get(heap, candidate, a))
        decreases todo
      {
        var path :| path in todo;
        if !Accepts(rules.allowed[path], Get(heap, candidate, path)) { return false; }
        todo := todo - {path};
      }
      Clone(candidate, copy, [], owners, bound);
      ghost var h1 := heap;
      CloneIsApplied(h, h1, rules, candidate, copy);
      for i := 0 to |rules.order|
        invariant Applied(h, heap, rules, rules.order[..i], candidate, copy)
        invariant forall k :: 0 <= k < i ==> CandidateOpen(h, candidate, Parts(rules.order[k]))
      {
        ghost var g := heap;
        var p := rules.order[i];
        BeforeSet(h, g, rules, i, candidate, copy);
        ok := Set(copy, Parts(p), rules.enforced[p]);
        if !ok { return; }
        AfterSet(h, g, heap, rules, i, candidate, copy);
      }
      assert rules.order[..|rules.order|] == rules.order;
      ok := true;
    }
  }

  // ---- Setting ----------------------------------------------------------------------

  /** The objects of a document on the way to a path are its own. */
  ghost predicate OwnOn(h: Heap, doc: nat, p: Path) {
    forall k :: 1 <= k < |p| && At(h, doc, p[..k]).Some? && At(h, doc, p[..k]).value.Object? ==>
        At(h, doc, p[..k]).value.owner == doc
  }

  /** Nothing on the way to a path is anything but an object. */
  ghost predicate Open(h: Heap, doc: nat, p: Path) {
    forall k :: 1 <= k < |p| ==> Passable(At(h, doc, p[..k]))
  }

  /** The intermediate objects are there up to a depth. */
  ghost predicate MadeTo(h: Heap, g: Heap, doc: nat, p: Path, n: nat)
    requires n <= |p|
  {
    forall o: nat, q: Path {:trigger At(g, o, q)} ::
      At(g, o, q) == if o == doc && q != [] && |q| <= n && q <= p then Some(Object(doc)) else At(h, o, q)
  }

  /** A new object is empty: nothing is left below a missing cell. */
  lemma NothingBelow(h: Heap, doc: nat, part: Path)
    requires Rooted(h, doc) && part != [] && At(h, doc, part).None?
    ensures forall q: Path :: part < q ==> At(h, doc, q).None?
  {
    forall q: Path | part < q
      ensures At(h, doc, q).None?
    {
      assert q[..|part|] == part;
      if At(h, doc, q).Some? { RootedParents(h, doc, q, |part|); }
    }
  }

  lemma NextIsMade(h: Heap, g: Heap, g2: Heap, doc: nat, p: Path, i: nat)
    requires i < |p| && MadeTo(h, g, doc, p, i)
    requires g2 == g[(doc, p[..i + 1]) := Object(doc)]
    ensures MadeTo(h, g2, doc, p, i + 1)
  {
    forall o: nat, q: Path {:trigger At(g2, o, q)}
      ensures At(g2, o, q) == if o == doc && q != [] && |q| <= i + 1 && q <= p then Some(Object(doc)) else At(h, o, q)
    {
      assert At(g2, o, q) == if o == doc && q == p[..i + 1] then Some(Object(doc)) else At(g, o, q);
    }
  }

  ghost predicate WasSet(h: Heap, g: Heap, doc: nat, p: Path, value: Value) {
    forall o: nat, q: Path {:trigger At(g, o, q)} ::
      At(g, o, q) == if o == doc && q == p then Some(value)
          else if o == doc && q != [] && q < p then Some(Object(doc)) else At(h, o, q)
  }

  lemma LastIsSet(h: Heap, g: Heap, g2: Heap, doc: nat, p: Path, value: Value)
    requires p != [] && MadeTo(h, g, doc, p, |p| - 1) && g2 == g[(doc, p) := value]
    ensures WasSet(h, g2, doc, p, value)
  {
    forall o: nat, q: Path {:trigger At(g2, o, q)}
      ensures At(g2, o, q) == if o == doc && q == p then Some(value)
              else if o == doc && q != [] && q < p then Some(Object(doc)) else At(h, o, q)
    {
      assert At(g2, o, q) == if o == doc && q == p then Some(value) else At(g, o, q);
    }
  }

  // ---- Requirements -----------------------------------------------------------------

  /** The allowed values, the enforced ones, and the enforced paths in their order. */
  datatype Rules = Rules(allowed: map<Path, set<int>>, enforced: map<Path, Value>, order: seq<Path>)

  /** `strings.Split` of the empty text is one empty key. */
  function Parts(p: Path): (q: Path)
    ensures q != []
  {
    if p == [] then [""] else p
  }

  /** Enforced paths neither repeat nor lead through each other. */
  ghost predicate PrefixFree(r: Rules) {
    && (forall p :: p in r.order ==> p in r.enforced)
    && (forall i, j :: 0 <= i < j < |r.order| ==> Apart(Parts(r.order[i]), Parts(r.order[j])))
  }

  /** A path that is not there is not checked; the values of allowed sets are no objects. */
  predicate Accepts(allowed: set<int>, v: Option<Value>) { v.None? || (v.value.Scalar? && v.value.value in allowed) }

  ghost predicate Admits(h: Heap, r: Rules, doc: nat) {
    forall a :: a in r.allowed ==>
      match Get(h, doc, a)
      case None => true
      case Some(Scalar(value)) => value in r.allowed[a]
      case Some(Object(_)) => false
  }

  ghost predicate CandidateOpen(h: Heap, doc: nat, p: Path) {
    forall k :: 1 <= k < |p| ==> Passable(Show(h, doc, p[..k], 0))
  }

  ghost predicate AllOpen(h: Heap, r: Rules, doc: nat) {
    forall k :: 0 <= k < |r.order| ==> CandidateOpen(h, doc, Parts(r.order[k]))
  }

  predicate IsSet(done: seq<Path>, q: Path) { exists k :: 0 <= k < |done| && Parts(done[k]) == q }

  predicate LeadsTo(done: seq<Path>, q: Path) { q != [] && exists k :: 0 <= k < |done| && q < Parts(done[k]) }

  /** What the cells are when some enforced values have been written into the copy. */
  ghost predicate Applied(h: Heap, g: Heap, r: Rules, done: seq<Path>, candidate: nat, copy: nat) {
    && (forall p :: p in done ==> p in r.enforced)
    && (forall k :: 0 <= k < |done| ==> At(g, copy, Parts(done[k])) == Some(r.enforced[done[k]]))
    && (forall o: nat, q: Path {:trigger At(g, o, q)} :: o != copy || q == [] ==> At(g, o, q) == At(h, o, q))
    && (forall q: Path {:trigger At(g, copy, q)} :: q != [] && !IsSet(done, q) ==>
          At(g, copy, q) == if LeadsTo(done, q) then Some(Object(copy)) else CopyOf(Show(h, candidate, q, 0), copy))
  }

  lemma ShowsNothing(h: Heap, doc: nat, prefix: Path, q: Path)
    requires prefix < q && q[|prefix|] !in Keys(h, doc, prefix)
    ensures Show(h, doc, q, |prefix|).None?
  {
    assert q[..|prefix| + 1] == prefix + [q[|prefix|]];
  }

  lemma NothingCopied(h: Heap, doc: nat, copy: nat, prefix: Path)
    requires Empty(h, copy, prefix)
    ensures CopiedBut(h, h, doc, copy, prefix, Keys(h, doc, prefix))
  {
    forall o: nat, q: Path {:trigger At(h, o, q)} | o == copy && prefix < q && q[|prefix|] !in Keys(h, doc, prefix)
      ensures At(h, o, q) == CopyOf(Show(h, doc, q, |prefix|), copy)
    {
      ShowsNothing(h, doc, prefix, q);
    }
  }

  lemma ScalarCopied(h: Heap, g: Heap, g2: Heap, doc: nat, copy: nat, prefix: Path, todo: set<string>, key: string)
    requires CopiedBut(h, g, doc, copy, prefix, todo) && key in todo && Empty(h, copy, prefix) && doc != copy
    requires At(h, doc, prefix + [key]).Some? && At(h, doc, prefix + [key]).value.Scalar?
    requires g2 == g[(copy, prefix + [key]) := At(h, doc, prefix + [key]).value]
    ensures CopiedBut(h, g2, doc, copy, prefix, todo - {key})
  {
    forall o: nat, q: Path {:trigger At(g2, o, q)}
      ensures At(g2, o, q) == if o == copy && prefix < q && q[|prefix|] !in todo - {key}
                              then CopyOf(Show(h, doc, q, |prefix|), copy) else At(h, o, q)
    {
      assert At(g2, o, q) == if o == copy && q == prefix + [key] then At(h, doc, prefix + [key]) else At(g, o, q);
      if prefix < q { BelowKey(q, prefix, key); }
    }
  }

  /** The cells of a document below a path do not change while it is copied. */
  lemma ReadyBelow(
    h: Heap, g: Heap, g1: Heap, doc: nat, copy: nat, prefix: Path, todo: set<string>, key: string, owners: set<nat>)
    requires CopiedBut(h, g, doc, copy, prefix, todo) && key in todo && Empty(h, copy, prefix)
    requires Closed(h, owners) && copy !in owners
    requires g1 == g[(copy, prefix + [key]) := Object(copy)]
    ensures Closed(g1, owners) && Empty(g1, copy, prefix + [key])
    ensures forall o: nat, q: Path {:trigger At(g1, o, q)} :: o in owners ==> At(g1, o, q) == At(h, o, q)
  {
    forall o: nat, q: Path {:trigger At(g1, o, q)}
      ensures o in owners ==> At(g1, o, q) == At(h, o, q)
      ensures o == copy && prefix + [key] < q ==> At(g1, o, q).None?
    {
      assert At(g1, o, q) == if o == copy && q == prefix + [key] then Some(Object(copy)) else At(g, o, q);
      if prefix + [key] < q { BelowKey(q, prefix, key); }
    }
  }

  lemma {:induction false} ShowWithin(g: Heap, h: Heap, owners: set<nat>, o: nat, q: Path, j: nat)
    requires Closed(h, owners) && o in owners
    requires forall x: nat, p: Path {:trigger At(g, x, p)} :: x in owners ==> At(g, x, p) == At(h, x, p)
    ensures Show(g, o, q, j) == Show(h, o, q, j)
    decreases |q| - j
  {
    if j < |q| {
      assert At(g, o, q[..j + 1]) == At(h, o, q[..j + 1]);
      match At(h, o, q[..j + 1]) {
        case Some(Object(w)) => ShowWithin(g, h, owners, w, q, j + 1);
        case _ =>
      }
    }
  }

  lemma ObjectCopied(
    h: Heap, g: Heap, g1: Heap, g2: Heap, doc: nat, copy: nat, prefix: Path, todo: set<string>, key: string,
        inner: nat, owners: set<nat>)
    requires CopiedBut(h, g, doc, copy, prefix, todo) && key in todo && Empty(h, copy, prefix)
    requires Closed(h, owners) && copy !in owners && inner in owners
    requires At(h, doc, prefix + [key]) == Some(Object(inner)) && g1 == g[(copy, prefix + [key]) := Object(copy)]
    requires CopiedBut(g1, g2, inner, copy, prefix + [key], {})
    ensures CopiedBut(h, g2, doc, copy, prefix, todo - {key})
  {
    var path := prefix + [key];
    ReadyBelow(h, g, g1, doc, copy, prefix, todo, key, owners);
    forall o: nat, q: Path {:trigger At(g2, o, q)}
      ensures At(g2, o, q) == if o == copy && prefix < q && q[|prefix|] !in todo - {key}
                              then CopyOf(Show(h, doc, q, |prefix|), copy) else At(h, o, q)
    {
      assert At(g2, o, q) == if o == copy && path < q then CopyOf(Show(g1, inner, q, |path|), copy) else At(g1, o, q);
      assert At(g1, o, q) == if o == copy && q == path then Some(Object(copy)) else At(g, o, q);
      if prefix < q { BelowKey(q, prefix, key); }
      if path < q { ShowWithin(g1, h, owners, inner, q, |path|); }
    }
  }

  // ---- Applying ---------------------------------------------------------------------

  lemma CloneIsApplied(h: Heap, g: Heap, r: Rules, candidate: nat, copy: nat)
    requires CopiedBut(h, g, candidate, copy, [], {})
    ensures Applied(h, g, r, [], candidate, copy)
  {
  }

  /** A path that is still to be set, and the cells on the way to it. */
  lemma OnTheWay(r: Rules, i: nat, q: Path)
    requires PrefixFree(r) && i < |r.order| && q != [] && q <= Parts(r.order[i])
    ensures !IsSet(r.order[..i], q)
    ensures q == Parts(r.order[i]) ==> !LeadsTo(r.order[..i], q)
  {
  }

  lemma {:induction false} ShowParent(h: Heap, o: nat, q: Path, j: nat)
    requires |q| >= j + 2 && Show(h, o, q, j).Some?
    ensures Show(h, o, q[..|q| - 1], j).Some?
    decreases |q| - j
  {
    var p := q[..|q| - 1];
    assert p[..j + 1] == q[..j + 1];
    if |q| > j + 2 { ShowParent(h, At(h, o, q[..j + 1]).value.owner, q, j + 1); }
  }

  lemma CopyIsRooted(h: Heap, g: Heap, r: Rules, done: seq<Path>, candidate: nat, copy: nat)
    requires Applied(h, g, r, done, candidate, copy) && NewRoot(h, copy)
    ensures Rooted(g, copy)
  {
    forall q: Path {:trigger At(g, copy, q)} | At(g, copy, q).Some?
      ensures q != [] && (|q| > 1 ==> At(g, copy, q[..|q| - 1]).Some?)
    {
      if |q| > 1 {
        var p := q[..|q| - 1];
        if IsSet(done, q) || LeadsTo(done, q) {
          var k :| 0 <= k < |done| && q <= Parts(done[k]);
          assert LeadsTo(done, p) by { assert p < Parts(done[k]); }
        } else {
          ShowParent(h, candidate, q, 0);
        }
        if IsSet(done, p) {
          var k :| 0 <= k < |done| && Parts(done[k]) == p;
          assert At(g, copy, Parts(done[k])).Some?;
        }
      }
    }
  }

  /** Paths that are set later are not disturbed by those set before. */
  lemma BeforeSet(h: Heap, g: Heap, r: Rules, i: nat, candidate: nat, copy: nat)
    requires PrefixFree(r) && i < |r.order| && Applied(h, g, r, r.order[..i], candidate, copy) && NewRoot(h, copy)
    requires forall k :: 0 <= k < i ==> CandidateOpen(h, candidate, Parts(r.order[k]))
    ensures OwnOn(g, copy, Parts(r.order[i])) && Rooted(g, copy)
    ensures Open(g, copy, Parts(r.order[i])) <==> CandidateOpen(h, candidate, Parts(r.order[i]))
  {
    var p := Parts(r.order[i]);
    CopyIsRooted(h, g, r, r.order[..i], candidate, copy);
    forall k | 1 <= k < |p|
      ensures At(g, copy, p[..k]) == Some(Object(copy))
              || At(g, copy, p[..k]) == CopyOf(Show(h, candidate, p[..k], 0), copy)
      ensures Passable(At(g, copy, p[..k])) <==> Passable(Show(h, candidate, p[..k], 0))
    {
      CellOnTheWay(h, g, r, i, candidate, copy, k);
    }
  }

  predicate Passable(v: Option<Value>) { v.None? || v.value.Object? }

  lemma CellOnTheWay(h: Heap, g: Heap, r: Rules, i: nat, candidate: nat, copy: nat, k: nat)
    requires PrefixFree(r) && i < |r.order| && Applied(h, g, r, r.order[..i], candidate, copy)
             && 1 <= k < |Parts(r.order[i])|
    requires forall x :: 0 <= x < i ==> CandidateOpen(h, candidate, Parts(r.order[x]))
    ensures var q := Parts(r.order[i])[..k];
            && (At(g, copy, q) == Some(Object(copy)) || At(g, copy, q) == CopyOf(Show(h, candidate, q, 0), copy))
            && (Passable(At(g, copy, q)) <==> Passable(Show(h, candidate, q, 0)))
  {
    var q := Parts(r.order[i])[..k];
    OnTheWay(r, i, q);
    if LeadsTo(r.order[..i], q) {
      var x :| 0 <= x < |r.order[..i]| && q < Parts(r.order[..i][x]);
      assert CandidateOpen(h, candidate, Parts(r.order[x])) && Parts(r.order[x])[..k] == q;
    }
  }

  lemma AfterSet(h: Heap, g: Heap, g2: Heap, r: Rules, i: nat, candidate: nat, copy: nat)
    requires PrefixFree(r) && i < |r.order| && Applied(h, g, r, r.order[..i], candidate, copy)
    requires WasSet(g, g2, copy, Parts(r.order[i]), r.enforced[r.order[i]])
    ensures Applied(h, g2, r, r.order[..i + 1], candidate, copy)
  {
    var done, p, more := r.order[..i], Parts(r.order[i]), r.order[..i + 1];
    assert more == done + [r.order[i]];
    forall k | 0 <= k < |more|
      ensures At(g2, copy, Parts(more[k])) == Some(r.enforced[more[k]])
    {
      if k < i { assert Apart(Parts(r.order[k]), p) && At(g, copy, Parts(done[k])) == Some(r.enforced[done[k]]); }
    }
    forall q: Path {:trigger At(g2, copy, q)} | q != [] && !IsSet(more, q)
      ensures At(g2, copy, q) == if LeadsTo(more, q) then Some(Object(copy)) else CopyOf(Show(h, candidate, q, 0), copy)
    {
      SetOrLeads(done, r.order[i], q);
    }
  }

  lemma SetOrLeads(done: seq<Path>, d: Path, q: Path)
    ensures IsSet(done + [d], q) <==> IsSet(done, q) || Parts(d) == q
    ensures LeadsTo(done + [d], q) <==> LeadsTo(done, q) || (q != [] && q < Parts(d))
  {
    var more := done + [d];
    assert more[|done|] == d;
    if IsSet(done, q) {
      var k :| 0 <= k < |done| && Parts(done[k]) == q;
      assert more[k] == done[k];
    }
    if LeadsTo(done, q) {
      var k :| 0 <= k < |done| && q < Parts(done[k]);
      assert more[k] == done[k];
    }
  }

  // ---- What has been applied --------------------------------------------------------

  lemma {:induction false} ShowAlong(h: Heap, o: nat, q: Path, j: nat)
    requires j < |q| && forall k :: j < k < |q| ==> At(h, o, q[..k]) == Some(Object(o))
    ensures Show(h, o, q, j) == At(h, o, q)
    decreases |q| - j
  {
    if j + 1 < |q| {
      assert At(h, o, q[..j + 1]) == Some(Object(o));
      ShowAlong(h, o, q, j + 1);
    } else {
      assert q[..j + 1] == q;
    }
  }

  /** Every enforced value is read back. The empty path is the exception: it is written
      under the empty key, and read as the document. */
  lemma EnforcedIsRead(h: Heap, g: Heap, r: Rules, candidate: nat, copy: nat, p: Path)
    requires PrefixFree(r) && Applied(h, g, r, r.order, candidate, copy) && p in r.order
             && r.enforced[p] != Object(copy)
    ensures Get(g, copy, Parts(p)) == Some(r.enforced[p])
    ensures Get(g, copy, p) == Some(r.enforced[p]) <==> p != []
  {
    var i :| 0 <= i < |r.order| && r.order[i] == p;
    var q := Parts(p);
    forall k | 0 < k < |q|
      ensures At(g, copy, q[..k]) == Some(Object(copy))
    {
      assert q[..k] < Parts(r.order[i]);
      NotSetOnTheWay(r, i, q[..k]);
    }
    ShowAlong(g, copy, q, 0);
    assert At(g, copy, Parts(r.order[i])) == Some(r.enforced[r.order[i]]);
  }

  lemma NotSetOnTheWay(r: Rules, i: nat, q: Path)
    requires PrefixFree(r) && i < |r.order| && q < Parts(r.order[i])
    ensures !IsSet(r.order, q)
  {
    forall k | 0 <= k < |r.order|
      ensures Parts(r.order[k]) != q
    {
      if k < i { assert Apart(Parts(r.order[k]), Parts(r.order[i])); }
      if k > i { assert Apart(Parts(r.order[i]), Parts(r.order[k])); }
    }
  }

  ghost predicate Untouched(r: Rules, q: Path) { forall p :: p in r.order ==> Apart(Parts(p), q) }

  /** A document that owns its objects on the way shows its own cell, or nothing. */
  lemma {:induction false} ShowOwn(h: Heap, o: nat, q: Path, j: nat)
    requires j < |q| && forall k ::
             j < k < |q| && At(h, o, q[..k]).Some? && At(h, o, q[..k]).value.Object? ==>
                 At(h, o, q[..k]).value.owner == o
    ensures Show(h, o, q, j).None? || Show(h, o, q, j) == At(h, o, q)
    decreases |q| - j
  {
    if j + 1 < |q| {
      if At(h, o, q[..j + 1]).Some? && At(h, o, q[..j + 1]).value.Object? { ShowOwn(h, o, q, j + 1); }
    } else {
      assert q[..j + 1] == q;
    }
  }

  lemma {:induction false} ShowPrefixes(h: Heap, o: nat, q: Path, j: nat, k: nat)
    requires j < k < |q| && Show(h, o, q, j).Some?
    ensures Show(h, o, q[..k], j).Some? && Show(h, o, q[..k], j).value.Object?
    decreases |q| - j
  {
    var p := q[..k];
    assert p[..j + 1] == q[..j + 1];
    if j + 1 < k { ShowPrefixes(h, At(h, o, q[..j + 1]).value.owner, q, j + 1, k); }
  }

  /** A path that does not overlap an enforced one reads as it did in the candidate. */
  lemma OthersAreKept(h: Heap, g: Heap, r: Rules, candidate: nat, copy: nat, q: Path)
    requires Applied(h, g, r, r.order, candidate, copy) && q != [] && Untouched(r, q)
    ensures Get(g, copy, q) == CopyOf(Get(h, candidate, q), copy)
  {
    forall k | 0 < k <= |q|
      ensures !IsSet(r.order, q[..k])
    {
      assert q[..k] <= q;
    }
    assert !LeadsTo(r.order, q) && q[..|q|] == q;
    assert At(g, copy, q) == CopyOf(Show(h, candidate, q, 0), copy);
    if Show(h, candidate, q, 0).Some? {
      forall k | 0 < k < |q|
        ensures At(g, copy, q[..k]) == Some(Object(copy))
      {
        ShowPrefixes(h, candidate, q, 0, k);
      }
      ShowAlong(g, copy, q, 0);
    } else {
      ShowOwn(g, copy, q, 0);
    }
  }

  /** Neither the candidate nor any other document changes. */
  lemma CandidateIsKept(h: Heap, g: Heap, r: Rules, candidate: nat, copy: nat, owners: set<nat>, doc: nat, q: Path)
    requires Applied(h, g, r, r.order, candidate, copy) && Closed(h, owners) && copy !in owners && doc in owners
    ensures Get(g, doc, q) == Get(h, doc, q)
  {
    ShowWithin(g, h, owners, doc, q, 0);
  }

  // ---- Applying twice ---------------------------------------------------------------

  /** Every allowed path that overlaps an enforced one is that path, and accepts its value. */
  ghost predicate Fits(r: Rules) {
    forall a, p :: a in r.allowed && p in r.order && p in r.enforced && !Apart(Parts(p), Parts(a)) ==>
        a == p && Accepts(r.allowed[a], Some(r.enforced[p]))
  }

  /** The same value, wherever its object is. */
  predicate Same(a: Option<Value>, b: Option<Value>) {
    match (a, b)
    case (Some(Object(_)), Some(Object(_))) => true
    case _ => a == b
  }

  /** What has been applied once is accepted again. */
  lemma AcceptedAgain(h: Heap, g: Heap, r: Rules, candidate: nat, copy: nat)
    requires PrefixFree(r) && Fits(r) && Admits(h, r, candidate) && Applied(h, g, r, r.order, candidate, copy)
    requires forall p :: p in r.order ==> p != [] && r.enforced[p] != Object(copy)
    ensures Admits(g, r, copy) && AllOpen(g, r, copy)
  {
    forall a | a in r.allowed
      ensures Accepts(r.allowed[a], Get(g, copy, a))
    {
      if a == [] {
        assert Accepts(r.allowed[a], Get(h, candidate, a));
      } else if a in r.order {
        EnforcedIsRead(h, g, r, candidate, copy, a);
      } else {
        OthersAreKept(h, g, r, candidate, copy, a);
      }
    }
    forall i | 0 <= i < |r.order|
      ensures CandidateOpen(g, copy, Parts(r.order[i]))
    {
      forall k | 1 <= k < |Parts(r.order[i])|
        ensures Show(g, copy, Parts(r.order[i])[..k], 0) == Some(Object(copy))
      {
        ShowOnTheWay(h, g, r, candidate, copy, i, k);
      }
    }
  }

  lemma ShowOnTheWay(h: Heap, g: Heap, r: Rules, candidate: nat, copy: nat, i: nat, k: nat)
    requires PrefixFree(r) && Applied(h, g, r, r.order, candidate, copy) && i < |r.order|
             && 1 <= k < |Parts(r.order[i])|
    ensures Show(g, copy, Parts(r.order[i])[..k], 0) == Some(Object(copy))
  {
    var q := Parts(r.order[i])[..k];
    forall j | 0 < j <= k
      ensures At(g, copy, q[..j]) == Some(Object(copy))
    {
      assert q[..j] < Parts(r.order[i]);
      NotSetOnTheWay(r, i, q[..j]);
    }
    assert q[..k] == q;
    ShowAlong(g, copy, q, 0);
  }

  /** A path that leads through a value of a document shows what that value shows. */
  lemma {:induction false} ShowThrough(h: Heap, o: nat, q: Path, j: nat, k: nat)
    requires j < k < |q| && At(h, o, q[..k]).Some?
    requires forall x :: j < x < k ==> At(h, o, q[..x]) == Some(Object(o))
    ensures Show(h, o, q, j) == match At(h, o, q[..k]).value case Object(w) => Show(h, w, q, k) case Scalar(_) => None
    decreases k - j
  {
    if j + 1 < k {
      assert At(h, o, q[..j + 1]) == Some(Object(o));
      ShowThrough(h, o, q, j + 1, k);
    }
  }

  /** What is shown below an enforced value. */
  lemma BelowEnforced(h: Heap, g: Heap, r: Rules, candidate: nat, copy: nat, i: nat, q: Path)
    requires PrefixFree(r) && Applied(h, g, r, r.order, candidate, copy) && i < |r.order| && Parts(r.order[i]) < q
    ensures Show(g, copy, q, 0) ==
              match r.enforced[r.order[i]] case Object(w) => Show(g, w, q, |Parts(r.order[i])|) case Scalar(_) => None
  {
    var p := Parts(r.order[i]);
    assert q[..|p|] == p;
    forall x | 0 < x < |p|
      ensures At(g, copy, q[..x]) == Some(Object(copy))
    {
      assert q[..x] < p;
      NotSetOnTheWay(r, i, q[..x]);
    }
    assert At(g, copy, Parts(r.order[i])) == Some(r.enforced[r.order[i]]);
    ShowThrough(g, copy, q, 0, |p|);
  }

  /** The objects of enforced values are among some documents that refer to one another. */
  ghost predicate Owned(r: Rules, owners: set<nat>) {
    forall p :: p in r.order && p in r.enforced && r.enforced[p].Object? ==> r.enforced[p].owner in owners
  }

  lemma SameBelow(h: Heap, g: Heap, g2: Heap, r: Rules, candidate: nat, copy: nat, again: nat, owners: set<nat>,
      i: nat, q: Path)
    requires PrefixFree(r) && Applied(h, g, r, r.order, candidate, copy) && Applied(g, g2, r, r.order, copy, again)
    requires Owned(r, owners) && Closed(h, owners) && copy !in owners && again !in owners
    requires i < |r.order| && Parts(r.order[i]) < q
    ensures Show(g2, again, q, 0) == Show(g, copy, q, 0)
  {
    BelowEnforced(h, g, r, candidate, copy, i, q);
    BelowEnforced(g, g2, r, copy, again, i, q);
    match r.enforced[r.order[i]] {
      case Object(w) =>
        assert r.order[i] in r.order && w in owners;
        ShowWithin(g, h, owners, w, q, |Parts(r.order[i])|);
        ShowWithin(g2, h, owners, w, q, |Parts(r.order[i])|);
      case Scalar(_) =>
    }
  }

  lemma SameAbove(h: Heap, g: Heap, g2: Heap, r: Rules, candidate: nat, copy: nat, again: nat, owners: set<nat>,
      i: nat, q: Path)
    requires PrefixFree(r) && Applied(h, g, r, r.order, candidate, copy) && Applied(g, g2, r, r.order, copy, again)
    requires Owned(r, owners) && copy !in owners && again !in owners
    requires i < |r.order| && q != [] && q <= Parts(r.order[i])
    ensures Same(Get(g2, again, q), Get(g, copy, q))
  {
    var p := r.order[i];
    assert p in r.order;
    if q == Parts(p) {
      EnforcedIsRead(h, g, r, candidate, copy, p);
      EnforcedIsRead(g, g2, r, copy, again, p);
    } else {
      assert q == Parts(p)[..|q|];
      ShowOnTheWay(h, g, r, candidate, copy, i, |q|);
      ShowOnTheWay(g, g2, r, copy, again, i, |q|);
    }
  }

  /** Applying a second time, to the result of the first, changes no value at any path. */
  lemma ApplyingTwice(h: Heap, g: Heap, g2: Heap, r: Rules, candidate: nat, copy: nat, again: nat, owners: set<nat>,
      q: Path)
    requires PrefixFree(r) && Applied(h, g, r, r.order, candidate, copy) && Applied(g, g2, r, r.order, copy, again)
    requires Owned(r, owners) && Closed(h, owners) && copy !in owners && again !in owners
    ensures Same(Get(g2, again, q), Get(g, copy, q))
  {
    if q == [] {
    } else if Untouched(r, q) {
      OthersAreKept(g, g2, r, copy, again, q);
    } else {
      var p :| p in r.order && !Apart(Parts(p), q);
      var i :| 0 <= i < |r.order| && r.order[i] == p;
      if q <= Parts(p) {
        SameAbove(h, g, g2, r, candidate, copy, again, owners, i, q);
      } else {
        SameBelow(h, g, g2, r, candidate, copy, again, owners, i, q);
      }
    }
  }
}
