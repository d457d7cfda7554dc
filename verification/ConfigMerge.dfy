/** `Stack.Add` and `Stack.Merge` of `configlayer/layer.go`, and what the merged document
    of freshly read layers is. */
module ConfigMerge {
  import opened Sequences
  import opened Options
  import opened ConfigChain
  import opened ConfigLayer
  import opened ConfigPaths
  import opened ConfigStack

  /** A layer: its document, its precedence, and whether it was skipped when it was read. */
  datatype Layer = Layer(document: nat, rank: int, disabled: bool)

  // ---- The order --------------------------------------------------------------------

  predicate RanksBelow(a: Layer, b: Layer) { a.rank < b.rank }

  function Insert(x: Layer, s: seq<Layer>): seq<Layer> { InsertBy(RanksBelow, x, s) }

  /** `sort.SliceStable` by precedence. */
  function ByRank(layers: seq<Layer>): seq<Layer> { SortBy(RanksBelow, layers) }

  predicate Ascending(s: seq<Layer>) { forall i, j :: 0 <= i < j < |s| ==> s[i].rank <= s[j].rank }

  lemma ByRankSorts(layers: seq<Layer>)
    ensures Ascending(ByRank(layers)) && |ByRank(layers)| == |layers| && multiset(ByRank(layers)) == multiset(layers)
    ensures forall y :: y in ByRank(layers) <==> y in layers
  {
    var s := ByRank(layers);
    SortSorts(RanksBelow, layers);
    forall i, j | 0 <= i < j < |s|
      ensures s[i].rank <= s[j].rank
    {
      assert !RanksBelow(s[j], s[i]);
    }
  }

  predicate DistinctRanks(s: seq<Layer>) { forall i, j :: 0 <= i < j < |s| ==> s[i].rank != s[j].rank }

  lemma RanksKeepApart(layers: seq<Layer>)
    requires DistinctRanks(layers)
    ensures ApartBy(RanksBelow, layers)
  {
  }

  /** Layers of distinct precedence are merged in the same order however they were added. */
  lemma OrderOfAddingIsIrrelevant(a: seq<Layer>, b: seq<Layer>)
    requires DistinctRanks(a) && DistinctRanks(b) && |a| == |b| && forall x :: x in a <==> x in b
    ensures ByRank(a) == ByRank(b)
  {
    RanksKeepApart(a);
    RanksKeepApart(b);
    SortSorts(RanksBelow, a);
    SortSorts(RanksBelow, b);
    SortStrictly(RanksBelow, a);
    SortStrictly(RanksBelow, b);
    StrictIsUnique(RanksBelow, ByRank(a), ByRank(b));
  }

  /** The documents of the enabled layers. */
  function Enabled(s: seq<Layer>): seq<nat> {
    if s == [] then [] else Enabled(s[..|s| - 1]) + if s[|s| - 1].disabled then [] else [s[|s| - 1].document]
  }

  /** The order in which documents are merged. */
  function Order(layers: seq<Layer>): seq<nat> { Enabled(ByRank(layers)) }

  lemma {:induction false} EnabledMembers(s: seq<Layer>)
    ensures forall d :: d in Enabled(s) <==> exists x :: x in s && !x.disabled && x.document == d
  {
    if s != [] {
      var front, last := s[..|s| - 1], s[|s| - 1];
      EnabledMembers(front);
      assert s == front + [last];
      assert forall x :: x in s <==> x in front || x == last;
    }
  }

  // ---- The stack --------------------------------------------------------------------

  ghost predicate Disagreement(h0: Heap, order: seq<nat>) {
    exists d, e, q: Path :: d in order && e in order && Disagree(h0, d, e, q)
  }

  class Stack {
    var layers: seq<Layer>

    constructor ()
      ensures layers == []
    {
      layers := [];
    }

    method Add(document: nat, rank: int, disabled: bool)
      modifies this
      ensures layers == old(layers) + [Layer(document, rank, disabled)]
    {
      layers := layers + [Layer(document, rank, disabled)];
    }

    /** `Merge`, into a document that is new. */
    method Merge(docs: Documents, root: nat, ghost bound: nat) returns (ok: bool)
      requires Separate(docs.heap) && NewRoot(docs.heap, root) && docs.provenance == map[] && Bounded(docs.heap, bound)
      requires Distinct(Order(layers)) && root !in Order(layers)
      modifies docs
      ensures ok <==> !Disagreement(old(docs.heap), Order(layers))
      ensures ok ==> Progress(old(docs.heap), root, Order(layers), docs.heap, docs.provenance)
    {
      var ordered := ByRank(layers);
      ghost var h0, order := docs.heap, Order(layers);
      ghost var done: seq<nat> := [];
      ProgressBegins(h0, root);
      assert ordered[..|ordered|] == ordered;
      for i := 0 to |ordered|
        invariant done == Enabled(ordered[..i]) && done <= order
        invariant Progress(h0, root, done, docs.heap, docs.provenance) && Bounded(docs.heap, bound)
        invariant forall d, e, q: Path :: d in done && e in done ==> !Disagree(h0, d, e, q)
      {
        var layer := ordered[i];
        assert ordered[..i + 1][..i] == ordered[..i];
        EnabledPrefix(ordered, i + 1);
        if layer.disabled { continue; }
        ghost var h, prov := docs.heap, docs.provenance;
        NewInOrder(done, layer.document, order, root);
        ok := docs.MergeInto(root, layer.document, [], layer.document, bound);
        if !ok {
          ClashIsDisagreement(h0, root, done, order, h, prov, layer.document);
          return;
        }
        ProgressStep(h0, root, done, h, prov, layer.document, docs.heap, docs.provenance);
        done := done + [layer.document];
      }
      ok := true;
    }
  }

  lemma {:induction false} EnabledPrefix(s: seq<Layer>, i: nat)
    requires i <= |s|
    ensures Enabled(s[..i]) <= Enabled(s)
    decreases |s| - i
  {
    if i < |s| {
      EnabledPrefix(s, i + 1);
      assert s[..i + 1][..i] == s[..i];
    } else {
      assert s[..i] == s;
    }
  }

  lemma NewInOrder(done: seq<nat>, d: nat, order: seq<nat>, root: nat)
    requires done + [d] <= order && Distinct(order) && root !in order
    ensures d !in Us(root, done) && d in order
  {
    assert order[|done|] == d;
    assert forall k :: 0 <= k < |done| ==> order[k] == done[k];
  }

  /** A merge that fails has met two layers that disagree. */
  lemma ClashIsDisagreement(h0: Heap, root: nat, done: seq<nat>, order: seq<nat>, h: Heap, prov: map<Path, nat>, d: nat)
    requires Progress(h0, root, done, h, prov) && Separate(h0) && NewRoot(h0, root)
    requires done + [d] <= order && d !in Us(root, done) && ClashBelow(h, root, d, [])
    ensures Disagreement(h0, order)
  {
    var us := Us(root, done + [d]);
    assert us == Us(root, done) + {d};
    KeptAndNext(h0, root, done, h, d);
    if !Disagreement(h0, order) {
      forall o: nat, x: nat, q: Path {:trigger At(h, o, q), At(h, x, q)} | o in us && x in us && At(h, o, q).Some?
          && At(h, x, q).Some?
        ensures At(h, o, q).value.Object? == At(h, x, q).value.Object?
      {
        var a := FromLayer(h0, root, done, h, d, o, q);
        var b := FromLayer(h0, root, done, h, d, x, q);
        assert a in order && b in order && !Disagree(h0, a, b, q);
      }
      var top: Path := [];
      var q: Path :| top < q && Clash(h, root, d, q, |top|);
      NoClash(h, us, root, d, q, 0);
    }
  }

  lemma FromLayer(h0: Heap, root: nat, done: seq<nat>, h: Heap, d: nat, o: nat, q: Path) returns (x: nat)
    requires Copied(h0, root, done, h) && Kept(h0, root, done, h) && d !in Us(root, done)
    requires o in Us(root, done + [d]) && At(h, o, q).Some?
    ensures x in done + [d] && At(h0, x, q) == At(h, o, q)
  {
    if o in Us(root, done) {
      x :| x in done && At(h0, x, q) == At(h, o, q);
    } else {
      x := o;
    }
  }

  // ---- The merged document ----------------------------------------------------------

  /** How many objects of the path a document has; `n` bounds the search. */
  function Deep(h: Heap, i: nat, q: Path, n: nat): (d: nat)
    requires n <= |q|
    ensures d <= n
  {
    if n == 0 then 0 else if OwnerAt(h, i, q[..n]).Some? then n else Deep(h, i, q, n - 1)
  }

  lemma {:induction false} DeepAtLeast(h: Heap, i: nat, q: Path, n: nat, j: nat)
    requires j < n <= |q| && OwnerAt(h, i, q[..j + 1]).Some?
    ensures j < Deep(h, i, q, n)
  {
    if j + 1 < n && OwnerAt(h, i, q[..n]).None? { DeepAtLeast(h, i, q, n - 1, j); }
  }

  lemma {:induction false} DeepIsThere(h: Heap, i: nat, q: Path, n: nat)
    requires n <= |q|
    ensures var d := Deep(h, i, q, n); d > 0 ==> OwnerAt(h, i, q[..d]).Some?
  {
    if n > 0 && OwnerAt(h, i, q[..n]).None? { DeepIsThere(h, i, q, n - 1); }
  }

  lemma LinksOfOwn(h: Heap, i: nat, q: Path, j: nat)
    requires Separate(h) && j < |q| - 1
    ensures OwnerAt(h, i, q[..j + 1]) == if j < Deep(h, i, q, |q| - 1) then Some(i) else None
  {
    var c := (i, q[..j + 1]);
    if OwnerAt(h, i, c.1).Some? {
      assert c in h && h[c].Object?;
      DeepAtLeast(h, i, q, |q| - 1, j);
    } else if j < Deep(h, i, q, |q| - 1) {
      LinkIsThere(h, i, q, j);
    }
  }

  lemma LinkIsThere(h: Heap, i: nat, q: Path, j: nat)
    requires Separate(h) && j < |q| - 1 && j < Deep(h, i, q, |q| - 1)
    ensures OwnerAt(h, i, q[..j + 1]).Some?
  {
    var p := q[..Deep(h, i, q, |q| - 1)];
    DeepIsThere(h, i, q, |q| - 1);
    assert p[..j + 1] == q[..j + 1];
    ParentsAreThere(h, i, p, j + 1);
  }

  function Owners(h: Heap, order: seq<nat>): set<nat> { (set c | c in h.Keys :: c.0) + set d | d in order }

  /** The layers as the path sees them. */
  function LayersAt(h: Heap, order: seq<nat>, q: Path): Layers
    requires q != []
  {
    var all := Owners(h, order);
    Layers(map i | i in all :: Deep(h, i, q, |q| - 1), map i | i in all && ScalarAt(h, i, q).Some? ::
        ScalarAt(h, i, q).value)
  }

  lemma LeafIsDeep(h: Heap, i: nat, q: Path)
    requires Separate(h) && q != [] && ScalarAt(h, i, q).Some?
    ensures Deep(h, i, q, |q| - 1) == |q| - 1
  {
    if |q| > 1 { assert HasParent(h, (i, q)) && OwnerAt(h, i, q[..|q| - 1]) == Some(i); }
  }

  lemma RootIsNew(h: Heap, root: nat, order: seq<nat>)
    requires NewRoot(h, root) && root !in order
    ensures root !in Owners(h, order)
  {
    forall c | c in h.Keys
      ensures c.0 != root
    {
      assert At(h, c.0, c.1).Some?;
    }
  }

  /** The layers own exactly what the heap has along the path. */
  lemma LayersShow(h: Heap, order: seq<nat>, q: Path)
    requires Separate(h) && q != []
    ensures var l := LayersAt(h, order, q);
            && (forall i: nat {:trigger Own(l, i)} :: Own(l, i) == ScalarAt(h, i, q))
            && (forall i: nat {:trigger Depth(l, i)} :: Depth(l, i) == Deep(h, i, q, |q| - 1))
            && Proper(l, |q| - 1)
  {
    var l := LayersAt(h, order, q);
    forall i: nat
      ensures Own(l, i) == ScalarAt(h, i, q) && (i in l.leaf ==> l.depth[i] == |q| - 1)
    {
      if ScalarAt(h, i, q).Some? {
        assert (i, q) in h.Keys;
        LeafIsDeep(h, i, q);
      }
    }
    forall i: nat
      ensures Depth(l, i) == Deep(h, i, q, |q| - 1)
    {
      var d := Deep(h, i, q, |q| - 1);
      DeepIsThere(h, i, q, |q| - 1);
      if d > 0 { assert (i, q[..d]) in h.Keys; }
    }
  }

  lemma FreshAt(h: Heap, root: nat, order: seq<nat>, q: Path)
    requires Separate(h) && NewRoot(h, root) && Distinct(order) && root !in order && q != []
    ensures var l := LayersAt(h, order, q);
            Fresh(ChainOf(h, q), l, |q| - 1) && Proper(l, |q| - 1) && Ordered(l, order, root)
  {
    var l, c, m := LayersAt(h, order, q), ChainOf(h, q), |q| - 1;
    ChainShows(h, q);
    LayersShow(h, order, q);
    RootIsNew(h, root, order);
    forall i: nat, j: nat {:trigger Next(c, i, j)} | j < m
      ensures Next(c, i, j) == if j < Depth(l, i) then Some(i) else None
    {
      LinksOfOwn(h, i, q, j);
    }
  }

  lemma {:induction false} ReadShows(c: Chain<nat>, h: Heap, o: nat, q: Path, j: nat)
    requires Shows(c, h, q) && Shaped(h, q) && j < |q|
    ensures Read(c, o, j, |q| - 1) == ScalarOf(Show(h, o, q, j))
    decreases |q| - j
  {
    ShowStep(h, o, q, j);
    if j < |q| - 1 {
      assert Next(c, o, j) == OwnerAt(h, o, q[..j + 1]);
      if Next(c, o, j).Some? { ReadShows(c, h, Next(c, o, j).value, q, j + 1); }
    } else {
      assert q[..j + 1] == q && Leaf(c, o) == ScalarAt(h, o, q);
    }
  }

  lemma {:induction false} TopOfId(h: Heap, order: seq<nat>, some: seq<nat>, q: Path)
    requires q != [] && forall d :: d in some ==> d in order
    ensures Top(LayersAt(h, order, q), some)
            == (match TopId(h, some, q) case None => None case Some(d) => ScalarAt(h, d, q))
    ensures TopId(h, some, q).Some? ==> TopId(h, some, q).value in some && ScalarAt(h, TopId(h, some, q).value, q).Some?
  {
    if some != [] {
      assert some[|some| - 1] in some;
      TopOfId(h, order, some[..|some| - 1], q);
    }
  }

  /** After a merge that succeeds, every leaf has the value of the last layer in the order
      of precedence that sets it, and is attributed to that layer. */
  lemma MergedLeaf(h0: Heap, root: nat, order: seq<nat>, h: Heap, prov: map<Path, nat>, q: Path)
    requires Separate(h0) && NewRoot(h0, root) && Distinct(order) && root !in order
    requires Progress(h0, root, order, h, prov) && q != [] && Shaped(h0, q)
    ensures ScalarOf(Show(h, root, q, 0))
            == (match TopId(h0, order, q) case None => None case Some(d) => ScalarAt(h0, d, q))
    ensures SourceOf(prov, q) == TopId(h0, order, q)
  {
    var c, m, l := ChainOf(h0, q), |q| - 1, LayersAt(h0, order, q);
    FreshAt(h0, root, order, q);
    MergeTakesTheTop(c, l, order, root, m);
    ReadShows(MergeAll(c, root, order, m), h, root, q, 0);
    TopOfId(h0, order, order, q);
  }

  /** A path that some layer ends with a leaf is shaped, when no two layers disagree. */
  lemma LeavesAreShaped(h0: Heap, order: seq<nat>, d: nat, q: Path)
    requires Separate(h0) && !Disagreement(h0, order) && d in order && ScalarAt(h0, d, q).Some?
    requires forall c :: c in h0 ==> c.0 in order
    ensures q != [] && Shaped(h0, q)
  {
    assert (d, q) in h0;
    forall o: nat, i: nat | 1 <= i < |q| && At(h0, o, q[..i]).Some?
      ensures At(h0, o, q[..i]).value.Object?
    {
      ParentsAreThere(h0, d, q, i);
      assert (o, q[..i]) in h0 && !Disagree(h0, d, o, q[..i]);
    }
    forall o: nat | At(h0, o, q).Some?
      ensures At(h0, o, q).value.Scalar?
    {
      assert (o, q) in h0 && !Disagree(h0, d, o, q);
    }
  }

  // ---- Who wins ---------------------------------------------------------------------

  ghost predicate Before<T>(s: seq<T>, x: T, y: T) { exists a, b :: 0 <= a < b < |s| && s[a] == x && s[b] == y }

  lemma BeforeCons<T>(f: T, s: seq<T>, x: T, y: T)
    ensures Before(s, x, y) ==> Before([f] + s, x, y)
    ensures x == f && y in s ==> Before([f] + s, x, y)
  {
    var t := [f] + s;
    if Before(s, x, y) {
      var a, b :| 0 <= a < b < |s| && s[a] == x && s[b] == y;
      assert t[a + 1] == x && t[b + 1] == y;
    }
    if x == f && y in s {
      var b :| 0 <= b < |s| && s[b] == y;
      assert t[0] == x && t[b + 1] == y;
    }
  }

  lemma {:induction false} InsertKeepsBefore(x: Layer, s: seq<Layer>, u: Layer, v: Layer)
    ensures Before(s, u, v) ==> Before(Insert(x, s), u, v)
    ensures Ascending(s) && u in s && u.rank <= x.rank ==> Before(Insert(x, s), u, x)
  {
    if s == [] {
    } else if x.rank < s[0].rank {
      BeforeCons(x, s, u, v);
    } else {
      var t := s[1..];
      assert s == [s[0]] + t;
      InsertKeepsBefore(x, t, u, v);
      InsertMembers(RanksBelow, x, t);
      BeforeCons(s[0], Insert(x, t), u, v);
      BeforeCons(s[0], Insert(x, t), u, x);
      if Before(s, u, v) {
        var a, b :| 0 <= a < b < |s| && s[a] == u && s[b] == v;
        assert t[b - 1] == v;
        if a > 0 { assert t[a - 1] == u && t[b - 1] == v; }
      }
    }
  }

  /** A layer of the same or a lower precedence that was added before is merged before; so
      is one of a lower precedence. */
  lemma {:induction false} ByRankKeepsBefore(layers: seq<Layer>, u: Layer, v: Layer)
    requires (Before(layers, u, v) && u.rank <= v.rank) || (u in layers && v in layers && u.rank < v.rank)
    ensures Before(ByRank(layers), u, v)
  {
    var front, last := layers[..|layers| - 1], layers[|layers| - 1];
    assert layers == front + [last];
    ByRankSorts(front);
    InsertKeepsBefore(last, ByRank(front), u, v);
    if u in front && v == last {
    } else if u.rank < v.rank && u == last {
      LowerIsBefore(last, ByRank(front), v);
    } else if Before(layers, u, v) {
      var a, b :| 0 <= a < b < |layers| && layers[a] == u && layers[b] == v;
      assert front[a] == u;
      if b < |front| {
        assert front[b] == v;
        ByRankKeepsBefore(front, u, v);
      }
    } else {
      ByRankKeepsBefore(front, u, v);
    }
  }

  lemma {:induction false} LowerIsBefore(x: Layer, s: seq<Layer>, v: Layer)
    requires Ascending(s) && v in s && x.rank < v.rank
    ensures Before(Insert(x, s), x, v)
  {
    if x.rank < s[0].rank {
      BeforeCons(x, s, x, v);
    } else {
      assert s == [s[0]] + s[1..];
      LowerIsBefore(x, s[1..], v);
      BeforeCons(s[0], Insert(x, s[1..]), x, v);
    }
  }

  lemma {:induction false} EnabledKeepsBefore(s: seq<Layer>, u: Layer, v: Layer)
    requires Before(s, u, v) && !u.disabled && !v.disabled
    ensures Before(Enabled(s), u.document, v.document)
  {
    var front, last := s[..|s| - 1], s[|s| - 1];
    var a, b :| 0 <= a < b < |s| && s[a] == u && s[b] == v;
    EnabledMembers(front);
    var e := Enabled(front);
    if b < |front| {
      assert front[a] == u && front[b] == v;
      EnabledKeepsBefore(front, u, v);
      var x, y :| 0 <= x < y < |e| && e[x] == u.document && e[y] == v.document;
      assert Enabled(s)[x] == e[x] && Enabled(s)[y] == e[y];
    } else {
      assert front[a] == u && u in front && u.document in e;
      var x :| 0 <= x < |e| && e[x] == u.document;
      assert Enabled(s)[x] == u.document && Enabled(s)[|e|] == v.document;
    }
  }

  lemma {:induction false} TopIdIsLast(h: Heap, order: seq<nat>, q: Path, d: nat, e: nat)
    requires Distinct(order) && Before(order, d, e) && ScalarAt(h, e, q).Some?
    ensures TopId(h, order, q) != Some(d)
  {
    var a, b :| 0 <= a < b < |order| && order[a] == d && order[b] == e;
    var front := order[..|order| - 1];
    if b < |front| {
      assert front[a] == d && front[b] == e;
      TopIdIsLast(h, front, q, d, e);
    }
  }

  /** The value of a leaf comes from the layer of the highest precedence that sets it, and
      of layers with that precedence from the one added last. */
  lemma WinnerIsHighest(layers: seq<Layer>, h: Heap, q: Path, winner: Layer, other: Layer)
    requires Distinct(Order(layers)) && winner in layers && other in layers && !winner.disabled && !other.disabled
    requires TopId(h, Order(layers), q) == Some(winner.document) && ScalarAt(h, other.document, q).Some?
    ensures other.rank <= winner.rank
    ensures other.rank == winner.rank ==> !Before(layers, winner, other)
  {
    if winner.rank < other.rank || (winner.rank == other.rank && Before(layers, winner, other)) {
      ByRankKeepsBefore(layers, winner, other);
      EnabledKeepsBefore(ByRank(layers), winner, other);
      TopIdIsLast(h, Order(layers), q, winner.document, other.document);
    }
  }
}
