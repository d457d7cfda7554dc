/** A stack of configuration layers and its merge: `Stack` of `configlayer/layer.go`, over
    documents that have just been read and share nothing. */
module ConfigStack {
  import opened Options
  import opened ConfigChain
  import opened ConfigLayer
  import opened ConfigPaths

  // ---- Documents that have just been read -------------------------------------------

  /** Every object of a document is its own, and every path begins at its root. */
  ghost predicate Separate(h: Heap) {
    && (forall c :: c in h ==> c.1 != [] && (h[c].Object? ==> h[c].owner == c.0))
    && (forall c {:trigger HasParent(h, c)} :: c in h ==> HasParent(h, c))
  }

  predicate HasParent(h: Heap, c: (nat, Path)) { |c.1| > 1 ==> At(h, c.0, c.1[..|c.1| - 1]) == Some(Object(c.0)) }

  /** Two layers disagree about a path: an object in one, another value in the other. */
  ghost predicate Disagree(h: Heap, i: nat, j: nat, q: Path) {
    At(h, i, q).Some? && At(h, j, q).Some? && At(h, i, q).value.Object? != At(h, j, q).value.Object?
  }

  /** The same owners as far as the path is concerned: nobody else owns a document. */
  ghost predicate NewRoot(h: Heap, root: nat) { forall q: Path :: At(h, root, q).None? }

  // ---- Documents that are linked ----------------------------------------------------

  ghost predicate Closed(h: Heap, us: set<nat>) {
    forall o: nat, q: Path {:trigger At(h, o, q)} ::
        o in us && At(h, o, q).Some? && At(h, o, q).value.Object? ==> At(h, o, q).value.owner in us
  }

  ghost predicate SameKinds(h: Heap, us: set<nat>) {
    forall o: nat, x: nat, q: Path {:trigger At(h, o, q), At(h, x, q)} ::
      o in us && x in us && At(h, o, q).Some? && At(h, x, q).Some? ==>
        At(h, o, q).value.Object? == At(h, x, q).value.Object?
  }

  lemma {:induction false} NoClash(h: Heap, us: set<nat>, t: nat, d: nat, q: Path, j: nat)
    requires Closed(h, us) && SameKinds(h, us) && t in us && d in us
    ensures !Clash(h, t, d, q, j)
    decreases |q| - j
  {
    if j < |q| {
      var a, b := At(h, t, q[..j + 1]), At(h, d, q[..j + 1]);
      if BothObjects(a, b) { NoClash(h, us, a.value.owner, b.value.owner, q, j + 1); }
    }
  }

  /** A merge within some documents copies their cells and writes to their cells. */
  lemma {:induction false} CellWithin(h: Heap, us: set<nat>, t: nat, d: nat, q: Path, j: nat, o: nat)
    requires Closed(h, us) && t in us && d in us && j < |q|
    ensures var v := Cell(h, t, d, q, j, o);
            v == At(h, o, q) || (o in us && exists x: nat :: x in us && v == At(h, x, q))
    decreases |q| - j
  {
    var a, b := At(h, t, q[..j + 1]), At(h, d, q[..j + 1]);
    if BothObjects(a, b) {
      if j + 1 < |q| { CellWithin(h, us, a.value.owner, b.value.owner, q, j + 1, o); }
    } else if j + 1 == |q| {
      assert q[..j + 1] == q;
    }
  }

  lemma MergedCell(
    h: Heap, prov: map<Path, nat>, g: Heap, got: map<Path, nat>, us: set<nat>, t: nat, d: nat, source: nat, o: nat,
        q: Path)
    requires MergedBut(h, prov, g, got, t, d, [], source, {}) && Closed(h, us) && t in us && d in us
    ensures At(g, o, q) == At(h, o, q) || (o in us && exists x: nat :: x in us && At(g, o, q) == At(h, x, q))
  {
    if q != [] {
      assert At(g, o, q) == Cell(h, t, d, q, 0, o);
      CellWithin(h, us, t, d, q, 0, o);
    }
  }

  lemma MergeStaysWithin(
    h: Heap, prov: map<Path, nat>, g: Heap, got: map<Path, nat>, us: set<nat>, t: nat, d: nat, source: nat)
    requires MergedBut(h, prov, g, got, t, d, [], source, {}) && Closed(h, us) && t in us && d in us
    ensures Closed(g, us)
    ensures forall o: nat, q: Path {:trigger At(g, o, q)} :: o !in us ==> At(g, o, q) == At(h, o, q)
    ensures SameKinds(h, us) ==> SameKinds(g, us)
  {
    forall o: nat, q: Path {:trigger At(g, o, q)}
      ensures At(g, o, q) == At(h, o, q) || (o in us && exists x: nat :: x in us && At(g, o, q) == At(h, x, q))
    {
      MergedCell(h, prov, g, got, us, t, d, source, o, q);
    }
    if SameKinds(h, us) {
      forall o: nat, x: nat, q: Path {:trigger At(g, o, q), At(g, x, q)} | o in us && x in us && At(g, o, q).Some?
          && At(g, x, q).Some?
        ensures At(g, o, q).value.Object? == At(g, x, q).value.Object?
      {
        var o' :| o' in us && At(g, o, q) == At(h, o', q);
        var x' :| x' in us && At(g, x, q) == At(h, x', q);
      }
    }
  }

  // ---- What a document shows --------------------------------------------------------

  /** The value a document has at a path, followed through its objects. */
  function Show(h: Heap, o: nat, q: Path, j: nat): Option<Value>
    decreases |q| - j
  {
    if j >= |q| then None
    else
      match At(h, o, q[..j + 1])
      case None => None
      case Some(v) => if j + 1 == |q| then Some(v) else if v.Object? then Show(h, v.owner, q, j + 1) else None
  }

  lemma ShowStep(h: Heap, o: nat, q: Path, j: nat)
    requires j < |q|
    ensures var v := At(h, o, q[..j + 1]);
            Show(h, o, q, j) == if v.None? || j + 1 == |q| then v
                else if v.value.Object? then Show(h, v.value.owner, q, j + 1) else None
  {
  }

  lemma {:induction false} ShowFrame(g: Heap, h: Heap, o: nat, q: Path, j: nat)
    requires forall x: nat, i: nat {:trigger At(g, x, q[..i])} {:trigger At(h, x, q[..i])} ::
             j < i <= |q| ==> At(g, x, q[..i]) == At(h, x, q[..i])
    ensures Show(g, o, q, j) == Show(h, o, q, j)
    decreases |q| - j
  {
    if j < |q| {
      assert At(g, o, q[..j + 1]) == At(h, o, q[..j + 1]);
      match At(h, o, q[..j + 1]) {
        case Some(Object(w)) => ShowFrame(g, h, w, q, j + 1);
        case _ =>
      }
    }
  }

  predicate SameKind(a: Option<Value>, b: Option<Value>) { a.Some? && b.Some? && a.value.Object? == b.value.Object? }

  /** Where target and document do not both have an object, the target shows what has been
      written there, or still what it did. */
  lemma WrittenShows(h: Heap, g: Heap, t: nat, d: nat, q: Path, j: nat)
    requires j < |q|
    requires var a, b := At(h, t, q[..j + 1]), At(h, d, q[..j + 1]);
             && !BothObjects(a, b) && (a.Some? && b.Some? ==> a.value.Object? == b.value.Object?)
             && At(g, t, q[..j + 1]) == if b.Some? then b else a
    requires forall x: nat, i: nat {:trigger At(g, x, q[..i])} {:trigger At(h, x, q[..i])} ::
             j + 1 < i <= |q| ==> At(g, x, q[..i]) == At(h, x, q[..i])
    ensures Show(h, t, q, j).Some? ==> SameKind(Show(g, t, q, j), Show(h, t, q, j))
    ensures Show(h, d, q, j).Some? ==> SameKind(Show(g, t, q, j), Show(h, d, q, j))
  {
    var a, b := At(h, t, q[..j + 1]), At(h, d, q[..j + 1]);
    ShowStep(g, t, q, j);
    ShowStep(h, t, q, j);
    ShowStep(h, d, q, j);
    if b.Some? && b.value.Object? {
      ShowFrame(g, h, b.value.owner, q, j + 1);
    } else if b.None? && a.Some? && a.value.Object? {
      ShowFrame(g, h, a.value.owner, q, j + 1);
    }
  }

  /** What the merge has made of the cells on the way to `q` behind depth `j`. */
  ghost predicate CellsFrom(h: Heap, g: Heap, t: nat, d: nat, q: Path, j: nat) {
    forall i: nat, o: nat {:trigger At(g, o, q[..i])} ::
        j < i <= |q| ==> At(g, o, q[..i]) == Cell(h, t, d, q[..i], j, o)
  }

  lemma CellsBelow(h: Heap, g: Heap, t: nat, d: nat, q: Path, j: nat)
    requires CellsFrom(h, g, t, d, q, j) && j < |q|
    ensures var a, b := At(h, t, q[..j + 1]), At(h, d, q[..j + 1]);
            if BothObjects(a, b) then At(g, t, q[..j + 1]) == a
                && CellsFrom(h, g, a.value.owner, b.value.owner, q, j + 1)
            else && At(g, t, q[..j + 1]) == (if b.Some? then b else a)
                 && forall x: nat, i: nat {:trigger At(g, x, q[..i])} ::
                    j + 1 < i <= |q| ==> At(g, x, q[..i]) == At(h, x, q[..i])
  {
    var p := q[..j + 1];
    assert p[..j + 1] == p;
    assert At(g, t, q[..j + 1]) == Cell(h, t, d, p, j, t);
    forall i: nat, o: nat {:trigger At(g, o, q[..i])} | j + 1 < i <= |q|
      ensures var a, b := At(h, t, p), At(h, d, p);
              At(g, o, q[..i]) == if BothObjects(a, b) then Cell(h, a.value.owner, b.value.owner, q[..i], j + 1, o)
                  else At(h, o, q[..i])
    {
      assert q[..i][..j + 1] == p;
      assert At(g, o, q[..i]) == Cell(h, t, d, q[..i], j, o);
    }
  }

  /** After a merge without a clash the target shows what it or the document showed, an
      object for an object. */
  lemma {:induction false} MergeShows(h: Heap, g: Heap, t: nat, d: nat, q: Path, j: nat)
    requires CellsFrom(h, g, t, d, q, j) && !Clash(h, t, d, q, j)
    ensures Show(h, t, q, j).Some? ==> SameKind(Show(g, t, q, j), Show(h, t, q, j))
    ensures Show(h, d, q, j).Some? ==> SameKind(Show(g, t, q, j), Show(h, d, q, j))
    decreases |q| - j
  {
    if j < |q| {
      var a, b := At(h, t, q[..j + 1]), At(h, d, q[..j + 1]);
      CellsBelow(h, g, t, d, q, j);
      if BothObjects(a, b) {
        MergeShows(h, g, a.value.owner, b.value.owner, q, j + 1);
        ShowStep(g, t, q, j);
        ShowStep(h, t, q, j);
        ShowStep(h, d, q, j);
      } else {
        WrittenShows(h, g, t, d, q, j);
      }
    }
  }

  lemma {:induction false} SeparateShows(h: Heap, h0: Heap, d: nat, q: Path, j: nat)
    requires Separate(h0) && (forall p: Path {:trigger At(h, d, p)} :: At(h, d, p) == At(h0, d, p)) && j < |q|
    ensures At(h0, d, q).Some? ==> Show(h, d, q, j) == At(h0, d, q)
    decreases |q| - j
  {
    assert At(h, d, q[..j + 1]) == At(h0, d, q[..j + 1]);
    if At(h0, d, q).Some? {
      ParentsAreThere(h0, d, q, j + 1);
      if j + 1 < |q| { SeparateShows(h, h0, d, q, j + 1); } else { assert q[..j + 1] == q; }
    }
  }

  lemma {:induction false} ParentsAreThere(h: Heap, d: nat, q: Path, i: nat)
    requires Separate(h) && At(h, d, q).Some? && 1 <= i <= |q|
    ensures i < |q| ==> At(h, d, q[..i]) == Some(Object(d))
    ensures i == |q| ==> q[..i] == q
    decreases |q| - i
  {
    if i < |q| {
      assert HasParent(h, (d, q));
      var parent := q[..|q| - 1];
      assert At(h, d, parent) == Some(Object(d));
      if i < |q| - 1 {
        ParentsAreThere(h, d, parent, i);
        assert parent[..i] == q[..i];
      } else {
        assert parent == q[..i];
      }
    }
  }

  // ---- The layers merged so far -----------------------------------------------------

  function Us(root: nat, done: seq<nat>): set<nat> { {root} + set d | d in done }

  /** Along every path that is shaped, the chain of the layers has been walked. */
  ghost predicate Walked(h0: Heap, root: nat, done: seq<nat>, h: Heap) {
    forall q: Path {:trigger ChainOf(h0, q)} :: q != [] && Shaped(h0, q) ==>
      Shaped(h, q) && Shows(MergeAll(ChainOf(h0, q), root, done, |q| - 1), h, q)
  }

  /** Only the new root and the layers merged so far have been written to. */
  ghost predicate Kept(h0: Heap, root: nat, done: seq<nat>, h: Heap) {
    && Closed(h, Us(root, done))
    && forall o: nat, q: Path {:trigger At(h, o, q)} :: o !in Us(root, done) ==> At(h, o, q) == At(h0, o, q)
  }

  /** The root shows every path of these layers, with the kind it has there. */
  ghost predicate ShowsKinds(h0: Heap, root: nat, done: seq<nat>, h: Heap) {
    forall d: nat, q: Path {:trigger At(h0, d, q)} ::
        d in done && At(h0, d, q).Some? ==> SameKind(Show(h, root, q, 0), At(h0, d, q))
  }

  /** No value comes from nowhere. */
  ghost predicate Copied(h0: Heap, root: nat, done: seq<nat>, h: Heap) {
    forall o: nat, q: Path {:trigger At(h, o, q)} :: o in Us(root, done) && At(h, o, q).Some? ==>
      exists x: nat :: x in done && At(h0, x, q) == At(h, o, q)
  }

  /** The last of some layers that has the leaf. */
  function TopId(h0: Heap, order: seq<nat>, q: Path): Option<nat> {
    if order == [] then None
    else
      var last := order[|order| - 1];
      if ScalarAt(h0, last, q).Some? then Some(last) else TopId(h0, order[..|order| - 1], q)
  }

  ghost predicate Attributed(h0: Heap, done: seq<nat>, prov: map<Path, nat>) {
    forall q: Path {:trigger SourceOf(prov, q)} :: q != [] && Shaped(h0, q) ==> SourceOf(prov, q) == TopId(h0, done, q)
  }

  ghost predicate Progress(h0: Heap, root: nat, done: seq<nat>, h: Heap, prov: map<Path, nat>) {
    && Walked(h0, root, done, h) && Kept(h0, root, done, h) && ShowsKinds(h0, root, done, h)
    && Copied(h0, root, done, h) && Attributed(h0, done, prov)
  }

  lemma ProgressBegins(h0: Heap, root: nat)
    requires NewRoot(h0, root)
    ensures Progress(h0, root, [], h0, map[])
  {
    forall q: Path {:trigger ChainOf(h0, q)} | q != [] && Shaped(h0, q)
      ensures Shows(MergeAll(ChainOf(h0, q), root, [], |q| - 1), h0, q)
    {
      ChainShows(h0, q);
    }
  }

  lemma WalkedStep(
    h0: Heap, root: nat, done: seq<nat>, h: Heap, prov: map<Path, nat>, d: nat, g: Heap, got: map<Path, nat>)
    requires Walked(h0, root, done, h) && MergedBut(h, prov, g, got, root, d, [], d, {})
    ensures Walked(h0, root, done + [d], g)
  {
    forall q: Path {:trigger ChainOf(h0, q)} | q != [] && Shaped(h0, q)
      ensures Shaped(g, q) && Shows(MergeAll(ChainOf(h0, q), root, done + [d], |q| - 1), g, q)
    {
      MergeShapes(h, prov, g, got, root, d, d, q);
      MergeWalks(MergeAll(ChainOf(h0, q), root, done, |q| - 1), h, prov, g, got, root, d, d, q);
      assert (done + [d])[..|done|] == done;
    }
  }

  /** With the next layer, which still owns its objects, the documents are closed. */
  lemma KeptAndNext(h0: Heap, root: nat, done: seq<nat>, h: Heap, d: nat)
    requires Kept(h0, root, done, h) && Separate(h0) && d !in Us(root, done)
    ensures Closed(h, Us(root, done + [d])) && Us(root, done + [d]) == Us(root, done) + {d}
  {
    var us := Us(root, done + [d]);
    assert us == Us(root, done) + {d};
    forall o: nat, q: Path {:trigger At(h, o, q)} | o in us && At(h, o, q).Some? && At(h, o, q).value.Object?
      ensures At(h, o, q).value.owner in us
    {
      if o == d { assert At(h, d, q) == At(h0, d, q) && (d, q) in h0; }
    }
  }

  lemma KeptStep(
    h0: Heap, root: nat, done: seq<nat>, h: Heap, prov: map<Path, nat>, d: nat, g: Heap, got: map<Path, nat>)
    requires Kept(h0, root, done, h) && MergedBut(h, prov, g, got, root, d, [], d, {}) && Separate(h0)
             && d !in Us(root, done)
    ensures Kept(h0, root, done + [d], g)
  {
    var us := Us(root, done + [d]);
    KeptAndNext(h0, root, done, h, d);
    MergeStaysWithin(h, prov, g, got, us, root, d, d);
    forall o: nat, q: Path {:trigger At(g, o, q)} | o !in us
      ensures At(g, o, q) == At(h0, o, q)
    {
      assert At(g, o, q) == At(h, o, q);
    }
  }

  lemma KindsStep(
    h0: Heap, root: nat, done: seq<nat>, h: Heap, prov: map<Path, nat>, d: nat, g: Heap, got: map<Path, nat>)
    requires ShowsKinds(h0, root, done, h) && Kept(h0, root, done, h) && Separate(h0) && d !in Us(root, done)
    requires MergedBut(h, prov, g, got, root, d, [], d, {})
    ensures ShowsKinds(h0, root, done + [d], g)
    ensures forall e: nat, q: Path ::
            e in done && At(h0, e, q).Some? && At(h0, d, q).Some? ==> SameKind(At(h0, e, q), At(h0, d, q))
  {
    forall q: Path | q != []
      ensures Show(h, root, q, 0).Some? ==> SameKind(Show(g, root, q, 0), Show(h, root, q, 0))
      ensures At(h0, d, q).Some? ==> SameKind(Show(g, root, q, 0), At(h0, d, q))
    {
      forall i: nat, o: nat {:trigger At(g, o, q[..i])} | 0 < i <= |q|
        ensures At(g, o, q[..i]) == Cell(h, root, d, q[..i], 0, o)
      {
      }
      var top: Path := [];
      assert !Clash(h, root, d, q, |top|);
      MergeShows(h, g, root, d, q, 0);
      SeparateShows(h, h0, d, q, 0);
    }
    forall e: nat, q: Path {:trigger At(h0, e, q)} | At(h0, e, q).Some?
      ensures q != []
    {
      assert (e, q) in h0;
    }
  }

  lemma CopiedStep(
    h0: Heap, root: nat, done: seq<nat>, h: Heap, prov: map<Path, nat>, d: nat, g: Heap, got: map<Path, nat>)
    requires Copied(h0, root, done, h) && Kept(h0, root, done, h) && Separate(h0) && d !in Us(root, done)
    requires MergedBut(h, prov, g, got, root, d, [], d, {})
    ensures Copied(h0, root, done + [d], g)
  {
    var us := Us(root, done + [d]);
    KeptAndNext(h0, root, done, h, d);
    forall o: nat, q: Path {:trigger At(g, o, q)} | o in us && At(g, o, q).Some?
      ensures exists x: nat :: x in done + [d] && At(h0, x, q) == At(g, o, q)
    {
      MergedCell(h, prov, g, got, us, root, d, d, o, q);
      var y: nat :| y in us && At(g, o, q) == At(h, y, q);
      if y in Us(root, done) {
        var x: nat :| x in done && At(h0, x, q) == At(h, y, q);
        assert x in done + [d];
      } else {
        assert d in done + [d] && At(h0, d, q) == At(g, o, q);
      }
    }
  }

  /** A layer that owns its objects is credited for exactly the leaves it has. */
  lemma {:induction false} RecordsOwn(h: Heap, h0: Heap, t: nat, d: nat, q: Path, j: nat)
    requires Separate(h0) && (forall p: Path {:trigger At(h, d, p)} :: At(h, d, p) == At(h0, d, p))
    requires Shaped(h, q) && j < |q|
    ensures Defines(h, d, q, j) <==> At(h0, d, q).Some?
    ensures Records(h, t, d, q, j) <==> At(h0, d, q).Some?
    decreases |q| - j
  {
    var a, b := At(h, t, q[..j + 1]), At(h, d, q[..j + 1]);
    assert b == At(h0, d, q[..j + 1]) && At(h, d, q) == At(h0, d, q);
    if At(h0, d, q).Some? { ParentsAreThere(h0, d, q, j + 1); }
    if j + 1 == |q| {
      assert q[..j + 1] == q;
    } else if b.Some? {
      assert (d, q[..j + 1]) in h0;
      RecordsOwn(h, h0, if a.Some? && a.value.Object? then a.value.owner else 0, d, q, j + 1);
    }
  }

  lemma AttributedStep(
    h0: Heap, root: nat, done: seq<nat>, h: Heap, prov: map<Path, nat>, d: nat, g: Heap, got: map<Path, nat>)
    requires Attributed(h0, done, prov) && Walked(h0, root, done, h) && Kept(h0, root, done, h) && Separate(h0)
    requires MergedBut(h, prov, g, got, root, d, [], d, {}) && d !in Us(root, done)
    ensures Attributed(h0, done + [d], got)
  {
    forall q: Path {:trigger SourceOf(got, q)} | q != [] && Shaped(h0, q)
      ensures SourceOf(got, q) == TopId(h0, done + [d], q)
    {
      var c := ChainOf(h0, q);
      assert (done + [d])[..|done|] == done;
      assert At(h, d, q) == At(h0, d, q);
      RecordsOwn(h, h0, root, d, q, 0);
    }
  }

  lemma ProgressStep(
    h0: Heap, root: nat, done: seq<nat>, h: Heap, prov: map<Path, nat>, d: nat, g: Heap, got: map<Path, nat>)
    requires Progress(h0, root, done, h, prov) && Separate(h0) && d !in Us(root, done)
    requires MergedBut(h, prov, g, got, root, d, [], d, {})
    ensures Progress(h0, root, done + [d], g, got)
    ensures forall e: nat :: e in done ==> !exists q: Path :: Disagree(h0, e, d, q)
  {
    WalkedStep(h0, root, done, h, prov, d, g, got);
    KeptStep(h0, root, done, h, prov, d, g, got);
    KindsStep(h0, root, done, h, prov, d, g, got);
    CopiedStep(h0, root, done, h, prov, d, g, got);
    AttributedStep(h0, root, done, h, prov, d, g, got);
  }
}
