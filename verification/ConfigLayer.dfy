/** Layered configuration documents: `configlayer/layer.go`. Documents are maps that may be
    shared, so they live on a heap: the entry for key `k` of the object that owner `o` has
    at path `q` is the cell `(o, q + [k])`. Owners are the documents that were read and the
    documents being merged. */
module ConfigLayer {
  import opened Options

  type Path = seq<string>

  datatype Value = Scalar(value: int) | Object(owner: nat)

  type Heap = map<(nat, Path), Value>

  function At(h: Heap, o: nat, q: Path): Option<Value> { if (o, q) in h then Some(h[(o, q)]) else None }

  predicate BothObjects(a: Option<Value>, b: Option<Value>) { a.Some? && a.value.Object? && b.Some? && b.value.Object? }

  // ---- What merging does along one path ---------------------------------------------

  /** Target and document have different shapes somewhere on the path. */
  predicate Clash(h: Heap, target: nat, document: nat, q: Path, j: nat)
    decreases |q| - j
  {
    && j < |q|
    && var a, b := At(h, target, q[..j + 1]), At(h, document, q[..j + 1]);
       if BothObjects(a, b) then Clash(h, a.value.owner, b.value.owner, q, j + 1)
       else a.Some? && b.Some? && a.value.Object? != b.value.Object?
  }

  /** The cell `(o, q)` after a merge without a clash. */
  function Cell(h: Heap, target: nat, document: nat, q: Path, j: nat, o: nat): Option<Value>
    decreases |q| - j
  {
    if j >= |q| then At(h, o, q)
    else
      var a, b := At(h, target, q[..j + 1]), At(h, document, q[..j + 1]);
      if BothObjects(a, b) then Cell(h, a.value.owner, b.value.owner, q, j + 1, o)
      else if j + 1 == |q| && o == target && b.Some? then b
      else At(h, o, q)
  }

  /** A document has a value at a path. */
  predicate Defines(h: Heap, document: nat, q: Path, j: nat)
    decreases |q| - j
  {
    && j < |q|
    && var b := At(h, document, q[..j + 1]);
       b.Some? && (j + 1 == |q| || (b.value.Object? && Defines(h, b.value.owner, q, j + 1)))
  }

  /** The merge attributes the path to the document: its value has been set there, alone
      or within an object that was taken over. */
  predicate Records(h: Heap, target: nat, document: nat, q: Path, j: nat)
    decreases |q| - j
  {
    && j < |q|
    && var a, b := At(h, target, q[..j + 1]), At(h, document, q[..j + 1]);
       if BothObjects(a, b) then Records(h, a.value.owner, b.value.owner, q, j + 1) else Defines(h, document, q, j)
  }

  // ---- Two heaps that agree below a path --------------------------------------------

  ghost predicate AgreeBelow(g: Heap, h: Heap, prefix: Path) {
    forall o: nat, q: Path {:trigger At(g, o, q)} {:trigger At(h, o, q)} :: prefix < q ==> At(g, o, q) == At(h, o, q)
  }

  lemma PrefixOfBelow(q: Path, prefix: Path, i: nat)
    requires prefix < q && |prefix| < i <= |q|
    ensures prefix < q[..i]
  {
  }

  lemma {:induction false} MergeFrame(g: Heap, h: Heap, prefix: Path, t: nat, d: nat, q: Path, j: nat, o: nat)
    requires AgreeBelow(g, h, prefix) && prefix < q && |prefix| <= j <= |q|
    ensures Clash(g, t, d, q, j) == Clash(h, t, d, q, j)
    ensures Cell(g, t, d, q, j, o) == Cell(h, t, d, q, j, o)
    ensures Records(g, t, d, q, j) == Records(h, t, d, q, j)
    ensures Defines(g, d, q, j) == Defines(h, d, q, j)
    decreases |q| - j
  {
    if j < |q| {
      PrefixOfBelow(q, prefix, j + 1);
      var a, b := At(g, t, q[..j + 1]), At(g, d, q[..j + 1]);
      assert a == At(h, t, q[..j + 1]) && b == At(h, d, q[..j + 1]);
      if BothObjects(a, b) { MergeFrame(g, h, prefix, a.value.owner, b.value.owner, q, j + 1, o); }
      if b.Some? && b.value.Object? { MergeFrame(g, h, prefix, t, b.value.owner, q, j + 1, o); }
    }
  }

  // ---- The merge --------------------------------------------------------------------

  /** The keys of an object. */
  function Keys(h: Heap, o: nat, prefix: Path): (keys: set<string>)
    ensures forall k :: k in keys <==> (o, prefix + [k]) in h
  {
    var keys := set c | c in h.Keys && c.0 == o && |c.1| == |prefix| + 1 && c.1[..|prefix|] == prefix :: c.1[|prefix|];
    assert forall k :: (o, prefix + [k]) in h ==> k in keys by {
      forall k | (o, prefix + [k]) in h
        ensures k in keys
      {
        var c := (o, prefix + [k]);
        assert c in h.Keys && c.1[..|prefix|] == prefix && c.1[|prefix|] == k;
      }
    }
    assert forall c :: c in h.Keys && c.0 == o && |c.1| == |prefix| + 1 && c.1[..|prefix|] == prefix ==>
        c.1 == prefix + [c.1[|prefix|]];
    keys
  }

  predicate Bounded(h: Heap, bound: nat) { forall c :: c in h ==> |c.1| <= bound }

  function SourceOf(prov: map<Path, nat>, q: Path): Option<nat> { if q in prov then Some(prov[q]) else None }

  /** From `h` and `prov`, the merge of all keys of an object but those in `todo` has made
      `g` and `got`: their cells are merged and attributed, all others are untouched. */
  ghost predicate MergedBut(
    h: Heap, prov: map<Path, nat>, g: Heap, got: map<Path, nat>,
    target: nat, document: nat, prefix: Path, source: nat, todo: set<string>)
  {
    && (forall o: nat, q: Path {:trigger At(g, o, q)} ::
          At(g, o, q) == if prefix < q && q[|prefix|] !in todo then Cell(h, target, document, q, |prefix|, o)
              else At(h, o, q))
    && (forall q: Path {:trigger SourceOf(got, q)} ::
          SourceOf(got, q) == if prefix < q && q[|prefix|] !in todo && Records(h, target, document, q, |prefix|)
                              then Some(source) else SourceOf(prov, q))
    && (forall q: Path {:trigger Clash(h, target, document, q, |prefix|)} ::
          prefix < q && q[|prefix|] !in todo ==> !Clash(h, target, document, q, |prefix|))
  }

  /** Keys the document does not have are not touched. */
  lemma Untouched(h: Heap, prov: map<Path, nat>, target: nat, document: nat, prefix: Path, source: nat)
    ensures MergedBut(h, prov, h, prov, target, document, prefix, source, Keys(h, document, prefix))
  {
    forall q | prefix < q && q[|prefix|] !in Keys(h, document, prefix)
      ensures At(h, document, q[..|prefix| + 1]).None?
    {
      assert q[..|prefix| + 1] == prefix + [q[|prefix|]];
    }
  }

  lemma StillThere(
    h: Heap, prov: map<Path, nat>, g: Heap, got: map<Path, nat>,
    target: nat, document: nat, prefix: Path, source: nat, todo: set<string>, key: string)
    requires MergedBut(h, prov, g, got, target, document, prefix, source, todo) && key in todo
    ensures AgreeBelow(g, h, prefix + [key])
    ensures forall o: nat, q: Path :: prefix + [key] <= q ==> At(g, o, q) == At(h, o, q)
    ensures forall q: Path :: prefix + [key] <= q ==> SourceOf(got, q) == SourceOf(prov, q)
  {
    forall q: Path | prefix + [key] <= q
      ensures prefix < q && q[|prefix|] == key
    {
    }
  }

  /** Where a path goes on below a key. */
  lemma BelowKey(q: Path, prefix: Path, key: string)
    requires prefix < q
    ensures q[|prefix|] == key <==> prefix + [key] <= q
    ensures q[|prefix|] == key ==> q[..|prefix| + 1] == prefix + [key]
  {
  }

  /** One path of `MergedBut`. */
  ghost predicate PathDone(
    h: Heap, prov: map<Path, nat>, g: Heap, got: map<Path, nat>,
    target: nat, document: nat, prefix: Path, source: nat, todo: set<string>, o: nat, q: Path)
  {
    var settled := prefix < q && q[|prefix|] !in todo;
    && At(g, o, q) == (if settled then Cell(h, target, document, q, |prefix|, o) else At(h, o, q))
    && SourceOf(got, q) == (if settled && Records(h, target, document, q, |prefix|) then Some(source)
       else SourceOf(prov, q))
    && (settled ==> !Clash(h, target, document, q, |prefix|))
  }

  lemma PathsDone(
    h: Heap, prov: map<Path, nat>, g: Heap, got: map<Path, nat>,
    target: nat, document: nat, prefix: Path, source: nat, todo: set<string>)
    requires forall o: nat, q: Path :: PathDone(h, prov, g, got, target, document, prefix, source, todo, o, q)
    ensures MergedBut(h, prov, g, got, target, document, prefix, source, todo)
  {
    forall o: nat, q: Path {:trigger At(g, o, q)}
      ensures At(g, o, q) == if prefix < q && q[|prefix|] !in todo then Cell(h, target, document, q, |prefix|, o)
              else At(h, o, q)
    {
      assert PathDone(h, prov, g, got, target, document, prefix, source, todo, o, q);
    }
    forall q: Path
      ensures SourceOf(got, q) == if prefix < q && q[|prefix|] !in todo && Records(h, target, document, q, |prefix|)
                                  then Some(source) else SourceOf(prov, q)
      ensures prefix < q && q[|prefix|] !in todo ==> !Clash(h, target, document, q, |prefix|)
    {
      assert PathDone(h, prov, g, got, target, document, prefix, source, todo, 0, q);
    }
  }

  lemma NestedPath(
    h: Heap, prov: map<Path, nat>, g: Heap, got: map<Path, nat>, g2: Heap, got2: map<Path, nat>,
    target: nat, document: nat, prefix: Path, source: nat, todo: set<string>, key: string, t: nat, d: nat, o: nat,
        q: Path)
    requires MergedBut(h, prov, g, got, target, document, prefix, source, todo) && key in todo
    requires MergedBut(g, got, g2, got2, t, d, prefix + [key], source, {})
    requires At(h, target, prefix + [key]) == Some(Object(t)) && At(h, document, prefix + [key]) == Some(Object(d))
    ensures PathDone(h, prov, g2, got2, target, document, prefix, source, todo - {key}, o, q)
  {
    var path := prefix + [key];
    StillThere(h, prov, g, got, target, document, prefix, source, todo, key);
    assert At(g2, o, q) == if path < q then Cell(g, t, d, q, |path|, o) else At(g, o, q);
    assert SourceOf(got2, q) == if path < q && Records(g, t, d, q, |path|) then Some(source) else SourceOf(got, q);
    if prefix < q && q[|prefix|] == key {
      BelowKey(q, prefix, key);
      if path < q {
        MergeFrame(g, h, path, t, d, q, |path|, o);
        assert !Clash(g, t, d, q, |path|);
      } else {
        assert q == path;
      }
    } else {
      assert !(path < q);
    }
  }

  /** Two objects under one key: what has been merged below the key is what merging the
      outer objects makes of it. */
  lemma NestedDone(
    h: Heap, prov: map<Path, nat>, g: Heap, got: map<Path, nat>, g2: Heap, got2: map<Path, nat>,
    target: nat, document: nat, prefix: Path, source: nat, todo: set<string>, key: string, t: nat, d: nat)
    requires MergedBut(h, prov, g, got, target, document, prefix, source, todo) && key in todo
    requires MergedBut(g, got, g2, got2, t, d, prefix + [key], source, {})
    requires At(h, target, prefix + [key]) == Some(Object(t)) && At(h, document, prefix + [key]) == Some(Object(d))
    ensures MergedBut(h, prov, g2, got2, target, document, prefix, source, todo - {key})
  {
    forall o: nat, q: Path
      ensures PathDone(h, prov, g2, got2, target, document, prefix, source, todo - {key}, o, q)
    {
      NestedPath(h, prov, g, got, g2, got2, target, document, prefix, source, todo, key, t, d, o, q);
    }
    PathsDone(h, prov, g2, got2, target, document, prefix, source, todo - {key});
  }

  /** What `recordProvenance` makes of the attributions. */
  ghost predicate Recorded(h: Heap, got: map<Path, nat>, got2: map<Path, nat>, path: Path, value: Value, source: nat) {
    forall q: Path {:trigger SourceOf(got2, q)} :: SourceOf(got2, q) ==
      if q == path || (path < q && value.Object? && Defines(h, value.owner, q, |path|)) then Some(source)
          else SourceOf(got, q)
  }

  lemma WrittenPath(
    h: Heap, prov: map<Path, nat>, g: Heap, got: map<Path, nat>, g2: Heap, got2: map<Path, nat>,
    target: nat, document: nat, prefix: Path, source: nat, todo: set<string>, key: string, value: Value, o: nat,
        q: Path)
    requires MergedBut(h, prov, g, got, target, document, prefix, source, todo) && key in todo
    requires At(h, document, prefix + [key]) == Some(value)
    requires At(h, target, prefix + [key]).Some? ==> At(h, target, prefix + [key]).value.Scalar? && value.Scalar?
    requires g2 == g[(target, prefix + [key]) := value] && Recorded(g2, got, got2, prefix + [key], value, source)
    ensures PathDone(h, prov, g2, got2, target, document, prefix, source, todo - {key}, o, q)
  {
    var path := prefix + [key];
    StillThere(h, prov, g, got, target, document, prefix, source, todo, key);
    assert At(g2, o, q) == if o == target && q == path then Some(value) else At(g, o, q);
    if prefix < q && q[|prefix|] == key {
      BelowKey(q, prefix, key);
      if path < q && value.Object? {
        assert AgreeBelow(g2, h, path);
        MergeFrame(g2, h, path, 0, value.owner, q, |path|, o);
      }
    } else {
      assert !(path <= q);
    }
  }

  /** A value that is set under a key. */
  lemma WrittenDone(
    h: Heap, prov: map<Path, nat>, g: Heap, got: map<Path, nat>, g2: Heap, got2: map<Path, nat>,
    target: nat, document: nat, prefix: Path, source: nat, todo: set<string>, key: string, value: Value)
    requires MergedBut(h, prov, g, got, target, document, prefix, source, todo) && key in todo
    requires At(h, document, prefix + [key]) == Some(value)
    requires At(h, target, prefix + [key]).Some? ==> At(h, target, prefix + [key]).value.Scalar? && value.Scalar?
    requires g2 == g[(target, prefix + [key]) := value] && Recorded(g2, got, got2, prefix + [key], value, source)
    ensures MergedBut(h, prov, g2, got2, target, document, prefix, source, todo - {key})
  {
    forall o: nat, q: Path
      ensures PathDone(h, prov, g2, got2, target, document, prefix, source, todo - {key}, o, q)
    {
      WrittenPath(h, prov, g, got, g2, got2, target, document, prefix, source, todo, key, value, o, q);
    }
    PathsDone(h, prov, g2, got2, target, document, prefix, source, todo - {key});
  }

  ghost predicate ClashBelow(h: Heap, target: nat, document: nat, prefix: Path) {
    exists q: Path :: prefix < q && Clash(h, target, document, q, |prefix|)
  }

  lemma ClashAbove(g: Heap, h: Heap, prefix: Path, key: string, target: nat, document: nat, t: nat, d: nat)
    requires AgreeBelow(g, h, prefix + [key]) && ClashBelow(g, t, d, prefix + [key])
    requires At(h, target, prefix + [key]) == Some(Object(t)) && At(h, document, prefix + [key]) == Some(Object(d))
    ensures ClashBelow(h, target, document, prefix)
  {
    var q: Path :| prefix + [key] < q && Clash(g, t, d, q, |prefix + [key]|);
    BelowKey(q, prefix, key);
    MergeFrame(g, h, prefix + [key], t, d, q, |prefix| + 1, 0);
    assert prefix < q && Clash(h, target, document, q, |prefix|);
  }

  class Documents {
    var heap: Heap
    var provenance: map<Path, nat>

    constructor (heap: Heap)
      ensures this.heap == heap && provenance == map[]
    {
      this.heap, provenance := heap, map[];
    }

    /** `recordProvenance`: the path and everything below it. */
    method RecordProvenance(path: Path, value: Value, source: nat, ghost bound: nat)
      requires Bounded(heap, bound)
      modifies this`provenance
      ensures Recorded(heap, old(provenance), provenance, path, value, source)
      decreases bound - |path|, 0
    {
      provenance := provenance[path := source];
      if value.Object? {
        var todo := Keys(heap, value.owner, path);
        ghost var all := todo;
        while todo != {}
          invariant todo <= all
          invariant forall q :: SourceOf(provenance, q) ==
                      if q == path then Some(source)
                      else if path < q && q[|path|] !in todo && Defines(heap, value.owner, q, |path|) then Some(source)
                      else SourceOf(old(provenance), q)
          decreases todo
        {
          var key :| key in todo;
          var below := path + [key];
          var nested := heap[(value.owner, below)];
          RecordProvenance(below, nested, source, bound);
          todo := todo - {key};
          forall q
            ensures SourceOf(provenance, q) ==
                      if q == path then Some(source)
                      else if path < q && q[|path|] !in todo && Defines(heap, value.owner, q, |path|) then Some(source)
                      else SourceOf(old(provenance), q)
          {
            if path < q && q[|path|] == key {
              assert q[..|path| + 1] == below;
              assert q == below || below < q;
            } else {
              assert !(below <= q);
            }
          }
        }
      }
    }

    /** `mergeInto`, the keys in any order. */
    method MergeInto(target: nat, document: nat, prefix: Path, source: nat, ghost bound: nat) returns (ok: bool)
      requires Bounded(heap, bound)
      modifies this
      ensures ok <==> !ClashBelow(old(heap), target, document, prefix)
      ensures ok ==> Bounded(heap, bound)
      ensures ok ==> MergedBut(old(heap), old(provenance), heap, provenance, target, document, prefix, source, {})
      decreases bound - |prefix|
    {
      var todo := Keys(heap, document, prefix);
      ghost var h, prov := heap, provenance;
      Untouched(h, prov, target, document, prefix, source);
      while todo != {}
        invariant Bounded(heap, bound) && todo <= Keys(h, document, prefix)
        invariant MergedBut(h, prov, heap, provenance, target, document, prefix, source, todo)
        decreases todo
      {
        var key :| key in todo;
        ghost var g, got := heap, provenance;
        var path := prefix + [key];
        StillThere(h, prov, g, got, target, document, prefix, source, todo, key);
        assert At(g, document, path) == At(h, document, path) && At(g, target, path) == At(h, target, path);
        var value := heap[(document, path)];
        assert path[..|prefix| + 1] == path;
        if (target, path) in heap && heap[(target, path)].Object? && value.Object? {
          var t, d := heap[(target, path)].owner, value.owner;
          ok := MergeInto(t, d, path, source, bound);
          if !ok {
            ClashAbove(g, h, prefix, key, target, document, t, d);
            return false;
          }
          NestedDone(h, prov, g, got, heap, provenance, target, document, prefix, source, todo, key, t, d);
        } else {
          if (target, path) in heap && heap[(target, path)].Object? != value.Object? {
            assert prefix < path && Clash(h, target, document, path, |prefix|);
            return false;
          }
          heap := heap[(target, path) := value];
          RecordProvenance(path, value, source, bound);
          WrittenDone(h, prov, g, got, heap, provenance, target, document, prefix, source, todo, key, value);
        }
        todo := todo - {key};
      }
      ok := true;
    }
  }
}
