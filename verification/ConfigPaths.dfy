/** From documents on a heap to one key path: what `ConfigLayer.MergedBut` says of the cells
    along a path is what `ConfigChain.Walk` does. */
module ConfigPaths {
  import opened Options
  import opened ConfigChain
  import opened ConfigLayer

  /** On the way to `q` there are only objects, and at `q` only other values. */
  ghost predicate Shaped(h: Heap, q: Path) {
    && q != []
    && (forall o: nat, i: nat :: 1 <= i < |q| && At(h, o, q[..i]).Some? ==> At(h, o, q[..i]).value.Object?)
    && (forall o: nat :: At(h, o, q).Some? ==> At(h, o, q).value.Scalar?)
  }

  function OwnerOf(v: Option<Value>): Option<nat> {
    match v
    case Some(Object(owner)) => Some(owner)
    case _ => None
  }

  function ScalarOf(v: Option<Value>): Option<int> {
    match v
    case Some(Scalar(x)) => Some(x)
    case _ => None
  }

  function OwnerAt(h: Heap, o: nat, q: Path): Option<nat> { OwnerOf(At(h, o, q)) }

  function ScalarAt(h: Heap, o: nat, q: Path): Option<int> { ScalarOf(At(h, o, q)) }

  /** The chain of the path shows the cells of the heap. */
  ghost predicate Shows(c: Chain<nat>, h: Heap, q: Path) {
    && q != []
    && (forall o: nat, j: nat {:trigger Next(c, o, j)} :: j < |q| - 1 ==> Next(c, o, j) == OwnerAt(h, o, q[..j + 1]))
    && (forall o: nat {:trigger Leaf(c, o)} :: Leaf(c, o) == ScalarAt(h, o, q))
  }

  // ---- There is such a chain --------------------------------------------------------

  function Link(cell: (nat, Path)): (nat, nat) { (cell.0, if cell.1 == [] then 0 else |cell.1| - 1) }

  function Links(h: Heap, q: Path): (links: set<(nat, nat)>)
    requires q != []
    ensures forall o: nat, j: nat :: (o, j) in links <==> j < |q| - 1 && OwnerAt(h, o, q[..j + 1]).Some?
  {
    var cells := set c | c in h.Keys && 1 <= |c.1| < |q| && c.1 <= q && h[c].Object?;
    var links := set c | c in cells :: Link(c);
    assert forall o: nat, j: nat :: j < |q| - 1 && OwnerAt(h, o, q[..j + 1]).Some? ==> (o, j) in links by {
      forall o: nat, j: nat | j < |q| - 1 && OwnerAt(h, o, q[..j + 1]).Some?
        ensures (o, j) in links
      {
        assert (o, q[..j + 1]) in cells && Link((o, q[..j + 1])) == (o, j);
      }
    }
    assert forall c :: c in cells ==> c.1 == q[..Link(c).1 + 1];
    links
  }

  function ChainOf(h: Heap, q: Path): Chain<nat>
    requires q != []
  {
    Chain(map link | link in Links(h, q) :: OwnerAt(h, link.0, q[..link.1 + 1]).value,
          map c | c in h.Keys && c.1 == q && h[c].Scalar? :: c.0 := h[c].value)
  }

  lemma ChainShows(h: Heap, q: Path)
    requires q != []
    ensures Shows(ChainOf(h, q), h, q)
  {
    var c := ChainOf(h, q);
    forall o: nat {:trigger Leaf(c, o)}
      ensures Leaf(c, o) == ScalarAt(h, o, q)
    {
      var cell := (o, q);
      if cell in h && h[cell].Scalar? { assert cell.0 in c.leaf; }
    }
  }

  // ---- A merge is a walk ------------------------------------------------------------

  /** A walk from depth `j` on leaves the links above as they are. */
  lemma {:induction false} WalkBelow(c: Chain<nat>, t: nat, d: nat, j: nat, m: nat, o: nat, i: nat)
    requires i < j
    ensures Next(Walk(c, t, d, j, m), o, i) == Next(c, o, i)
    decreases m - j
  {
    if j < m && Next(c, d, j).Some? && Next(c, t, j).Some? {
      WalkBelow(c, Next(c, t, j).value, Next(c, d, j).value, j + 1, m, o, i);
    }
  }

  lemma {:induction false} WalkIsCell(c: Chain<nat>, h: Heap, q: Path, t: nat, d: nat, j: nat, o: nat, i: nat)
    requires Shaped(h, q) && Shows(c, h, q) && j <= i < |q|
    ensures i < |q| - 1 ==> Next(Walk(c, t, d, j, |q| - 1), o, i) == OwnerOf(Cell(h, t, d, q[..i + 1], j, o))
    ensures i == |q| - 1 ==> Leaf(Walk(c, t, d, j, |q| - 1), o) == ScalarOf(Cell(h, t, d, q, j, o))
    decreases i - j
  {
    var m, p := |q| - 1, q[..i + 1];
    assert p[..j + 1] == q[..j + 1];
    assert i == m ==> p == q;
    var a, b := At(h, t, q[..j + 1]), At(h, d, q[..j + 1]);
    if i < m { assert Next(c, o, i) == OwnerAt(h, o, p); }
    assert Leaf(c, o) == ScalarAt(h, o, q);
    if j < m {
      assert Next(c, d, j) == OwnerAt(h, d, q[..j + 1]) && Next(c, t, j) == OwnerAt(h, t, q[..j + 1]);
      if BothObjects(a, b) {
        if j < i {
          WalkIsCell(c, h, q, a.value.owner, b.value.owner, j + 1, o, i);
        } else {
          WalkBelow(c, a.value.owner, b.value.owner, j + 1, m, o, i);
        }
      } else {
        var w := Walk(c, t, d, j, m);
        assert Next(w, o, i) == if b.Some? && o == t && i == j then OwnerOf(b) else Next(c, o, i);
        assert Leaf(w, o) == Leaf(c, o);
      }
    } else {
      assert q[..j + 1] == q && Leaf(c, d) == ScalarAt(h, d, q);
    }
  }

  /** After a merge the chain of each path has been walked. */
  lemma MergeWalks(c: Chain<nat>, h: Heap, prov: map<Path, nat>, g: Heap, got: map<Path, nat>, t: nat, d: nat,
      source: nat, q: Path)
    requires MergedBut(h, prov, g, got, t, d, [], source, {}) && Shaped(h, q) && Shows(c, h, q)
    ensures Shows(Walk(c, t, d, 0, |q| - 1), g, q)
  {
    var w := Walk(c, t, d, 0, |q| - 1);
    forall o: nat, j: nat {:trigger Next(w, o, j)} | j < |q| - 1
      ensures Next(w, o, j) == OwnerAt(g, o, q[..j + 1])
    {
      WalkIsCell(c, h, q, t, d, 0, o, j);
      assert At(g, o, q[..j + 1]) == Cell(h, t, d, q[..j + 1], 0, o);
    }
    forall o: nat {:trigger Leaf(w, o)}
      ensures Leaf(w, o) == ScalarAt(g, o, q)
    {
      WalkIsCell(c, h, q, t, d, 0, o, |q| - 1);
      assert At(g, o, q) == Cell(h, t, d, q, 0, o);
    }
  }

  /** A cell gets its value from a cell at the same path. */
  lemma {:induction false} CellIsCopied(h: Heap, t: nat, d: nat, q: Path, j: nat, o: nat)
    requires j < |q|
    ensures var v := Cell(h, t, d, q, j, o); v == At(h, o, q) || exists x: nat :: v == At(h, x, q)
    decreases |q| - j
  {
    var a, b := At(h, t, q[..j + 1]), At(h, d, q[..j + 1]);
    if BothObjects(a, b) {
      if j + 1 < |q| { CellIsCopied(h, a.value.owner, b.value.owner, q, j + 1, o); }
    } else if j + 1 == |q| {
      assert q[..j + 1] == q;
    }
  }

  lemma MergeShapes(h: Heap, prov: map<Path, nat>, g: Heap, got: map<Path, nat>, t: nat, d: nat, source: nat, q: Path)
    requires MergedBut(h, prov, g, got, t, d, [], source, {}) && Shaped(h, q)
    ensures Shaped(g, q)
  {
    forall o: nat, i: nat | 1 <= i < |q| && At(g, o, q[..i]).Some?
      ensures At(g, o, q[..i]).value.Object?
    {
      CellIsCopied(h, t, d, q[..i], 0, o);
    }
    forall o: nat | At(g, o, q).Some?
      ensures At(g, o, q).value.Scalar?
    {
      CellIsCopied(h, t, d, q, 0, o);
    }
  }
}
