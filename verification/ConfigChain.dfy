/** Merging configuration layers, seen along one key path: `mergeInto` of
    `configlayer/layer.go`. A path is `m` objects deep and ends in a leaf. A key that is
    missing in the target gets the very object of the document, so layers come to share
    objects; a chain says who owns which object along the path. */
module ConfigChain {
  import opened Sequences
  import opened Options

  /** The layers as they are read: how many objects of the path a layer has, and its leaf. */
  datatype Layers = Layers(depth: map<nat, nat>, leaf: map<nat, int>)

  /** Where the objects lead: `next[(o, j)]` is the owner of the object below the one that
      `o` owns at depth `j`; a leaf sits in the object of its owner at depth `m`. */
  datatype Chain<O> = Chain(next: map<(O, nat), O>, leaf: map<O, int>)

  function Next<O>(c: Chain<O>, o: O, j: nat): Option<O> { if (o, j) in c.next then Some(c.next[(o, j)]) else None }

  function Leaf<O>(c: Chain<O>, o: O): Option<int> { if o in c.leaf then Some(c.leaf[o]) else None }

  /** `mergeInto` from depth `j` on. */
  function Walk<O>(c: Chain<O>, target: O, document: O, j: nat, m: nat): Chain<O>
    decreases m - j
  {
    if j >= m then
      (match Leaf(c, document)
       case None => c
       case Some(v) => c.(leaf := c.leaf[target := v]))
    else
      match Next(c, document, j)
      case None => c
      case Some(d) =>
        match Next(c, target, j)
        case None => c.(next := c.next[(target, j) := d])
        case Some(t) => Walk(c, t, d, j + 1, m)
  }

  /** `Merge`: the layers into a new root, one after the other. */
  function MergeAll<O>(c: Chain<O>, root: O, order: seq<O>, m: nat): Chain<O>
    decreases |order|
  {
    if order == [] then c else Walk(MergeAll(c, root, order[..|order| - 1], m), root, order[|order| - 1], 0, m)
  }

  /** The leaf a root leads to. */
  function Read<O>(c: Chain<O>, o: O, j: nat, m: nat): Option<int>
    decreases m - j
  {
    if j >= m then Leaf(c, o)
    else
      match Next(c, o, j)
      case None => None
      case Some(n) => Read(c, n, j + 1, m)
  }

  // ---- What layers say --------------------------------------------------------------

  function Depth(l: Layers, i: nat): nat { if i in l.depth then l.depth[i] else 0 }

  function Own(l: Layers, i: nat): Option<int> { if i in l.leaf then Some(l.leaf[i]) else None }

  predicate Proper(l: Layers, m: nat) {
    && (forall i :: i in l.depth ==> l.depth[i] <= m)
    && (forall i :: i in l.leaf ==> i in l.depth && l.depth[i] == m)
  }

  /** The first layer with an object at depth `j`. */
  function First(l: Layers, order: seq<nat>, j: nat): Option<nat> {
    if order == [] then None
    else if Depth(l, order[0]) >= j then Some(order[0])
    else First(l, order[1..], j)
  }

  /** The value of the last layer that has the leaf. */
  function Top(l: Layers, order: seq<nat>): Option<int> {
    if order == [] then None
    else
      var last := order[|order| - 1];
      if Own(l, last).Some? then Own(l, last) else Top(l, order[..|order| - 1])
  }

  /** Distinct layers that are there, none of them a root. */
  predicate Ordered(l: Layers, order: seq<nat>, root: nat) {
    Distinct(order) && root !in l.depth && forall i :: i in order ==> i in l.depth
  }

  lemma {:induction false} FirstSnoc(l: Layers, order: seq<nat>, d: nat, j: nat)
    ensures First(l, order + [d], j)
         == if First(l, order, j).Some? then First(l, order, j) else if Depth(l, d) >= j then Some(d) else None
  {
    if order == [] {
      assert [] + [d] == [d] && [d][1..] == [];
    } else {
      FirstSnoc(l, order[1..], d, j);
      assert (order + [d])[1..] == order[1..] + [d];
    }
  }

  lemma {:induction false} FirstIs(l: Layers, order: seq<nat>, j: nat)
    ensures First(l, order, j).Some? ==> First(l, order, j).value in order && Depth(l, First(l, order, j).value) >= j
    ensures First(l, order, j).None? ==> forall i :: i in order ==> Depth(l, i) < j
    ensures First(l, order, j).Some? ==> First(l, order, if j > 0 then j - 1 else 0).Some?
    ensures First(l, order, j).Some? && Depth(l, First(l, order, j).value) > j ==>
            First(l, order, j + 1) == First(l, order, j)
    ensures First(l, order, j).Some? && First(l, order, j + 1).None? ==> Depth(l, First(l, order, j).value) == j
  {
    if order != [] && Depth(l, order[0]) < j {
      FirstIs(l, order[1..], j);
    }
    FirstNone(l, order, j + 1);
  }

  lemma {:induction false} FirstNone(l: Layers, order: seq<nat>, j: nat)
    ensures First(l, order, j).None? <==> forall i :: i in order ==> Depth(l, i) < j
  {
    if order != [] {
      FirstNone(l, order[1..], j);
      assert forall i :: i in order <==> i == order[0] || i in order[1..];
    }
  }

  lemma TopSnoc(l: Layers, order: seq<nat>, d: nat)
    ensures Top(l, order + [d]) == if Own(l, d).Some? then Own(l, d) else Top(l, order)
  {
    assert (order + [d])[..|order|] == order;
  }

  // ---- The first merge --------------------------------------------------------------

  /** The owner of the merged object at depth `j`. */
  function Target(l: Layers, order: seq<nat>, root: nat, j: nat): Option<nat> {
    if j == 0 then Some(root) else First(l, order, j)
  }

  /** Who follows after the layers in `order` have been merged: an object keeps its own
      layer below it, and the merged object at the end of its layer leads on to the first
      layer that goes deeper. */
  function NextAfter(l: Layers, order: seq<nat>, root: nat, i: nat, j: nat): Option<nat> {
    if i == root then (if j == 0 then First(l, order, 1) else None)
    else if j < Depth(l, i) then Some(i)
    else if j == Depth(l, i) && j >= 1 && First(l, order, j) == Some(i) then First(l, order, j + 1)
    else None
  }

  function LeafAfter(l: Layers, order: seq<nat>, root: nat, m: nat, i: nat): Option<int> {
    if Target(l, order, root, m) == Some(i) then Top(l, order) else Own(l, i)
  }

  ghost predicate Merged(c: Chain<nat>, l: Layers, order: seq<nat>, root: nat, m: nat) {
    && (forall i: nat, j: nat {:trigger Next(c, i, j)} :: j < m ==> Next(c, i, j) == NextAfter(l, order, root, i, j))
    && (forall i: nat {:trigger Leaf(c, i)} :: Leaf(c, i) == LeafAfter(l, order, root, m, i))
  }

  /** The chain of layers that have just been read. */
  ghost predicate Fresh(c: Chain<nat>, l: Layers, m: nat) {
    && (forall i: nat, j: nat {:trigger Next(c, i, j)} ::
       j < m ==> Next(c, i, j) == if j < Depth(l, i) then Some(i) else None)
    && (forall i: nat {:trigger Leaf(c, i)} :: Leaf(c, i) == Own(l, i))
  }

  lemma FreshIsMerged(c: Chain<nat>, l: Layers, root: nat, m: nat)
    requires Fresh(c, l, m) && Proper(l, m) && root !in l.depth
    ensures Merged(c, l, [], root, m)
  {
  }

  /** From the merged object at one depth the next merged object follows. */
  lemma NextOfTarget(l: Layers, order: seq<nat>, root: nat, j: nat)
    requires Target(l, order, root, j).Some? && root !in l.depth && (forall i :: i in order ==> i in l.depth)
    ensures NextAfter(l, order, root, Target(l, order, root, j).value, j) == First(l, order, j + 1)
  {
    FirstIs(l, order, j);
  }

  lemma {:induction false} FirstShallower(l: Layers, order: seq<nat>, j: nat, k: nat)
    requires First(l, order, j).Some? && k <= j
    ensures First(l, order, k).Some?
  {
    FirstNone(l, order, j);
    FirstNone(l, order, k);
  }

  /** A layer that adds neither an object nor the leaf changes nothing. */
  lemma NothingNew(c: Chain<nat>, l: Layers, order: seq<nat>, root: nat, d: nat, m: nat)
    requires Merged(c, l, order, root, m) && Own(l, d).None?
    requires Depth(l, d) == 0 || First(l, order, Depth(l, d)).Some?
    requires d != root
    ensures Merged(c, l, order + [d], root, m)
  {
    forall j: nat
      ensures j >= 1 ==> First(l, order + [d], j) == First(l, order, j)
    {
      FirstSnoc(l, order, d, j);
      if 1 <= j <= Depth(l, d) { FirstShallower(l, order, Depth(l, d), j); }
    }
    TopSnoc(l, order, d);
  }

  lemma LeafMerges(c: Chain<nat>, l: Layers, order: seq<nat>, root: nat, d: nat, m: nat)
    requires Merged(c, l, order, root, m) && d != root && Depth(l, d) == m && Own(l, d).Some?
    requires Target(l, order, root, m).Some?
    ensures var t := Target(l, order, root, m).value;
            Merged(c.(leaf := c.leaf[t := Own(l, d).value]), l, order + [d], root, m)
  {
    var t := Target(l, order, root, m).value;
    var c' := c.(leaf := c.leaf[t := Own(l, d).value]);
    forall j: nat
      ensures 1 <= j <= m ==> First(l, order + [d], j) == First(l, order, j)
    {
      FirstSnoc(l, order, d, j);
      if 1 <= j <= m { FirstShallower(l, order, m, j); }
    }
    TopSnoc(l, order, d);
    assert forall i: nat, j: nat :: Next(c', i, j) == Next(c, i, j);
    assert forall i: nat :: Leaf(c', i) == if i == t then Own(l, d) else Leaf(c, i);
  }

  lemma NewIsNew(l: Layers, order: seq<nat>, d: nat, root: nat)
    requires Ordered(l, order + [d], root)
    ensures d in l.depth && d != root && d !in order && Ordered(l, order, root)
  {
    var all := order + [d];
    assert all[|order|] == d;
    assert forall k :: 0 <= k < |order| ==> all[k] == order[k];
  }

  /** What is first once a deeper layer has come. */
  lemma FirstLinked(l: Layers, order: seq<nat>, d: nat, j: nat, x: nat)
    requires First(l, order, j + 1).None? && (j == 0 || First(l, order, j).Some?) && x >= 1
    ensures First(l, order + [d], x) == if x <= j then First(l, order, x) else if x <= Depth(l, d) then Some(d)
            else None
    ensures First(l, order, x).Some? <==> x <= j
    ensures First(l, order, x).Some? ==> First(l, order, x).value in order
  {
    FirstSnoc(l, order, d, x);
    FirstIs(l, order, x);
    if x <= j {
      FirstShallower(l, order, j, x);
    } else if First(l, order, x).Some? {
      FirstShallower(l, order, x, j + 1);
    }
  }

  lemma LinkNext(l: Layers, order: seq<nat>, root: nat, d: nat, j: nat, i: nat, k: nat)
    requires Ordered(l, order + [d], root) && j < Depth(l, d)
    requires Target(l, order, root, j).Some? && First(l, order, j + 1).None?
    ensures NextAfter(l, order + [d], root, i, k)
         == if i == Target(l, order, root, j).value && k == j then Some(d) else NextAfter(l, order, root, i, k)
  {
    NewIsNew(l, order, d, root);
    FirstLinked(l, order, d, j, k + 1);
    FirstLinked(l, order, d, j, 1);
    FirstIs(l, order, j);
    if k >= 1 { FirstLinked(l, order, d, j, k); }
  }

  /** A deeper layer is linked in behind the last merged object. */
  lemma LinkMerges(c: Chain<nat>, l: Layers, order: seq<nat>, root: nat, d: nat, j: nat, m: nat)
    requires Merged(c, l, order, root, m) && Proper(l, m) && Ordered(l, order + [d], root) && j < m && j < Depth(l, d)
    requires Target(l, order, root, j).Some? && First(l, order, j + 1).None?
    ensures var t := Target(l, order, root, j).value;
            Merged(c.(next := c.next[(t, j) := d]), l, order + [d], root, m)
  {
    var t := Target(l, order, root, j).value;
    var c' := c.(next := c.next[(t, j) := d]);
    forall i: nat, k: nat | k < m
      ensures Next(c', i, k) == NextAfter(l, order + [d], root, i, k)
    {
      assert Next(c, i, k) == NextAfter(l, order, root, i, k);
      LinkNext(l, order, root, d, j, i, k);
    }
    LinkLeaf(l, order, root, d, j, m);
    assert forall i: nat :: Leaf(c', i) == Leaf(c, i);
  }

  lemma LinkLeaf(l: Layers, order: seq<nat>, root: nat, d: nat, j: nat, m: nat)
    requires Proper(l, m) && Ordered(l, order + [d], root) && j < m && j < Depth(l, d)
    requires Target(l, order, root, j).Some? && First(l, order, j + 1).None?
    ensures forall i: nat :: LeafAfter(l, order + [d], root, m, i) == LeafAfter(l, order, root, m, i)
  {
    FirstLinked(l, order, d, j, m);
    FirstNone(l, order, j + 1);
    LinkLeaves(l, order, d, j, m);
    TopSnoc(l, order, d);
    NewIsNew(l, order, d, root);
  }

  /** None of the layers before reached the leaf. */
  lemma {:induction false} LinkLeaves(l: Layers, order: seq<nat>, d: nat, j: nat, m: nat)
    requires Proper(l, m) && j < m && forall i :: i in order ==> Depth(l, i) <= j
    ensures Top(l, order) == None
  {
    if order != [] {
      assert order[|order| - 1] in order;
      LinkLeaves(l, order[..|order| - 1], d, j, m);
    }
  }

  /** One more layer is merged. */
  lemma {:induction false} WalkMerges(c: Chain<nat>, l: Layers, order: seq<nat>, root: nat, d: nat, j: nat, m: nat)
    requires Merged(c, l, order, root, m) && Proper(l, m) && Ordered(l, order + [d], root)
    requires j <= m && j <= Depth(l, d) && Target(l, order, root, j).Some?
    ensures Merged(Walk(c, Target(l, order, root, j).value, d, j, m), l, order + [d], root, m)
    decreases m - j
  {
    var t := Target(l, order, root, j).value;
    NewIsNew(l, order, d, root);
    FirstIs(l, order, j);
    if j >= m {
      assert Leaf(c, d) == Own(l, d);
      if Own(l, d).Some? { LeafMerges(c, l, order, root, d, m); } else { NothingNew(c, l, order, root, d, m); }
    } else if j == Depth(l, d) {
      assert Next(c, d, j) == None;
      NothingNew(c, l, order, root, d, m);
    } else {
      assert Next(c, d, j) == Some(d);
      NextOfTarget(l, order, root, j);
      if First(l, order, j + 1).None? {
        LinkMerges(c, l, order, root, d, j, m);
      } else {
        WalkMerges(c, l, order, root, d, j + 1, m);
      }
    }
  }

  lemma {:induction false} MergeAllMerges(c: Chain<nat>, l: Layers, order: seq<nat>, root: nat, m: nat)
    requires Fresh(c, l, m) && Proper(l, m) && Ordered(l, order, root)
    ensures Merged(MergeAll(c, root, order, m), l, order, root, m)
    decreases |order|
  {
    if order == [] {
      FreshIsMerged(c, l, root, m);
    } else {
      var front, d := order[..|order| - 1], order[|order| - 1];
      assert front + [d] == order;
      MergeAllMerges(c, l, front, root, m);
      WalkMerges(MergeAll(c, root, front, m), l, front, root, d, 0, m);
    }
  }

  lemma {:induction false} ReadMerged(c: Chain<nat>, l: Layers, order: seq<nat>, root: nat, j: nat, m: nat)
    requires Merged(c, l, order, root, m) && Proper(l, m) && Ordered(l, order, root)
    requires j <= m && Target(l, order, root, j).Some?
    ensures Read(c, Target(l, order, root, j).value, j, m) == Top(l, order)
    decreases m - j
  {
    if j < m {
      NextOfTarget(l, order, root, j);
      if First(l, order, j + 1).Some? {
        ReadMerged(c, l, order, root, j + 1, m);
      } else {
        FirstNone(l, order, j + 1);
        LinkLeaves(l, order, 0, j, m);
      }
    }
  }

  /** The merged document has, at every leaf, the value of the last layer that sets it. */
  lemma MergeTakesTheTop(c: Chain<nat>, l: Layers, order: seq<nat>, root: nat, m: nat)
    requires Fresh(c, l, m) && Proper(l, m) && Ordered(l, order, root)
    ensures Read(MergeAll(c, root, order, m), root, 0, m) == Top(l, order)
  {
    MergeAllMerges(c, l, order, root, m);
    ReadMerged(MergeAll(c, root, order, m), l, order, root, 0, m);
  }
}
