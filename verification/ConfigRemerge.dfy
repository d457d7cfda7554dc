/** Merging once more after a layer has been added, along one key path. The first merge has
    linked objects of the layers into each other; this module says what the second merge
    then gives, and when that is what a merge of freshly read layers would give. */
module ConfigRemerge {
  import opened Options
  import opened ConfigChain

  /** Everything that stays fixed: the layers, their first order and root, the second root
      and the depth of the path. */
  datatype World = World(l: Layers, first: seq<nat>, root: nat, second: nat, m: nat)

  predicate Sound(w: World) {
    Proper(w.l, w.m) && Ordered(w.l, w.first, w.root) && w.second !in w.l.depth && w.root != w.second
  }

  function After(w: World, i: nat, j: nat): Option<nat> { NextAfter(w.l, w.first, w.root, i, j) }

  function LeafOf(w: World, i: nat): Option<int> { LeafAfter(w.l, w.first, w.root, w.m, i) }

  /** The owner of the object at depth `k` that a layer shows after the first merge. */
  function View(w: World, d: nat, k: nat): Option<nat>
    decreases k
  {
    if k == 0 then Some(d)
    else
      match View(w, d, k - 1)
      case None => None
      case Some(e) => After(w, e, k - 1)
  }

  /** The owner of the object at depth `k` that the second merge writes to: that of the
      first layer that shows one. */
  function FirstView(w: World, done: seq<nat>, k: nat): Option<nat> {
    if done == [] then None
    else if View(w, done[0], k).Some? then View(w, done[0], k)
    else FirstView(w, done[1..], k)
  }

  function Goal(w: World, done: seq<nat>, k: nat): Option<nat> {
    if k == 0 then Some(w.second) else FirstView(w, done, k)
  }

  /** The chain after the layers in `done` have been merged again; `v` is the leaf. */
  ghost predicate Again(c: Chain<nat>, w: World, done: seq<nat>, v: Option<int>) {
    && (forall i: nat, j: nat {:trigger Next(c, i, j)} :: j < w.m ==>
          Next(c, i, j) == if Goal(w, done, j) == Some(i) then Goal(w, done, j + 1) else After(w, i, j))
    && (forall i: nat {:trigger Leaf(c, i)} ::
          Leaf(c, i) == if Goal(w, done, w.m) == Some(i) then v else LeafOf(w, i))
  }

  /** What merging one more layer makes of the leaf. */
  function Written(w: World, done: seq<nat>, v: Option<int>, d: nat): Option<int> {
    match View(w, d, w.m)
    case None => v
    case Some(e) =>
      if Goal(w, done, w.m).None? then LeafOf(w, e)
      else if Goal(w, done, w.m) == Some(e) || LeafOf(w, e).None? then v
      else LeafOf(w, e)
  }

  // ---- Views and goals --------------------------------------------------------------

  lemma {:induction false} ViewShallower(w: World, d: nat, j: nat, k: nat)
    requires View(w, d, k).Some? && j <= k
    ensures View(w, d, j).Some?
    decreases k
  {
    if j < k { ViewShallower(w, d, j, k - 1); }
  }

  lemma {:induction false} FirstViewSnoc(w: World, done: seq<nat>, d: nat, k: nat)
    ensures FirstView(w, done + [d], k) == if FirstView(w, done, k).Some? then FirstView(w, done, k) else View(w, d, k)
  {
    if done == [] {
      assert [] + [d] == [d] && [d][1..] == [];
    } else {
      FirstViewSnoc(w, done[1..], d, k);
      assert (done + [d])[1..] == done[1..] + [d];
    }
  }

  lemma {:induction false} FirstViewShallower(w: World, done: seq<nat>, j: nat, k: nat)
    requires FirstView(w, done, k).Some? && j <= k
    ensures FirstView(w, done, j).Some?
  {
    if View(w, done[0], k).Some? {
      ViewShallower(w, done[0], j, k);
    } else if View(w, done[0], j).None? {
      FirstViewShallower(w, done[1..], j, k);
    }
  }

  /** The objects below a goal are goals. */
  lemma {:induction false} FirstViewCloses(w: World, done: seq<nat>, j: nat)
    requires FirstView(w, done, j).Some? && After(w, FirstView(w, done, j).value, j).Some?
    ensures FirstView(w, done, j + 1) == After(w, FirstView(w, done, j).value, j)
  {
    if View(w, done[0], j).None? {
      FirstViewCloses(w, done[1..], j);
    }
  }

  lemma GoalSnoc(w: World, done: seq<nat>, d: nat, k: nat)
    ensures Goal(w, done + [d], k) == if Goal(w, done, k).Some? then Goal(w, done, k) else View(w, d, k)
  {
    FirstViewSnoc(w, done, d, k);
  }

  /** Where a view has met the goals it stays with them. */
  lemma {:induction false} ViewStays(w: World, done: seq<nat>, d: nat, j: nat, k: nat)
    requires 1 <= j <= k && View(w, d, j).Some? && View(w, d, j) == Goal(w, done, j) && View(w, d, k).Some?
    ensures View(w, d, k) == Goal(w, done, k)
    decreases k
  {
    if j < k {
      ViewShallower(w, d, k - 1, k);
      ViewStays(w, done, d, j, k - 1);
      FirstViewCloses(w, done, k - 1);
    }
  }

  // ---- One more layer ---------------------------------------------------------------

  /** A layer that shows nothing new leaves the chain as it is. */
  lemma NothingShown(c: Chain<nat>, w: World, done: seq<nat>, v: Option<int>, d: nat)
    requires Again(c, w, done, v)
    requires forall k: nat :: k <= w.m && Goal(w, done, k).None? ==> View(w, d, k).None?
    requires View(w, d, w.m).Some? ==> View(w, d, w.m) == Goal(w, done, w.m) || LeafOf(w, View(w, d, w.m).value).None?
    ensures Again(c, w, done + [d], Written(w, done, v, d))
  {
    forall k: nat
      ensures k <= w.m ==> Goal(w, done + [d], k) == Goal(w, done, k)
    {
      GoalSnoc(w, done, d, k);
    }
  }

  lemma LinkShown(c: Chain<nat>, w: World, done: seq<nat>, v: Option<int>, d: nat, j: nat)
    requires Again(c, w, done, v) && j < w.m
    requires Goal(w, done, j).Some? && Goal(w, done, j + 1).None? && View(w, d, j + 1).Some?
    ensures Again(c.(next := c.next[(Goal(w, done, j).value, j) := View(w, d, j + 1).value]), w, done + [d],
            Written(w, done, v, d))
  {
    var t, e := Goal(w, done, j).value, View(w, d, j + 1).value;
    var c' := c.(next := c.next[(t, j) := e]);
    forall k: nat
      ensures Goal(w, done + [d], k) == if k <= j then Goal(w, done, k) else View(w, d, k)
      ensures k <= j ==> Goal(w, done, k).Some?
      ensures k > j ==> Goal(w, done, k).None?
    {
      GoalSnoc(w, done, d, k);
      if 1 <= k <= j { FirstViewShallower(w, done, k, j); }
      if k > j && FirstView(w, done, k).Some? { FirstViewShallower(w, done, j + 1, k); }
    }
    forall i: nat, x: nat {:trigger Next(c', i, x)} | x < w.m
      ensures Next(c', i, x) == if Goal(w, done + [d], x) == Some(i) then Goal(w, done + [d], x + 1) else After(w, i, x)
    {
      assert Next(c, i, x) == if Goal(w, done, x) == Some(i) then Goal(w, done, x + 1) else After(w, i, x);
      assert x > j ==> Goal(w, done + [d], x) == View(w, d, x) && Goal(w, done + [d], x + 1) == View(w, d, x + 1);
    }
    assert Goal(w, done + [d], w.m) == View(w, d, w.m) && Goal(w, done, w.m).None?;
    assert forall i: nat :: Leaf(c', i) == Leaf(c, i);
  }

  lemma LeafShown(c: Chain<nat>, w: World, done: seq<nat>, v: Option<int>, d: nat)
    requires Again(c, w, done, v) && Goal(w, done, w.m).Some? && View(w, d, w.m).Some?
    requires Goal(w, done, w.m) != View(w, d, w.m) && LeafOf(w, View(w, d, w.m).value).Some?
    ensures var t, x := Goal(w, done, w.m).value, LeafOf(w, View(w, d, w.m).value).value;
            Again(c.(leaf := c.leaf[t := x]), w, done + [d], Written(w, done, v, d))
  {
    var t, x := Goal(w, done, w.m).value, LeafOf(w, View(w, d, w.m).value).value;
    var c' := c.(leaf := c.leaf[t := x]);
    forall k: nat
      ensures k <= w.m ==> Goal(w, done + [d], k) == Goal(w, done, k)
    {
      GoalSnoc(w, done, d, k);
      if 1 <= k <= w.m { FirstViewShallower(w, done, k, w.m); }
    }
    assert forall i: nat, j: nat :: Next(c', i, j) == Next(c, i, j);
    assert forall i: nat :: Leaf(c', i) == if i == t then Some(x) else Leaf(c, i);
  }

  /** Merging an object into itself changes nothing. */
  lemma {:induction false} WalkSelf(c: Chain<nat>, o: nat, j: nat, m: nat)
    ensures Walk(c, o, o, j, m) == c
    decreases m - j
  {
    if j >= m {
      if o in c.leaf { assert c.leaf[o := c.leaf[o]] == c.leaf; }
    } else if Next(c, o, j).Some? {
      WalkSelf(c, Next(c, o, j).value, j + 1, m);
    }
  }

  /** What `mergeInto` does on the linked objects. */
  lemma {:induction false} WalkAgain(c: Chain<nat>, w: World, done: seq<nat>, v: Option<int>, d: nat, j: nat)
    requires Sound(w) && Again(c, w, done, v) && d in w.l.depth
    requires j <= w.m && Goal(w, done, j).Some? && View(w, d, j).Some?
    ensures Again(Walk(c, Goal(w, done, j).value, View(w, d, j).value, j, w.m), w, done + [d], Written(w, done, v, d))
    decreases w.m - j
  {
    var t, e := Goal(w, done, j).value, View(w, d, j).value;
    forall k: nat
      ensures k < j ==> Goal(w, done, k).Some?
    {
      if 1 <= k < j { FirstViewShallower(w, done, k, j); }
    }
    if t == e {
      WalkSelf(c, t, j, w.m);
      forall k: nat
        ensures j <= k && View(w, d, k).Some? ==> View(w, d, k) == Goal(w, done, k)
      {
        if j <= k && View(w, d, k).Some? { ViewStays(w, done, d, j, k); }
      }
      NothingShown(c, w, done, v, d);
    } else if j >= w.m {
      assert Leaf(c, e) == LeafOf(w, e);
      if LeafOf(w, e).Some? { LeafShown(c, w, done, v, d); } else { NothingShown(c, w, done, v, d); }
    } else {
      assert Next(c, e, j) == After(w, e, j) == View(w, d, j + 1);
      assert Next(c, t, j) == Goal(w, done, j + 1);
      if View(w, d, j + 1).None? {
        forall k: nat
          ensures j < k ==> View(w, d, k).None?
        {
          if j < k && View(w, d, k).Some? { ViewShallower(w, d, j + 1, k); }
        }
        NothingShown(c, w, done, v, d);
      } else if Goal(w, done, j + 1).None? {
        LinkShown(c, w, done, v, d, j);
      } else {
        WalkAgain(c, w, done, v, d, j + 1);
      }
    }
  }

  /** The leaf after the layers in `done` have been merged again. */
  function LeafAgain(w: World, done: seq<nat>): Option<int> {
    if done == [] then None
    else Written(w, done[..|done| - 1], LeafAgain(w, done[..|done| - 1]), done[|done| - 1])
  }

  lemma {:induction false} MergeAgain(c: Chain<nat>, w: World, order: seq<nat>)
    requires Sound(w) && Merged(c, w.l, w.first, w.root, w.m) && forall i :: i in order ==> i in w.l.depth
    ensures Again(MergeAll(c, w.second, order, w.m), w, order, LeafAgain(w, order))
    decreases |order|
  {
    if order != [] {
      var front, d := order[..|order| - 1], order[|order| - 1];
      assert front + [d] == order;
      MergeAgain(c, w, front);
      WalkAgain(MergeAll(c, w.second, front, w.m), w, front, LeafAgain(w, front), d, 0);
    }
  }

  lemma {:induction false} ReadAgain(c: Chain<nat>, w: World, done: seq<nat>, v: Option<int>, j: nat)
    requires Again(c, w, done, v) && j <= w.m && Goal(w, done, j).Some?
    ensures Read(c, Goal(w, done, j).value, j, w.m) == if Goal(w, done, w.m).Some? then v else None
    decreases w.m - j
  {
    if j < w.m {
      assert Next(c, Goal(w, done, j).value, j) == Goal(w, done, j + 1);
      if Goal(w, done, j + 1).Some? {
        ReadAgain(c, w, done, v, j + 1);
      } else if Goal(w, done, w.m).Some? {
        FirstViewShallower(w, done, j + 1, w.m);
      }
    }
  }

  // ---- What the views are -----------------------------------------------------------

  /** A layer shows its own objects, and below them the merged ones if its last object is
      a merged one. */
  lemma {:induction false} ViewOfFirst(w: World, d: nat, k: nat)
    requires Sound(w) && d in w.first
    ensures View(w, d, k) == if k <= Depth(w.l, d) then Some(d)
                             else if Depth(w.l, d) >= 1 && First(w.l, w.first, Depth(w.l, d)) == Some(d)
                                then First(w.l, w.first, k)
                             else None
    decreases k
  {
    if k > 0 {
      ViewOfFirst(w, d, k - 1);
      if k - 1 > Depth(w.l, d) && View(w, d, k - 1).Some? { NextOfTarget(w.l, w.first, w.root, k - 1); }
      else if k - 1 > Depth(w.l, d) && First(w.l, w.first, k).Some? { FirstShallower(w.l, w.first, k, k - 1); }
    }
  }

  lemma {:induction false} ViewOfNew(w: World, p: nat, k: nat)
    requires Sound(w) && p in w.l.depth && p !in w.first
    ensures View(w, p, k) == if k <= Depth(w.l, p) then Some(p) else None
    decreases k
  {
    if k > 0 {
      ViewOfNew(w, p, k - 1);
      if k - 1 == Depth(w.l, p) && k >= 2 { FirstIs(w.l, w.first, k - 1); }
    }
  }

  /** The leaf as the last writer leaves it, once the goal is known to be `g`. */
  function LastWrite(w: World, done: seq<nat>, g: nat): Option<int> {
    if done == [] then LeafOf(w, g)
    else
      match View(w, done[|done| - 1], w.m)
      case None => LastWrite(w, done[..|done| - 1], g)
      case Some(e) => if e != g && LeafOf(w, e).Some? then LeafOf(w, e) else LastWrite(w, done[..|done| - 1], g)
  }

  lemma {:induction false} NoGoalNoWrite(w: World, done: seq<nat>, g: nat)
    requires FirstView(w, done, w.m).None?
    ensures LastWrite(w, done, g) == LeafOf(w, g)
  {
    if done != [] {
      var front, d := done[..|done| - 1], done[|done| - 1];
      assert front + [d] == done;
      FirstViewSnoc(w, front, d, w.m);
      NoGoalNoWrite(w, front, g);
    }
  }

  lemma {:induction false} LeafAgainIsLastWrite(w: World, done: seq<nat>)
    requires Sound(w)
    ensures Goal(w, done, w.m).Some? ==> LeafAgain(w, done) == LastWrite(w, done, Goal(w, done, w.m).value)
  {
    if done == [] {
    } else {
      var front, d := done[..|done| - 1], done[|done| - 1];
      assert front + [d] == done;
      GoalSnoc(w, front, d, w.m);
      LeafAgainIsLastWrite(w, front);
      if Goal(w, front, w.m).None? && Goal(w, done, w.m).Some? { NoGoalNoWrite(w, front, Goal(w, done, w.m).value); }
    }
  }

  // ---- The goal at the leaf ---------------------------------------------------------

  lemma {:induction false} FirstStays(l: Layers, order: seq<nat>, j: nat, k: nat)
    requires First(l, order, j).Some? && j <= k <= Depth(l, First(l, order, j).value)
    ensures First(l, order, k) == First(l, order, j)
    decreases k
  {
    if j < k {
      FirstStays(l, order, j, k - 1);
      FirstIs(l, order, k - 1);
    }
  }

  /** A layer of the first merge that shows an object above the leaf shows its own, or the
      merged one. */
  lemma ViewAtLeaf(w: World, d: nat)
    requires Sound(w) && d in w.first && w.m >= 1
    ensures View(w, d, w.m).Some? ==> View(w, d, w.m) == First(w.l, w.first, w.m) || View(w, d, w.m) == Some(d)
    ensures View(w, d, w.m).Some? ==> First(w.l, w.first, w.m).Some?
    ensures Own(w.l, d).Some? ==> View(w, d, w.m) == Some(d)
    ensures View(w, d, w.m) == Some(d) ==> Depth(w.l, d) == w.m
  {
    ViewOfFirst(w, d, w.m);
    FirstNone(w.l, w.first, w.m);
    FirstIs(w.l, w.first, w.m);
  }

  /** Before any other layer of the first merge, one that shows the merged object comes. */
  lemma {:induction false} GoalInPrefix(w: World, done: seq<nat>)
    requires Sound(w) && w.m >= 1 && done <= w.first
    ensures FirstView(w, done, w.m).Some? ==> FirstView(w, done, w.m) == First(w.l, w.first, w.m)
    ensures First(w.l, done, 1).Some? && First(w.l, w.first, w.m).Some? ==>
            FirstView(w, done, w.m) == First(w.l, w.first, w.m)
    ensures First(w.l, done, 1).None? ==> FirstView(w, done, w.m).None?
    decreases |done|
  {
    if done != [] {
      var front, d := done[..|done| - 1], done[|done| - 1];
      assert front + [d] == done;
      assert d == w.first[|done| - 1] && d in w.first;
      GoalInPrefix(w, front);
      FirstViewSnoc(w, front, d, w.m);
      FirstSnoc(w.l, front, d, 1);
      NewestInPrefix(w, front, d);
    }
  }

  /** The first layer of a prefix that has the top object leads to the merged objects, and
      so does every layer before it is known that one does. */
  lemma NewestInPrefix(w: World, front: seq<nat>, d: nat)
    requires Sound(w) && w.m >= 1 && front + [d] <= w.first
    ensures First(w.l, front, 1).None? && Depth(w.l, d) >= 1 ==> View(w, d, w.m) == First(w.l, w.first, w.m)
    ensures Depth(w.l, d) == 0 ==> View(w, d, w.m).None?
    ensures First(w.l, front, 1).Some? && First(w.l, w.first, w.m).None? ==> View(w, d, w.m).None?
  {
    assert d == w.first[|front|] && d in w.first;
    ViewOfFirst(w, d, w.m);
    FirstNone(w.l, w.first, w.m);
    if First(w.l, front, 1).None? && Depth(w.l, d) >= 1 {
      FirstSnoc(w.l, front, d, 1);
      FirstOfPrefix(w.l, front + [d], w.first, 1);
      FirstStays(w.l, w.first, 1, Depth(w.l, d));
    }
  }

  lemma {:induction false} FirstOfPrefix(l: Layers, some: seq<nat>, all: seq<nat>, j: nat)
    requires some <= all && First(l, some, j).Some?
    ensures First(l, all, j) == First(l, some, j)
  {
    if Depth(l, some[0]) < j { FirstOfPrefix(l, some[1..], all[1..], j); }
  }

  // ---- The comparison ---------------------------------------------------------------

  /** A layer `p` is added behind the layers in `below` and before those in `above`. */
  predicate Added(w: World, below: seq<nat>, p: nat, above: seq<nat>) {
    Sound(w) && w.first == below + above && p in w.l.depth && p !in w.first
  }

  /** The one case in which the added layer wins over a layer above it: that layer is the
      first with an object around the leaf and alone sets it, the added layer sets it too,
      and a layer below already has the topmost key. */
  predicate Overwrites(w: World, below: seq<nat>, p: nat, above: seq<nat>) {
    && w.m >= 1
    && Own(w.l, p).Some?
    && First(w.l, below, 1).Some?
    && First(w.l, below + above, w.m).Some?
    && var f := First(w.l, below + above, w.m).value;
       f in above && Own(w.l, f).Some? && forall d :: d in above && d != f ==> Own(w.l, d).None?
  }

  /** Layers in front of the first one with an object around the leaf do not set it. */
  lemma {:induction false} NoLeafBefore(w: World, done: seq<nat>)
    requires Sound(w) && done <= w.first
    requires First(w.l, w.first, w.m).Some? ==> First(w.l, w.first, w.m).value !in done
    ensures Top(w.l, done) == None
    decreases |done|
  {
    if done != [] {
      var front, d := done[..|done| - 1], done[|done| - 1];
      assert d == w.first[|done| - 1];
      NoLeafBefore(w, front);
      if Own(w.l, d).Some? {
        FirstOfPrefixAt(w.l, done, w.m);
        FirstOfPrefix(w.l, done, w.first, w.m);
        FirstIs(w.l, done, w.m);
        assert false;
      }
    }
  }

  lemma FirstOfPrefixAt(l: Layers, done: seq<nat>, j: nat)
    requires done != [] && Depth(l, done[|done| - 1]) >= j
    ensures First(l, done, j).Some?
  {
    FirstNone(l, done, j);
    assert done[|done| - 1] in done;
  }

  /** When the merged object of the first merge is the goal: all writes but those of its
      own layer count. */
  function TopExcept(l: Layers, order: seq<nat>, f: nat): Option<int> {
    if order == [] then None
    else
      var last := order[|order| - 1];
      if last != f && Own(l, last).Some? then Own(l, last) else TopExcept(l, order[..|order| - 1], f)
  }

  predicate Among(w: World, done: seq<nat>, p: nat) { forall d :: d in done ==> d in w.first || d == p }

  lemma {:induction false} WritesExcept(w: World, done: seq<nat>, p: nat)
    requires Sound(w) && w.m >= 1 && p in w.l.depth && p !in w.first && Among(w, done, p)
    requires First(w.l, w.first, w.m).Some?
    ensures var f := First(w.l, w.first, w.m).value;
            LastWrite(w, done, f) == if TopExcept(w.l, done, f).Some? then TopExcept(w.l, done, f)
                else Top(w.l, w.first)
  {
    if done != [] {
      var front, d := done[..|done| - 1], done[|done| - 1];
      assert d in done && forall x :: x in front ==> x in done;
      WritesExcept(w, front, p);
      FirstIs(w.l, w.first, w.m);
      if d == p { ViewOfNew(w, p, w.m); } else { ViewAtLeaf(w, d); }
    }
  }

  lemma TopOfNone(l: Layers, order: seq<nat>)
    requires forall d :: d in order ==> Own(l, d).None?
    ensures Top(l, order) == None
  {
    if order != [] {
      assert order[|order| - 1] in order;
      TopOfNone(l, order[..|order| - 1]);
    }
  }

  lemma {:induction false} NoViewNoLeaf(w: World, done: seq<nat>)
    requires Sound(w) && w.m >= 1 && (forall d :: d in done ==> d in w.first) && FirstView(w, done, w.m).None?
    ensures Top(w.l, done) == None
  {
    if done != [] {
      var front, d := done[..|done| - 1], done[|done| - 1];
      assert front + [d] == done && d in done;
      FirstViewSnoc(w, front, d, w.m);
      NoViewNoLeaf(w, front);
      ViewAtLeaf(w, d);
    }
  }

  lemma WritesNewest(w: World, below: seq<nat>, p: nat)
    requires Sound(w) && w.m >= 1 && p in w.l.depth && p !in w.first && Depth(w.l, p) == w.m
    requires (forall d :: d in below ==> d in w.first) && FirstView(w, below, w.m).None?
    ensures LastWrite(w, below + [p], p) == Top(w.l, below + [p])
  {
    var all := below + [p];
    assert all[..|below|] == below && all[|below|] == p;
    assert LeafOf(w, p) == Own(w.l, p) by { FirstIs(w.l, w.first, w.m); }
    ViewOfNew(w, p, w.m);
    NoGoalNoWrite(w, below, p);
    NoViewNoLeaf(w, below);
  }

  /** When the added layer owns the goal, everything written is the winner's value, as far
      as the winner has been reached. */
  lemma {:induction false} WritesOver(w: World, below: seq<nat>, p: nat, above: seq<nat>)
    requires Sound(w) && w.m >= 1 && p in w.l.depth && p !in w.first && Depth(w.l, p) == w.m
    requires (forall d :: d in below + above ==> d in w.first) && FirstView(w, below, w.m).None?
    ensures var all := below + [p] + above;
            || LastWrite(w, all, p) == Top(w.l, all)
            || (Top(w.l, w.first).Some? && LastWrite(w, all, p) == Top(w.l, w.first))
    decreases |above|
  {
    var all := below + [p] + above;
    FirstIs(w.l, w.first, w.m);
    assert LeafOf(w, p) == Own(w.l, p);
    if above == [] {
      assert all == below + [p] && forall d :: d in below ==> d in below + above;
      WritesNewest(w, below, p);
    } else {
      var front, d := above[..|above| - 1], above[|above| - 1];
      assert all[..|all| - 1] == below + [p] + front && all[|all| - 1] == d;
      assert d in below + above && forall x :: x in below + front ==> x in below + above;
      WritesOver(w, below, p, front);
      ViewAtLeaf(w, d);
      LeafOfFirst(w, d);
    }
  }

  /** A layer of the first merge that sets the leaf makes the merge have one. */
  lemma LeafOfFirst(w: World, d: nat)
    requires d in w.first
    ensures Own(w.l, d).Some? ==> Top(w.l, w.first).Some?
  {
    TopIsSome(w.l, w.first, d);
  }

  lemma {:induction false} TopIsSome(l: Layers, order: seq<nat>, d: nat)
    requires d in order
    ensures Own(l, d).Some? ==> Top(l, order).Some?
  {
    var front, last := order[..|order| - 1], order[|order| - 1];
    assert front + [last] == order;
    if d != last { TopIsSome(l, front, d); }
  }

  lemma {:induction false} TopConcat(l: Layers, a: seq<nat>, b: seq<nat>)
    ensures Top(l, a + b) == if Top(l, b).Some? then Top(l, b) else Top(l, a)
  {
    if b == [] {
      assert a + b == a;
    } else {
      assert (a + b)[..|a + b| - 1] == a + b[..|b| - 1];
      TopConcat(l, a, b[..|b| - 1]);
    }
  }

  lemma {:induction false} TopExceptConcat(l: Layers, a: seq<nat>, b: seq<nat>, f: nat)
    ensures TopExcept(l, a + b, f) == if TopExcept(l, b, f).Some? then TopExcept(l, b, f) else TopExcept(l, a, f)
  {
    if b == [] {
      assert a + b == a;
    } else {
      assert (a + b)[..|a + b| - 1] == a + b[..|b| - 1];
      TopExceptConcat(l, a, b[..|b| - 1], f);
    }
  }

  lemma {:induction false} ExceptOther(l: Layers, order: seq<nat>, f: nat)
    ensures f !in order ==> TopExcept(l, order, f) == Top(l, order)
    ensures TopExcept(l, order, f).Some? ==> Top(l, order).Some?
    ensures TopExcept(l, order, f).None? <==> forall d :: d in order && d != f ==> Own(l, d).None?
    ensures TopExcept(l, order, f).None? && f in order ==> Top(l, order) == Own(l, f)
  {
    if order != [] {
      var front, last := order[..|order| - 1], order[|order| - 1];
      ExceptOther(l, front, f);
      assert forall d :: d in order <==> d in front || d == last;
    }
  }

  /** Among the layers of the first merge, those that set the leaf come behind the first
      with an object around it. */
  lemma {:induction false} ExceptInFirst(w: World, done: seq<nat>)
    requires Sound(w) && done <= w.first && First(w.l, w.first, w.m).Some?
    ensures var f := First(w.l, w.first, w.m).value;
            TopExcept(w.l, done, f).Some? ==> TopExcept(w.l, done, f) == Top(w.l, done)
    decreases |done|
  {
    var f := First(w.l, w.first, w.m).value;
    if done != [] {
      var front, d := done[..|done| - 1], done[|done| - 1];
      ExceptInFirst(w, front);
      if d == f {
        NotYet(w, front, f);
        NoLeafBefore(w, front);
        ExceptOther(w.l, front, f);
      }
    }
  }

  lemma NotYet(w: World, front: seq<nat>, d: nat)
    requires Sound(w) && front + [d] <= w.first
    ensures d !in front
  {
    assert w.first[|front|] == d;
    assert forall k :: 0 <= k < |front| ==> front[k] == w.first[k];
  }

  /** The case that the merged object is the goal. */
  lemma ExceptAgainstTop(w: World, below: seq<nat>, p: nat, above: seq<nat>)
    requires Added(w, below, p, above) && w.m >= 1 && First(w.l, w.first, w.m).Some?
    ensures var f, all := First(w.l, w.first, w.m).value, below + [p] + above;
            var written := if TopExcept(w.l, all, f).Some? then TopExcept(w.l, all, f) else Top(w.l, w.first);
            if f in above && Own(w.l, f).Some? && Own(w.l, p).Some? && TopExcept(w.l, above, f).None?
            then written == Own(w.l, p) && Top(w.l, all) == Own(w.l, f)
            else written == Top(w.l, all)
  {
    var f := First(w.l, w.first, w.m).value;
    FirstIs(w.l, w.first, w.m);
    TopConcat(w.l, below + [p], above);
    TopSnoc(w.l, below, p);
    TopConcat(w.l, below, above);
    TopExceptConcat(w.l, below + [p], above, f);
    TopExceptConcat(w.l, below, above, f);
    TopExceptSnoc(w.l, below, p, f);
    ExceptOther(w.l, above, f);
    ExceptOther(w.l, below, f);
    ExceptInFirst(w, w.first);
    if f in below {
      ApartIn(w, below, above, f);
      ExceptInFirst(w, below);
    } else {
      NoLeafBefore(w, below);
    }
  }

  lemma TopExceptSnoc(l: Layers, order: seq<nat>, d: nat, f: nat)
    ensures TopExcept(l, order + [d], f) == if d != f && Own(l, d).Some? then Own(l, d) else TopExcept(l, order, f)
  {
    assert (order + [d])[..|order|] == order;
  }

  lemma ApartIn(w: World, below: seq<nat>, above: seq<nat>, f: nat)
    requires Sound(w) && w.first == below + above && f in below
    ensures f !in above
  {
    var i :| 0 <= i < |below| && below[i] == f;
    assert w.first[i] == f;
    assert forall k :: 0 <= k < |above| ==> w.first[|below| + k] == above[k];
  }

  lemma {:induction false} FirstViewConcat(w: World, a: seq<nat>, b: seq<nat>, k: nat)
    ensures FirstView(w, a + b, k) == if FirstView(w, a, k).Some? then FirstView(w, a, k) else FirstView(w, b, k)
  {
    if a == [] {
      assert a + b == b;
    } else {
      FirstViewConcat(w, a[1..], b, k);
      assert (a + b)[1..] == a[1..] + b;
    }
  }

  /** Who owns the goal at the leaf once all layers have been merged again. */
  lemma GoalAtLeaf(w: World, below: seq<nat>, p: nat, above: seq<nat>)
    requires Added(w, below, p, above) && w.m >= 1
    ensures var f := First(w.l, w.first, w.m);
            Goal(w, below + [p] + above, w.m) ==
              if f.Some? && First(w.l, below, 1).Some? then f
              else if Depth(w.l, p) == w.m then Some(p)
              else f
    ensures !(First(w.l, w.first, w.m).Some? && First(w.l, below, 1).Some?) ==> FirstView(w, below, w.m).None?
  {
    FirstViewConcat(w, below + [p], above, w.m);
    FirstViewSnoc(w, below, p, w.m);
    FirstViewConcat(w, below, above, w.m);
    ViewOfNew(w, p, w.m);
    GoalInPrefix(w, below);
    GoalInPrefix(w, w.first);
    if First(w.l, w.first, w.m).Some? { FirstShallower(w.l, w.first, w.m, 1); }
  }

  lemma {:induction false} WritesAtRoot(w: World, done: seq<nat>)
    requires Sound(w) && w.m == 0 && forall d :: d in done ==> d in w.l.depth
    ensures LastWrite(w, done, w.second) == Top(w.l, done)
  {
    if done != [] {
      var front, d := done[..|done| - 1], done[|done| - 1];
      assert d in done;
      WritesAtRoot(w, front);
      assert LeafOf(w, d) == Own(w.l, d);
    }
  }

  lemma RemergedLeaf(w: World, below: seq<nat>, p: nat, above: seq<nat>)
    requires Added(w, below, p, above)
    ensures var all := below + [p] + above;
            var v := if Goal(w, all, w.m).Some? then LeafAgain(w, all) else None;
            if Overwrites(w, below, p, above)
            then v == Own(w.l, p) && Top(w.l, all) == Own(w.l, First(w.l, w.first, w.m).value)
            else v == Top(w.l, all)
  {
    var all := below + [p] + above;
    LeafAgainIsLastWrite(w, all);
    if w.m == 0 {
      WritesAtRoot(w, all);
    } else {
      GoalAtLeaf(w, below, p, above);
      var f := First(w.l, w.first, w.m);
      if Goal(w, all, w.m) == f && f.Some? {
        ViewOfNew(w, p, w.m);
        WritesExcept(w, all, p);
        ExceptAgainstTop(w, below, p, above);
        ExceptOther(w.l, above, f.value);
      } else if Goal(w, all, w.m).Some? {
        WritesOver(w, below, p, above);
        NoViewNoLeaf(w, below);
        TopConcat(w.l, below, above);
        TopConcat(w.l, below + [p], above);
      } else {
        GoalInPrefix(w, w.first);
        NoViewNoLeaf(w, w.first);
        TopConcat(w.l, below, above);
        TopConcat(w.l, below + [p], above);
        TopSnoc(w.l, below, p);
      }
    }
  }

  /** Merging a second time, with a layer added at any place that shares no object with the
      others, gives at every path what a
      merge of freshly read layers gives, except exactly when the added layer overwrites:
      then it gives the added layer's value in place of the winner's. */
  lemma RemergeExactly(c: Chain<nat>, w: World, below: seq<nat>, p: nat, above: seq<nat>)
    requires Added(w, below, p, above) && Fresh(c, w.l, w.m)
    ensures var all := below + [p] + above;
            var again := Read(MergeAll(MergeAll(c, w.root, w.first, w.m), w.second, all, w.m), w.second, 0, w.m);
            if Overwrites(w, below, p, above)
            then again == Own(w.l, p) && Top(w.l, all) == Own(w.l, First(w.l, w.first, w.m).value)
            else again == Top(w.l, all)
  {
    var all := below + [p] + above;
    var once := MergeAll(c, w.root, w.first, w.m);
    MergeAllMerges(c, w.l, w.first, w.root, w.m);
    MergeAgain(once, w, all);
    ReadAgain(MergeAll(once, w.second, all, w.m), w, all, LeafAgain(w, all), 0);
    RemergedLeaf(w, below, p, above);
  }

  /** Such a layer added on top is merged as if all were read afresh. */
  lemma OnTopIsFresh(c: Chain<nat>, w: World, below: seq<nat>, p: nat)
    requires Added(w, below, p, []) && Fresh(c, w.l, w.m)
    ensures var all := below + [p];
            Read(MergeAll(MergeAll(c, w.root, w.first, w.m), w.second, all, w.m), w.second, 0, w.m) == Top(w.l, all)
  {
    RemergeExactly(c, w, below, p, []);
    assert below + [p] + [] == below + [p];
  }
}
