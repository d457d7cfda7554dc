/** What the second merge gives when a profile is selected (`cli/config.go:789-812`), and
    when that is what a merge of freshly read layers and a copy of the profile would give. */
module ConfigProfile {
  import opened Options
  import opened ConfigChain
  import opened ConfigRemerge
  import opened ConfigAlias

  // ---- The leaf of the profile may change -------------------------------------------

  /** The same world with another leaf for one owner. */
  function WithLeaf(w: World, p: nat, x: Option<int>): World {
    w.(l := w.l.(leaf := match x case None => w.l.leaf - {p} case Some(v) => w.l.leaf[p := v]))
  }

  lemma {:induction false} SameFirst(a: Layers, b: Layers, order: seq<nat>, j: nat)
    requires a.depth == b.depth
    ensures First(a, order, j) == First(b, order, j)
  {
    if order != [] { SameFirst(a, b, order[1..], j); }
  }

  lemma {:induction false} SameTop(a: Layers, b: Layers, order: seq<nat>)
    requires forall d :: d in order ==> Own(a, d) == Own(b, d)
    ensures Top(a, order) == Top(b, order)
  {
    if order != [] {
      assert order[|order| - 1] in order;
      SameTop(a, b, order[..|order| - 1]);
    }
  }

  lemma SameAfter(w: World, p: nat, x: Option<int>, i: nat, j: nat)
    ensures After(WithLeaf(w, p, x), i, j) == After(w, i, j)
  {
    SameFirst(w.l, WithLeaf(w, p, x).l, w.first, 1);
    SameFirst(w.l, WithLeaf(w, p, x).l, w.first, j);
    SameFirst(w.l, WithLeaf(w, p, x).l, w.first, j + 1);
  }

  lemma {:induction false} SameView(w: World, p: nat, x: Option<int>, d: nat, k: nat)
    ensures View(WithLeaf(w, p, x), d, k) == View(w, d, k)
    decreases k
  {
    if k > 0 {
      SameView(w, p, x, d, k - 1);
      if View(w, d, k - 1).Some? { SameAfter(w, p, x, View(w, d, k - 1).value, k - 1); }
    }
  }

  lemma {:induction false} SameGoal(w: World, p: nat, x: Option<int>, done: seq<nat>, k: nat)
    ensures FirstView(WithLeaf(w, p, x), done, k) == FirstView(w, done, k)
    ensures Goal(WithLeaf(w, p, x), done, k) == Goal(w, done, k)
  {
    if done != [] {
      SameView(w, p, x, done[0], k);
      SameGoal(w, p, x, done[1..], k);
    }
  }

  lemma SameLeafOf(w: World, p: nat, x: Option<int>, i: nat)
    requires Sound(w) && p !in w.first && p != w.root
    ensures LeafOf(WithLeaf(w, p, x), i) == if i == p then x else LeafOf(w, i)
  {
    SameFirst(w.l, WithLeaf(w, p, x).l, w.first, w.m);
    SameTop(w.l, WithLeaf(w, p, x).l, w.first);
    FirstIs(w.l, w.first, w.m);
  }

  /** Setting a leaf that is not the one merged so far. */
  lemma SetAside(c: Chain<nat>, w: World, p: nat, done: seq<nat>, v: Option<int>, x: int)
    requires Sound(w) && Again(c, w, done, v) && p !in w.first && p != w.root && Goal(w, done, w.m) != Some(p)
    ensures Again(c.(leaf := c.leaf[p := x]), WithLeaf(w, p, Some(x)), done, v)
  {
    var c', w' := c.(leaf := c.leaf[p := x]), WithLeaf(w, p, Some(x));
    forall i: nat, j: nat {:trigger Next(c', i, j)} | j < w'.m
      ensures Next(c', i, j) == if Goal(w', done, j) == Some(i) then Goal(w', done, j + 1) else After(w', i, j)
    {
      assert Next(c', i, j) == Next(c, i, j);
      SameGoal(w, p, Some(x), done, j);
      SameGoal(w, p, Some(x), done, j + 1);
      SameAfter(w, p, Some(x), i, j);
    }
    forall i: nat {:trigger Leaf(c', i)}
      ensures Leaf(c', i) == if Goal(w', done, w'.m) == Some(i) then v else LeafOf(w', i)
    {
      assert Leaf(c', i) == if i == p then Some(x) else Leaf(c, i);
      SameGoal(w, p, Some(x), done, w.m);
      SameLeafOf(w, p, Some(x), i);
    }
  }

  /** Setting the leaf that is merged. */
  lemma SetGoal(c: Chain<nat>, w: World, p: nat, done: seq<nat>, v: Option<int>, x: int)
    requires Again(c, w, done, v) && Goal(w, done, w.m) == Some(p)
    ensures Again(c.(leaf := c.leaf[p := x]), w, done, Some(x))
  {
    var c' := c.(leaf := c.leaf[p := x]);
    assert forall i: nat, j: nat :: Next(c', i, j) == Next(c, i, j);
    assert forall i: nat :: Leaf(c', i) == if i == p then Some(x) else Leaf(c, i);
  }

  // ---- A profile that is not linked in ----------------------------------------------

  /** What does not depend on the leaf of the profile: the views of the layers above. */
  lemma SameWritten(w: World, p: nat, x: Option<int>, done: seq<nat>, v: Option<int>, d: nat)
    requires Sound(w) && p !in w.first && p != w.root && d in w.first
    ensures Written(WithLeaf(w, p, x), done, v, d) == Written(w, done, v, d)
  {
    SameView(w, p, x, d, w.m);
    SameGoal(w, p, x, done, w.m);
    if w.m >= 1 { ViewAtLeaf(w, d); }
    FirstIs(w.l, w.first, w.m);
    if View(w, d, w.m).Some? { SameLeafOf(w, p, x, View(w, d, w.m).value); }
  }

  /** The state of a merge in which only the leaf of the profile is not as it was. */
  ghost predicate AgainAside(c: Chain<nat>, w: World, p: nat, done: seq<nat>, v: Option<int>) {
    exists x: Option<int> :: Sound(WithLeaf(w, p, x)) && Again(c, WithLeaf(w, p, x), done, v)
  }

  lemma WalkAside(c: Chain<nat>, w: World, p: nat, done: seq<nat>, v: Option<int>, d: nat)
    requires Sound(w) && AgainAside(c, w, p, done, v) && p !in w.first && p != w.root && d in w.first
    ensures AgainAside(Walk(c, w.second, d, 0, w.m), w, p, done + [d], Written(w, done, v, d))
  {
    var x :| Sound(WithLeaf(w, p, x)) && Again(c, WithLeaf(w, p, x), done, v);
    WalkAgain(c, WithLeaf(w, p, x), done, v, d, 0);
    SameWritten(w, p, x, done, v, d);
  }

  lemma WithTwice(w: World, p: nat, y: Option<int>, x: int)
    ensures WithLeaf(WithLeaf(w, p, y), p, Some(x)) == WithLeaf(w, p, Some(x))
    ensures Sound(w) && p in w.l.depth && Depth(w.l, p) == w.m ==> Sound(WithLeaf(w, p, Some(x)))
  {
    assert WithLeaf(WithLeaf(w, p, y), p, Some(x)).l.leaf == WithLeaf(w, p, Some(x)).l.leaf;
  }

  lemma SettleAside(c: Chain<nat>, w: World, p: nat, done: seq<nat>, v: Option<int>, x: Option<int>)
    requires Sound(w) && AgainAside(c, w, p, done, v) && p !in w.first && p != w.root && Goal(w, done, w.m) != Some(p)
    requires x.Some? ==> p in w.l.depth && Depth(w.l, p) == w.m
    ensures AgainAside(Settled(c, p, x), w, p, done, v)
  {
    if x.Some? {
      var y :| Sound(WithLeaf(w, p, y)) && Again(c, WithLeaf(w, p, y), done, v);
      var w' := WithLeaf(w, p, y);
      SameGoal(w, p, y, done, w.m);
      SetAside(c, w', p, done, v, x.value);
      WithTwice(w, p, y, x.value);
    }
  }

  lemma GoalStays(w: World, done: seq<nat>, more: seq<nat>, p: nat)
    requires Goal(w, done, w.m) == Some(p) && w.m >= 1
    ensures Goal(w, done + more, w.m) == Some(p)
  {
    FirstViewConcat(w, done, more, w.m);
  }

  lemma SettingFacts(g: Setting, d: nat)
    requires Valid(g) && d in All(g)
    ensures var w := MainWorld(g); Sound(w) && g.p !in w.first && g.p != w.root && d in w.first && d in w.l.depth
    ensures Writes(g, d).Some? ==> Depth(WithProfile(g), g.p) == g.m && g.p in WithProfile(g).depth
    ensures Own(WithProfile(g), d) == Own(g.s.main, d)
  {
    WorldIsSound(g);
    if Writes(g, d).Some? { LeafIsDeep(g, d); }
  }

  /** One layer above, when the profile is not linked in. */
  lemma LayerAside(c: Chain<nat>, g: Setting, done: seq<nat>, v: Option<int>, d: nat, late: bool)
    requires Valid(g) && d in All(g) && AgainAside(c, MainWorld(g), g.p, done, v)
    requires Goal(MainWorld(g), done, g.m) != Some(g.p) && Goal(MainWorld(g), done + [d], g.m) != Some(g.p)
    ensures AgainAside(Layered(c, g, d, late), MainWorld(g), g.p, done + [d], Written(MainWorld(g), done, v, d))
  {
    var w := MainWorld(g);
    SettingFacts(g, d);
    if late {
      WalkAside(c, w, g.p, done, v, d);
      SettleAside(Walk(c, g.second, d, 0, g.m), w, g.p, done + [d], Written(w, done, v, d), Writes(g, d));
    } else {
      SettleAside(c, w, g.p, done, v, Writes(g, d));
      WalkAside(Settled(c, g.p, Writes(g, d)), w, g.p, done, v, d);
    }
  }

  lemma LeafAgainSnoc(w: World, done: seq<nat>, d: nat)
    ensures LeafAgain(w, done + [d]) == Written(w, done, LeafAgain(w, done), d)
  {
    assert (done + [d])[..|done|] == done;
  }

  lemma GoalBefore(g: Setting, done: seq<nat>, d: nat)
    requires Valid(g) && Goal(MainWorld(g), done + [d], g.m) != Some(g.p)
    ensures Goal(MainWorld(g), done, g.m) != Some(g.p)
  {
    if g.m >= 1 && Goal(MainWorld(g), done, g.m) == Some(g.p) { GoalStays(MainWorld(g), done, [d], g.p); }
  }

  lemma {:induction false} LayersAside(c: Chain<nat>, g: Setting, done: seq<nat>, order: seq<nat>, late: nat -> bool)
    requires Valid(g) && (forall d :: d in order ==> d in All(g))
             && AgainAside(c, MainWorld(g), g.p, done, LeafAgain(MainWorld(g), done))
    requires Goal(MainWorld(g), done + order, g.m) != Some(g.p)
    ensures AgainAside(LayeredAll(c, g, order, late), MainWorld(g), g.p, done + order,
            LeafAgain(MainWorld(g), done + order))
    decreases |order|
  {
    var w := MainWorld(g);
    if order == [] {
      assert done + order == done;
    } else {
      var front, d := order[..|order| - 1], order[|order| - 1];
      assert d in order && forall x :: x in front ==> x in order;
      var before := done + front;
      assert done + order == before + [d];
      GoalBefore(g, before, d);
      LayersAside(c, g, done, front, late);
      LayerAside(LayeredAll(c, g, front, late), g, before, LeafAgain(w, before), d, late(d));
      LeafAgainSnoc(w, before, d);
    }
  }

  // ---- A profile that is linked in --------------------------------------------------

  function OrElse(x: Option<int>, v: Option<int>): Option<int> { if x.Some? then x else v }

  /** The leaf of the profile after a layer has been merged into it along the path. */
  function Shown(w: World, p: nat, v: Option<int>, d: nat): Option<int> {
    match View(w, d, w.m)
    case None => v
    case Some(e) => if e == p then v else OrElse(LeafOf(w, e), v)
  }

  /** The leaf of the profile after the layers above it, once it is linked in. */
  function SharedLeaf(g: Setting, order: seq<nat>, late: nat -> bool): Option<int> {
    if order == [] then ProfileLeaf(g)
    else
      var d := order[|order| - 1];
      var v := SharedLeaf(g, order[..|order| - 1], late);
      if late(d) then OrElse(Writes(g, d), Shown(MainWorld(g), g.p, v, d))
      else Shown(MainWorld(g), g.p, OrElse(Writes(g, d), v), d)
  }

  lemma SettleShared(c: Chain<nat>, w: World, p: nat, done: seq<nat>, v: Option<int>, x: Option<int>)
    requires Again(c, w, done, v) && Goal(w, done, w.m) == Some(p)
    ensures Again(Settled(c, p, x), w, done, OrElse(x, v))
  {
    if x.Some? { SetGoal(c, w, p, done, v, x.value); }
  }

  lemma LayerShared(c: Chain<nat>, g: Setting, done: seq<nat>, v: Option<int>, d: nat, late: bool)
    requires Valid(g) && d in All(g) && g.m >= 1 && Again(c, MainWorld(g), done, v)
             && Goal(MainWorld(g), done, g.m) == Some(g.p)
    ensures Goal(MainWorld(g), done + [d], g.m) == Some(g.p)
    ensures Again(Layered(c, g, d, late), MainWorld(g), done + [d],
                  if late then OrElse(Writes(g, d), Shown(MainWorld(g), g.p, v, d))
                  else Shown(MainWorld(g), g.p, OrElse(Writes(g, d), v), d))
  {
    var w := MainWorld(g);
    SettingFacts(g, d);
    GoalStays(w, done, [d], g.p);
    if late {
      WalkAgain(c, w, done, v, d, 0);
      SettleShared(Walk(c, g.second, d, 0, g.m), w, g.p, done + [d], Written(w, done, v, d), Writes(g, d));
    } else {
      SettleShared(c, w, g.p, done, v, Writes(g, d));
      WalkAgain(Settled(c, g.p, Writes(g, d)), w, done, OrElse(Writes(g, d), v), d, 0);
    }
  }

  lemma {:induction false} LayersShared(c: Chain<nat>, g: Setting, done: seq<nat>, order: seq<nat>, late: nat -> bool)
    requires Valid(g) && g.m >= 1 && (forall d :: d in order ==> d in All(g))
    requires Again(c, MainWorld(g), done, ProfileLeaf(g)) && Goal(MainWorld(g), done, g.m) == Some(g.p)
    ensures Goal(MainWorld(g), done + order, g.m) == Some(g.p)
    ensures Again(LayeredAll(c, g, order, late), MainWorld(g), done + order, SharedLeaf(g, order, late))
    decreases |order|
  {
    if order == [] {
      assert done + order == done;
    } else {
      var front, d := order[..|order| - 1], order[|order| - 1];
      assert d in order && forall x :: x in front ==> x in order;
      assert done + order == done + front + [d];
      LayersShared(c, g, done, front, late);
      LayerShared(LayeredAll(c, g, front, late), g, done + front, SharedLeaf(g, front, late), d, late(d));
    }
  }

  // ---- The leaf of a profile that is linked in --------------------------------------

  /** A layer behind another in a list is not its first with so many objects, if the other
      has as many. */
  lemma FirstEarlier(l: Layers, a: seq<nat>, b: seq<nat>, e: nat, j: nat)
    requires e in a && Depth(l, e) >= j
    ensures First(l, a + b, j).Some? && First(l, a + b, j).value in a
  {
    FirstNone(l, a, j);
    FirstIs(l, a, j);
    FirstOfPrefix(l, a, a + b, j);
  }

  /** A layer that does not set the leaf, behind one that does, leaves it alone. */
  lemma NotShown(w: World, p: nat, a: seq<nat>, b: seq<nat>, e: nat, d: nat, v: Option<int>)
    requires Sound(w) && w.m >= 1 && w.first == a + b && e in a && d in b && Own(w.l, e).Some? && Own(w.l, d).None?
    ensures Shown(w, p, v, d) == v
  {
    assert d in w.first && e in w.first;
    FirstEarlier(w.l, a, b, e, w.m);
    ApartLists(w, a, b, d);
    ViewAtLeaf(w, d);
    if View(w, d, w.m).Some? && View(w, d, w.m) != Some(d) {
      ViewOfFirst(w, d, w.m);
      FirstEarlier(w.l, a, b, e, Depth(w.l, d));
    }
  }

  lemma ApartLists(w: World, a: seq<nat>, b: seq<nat>, d: nat)
    requires Sound(w) && w.first == a + b && d in b
    ensures d !in a
  {
    var j :| 0 <= j < |b| && b[j] == d;
    assert w.first[|a| + j] == d;
    assert forall k :: 0 <= k < |a| ==> w.first[k] == a[k];
  }

  /** When no layer sets the leaf, none shows one. */
  lemma NoneShown(w: World, p: nat, d: nat, v: Option<int>)
    requires Sound(w) && w.m >= 1 && d in w.first && forall x :: x in w.first ==> Own(w.l, x).None?
    ensures Shown(w, p, v, d) == v
  {
    ViewAtLeaf(w, d);
    TopOfNone(w.l, w.first);
    FirstIs(w.l, w.first, w.m);
  }

  ghost predicate Silent(g: Setting, d: nat) { forall v :: Shown(MainWorld(g), g.p, v, d) == v }

  /** Layers that show no leaf leave what their profiles write last. */
  lemma {:induction false} SilentTail(g: Setting, front: seq<nat>, post: seq<nat>, late: nat -> bool)
    requires forall d :: d in post ==> Silent(g, d)
    ensures SharedLeaf(g, front + post, late)
         == OrElse(TopExcept(g.s.prof, post, OwnerOf(g, g.m)), SharedLeaf(g, front, late))
    decreases |post|
  {
    if post == [] {
      assert front + post == front;
    } else {
      var rest, d := post[..|post| - 1], post[|post| - 1];
      assert (front + post)[..|front + post| - 1] == front + rest && d in post;
      assert forall x :: x in rest ==> x in post;
      SilentTail(g, front, rest, late);
    }
  }

  /** What the profiles of the layers above write last is the leaf of the merged profile. */
  lemma WrittenIsLeaf(g: Setting, a: seq<nat>, b: seq<nat>)
    requires Valid(g) && All(g) == a + b && TopExcept(g.s.prof, b, OwnerOf(g, g.m)).Some?
    ensures TopExcept(g.s.prof, b, OwnerOf(g, g.m)) == ProfileLeaf(g)
  {
    var w := World(g.s.prof, All(g), g.root, g.second, g.m + 2);
    var f := OwnerOf(g, g.m);
    ExceptOther(g.s.prof, b, f);
    TopAmong(g.s.prof, b);
    var d :| d in b && Own(g.s.prof, d).Some?;
    SomeLeafOwner(g, d);
    TopExceptConcat(g.s.prof, a, b, f);
    ExceptInFirst(w, All(g));
  }

  lemma SomeLeafOwner(g: Setting, d: nat)
    requires Valid(g) && d in All(g) && Own(g.s.prof, d).Some?
    ensures First(g.s.prof, All(g), g.m + 2) == Some(OwnerOf(g, g.m))
  {
    FirstNone(g.s.prof, All(g), g.m + 2);
  }

  /** The last of some layers that sets the leaf. */
  lemma LastOne(l: Layers, order: seq<nat>) returns (i: nat)
    requires exists d :: d in order && Own(l, d).Some?
    ensures i < |order| && Own(l, order[i]).Some? && (forall k :: i < k < |order| ==> Own(l, order[k]).None?)
    ensures Top(l, order) == Own(l, order[i])
  {
    var front, last := order[..|order| - 1], order[|order| - 1];
    if Own(l, last).Some? {
      i := |order| - 1;
    } else {
      assert forall d :: d in order <==> d in front || d == last;
      i := LastOne(l, front);
    }
  }

  /** A layer above the profile writes its own profile's leaf, no layer above it sets the
      leaf itself, and neither does it, unless its `profiles` key comes late. */
  predicate WrittenLast(g: Setting, late: nat -> bool) {
    exists i :: 0 <= i < |g.above| && Writes(g, g.above[i]).Some? && Stands(g, i, late)
  }

  predicate Stands(g: Setting, i: nat, late: nat -> bool)
    requires i < |g.above|
  {
    && (Own(g.s.main, g.above[i]).Some? ==> late(g.above[i]))
    && forall k :: i < k < |g.above| ==> Own(g.s.main, g.above[k]).None?
  }

  /** The layer that sets the leaf last shows its own value. */
  lemma LastShows(g: Setting, i: nat, v: Option<int>)
    requires Valid(g) && g.m >= 1 && i < |g.above| && Own(g.s.main, g.above[i]).Some?
    requires Top(WithProfile(g), g.above) == Own(g.s.main, g.above[i])
    ensures Shown(MainWorld(g), g.p, v, g.above[i]) == Own(g.s.main, g.above[i])
  {
    var w, d := MainWorld(g), g.above[i];
    assert d in All(g);
    SettingFacts(g, d);
    ViewAtLeaf(w, d);
    TopConcat(w.l, g.below, g.above);
  }

  /** When no layer above sets the leaf. */
  lemma NoneAbove(g: Setting, late: nat -> bool)
    requires Valid(g) && g.m >= 1 && forall d :: d in All(g) ==> Own(g.s.main, d).None?
    ensures SharedLeaf(g, g.above, late) == ProfileLeaf(g)
  {
    forall d | d in g.above
      ensures Silent(g, d)
    {
      forall x | x in All(g)
        ensures Own(WithProfile(g), x).None?
      {
        SettingFacts(g, x);
      }
      assert d in All(g);
      SettingFacts(g, d);
      forall v ensures Shown(MainWorld(g), g.p, v, d) == v { NoneShown(MainWorld(g), g.p, d, v); }
    }
    assert [] + g.above == g.above;
    SilentTail(g, [], g.above, late);
    if TopExcept(g.s.prof, g.above, OwnerOf(g, g.m)).Some? { WrittenIsLeaf(g, g.below, g.above); }
  }

  /** The layers behind the last one that sets the leaf. */
  lemma SilentBehind(g: Setting, i: nat)
    requires Valid(g) && g.m >= 1 && i < |g.above| && Own(g.s.main, g.above[i]).Some?
    requires forall k :: i < k < |g.above| ==> Own(g.s.main, g.above[k]).None?
    ensures forall d :: d in g.above[i + 1..] ==> Silent(g, d)
  {
    var a, b := g.below + g.above[..i + 1], g.above[i + 1..];
    assert All(g) == a + b && g.above[i] in a;
    SettingFacts(g, g.above[i]);
    forall d | d in b
      ensures Silent(g, d)
    {
      assert d in All(g);
      SettingFacts(g, d);
      forall v ensures Shown(MainWorld(g), g.p, v, d) == v { NotShown(MainWorld(g), g.p, a, b, g.above[i], d, v); }
    }
  }

  /** Whether a profile behind the last layer that sets the leaf writes. */
  lemma TailWrites(g: Setting, i: nat, late: nat -> bool)
    requires i < |g.above| && Own(g.s.main, g.above[i]).Some?
    requires forall k :: i < k < |g.above| ==> Own(g.s.main, g.above[k]).None?
    ensures WrittenLast(g, late) <==>
              || TopExcept(g.s.prof, g.above[i + 1..], OwnerOf(g, g.m)).Some?
              || (Writes(g, g.above[i]).Some? && late(g.above[i]))
  {
    var b, f := g.above[i + 1..], OwnerOf(g, g.m);
    ExceptOther(g.s.prof, b, f);
    if TopExcept(g.s.prof, b, f).Some? {
      var d :| d in b && d != f && Own(g.s.prof, d).Some?;
      var j :| 0 <= j < |b| && b[j] == d;
      assert g.above[i + 1 + j] == d && Stands(g, i + 1 + j, late);
    } else if Writes(g, g.above[i]).Some? && late(g.above[i]) {
      assert Stands(g, i, late);
    }
    if WrittenLast(g, late) {
      var j :| 0 <= j < |g.above| && Writes(g, g.above[j]).Some? && Stands(g, j, late);
      if j > i { assert b[j - i - 1] == g.above[j]; }
    }
  }

  /** The leaf of a profile that is linked in, at the end of the merge. */
  lemma SharedIs(g: Setting, late: nat -> bool)
    requires Valid(g) && g.m >= 1 && forall d :: d in g.below ==> Own(g.s.main, d).None?
    ensures SharedLeaf(g, g.above, late)
         == if WrittenLast(g, late) then ProfileLeaf(g) else OrElse(Top(WithProfile(g), g.above), ProfileLeaf(g))
  {
    SameTopAbove(g);
    if forall d :: d in g.above ==> Own(g.s.main, d).None? {
      NoneAbove(g, late);
      TopOfNone(g.s.main, g.above);
    } else {
      var i := LastOne(g.s.main, g.above);
      LastLeaf(g, i, late);
    }
  }

  lemma SameTopAbove(g: Setting)
    requires Valid(g)
    ensures Top(WithProfile(g), g.above) == Top(g.s.main, g.above)
  {
    forall d | d in g.above
      ensures Own(WithProfile(g), d) == Own(g.s.main, d)
    {
      assert d in All(g);
      SettingFacts(g, d);
    }
    SameTop(WithProfile(g), g.s.main, g.above);
  }

  /** The last layer above that sets the leaf. */
  predicate IsLast(g: Setting, i: nat) {
    && i < |g.above| && Own(g.s.main, g.above[i]).Some?
    && (forall k :: i < k < |g.above| ==> Own(g.s.main, g.above[k]).None?)
    && Top(WithProfile(g), g.above) == Own(g.s.main, g.above[i])
  }

  lemma LeafAtLast(g: Setting, i: nat, late: nat -> bool)
    requires Valid(g) && g.m >= 1 && IsLast(g, i)
    ensures var d := g.above[i];
            SharedLeaf(g, g.above[..i + 1], late) == if late(d) && Writes(g, d).Some? then Writes(g, d)
                else Own(g.s.main, d)
  {
    var a, d := g.above[..i + 1], g.above[i];
    assert a[..|a| - 1] == g.above[..i] && a[|a| - 1] == d;
    var v := SharedLeaf(g, g.above[..i], late);
    LastShows(g, i, v);
    LastShows(g, i, OrElse(Writes(g, d), v));
  }

  lemma LastLeaf(g: Setting, i: nat, late: nat -> bool)
    requires Valid(g) && g.m >= 1 && IsLast(g, i)
    ensures SharedLeaf(g, g.above, late) == if WrittenLast(g, late) then ProfileLeaf(g) else Own(g.s.main, g.above[i])
  {
    var a, b, f := g.above[..i + 1], g.above[i + 1..], OwnerOf(g, g.m);
    assert a + b == g.above;
    SilentBehind(g, i);
    SilentTail(g, a, b, late);
    TailWrites(g, i, late);
    LeafAtLast(g, i, late);
    if TopExcept(g.s.prof, b, f).Some? {
      assert All(g) == (g.below + a) + b;
      WrittenIsLeaf(g, g.below + a, b);
    } else if Writes(g, g.above[i]).Some? {
      OneWrites(g, i);
    }
  }

  lemma OneWrites(g: Setting, i: nat)
    requires Valid(g) && i < |g.above| && Writes(g, g.above[i]).Some?
    requires TopExcept(g.s.prof, g.above[i + 1..], OwnerOf(g, g.m)).None?
    ensures Writes(g, g.above[i]) == ProfileLeaf(g)
  {
    var b, c, f := g.above[i + 1..], [g.above[i]], OwnerOf(g, g.m);
    assert All(g) == (g.below + g.above[..i]) + (c + b);
    TopExceptConcat(g.s.prof, c, b, f);
    assert c[..|c| - 1] == [] && c[|c| - 1] == g.above[i];
    WrittenIsLeaf(g, g.below + g.above[..i], c + b);
  }

  // ---- The result -------------------------------------------------------------------

  /** The profile's own objects become part of the document: no layer below has the key,
      and the merged profile has every object around the leaf. */
  predicate Shares(g: Setting) { g.m >= 1 && First(g.s.main, g.below, 1).None? && Deep(g) == g.m }

  /** Its leaf becomes that of the document, also at the end of other objects. */
  predicate Linked(g: Setting) {
    g.m >= 1 && Deep(g) == g.m && (First(g.s.main, g.below, 1).None? || First(g.s.main, All(g), g.m).None?)
  }

  /** What a merge of freshly read layers and of a copy of the profile has at the path. */
  function Wanted(g: Setting): Option<int> { Top(WithProfile(g), g.below + [g.p] + g.above) }

  /** The profile wins although a layer above it sets the leaf. */
  predicate WinsWrongly(g: Setting, late: nat -> bool) {
    Overwrites(MainWorld(g), g.below, g.p, g.above) || (Shares(g) && WrittenLast(g, late))
  }

  /** The leaf after the layers below the profile and the profile itself. */
  lemma BelowAndProfile(g: Setting, late: nat -> bool)
    requires Valid(g)
    ensures var once := MergeAll(ReadChain(WithProfile(g)), g.root, All(g), g.m);
            var c := Walk(LayeredAll(once, g, g.below, late), g.second, g.p, 0, g.m);
            Again(c, MainWorld(g), g.below + [g.p], LeafAgain(MainWorld(g), g.below + [g.p]))
  {
    var w := MainWorld(g);
    var once := MergeAll(ReadChain(WithProfile(g)), g.root, All(g), g.m);
    var done := g.below + [g.p];
    WorldIsSound(g);
    FirstMergeIsMerged(g);
    LayersBelow(once, g, g.below, late);
    assert done[..|done| - 1] == g.below && done[|done| - 1] == g.p;
    forall i | i in done
      ensures i in w.l.depth
    {
      if i != g.p { assert i in All(g); }
    }
    MergeAgain(once, w, done);
  }

  lemma {:induction false} LayersBelow(c: Chain<nat>, g: Setting, order: seq<nat>, late: nat -> bool)
    requires Valid(g) && forall d :: d in order ==> d in g.below
    ensures LayeredAll(c, g, order, late) == MergeAll(c, g.second, order, g.m)
    decreases |order|
  {
    if order != [] {
      assert order[|order| - 1] in order;
      LayersBelow(c, g, order[..|order| - 1], late);
      ProfilesBelow(g);
    }
  }

  lemma ReadAside(c: Chain<nat>, g: Setting, done: seq<nat>)
    requires Valid(g) && AgainAside(c, MainWorld(g), g.p, done, LeafAgain(MainWorld(g), done))
    ensures Read(c, g.second, 0, g.m) == if Goal(MainWorld(g), done, g.m).Some? then LeafAgain(MainWorld(g), done)
            else None
  {
    var w := MainWorld(g);
    var x :| Sound(WithLeaf(w, g.p, x)) && Again(c, WithLeaf(w, g.p, x), done, LeafAgain(w, done));
    SameGoal(w, g.p, x, done, g.m);
    ReadAgain(c, WithLeaf(w, g.p, x), done, LeafAgain(w, done), 0);
  }

  lemma WithOwn(w: World, p: nat)
    ensures WithLeaf(w, p, Own(w.l, p)) == w
  {
    assert WithLeaf(w, p, Own(w.l, p)).l.leaf == w.l.leaf;
  }

  lemma SameFirstBelow(g: Setting, j: nat)
    requires Valid(g)
    ensures First(WithProfile(g), g.below, j) == First(g.s.main, g.below, j)
  {
    forall d | d in g.below
      ensures Depth(WithProfile(g), d) == Depth(g.s.main, d)
    {
      assert d in All(g);
    }
    SameDepths(WithProfile(g), g.s.main, g.below, j);
  }

  lemma SameFirstAll(g: Setting, j: nat)
    requires Valid(g)
    ensures First(WithProfile(g), All(g), j) == First(g.s.main, All(g), j)
  {
    forall d | d in All(g)
      ensures Depth(WithProfile(g), d) == Depth(g.s.main, d)
    {
    }
    SameDepths(WithProfile(g), g.s.main, All(g), j);
  }

  lemma {:induction false} SameDepths(a: Layers, b: Layers, order: seq<nat>, j: nat)
    requires forall d :: d in order ==> Depth(a, d) == Depth(b, d)
    ensures First(a, order, j) == First(b, order, j)
  {
    if order != [] {
      assert order[0] in order;
      SameDepths(a, b, order[1..], j);
    }
  }

  lemma NotLinked(g: Setting)
    requires Valid(g) && !Linked(g)
    ensures Goal(MainWorld(g), g.below + [g.p] + g.above, g.m) != Some(g.p)
  {
    var w := MainWorld(g);
    WorldIsSound(g);
    SameFirstBelow(g, 1);
    SameFirstAll(g, g.m);
    if g.m >= 1 {
      GoalAtLeaf(w, g.below, g.p, g.above);
      FirstIs(w.l, w.first, w.m);
    }
  }

  lemma StartAside(c: Chain<nat>, g: Setting, done: seq<nat>, v: Option<int>)
    requires Valid(g) && Again(c, MainWorld(g), done, v)
    ensures AgainAside(c, MainWorld(g), g.p, done, v)
  {
    WorldIsSound(g);
    WithOwn(MainWorld(g), g.p);
    assert Again(c, WithLeaf(MainWorld(g), g.p, Own(WithProfile(g), g.p)), done, v);
  }

  lemma AboveAside(c: Chain<nat>, g: Setting, late: nat -> bool)
    requires Valid(g) && !Linked(g)
             && AgainAside(c, MainWorld(g), g.p, g.below + [g.p], LeafAgain(MainWorld(g), g.below + [g.p]))
    ensures Read(LayeredAll(c, g, g.above, late), g.second, 0, g.m)
         == if Overwrites(MainWorld(g), g.below, g.p, g.above) then ProfileLeaf(g) else Wanted(g)
  {
    NotLinked(g);
    LayersAside(c, g, g.below + [g.p], g.above, late);
    ReadAside(LayeredAll(c, g, g.above, late), g, g.below + [g.p] + g.above);
    WorldIsSound(g);
    RemergedLeaf(MainWorld(g), g.below, g.p, g.above);
  }

  lemma UnlinkedResult(g: Setting, late: nat -> bool)
    requires Valid(g) && !Linked(g)
    ensures Read(JoinedMerge(g, late), g.second, 0, g.m)
         == if Overwrites(MainWorld(g), g.below, g.p, g.above) then ProfileLeaf(g) else Wanted(g)
  {
    var once := MergeAll(ReadChain(WithProfile(g)), g.root, All(g), g.m);
    var c := Walk(LayeredAll(once, g, g.below, late), g.second, g.p, 0, g.m);
    BelowAndProfile(g, late);
    StartAside(c, g, g.below + [g.p], LeafAgain(MainWorld(g), g.below + [g.p]));
    AboveAside(c, g, late);
  }

  lemma LinkedResult(g: Setting, late: nat -> bool)
    requires Valid(g) && Linked(g)
    ensures Read(JoinedMerge(g, late), g.second, 0, g.m) == if WrittenLast(g, late) then ProfileLeaf(g) else Wanted(g)
  {
    var w, done := MainWorld(g), g.below + [g.p];
    var once := MergeAll(ReadChain(WithProfile(g)), g.root, All(g), g.m);
    var c := Walk(LayeredAll(once, g, g.below, late), g.second, g.p, 0, g.m);
    BelowAndProfile(g, late);
    LinkedLeaf(g);
    LayersShared(c, g, done, g.above, late);
    ReadAgain(LayeredAll(c, g, g.above, late), w, done + g.above, SharedLeaf(g, g.above, late), 0);
    NoLeafBelow(g);
    SharedIs(g, late);
    WantedIs(g);
  }

  /** Nothing below the profile has the path. */
  lemma NoLeafBelow(g: Setting)
    requires Valid(g) && Linked(g)
    ensures forall d :: d in g.below ==> Own(g.s.main, d).None?
    ensures Top(WithProfile(g), g.below) == None
  {
    FirstNone(g.s.main, g.below, 1);
    FirstNone(g.s.main, All(g), g.m);
    forall d | d in g.below
      ensures Own(g.s.main, d).None? && Own(WithProfile(g), d).None?
    {
      assert d in All(g);
      SettingFacts(g, d);
    }
    TopOfNone(WithProfile(g), g.below);
  }

  lemma WantedIs(g: Setting)
    requires Valid(g) && Top(WithProfile(g), g.below) == None
    ensures Wanted(g) == OrElse(Top(WithProfile(g), g.above), ProfileLeaf(g))
  {
    WorldIsSound(g);
    TopConcat(WithProfile(g), g.below + [g.p], g.above);
    TopSnoc(WithProfile(g), g.below, g.p);
  }

  lemma LinkedLeaf(g: Setting)
    requires Valid(g) && Linked(g)
    ensures Goal(MainWorld(g), g.below + [g.p], g.m) == Some(g.p)
    ensures LeafAgain(MainWorld(g), g.below + [g.p]) == ProfileLeaf(g)
  {
    var w, done := MainWorld(g), g.below + [g.p];
    WorldIsSound(g);
    SameFirstBelow(g, 1);
    SameFirstAll(g, g.m);
    GoalInPrefix(w, g.below);
    FirstViewSnoc(w, g.below, g.p, g.m);
    ViewOfNew(w, g.p, g.m);
    LeafAgainIsLastWrite(w, done);
    forall d | d in g.below ensures d in w.first { }
    WritesNewest(w, g.below, g.p);
    NoLeafBelow(g);
    TopSnoc(w.l, g.below, g.p);
  }

  /** Merging again with the profile in its place gives, at every path, what a merge of
      freshly read layers and a copy of the profile would give, except exactly in two cases,
      and then it gives the profile's value: a layer above the profile has lent its object
      to a layer below and alone sets the leaf, or the profile's own object has become part
      of the document and a layer above writes its own `profiles` into it last. */
  lemma ProfileExactly(r: Chain<Obj>, g: Setting, once: nat -> bool, late: nat -> bool)
    requires Valid(g) && JustRead(r, g.s, g.m)
    ensures var merged := MergeLayers(r, g.root, All(g), g.m, once);
            && ProfileOf(merged, g.root).Some?
            && Read(MergeWith(merged, g.second, g.below, ProfileOf(merged, g.root).value, g.above, g.m, late),
               Main(g.second), 2, g.m + 2)
               == if WinsWrongly(g, late) then ProfileLeaf(g) else Wanted(g)
  {
    MergeIsJoined(r, g, once, late);
    if !Linked(g) {
      UnlinkedResult(g, late);
    } else {
      LinkedResult(g, late);
      LinkedIsNotLent(g);
    }
  }

  /** When the profile's leaf is that of the document, no layer has lent its object; and
      unless the profile shares its topmost object, no layer has the path. */
  lemma LinkedIsNotLent(g: Setting)
    requires Valid(g) && Linked(g)
    ensures !Overwrites(MainWorld(g), g.below, g.p, g.above)
    ensures !Shares(g) ==> Wanted(g) == ProfileLeaf(g)
  {
    SameFirstBelow(g, 1);
    SameFirstAll(g, g.m);
    if !Shares(g) { NobodyWants(g); }
  }

  lemma NobodyWants(g: Setting)
    requires Valid(g) && Linked(g) && First(g.s.main, All(g), g.m).None?
    ensures Wanted(g) == ProfileLeaf(g)
  {
    FirstNone(g.s.main, All(g), g.m);
    forall d | d in g.above
      ensures Own(g.s.main, d).None?
    {
      assert d in All(g);
    }
    TopOfNone(g.s.main, g.above);
    SameTopAbove(g);
    NoLeafBelow(g);
    WantedIs(g);
  }

  /** A profile with no layer above it is merged as if all were read afresh: nothing that
      writes into its objects comes later. */
  lemma OnTopIsFresh(r: Chain<Obj>, g: Setting, once: nat -> bool, late: nat -> bool)
    requires Valid(g) && JustRead(r, g.s, g.m) && g.above == []
    ensures var merged := MergeLayers(r, g.root, All(g), g.m, once);
            && ProfileOf(merged, g.root).Some?
            && Read(MergeWith(merged, g.second, g.below, ProfileOf(merged, g.root).value, [], g.m, late),
               Main(g.second), 2, g.m + 2)
               == Wanted(g)
  {
    ProfileExactly(r, g, once, late);
  }

  // ---- Cases ------------------------------------------------------------------------

  /** A user file whose profile sets the leaf, a project file that sets it, and a third
      file whose own profile of that name sets it: with the profile selected the third
      file's profile wins over the project. The layers are 1, 2 and 3. */
  function ThreeFiles(fileSets: bool): Setting {
    Setting(Sources(if fileSets then Layers(map[1 := 0, 2 := 0, 3 := 1], map[3 := 3])
                    else Layers(map[1 := 0, 2 := 1, 3 := 0], map[2 := 3]),
                    Layers(map[1 := 3, 2 := 0, 3 := 3], map[1 := 1, 3 := 5])),
            [1], [2, 3], 10, 11, 12, 1)
  }

  lemma ThreeFilesAreValid(g: Setting, fileSets: bool)
    requires g == ThreeFiles(fileSets)
    ensures Valid(g) && All(g) == [1, 2, 3] && First(g.s.prof, All(g), 3) == Some(1) && ProfileLeaf(g) == Some(5)
  {
    assert [1] + [2, 3] == [1, 2, 3];
    ThreeProfiles(g.s.prof);
  }

  lemma ThreeProfiles(l: Layers)
    requires l == Layers(map[1 := 3, 2 := 0, 3 := 3], map[1 := 1, 3 := 5])
    ensures First(l, [1, 2, 3], 2) == First(l, [1, 2, 3], 3) == Some(1) && Top(l, [1, 2, 3]) == Some(5)
  {
    assert [1, 2, 3][|[1, 2, 3]| - 1] == 3 && Own(l, 3) == Some(5);
  }

  lemma ThreeFilesShare(g: Setting, fileSets: bool)
    requires g == ThreeFiles(fileSets) && Valid(g) && First(g.s.prof, All(g), 3) == Some(1)
    ensures Shares(g) && Linked(g) && Writes(g, 3) == Some(5) && Writes(g, 2) == None
  {
    assert [1][1..] == [] && First(g.s.main, [1], 1) == None;
  }

  lemma ThreeFilesWant(g: Setting, fileSets: bool)
    requires g == ThreeFiles(fileSets) && Valid(g) && Linked(g)
    ensures Wanted(g) == Some(3)
  {
    NoLeafBelow(g);
    WantedIs(g);
    SameTopAbove(g);
    assert [2, 3][..1] == [2];
    assert Top(g.s.main, [2, 3]) == Some(3);
  }

  lemma ProfileOfAnotherFileWins(r: Chain<Obj>, g: Setting, once: nat -> bool, late: nat -> bool)
    requires g == ThreeFiles(false) && JustRead(r, g.s, g.m)
    ensures var merged := MergeLayers(r, g.root, All(g), g.m, once);
            && Wanted(g) == Some(3)
            && ProfileOf(merged, g.root).Some?
            && Read(MergeWith(merged, g.second, g.below, ProfileOf(merged, g.root).value, g.above, g.m, late),
               Main(g.second), 2, g.m + 2)
               == Some(5)
  {
    ThreeFilesAreValid(g, false);
    ThreeFilesShare(g, false);
    ThreeFilesWant(g, false);
    assert g.above[1] == 3 && Stands(g, 1, late);
    ProfileExactly(r, g, once, late);
  }

  /** When one file sets both the leaf and its own profile of that name, the order in which
      the keys of its document are merged decides. */
  lemma KeyOrderDecides(r: Chain<Obj>, g: Setting, once: nat -> bool, late: nat -> bool)
    requires g == ThreeFiles(true) && JustRead(r, g.s, g.m)
    ensures var merged := MergeLayers(r, g.root, All(g), g.m, once);
            && Wanted(g) == Some(3)
            && ProfileOf(merged, g.root).Some?
            && Read(MergeWith(merged, g.second, g.below, ProfileOf(merged, g.root).value, g.above, g.m, late),
               Main(g.second), 2, g.m + 2)
               == if late(3) then Some(5) else Some(3)
  {
    ThreeFilesAreValid(g, true);
    ThreeFilesShare(g, true);
    ThreeFilesWant(g, true);
    LinkedIsNotLent(g);
    LateDecides(g, late);
    ProfileExactly(r, g, once, late);
  }

  lemma LateDecides(g: Setting, late: nat -> bool)
    requires g == ThreeFiles(true) && Writes(g, 3).Some? && Writes(g, 2) == None
    ensures WrittenLast(g, late) <==> late(3)
  {
    assert g.above[1] == 3 && g.above[0] == 2;
    assert late(3) ==> Stands(g, 1, late);
  }

  /** A user file with an empty object and a profile that fills it and sets the leaf, and a
      project file that does so too: with the profile selected it wins over the project. */
  function TwoFiles(): Setting {
    Setting(Sources(Layers(map[1 := 1, 2 := 2], map[2 := 2]), Layers(map[1 := 4, 2 := 0], map[1 := 9])),
            [1], [2], 10, 11, 12, 2)
  }

  lemma TwoFilesAreValid(g: Setting)
    requires g == TwoFiles()
    ensures Valid(g) && All(g) == [1, 2] && ProfileLeaf(g) == Some(9)
  {
    assert [1] + [2] == [1, 2] && [1, 2][..1] == [1];
    assert First(g.s.prof, [1, 2], 2) == Some(1) && Own(g.s.prof, 2) == None && Top(g.s.prof, [1]) == Some(9);
  }

  lemma TwoFilesLend(g: Setting)
    requires g == TwoFiles() && Valid(g) && ProfileLeaf(g) == Some(9)
    ensures Overwrites(MainWorld(g), g.below, g.p, g.above) && Wanted(g) == Some(2)
  {
    var l := WithProfile(g);
    WorldIsSound(g);
    assert [1] + [2] == [1, 2] && [1, 2][1..] == [2];
    assert First(l, [2], 2) == Some(2) && First(l, [1, 2], 2) == Some(2) && First(l, [1], 1) == Some(1);
    var all := g.below + [g.p] + g.above;
    assert all[|all| - 1] == 2 && Own(l, 2) == Some(2);
  }

  lemma ProfileOverwrites(r: Chain<Obj>, g: Setting, once: nat -> bool, late: nat -> bool)
    requires g == TwoFiles() && JustRead(r, g.s, g.m)
    ensures var merged := MergeLayers(r, g.root, All(g), g.m, once);
            && Wanted(g) == Some(2)
            && ProfileOf(merged, g.root).Some?
            && Read(MergeWith(merged, g.second, g.below, ProfileOf(merged, g.root).value, g.above, g.m, late),
               Main(g.second), 2, g.m + 2)
               == Some(9)
  {
    TwoFilesAreValid(g);
    TwoFilesLend(g);
    ProfileExactly(r, g, once, late);
  }

  // ---- When the second merge fails --------------------------------------------------

  /** A merge along a path meets a value of another kind. Where the leaves of a chain are
      kinds, one for objects and one for other values, this is the error of `mergeInto`. */
  predicate Clashes(c: Chain<Obj>, target: Obj, document: Obj, k: nat, m: nat)
    decreases m - k
  {
    if k >= m then Leaf(c, target).Some? && Leaf(c, document).Some? && Leaf(c, target) != Leaf(c, document)
    else
      && Next(c, target, k).Some? && Next(c, document, k).Some?
      && Clashes(c, Next(c, target, k).value, Next(c, document, k).value, k + 1, m)
  }

  predicate LayerFails(r: Chain<Obj>, root: nat, d: nat, m: nat, late: bool) {
    if late then
      Clashes(r, Main(root), Main(d), 2, m + 2)
          || Clashes(Walk(r, Main(root), Main(d), 2, m + 2), Main(root), Main(d), 0, m + 2)
    else
      Clashes(r, Main(root), Main(d), 0, m + 2)
          || Clashes(Walk(r, Main(root), Main(d), 0, m + 2), Main(root), Main(d), 2, m + 2)
  }

  predicate LayersFail(r: Chain<Obj>, root: nat, order: seq<nat>, m: nat, late: nat -> bool)
    decreases |order|
  {
    && order != []
    && var front, d := order[..|order| - 1], order[|order| - 1];
       LayersFail(r, root, front, m, late) || LayerFails(MergeLayers(r, root, front, m, late), root, d, m, late(d))
  }

  predicate WithFails(r: Chain<Obj>, second: nat, below: seq<nat>, profile: Obj, above: seq<nat>, m: nat,
      late: nat -> bool)
  {
    var r1 := MergeLayers(r, second, below, m, late);
    || LayersFail(r, second, below, m, late)
    || Clashes(r1, Main(second), profile, 2, m + 2)
    || LayersFail(Walk(r1, Main(second), profile, 2, m + 2), second, above, m, late)
  }

  /** All that is at the path, in layers and in profiles, is of one kind. */
  ghost predicate OneKind(c: Chain<Obj>, kind: int) {
    forall o: Obj {:trigger Leaf(c, o)} :: Leaf(c, o).Some? ==> Leaf(c, o) == Some(kind)
  }

  lemma {:induction false} WalkKeepsKind(c: Chain<Obj>, kind: int, t: Obj, d: Obj, k: nat, m: nat)
    requires OneKind(c, kind)
    ensures OneKind(Walk(c, t, d, k, m), kind) && !Clashes(c, t, d, k, m)
    decreases m - k
  {
    if k >= m {
      assert Leaf(c, d).Some? ==> Leaf(c, d) == Some(kind);
      assert Leaf(c, t).Some? ==> Leaf(c, t) == Some(kind);
      if Leaf(c, d).Some? {
        var c' := c.(leaf := c.leaf[t := kind]);
        assert forall o: Obj :: Leaf(c', o) == if o == t then Some(kind) else Leaf(c, o);
      }
    } else if Next(c, d, k).Some? {
      if Next(c, t, k).Some? {
        WalkKeepsKind(c, kind, Next(c, t, k).value, Next(c, d, k).value, k + 1, m);
      } else {
        var c' := c.(next := c.next[(t, k) := Next(c, d, k).value]);
        assert forall o: Obj :: Leaf(c', o) == Leaf(c, o);
      }
    }
  }

  lemma {:induction false} LayersKeepKind(r: Chain<Obj>, kind: int, root: nat, order: seq<nat>, m: nat,
      late: nat -> bool)
    requires OneKind(r, kind)
    ensures OneKind(MergeLayers(r, root, order, m, late), kind) && !LayersFail(r, root, order, m, late)
    decreases |order|
  {
    if order != [] {
      var front, d := order[..|order| - 1], order[|order| - 1];
      LayersKeepKind(r, kind, root, front, m, late);
      var r1 := MergeLayers(r, root, front, m, late);
      WalkKeepsKind(r1, kind, Main(root), Main(d), 2, m + 2);
      WalkKeepsKind(r1, kind, Main(root), Main(d), 0, m + 2);
      WalkKeepsKind(Walk(r1, Main(root), Main(d), 2, m + 2), kind, Main(root), Main(d), 0, m + 2);
      WalkKeepsKind(Walk(r1, Main(root), Main(d), 0, m + 2), kind, Main(root), Main(d), 2, m + 2);
    }
  }

  /** Where no layer and no profile disagrees about the kind of a path, neither merge fails
      on it, whatever objects the second one finds shared. */
  lemma SecondMergeDoesNotFail(
    r: Chain<Obj>, kind: int, root: nat, second: nat, below: seq<nat>, above: seq<nat>, m: nat, once: nat -> bool,
        late: nat -> bool)
    requires OneKind(r, kind)
    ensures var merged := MergeLayers(r, root, below + above, m, once);
            && !LayersFail(r, root, below + above, m, once)
            && (ProfileOf(merged, root).Some? ==>
               !WithFails(merged, second, below, ProfileOf(merged, root).value, above, m, late))
  {
    var merged := MergeLayers(r, root, below + above, m, once);
    LayersKeepKind(r, kind, root, below + above, m, once);
    if ProfileOf(merged, root).Some? {
      var profile, r1 := ProfileOf(merged, root).value, MergeLayers(merged, second, below, m, late);
      LayersKeepKind(merged, kind, second, below, m, late);
      WalkKeepsKind(r1, kind, Main(second), profile, 2, m + 2);
      LayersKeepKind(Walk(r1, Main(second), profile, 2, m + 2), kind, second, above, m, late);
    }
  }

  /** A chain with more links and leaves than another, and none of that one's changed. */
  ghost predicate Grows(a: Chain<Obj>, b: Chain<Obj>) {
    && (forall o: Obj, k: nat {:trigger Next(a, o, k)} :: Next(a, o, k).Some? ==> Next(b, o, k) == Next(a, o, k))
    && (forall o: Obj {:trigger Leaf(a, o)} :: Leaf(a, o).Some? ==> Leaf(b, o) == Leaf(a, o))
  }

  lemma GrowsOn(a: Chain<Obj>, b: Chain<Obj>, c: Chain<Obj>)
    requires Grows(a, b) && Grows(b, c)
    ensures Grows(a, c)
  {
    forall o: Obj, k: nat | Next(a, o, k).Some?
      ensures Next(c, o, k) == Next(a, o, k)
    {
      assert Next(b, o, k).Some?;
    }
    forall o: Obj | Leaf(a, o).Some?
      ensures Leaf(c, o) == Leaf(a, o)
    {
      assert Leaf(b, o).Some?;
    }
  }

  /** What could be read is read as before. */
  lemma {:induction false} ReadsOn(a: Chain<Obj>, b: Chain<Obj>, o: Obj, k: nat, m: nat)
    requires Grows(a, b) && Read(a, o, k, m).Some?
    ensures Read(b, o, k, m) == Read(a, o, k, m)
    decreases m - k
  {
    if k < m {
      assert Next(a, o, k).Some?;
      ReadsOn(a, b, Next(a, o, k).value, k + 1, m);
    } else {
      assert Leaf(a, o).Some?;
    }
  }

  /** A walk that meets no value of another kind adds and changes nothing, and its target
      then reads what the document does. */
  lemma {:induction false} WalkReads(c: Chain<Obj>, t: Obj, d: Obj, k: nat, m: nat)
    requires !Clashes(c, t, d, k, m)
    ensures Grows(c, Walk(c, t, d, k, m))
    ensures Read(c, d, k, m).Some? ==> Read(Walk(c, t, d, k, m), t, k, m) == Read(c, d, k, m)
    decreases m - k
  {
    if k < m && Next(c, d, k).Some? {
      var e, c' := Next(c, d, k).value, Walk(c, t, d, k, m);
      if Next(c, t, k).Some? {
        WalkReads(c, Next(c, t, k).value, e, k + 1, m);
        assert Next(c', t, k) == Next(c, t, k);
      } else {
        assert Next(c', t, k) == Some(e);
        if Read(c, e, k + 1, m).Some? { ReadsOn(c, c', e, k + 1, m); }
      }
    }
  }

  /** A layer at one of its two paths. */
  ghost predicate Shows(a: Chain<Obj>, d: Obj, b: Chain<Obj>, t: Obj, k: nat, m: nat) {
    Read(a, d, k, m).Some? ==> Read(b, t, k, m) == Read(a, d, k, m)
  }

  lemma ShowsOn(a: Chain<Obj>, d: Obj, b: Chain<Obj>, t: Obj, a': Chain<Obj>, b': Chain<Obj>, k: nat, m: nat)
    requires Shows(a, d, b, t, k, m) && Grows(a', a) && Grows(b, b')
    ensures Shows(a', d, b', t, k, m)
  {
    if Read(a', d, k, m).Some? {
      ReadsOn(a', a, d, k, m);
      ReadsOn(b, b', t, k, m);
    }
  }

  lemma LayerReads(r: Chain<Obj>, root: nat, d: nat, m: nat, late: bool)
    requires !LayerFails(r, root, d, m, late)
    ensures var c := MergeLayer(r, root, d, m, late);
            Grows(r, c) && Shows(r, Main(d), c, Main(root), 0, m + 2) && Shows(r, Main(d), c, Main(root), 2, m + 2)
  {
    var k, j := if late then 2 else 0, if late then 0 else 2;
    var half := Walk(r, Main(root), Main(d), k, m + 2);
    var c := Walk(half, Main(root), Main(d), j, m + 2);
    WalkReads(r, Main(root), Main(d), k, m + 2);
    WalkReads(half, Main(root), Main(d), j, m + 2);
    GrowsOn(r, half, c);
    ShowsOn(r, Main(d), half, Main(root), r, c, k, m + 2);
    ShowsOn(half, Main(d), c, Main(root), r, c, j, m + 2);
  }

  /** Layers that merge without a failure are all read in the result, at both paths. */
  lemma {:induction false} LayersRead(r: Chain<Obj>, root: nat, order: seq<nat>, m: nat, late: nat -> bool)
    requires !LayersFail(r, root, order, m, late)
    ensures var c := MergeLayers(r, root, order, m, late);
            Grows(r, c) && forall d ::
                d in order ==> Shows(r, Main(d), c, Main(root), 0, m + 2) && Shows(r, Main(d), c, Main(root), 2, m + 2)
    decreases |order|
  {
    if order != [] {
      var front, last := order[..|order| - 1], order[|order| - 1];
      var r1, c := MergeLayers(r, root, front, m, late), MergeLayers(r, root, order, m, late);
      LayersRead(r, root, front, m, late);
      LayerReads(r1, root, last, m, late(last));
      GrowsOn(r, r1, c);
      forall d | d in order
        ensures Shows(r, Main(d), c, Main(root), 0, m + 2) && Shows(r, Main(d), c, Main(root), 2, m + 2)
      {
        if d in front {
          ShowsOn(r, Main(d), r1, Main(root), r, c, 0, m + 2);
          ShowsOn(r, Main(d), r1, Main(root), r, c, 2, m + 2);
        } else {
          ShowsOn(r1, Main(d), c, Main(root), r, c, 0, m + 2);
          ShowsOn(r1, Main(d), c, Main(root), r, c, 2, m + 2);
        }
      }
    }
  }

  /** A second merge without a failure reads the layers and the profile. */
  lemma WithReads(r: Chain<Obj>, second: nat, below: seq<nat>, profile: Obj, above: seq<nat>, m: nat, late: nat -> bool)
    requires !WithFails(r, second, below, profile, above, m, late)
    ensures var c := MergeWith(r, second, below, profile, above, m, late);
            && Shows(r, profile, c, Main(second), 2, m + 2)
            && forall d :: d in below + above ==> Shows(r, Main(d), c, Main(second), 2, m + 2)
  {
    var r1 := MergeLayers(r, second, below, m, late);
    var r2 := Walk(r1, Main(second), profile, 2, m + 2);
    var c := MergeLayers(r2, second, above, m, late);
    LayersRead(r, second, below, m, late);
    WalkReads(r1, Main(second), profile, 2, m + 2);
    LayersRead(r2, second, above, m, late);
    GrowsOn(r, r1, r2);
    GrowsOn(r1, r2, c);
    ShowsOn(r1, profile, r2, Main(second), r, c, 2, m + 2);
    forall d | d in below + above
      ensures Shows(r, Main(d), c, Main(second), 2, m + 2)
    {
      if d in below {
        ShowsOn(r, Main(d), r1, Main(second), r, c, 2, m + 2);
      } else {
        ShowsOn(r2, Main(d), c, Main(second), r, c, 2, m + 2);
      }
    }
  }

  /** What a layer that has just been read shows at its two paths. */
  lemma {:induction false} ReadMain(r: Chain<Obj>, s: Sources, m: nat, i: nat, k: nat)
    requires JustRead(r, s, m) && i in s.main.leaf && s.main.leaf.Keys <= s.main.depth.Keys && s.main.depth[i] == m
    requires 2 <= k <= m + 2
    ensures Read(r, Main(i), k, m + 2) == Some(s.main.leaf[i])
    decreases m + 2 - k
  {
    if k < m + 2 {
      assert Next(r, Main(i), k) == Some(Main(i));
      ReadMain(r, s, m, i, k + 1);
    } else {
      assert Leaf(r, Main(i)).Some?;
    }
  }

  lemma {:induction false} ReadProf(r: Chain<Obj>, s: Sources, m: nat, i: nat, k: nat)
    requires JustRead(r, s, m) && i in s.prof.leaf && s.prof.leaf.Keys <= s.prof.depth.Keys && s.prof.depth[i] == m + 2
    requires k <= m + 2
    ensures Read(r, AtLevel(k, i), k, m + 2) == Some(s.prof.leaf[i])
    decreases m + 2 - k
  {
    if k < m + 2 {
      assert Next(r, AtLevel(k, i), k) == Some(AtLevel(k + 1, i));
      ReadProf(r, s, m, i, k + 1);
    } else {
      assert Leaf(r, Prof(i)).Some?;
    }
  }

  /** Some layer has a value of one kind at the path, and the profile of some layer one of
      another kind. */
  predicate Disagree(s: Sources) {
    exists d, e :: d in s.main.leaf && e in s.prof.leaf && s.main.leaf[d] != s.prof.leaf[e]
  }

  /** The sources are those of the layers of a merge. */
  ghost predicate SourcesOf(s: Sources, order: seq<nat>, m: nat) {
    Proper(s.main, m) && Proper(s.prof, m + 2) && forall i :: i in s.main.leaf || i in s.prof.leaf ==> i in order
  }

  /** After a first merge without a failure, the merged document shows the value of every
      layer at the path, and the selected profile that of every layer's profile. */
  lemma MergedShows(r: Chain<Obj>, s: Sources, root: nat, order: seq<nat>, m: nat, once: nat -> bool)
    requires JustRead(r, s, m) && SourcesOf(s, order, m) && !LayersFail(r, root, order, m, once)
    requires ProfileOf(MergeLayers(r, root, order, m, once), root).Some?
    ensures var merged := MergeLayers(r, root, order, m, once);
            && Grows(r, merged)
            && (forall d :: d in s.main.leaf ==> Read(merged, Main(root), 2, m + 2) == Some(s.main.leaf[d]))
            && (forall e :: e in s.prof.leaf ==>
               Read(merged, ProfileOf(merged, root).value, 2, m + 2) == Some(s.prof.leaf[e]))
  {
    var merged := MergeLayers(r, root, order, m, once);
    LayersRead(r, root, order, m, once);
    forall d | d in s.main.leaf
      ensures Read(merged, Main(root), 2, m + 2) == Some(s.main.leaf[d])
    {
      ReadMain(r, s, m, d, 2);
      assert Shows(r, Main(d), merged, Main(root), 2, m + 2);
    }
    forall e | e in s.prof.leaf
      ensures Read(merged, ProfileOf(merged, root).value, 2, m + 2) == Some(s.prof.leaf[e])
    {
      ReadProf(r, s, m, e, 0);
      assert Shows(r, Main(e), merged, Main(root), 0, m + 2);
      assert Read(merged, Next(merged, Main(root), 0).value, 1, m + 2) == Read(merged, Main(root), 0, m + 2);
    }
  }

  /** Without a failure of the second merge a layer and a profile agree: it reads both. */
  lemma NoFailureAgrees(
    r: Chain<Obj>, s: Sources, root: nat, second: nat, below: seq<nat>, above: seq<nat>, m: nat, once: nat -> bool,
        late: nat -> bool,
    d: nat, e: nat)
    requires JustRead(r, s, m) && SourcesOf(s, below + above, m) && !LayersFail(r, root, below + above, m, once)
    requires ProfileOf(MergeLayers(r, root, below + above, m, once), root).Some?
    requires var merged := MergeLayers(r, root, below + above, m, once);
             !WithFails(merged, second, below, ProfileOf(merged, root).value, above, m, late)
    requires d in s.main.leaf && e in s.prof.leaf
    ensures s.main.leaf[d] == s.prof.leaf[e]
  {
    var merged := MergeLayers(r, root, below + above, m, once);
    var profile := ProfileOf(merged, root).value;
    var c := MergeWith(merged, second, below, profile, above, m, late);
    MergedShows(r, s, root, below + above, m, once);
    WithReads(merged, second, below, profile, above, m, late);
    ReadMain(r, s, m, d, 2);
    ReadsOn(r, merged, Main(d), 2, m + 2);
    assert Shows(merged, Main(d), c, Main(second), 2, m + 2) && Shows(merged, profile, c, Main(second), 2, m + 2);
  }

  /** When layers and profiles agree, all there is at the path is of one kind. */
  lemma AgreedKind(r: Chain<Obj>, s: Sources, root: nat, order: seq<nat>, m: nat, once: nat -> bool) returns (kind: int)
    requires JustRead(r, s, m) && SourcesOf(s, order, m) && !LayersFail(r, root, order, m, once)
    requires ProfileOf(MergeLayers(r, root, order, m, once), root).Some? && !Disagree(s)
    ensures OneKind(r, kind)
  {
    MergedShows(r, s, root, order, m, once);
    kind := 0;
    if d :| d in s.main.leaf {
      kind := s.main.leaf[d];
    } else if e :| e in s.prof.leaf {
      kind := s.prof.leaf[e];
    }
    forall o: Obj | Leaf(r, o).Some?
      ensures Leaf(r, o) == Some(kind)
    {
      match o
      case Main(i) => assert Leaf(r, Main(i)) == Own(s.main, i);
      case Prof(i) => assert Leaf(r, Prof(i)) == Own(s.prof, i);
    }
  }

  /** Where the first merge does not fail on a path, the second one, with the profile,
      fails on it exactly when a layer and the profile of a layer disagree about its kind. */
  lemma SecondMergeFailsExactly(
    r: Chain<Obj>, s: Sources, root: nat, second: nat, below: seq<nat>, above: seq<nat>, m: nat, once: nat -> bool,
        late: nat -> bool)
    requires JustRead(r, s, m) && SourcesOf(s, below + above, m) && !LayersFail(r, root, below + above, m, once)
    requires ProfileOf(MergeLayers(r, root, below + above, m, once), root).Some?
    ensures var merged := MergeLayers(r, root, below + above, m, once);
            WithFails(merged, second, below, ProfileOf(merged, root).value, above, m, late) <==> Disagree(s)
  {
    var merged := MergeLayers(r, root, below + above, m, once);
    if !WithFails(merged, second, below, ProfileOf(merged, root).value, above, m, late) {
      forall d, e | d in s.main.leaf && e in s.prof.leaf
        ensures s.main.leaf[d] == s.prof.leaf[e]
      {
        NoFailureAgrees(r, s, root, second, below, above, m, once, late, d, e);
      }
    }
    if !Disagree(s) {
      var kind := AgreedKind(r, s, root, below + above, m, once);
      SecondMergeDoesNotFail(r, kind, root, second, below, above, m, once, late);
    }
  }
}
