/** A selected profile is an object of the merged document: `ExtractProfile` returns the
    map under `profiles` itself, and it is added to the stack as a layer. This module follows
    two key paths at once, one from the top of the documents and the same one below
    `profiles` and the name, whose objects the second merge may link into each other. */
module ConfigAlias {
  import opened Options
  import opened ConfigChain
  import opened ConfigRemerge

  // ---- Two paths in one chain -------------------------------------------------------

  /** The layers as they are read: `main` along the path, `prof` along the path below the
      two keys `profiles` and the name, which count as its first two objects. */
  datatype Sources = Sources(main: Layers, prof: Layers)

  /** An object on the path, or the `profiles` object, of a layer; an object of its profile. */
  datatype Obj = Main(layer: nat) | Prof(layer: nat)

  /** The owner name at a level: level 0 is the `profiles` key of a document, level 1 the
      name in that object, and level `j + 2` the key at depth `j` of the path. */
  function AtLevel(k: nat, i: nat): Obj { if k <= 1 then Main(i) else Prof(i) }

  function MainOf(o: Option<nat>): Option<Obj> { if o.Some? then Some(Main(o.value)) else None }

  function LevelOf(k: nat, o: Option<nat>): Option<Obj> { if o.Some? then Some(AtLevel(k, o.value)) else None }

  /** `mergeInto` of one layer, along both paths. The keys of a document come in any order:
      `late` says whether `profiles` comes after the key of the path. */
  function MergeLayer(r: Chain<Obj>, root: nat, d: nat, m: nat, late: bool): Chain<Obj> {
    if late then Walk(Walk(r, Main(root), Main(d), 2, m + 2), Main(root), Main(d), 0, m + 2)
    else Walk(Walk(r, Main(root), Main(d), 0, m + 2), Main(root), Main(d), 2, m + 2)
  }

  function MergeLayers(r: Chain<Obj>, root: nat, order: seq<nat>, m: nat, late: nat -> bool): Chain<Obj>
    decreases |order|
  {
    if order == [] then r
    else
      var d := order[|order| - 1];
      MergeLayer(MergeLayers(r, root, order[..|order| - 1], m, late), root, d, m, late(d))
  }

  /** `ExtractProfile` of a merged document. */
  function ProfileOf(r: Chain<Obj>, root: nat): Option<Obj> {
    match Next(r, Main(root), 0)
    case None => None
    case Some(profiles) => Next(r, profiles, 1)
  }

  /** The second merge: the profile's object is merged like the document of a layer. */
  function MergeWith(
    r: Chain<Obj>, second: nat, below: seq<nat>, profile: Obj, above: seq<nat>, m: nat, late: nat -> bool): Chain<Obj>
  {
    MergeLayers(Walk(MergeLayers(r, second, below, m, late), Main(second), profile, 2, m + 2), second, above, m, late)
  }

  /** The chain of layers that have just been read. */
  ghost predicate JustRead(r: Chain<Obj>, s: Sources, m: nat) {
    && (forall i: nat, k: nat {:trigger Next(r, Main(i), k)} :: 2 <= k < m + 2 ==>
          Next(r, Main(i), k) == if k - 2 < Depth(s.main, i) then Some(Main(i)) else None)
    && (forall i: nat, k: nat {:trigger Next(r, AtLevel(k, i), k)} :: k < m + 2 ==>
          Next(r, AtLevel(k, i), k) == if k < Depth(s.prof, i) then Some(AtLevel(k + 1, i)) else None)
    && (forall i: nat {:trigger Leaf(r, Main(i))} :: Leaf(r, Main(i)) == Own(s.main, i))
    && (forall i: nat {:trigger Leaf(r, Prof(i))} :: Leaf(r, Prof(i)) == Own(s.prof, i))
  }

  // ---- While the two paths are apart ------------------------------------------------

  /** The objects on the path are those of `c`, which has an owner `p` of its own besides. */
  ghost predicate MainPart(r: Chain<Obj>, c: Chain<nat>, m: nat, p: nat) {
    && (forall i: nat, j: nat {:trigger Next(c, i, j)} :: i != p && j < m ==>
          Next(c, i, j) != Some(p) && Next(r, Main(i), j + 2) == MainOf(Next(c, i, j)))
    && (forall i: nat {:trigger Leaf(c, i)} :: i != p ==> Leaf(r, Main(i)) == Leaf(c, i))
  }

  /** The objects below `profiles` are those of `c`. */
  ghost predicate ProfPart(r: Chain<Obj>, c: Chain<nat>, m: nat) {
    && (forall i: nat, k: nat {:trigger Next(c, i, k)} :: k < m + 2 ==>
          Next(r, AtLevel(k, i), k) == LevelOf(k + 1, Next(c, i, k)))
    && (forall i: nat {:trigger Leaf(c, i)} :: Leaf(r, Prof(i)) == Leaf(c, i))
  }

  lemma MainLinks(r: Chain<Obj>, c: Chain<nat>, q: Chain<nat>, m: nat, p: nat, t: nat, d: nat, j: nat)
    requires MainPart(r, c, m, p) && ProfPart(r, q, m) && t != p && d != p && j < m
    ensures MainPart(r.(next := r.next[(Main(t), j + 2) := Main(d)]), c.(next := c.next[(t, j) := d]), m, p)
    ensures ProfPart(r.(next := r.next[(Main(t), j + 2) := Main(d)]), q, m)
  {
    var r', c' := r.(next := r.next[(Main(t), j + 2) := Main(d)]), c.(next := c.next[(t, j) := d]);
    forall i: nat, x: nat {:trigger Next(c', i, x)} | i != p && x < m
      ensures Next(c', i, x) != Some(p) && Next(r', Main(i), x + 2) == MainOf(Next(c', i, x))
    {
      assert Next(c', i, x) == if i == t && x == j then Some(d) else Next(c, i, x);
      assert Next(r', Main(i), x + 2) == if i == t && x == j then Some(Main(d)) else Next(r, Main(i), x + 2);
    }
    assert forall i: nat ::
        Leaf(c', i) == Leaf(c, i) && Leaf(r', Main(i)) == Leaf(r, Main(i)) && Leaf(r', Prof(i)) == Leaf(r, Prof(i));
    forall i: nat, k: nat {:trigger Next(q, i, k)} | k < m + 2
      ensures Next(r', AtLevel(k, i), k) == LevelOf(k + 1, Next(q, i, k))
    {
      assert Next(r', AtLevel(k, i), k) == Next(r, AtLevel(k, i), k);
    }
  }

  lemma MainLeaf(r: Chain<Obj>, c: Chain<nat>, q: Chain<nat>, m: nat, p: nat, t: nat, v: int)
    requires MainPart(r, c, m, p) && ProfPart(r, q, m) && t != p
    ensures MainPart(r.(leaf := r.leaf[Main(t) := v]), c.(leaf := c.leaf[t := v]), m, p)
    ensures ProfPart(r.(leaf := r.leaf[Main(t) := v]), q, m)
  {
    var r', c' := r.(leaf := r.leaf[Main(t) := v]), c.(leaf := c.leaf[t := v]);
    assert forall i: nat :: Leaf(c', i) == (if i == t then Some(v) else Leaf(c, i));
    assert forall i: nat :: Leaf(r', Main(i)) == if i == t then Some(v) else Leaf(r, Main(i));
    assert forall i: nat :: Leaf(r', Prof(i)) == Leaf(r, Prof(i));
    assert (forall o: Obj, x: nat :: Next(r', o, x) == Next(r, o, x)) && forall o: nat, x: nat ::
        Next(c', o, x) == Next(c, o, x);
  }

  lemma {:induction false} MainWalks(r: Chain<Obj>, c: Chain<nat>, q: Chain<nat>, m: nat, p: nat, t: nat, d: nat,
      j: nat)
    requires MainPart(r, c, m, p) && ProfPart(r, q, m) && t != p && d != p && j <= m
    ensures MainPart(Walk(r, Main(t), Main(d), j + 2, m + 2), Walk(c, t, d, j, m), m, p)
    ensures ProfPart(Walk(r, Main(t), Main(d), j + 2, m + 2), q, m)
    decreases m - j
  {
    if j == m {
      assert Leaf(r, Main(d)) == Leaf(c, d);
      if Leaf(c, d).Some? { MainLeaf(r, c, q, m, p, t, Leaf(c, d).value); }
    } else {
      assert Next(r, Main(d), j + 2) == MainOf(Next(c, d, j)) && Next(r, Main(t), j + 2) == MainOf(Next(c, t, j));
      if Next(c, d, j).Some? {
        if Next(c, t, j).Some? {
          MainWalks(r, c, q, m, p, Next(c, t, j).value, Next(c, d, j).value, j + 1);
        } else {
          MainLinks(r, c, q, m, p, t, Next(c, d, j).value, j);
        }
      }
    }
  }

  lemma ProfLinks(r: Chain<Obj>, c: Chain<nat>, q: Chain<nat>, m: nat, p: nat, t: nat, d: nat, k: nat)
    requires MainPart(r, c, m, p) && ProfPart(r, q, m) && k < m + 2
    ensures MainPart(r.(next := r.next[(AtLevel(k, t), k) := AtLevel(k + 1, d)]), c, m, p)
    ensures ProfPart(r.(next := r.next[(AtLevel(k, t), k) := AtLevel(k + 1, d)]), q.(next := q.next[(t, k) := d]), m)
  {
    var r', q' := r.(next := r.next[(AtLevel(k, t), k) := AtLevel(k + 1, d)]), q.(next := q.next[(t, k) := d]);
    forall i: nat, x: nat {:trigger Next(q', i, x)} | x < m + 2
      ensures Next(r', AtLevel(x, i), x) == LevelOf(x + 1, Next(q', i, x))
    {
      assert Next(q', i, x) == if i == t && x == k then Some(d) else Next(q, i, x);
      assert Next(r', AtLevel(x, i), x) == if i == t && x == k then Some(AtLevel(k + 1, d))
          else Next(r, AtLevel(x, i), x);
    }
    forall i: nat, j: nat {:trigger Next(c, i, j)} | i != p && j < m
      ensures Next(c, i, j) != Some(p) && Next(r', Main(i), j + 2) == MainOf(Next(c, i, j))
    {
      assert Next(r', Main(i), j + 2) == Next(r, Main(i), j + 2);
    }
    assert forall i: nat ::
        Leaf(q', i) == Leaf(q, i) && Leaf(r', Main(i)) == Leaf(r, Main(i)) && Leaf(r', Prof(i)) == Leaf(r, Prof(i));
  }

  lemma ProfLeaf(r: Chain<Obj>, c: Chain<nat>, q: Chain<nat>, m: nat, p: nat, t: nat, v: int)
    requires MainPart(r, c, m, p) && ProfPart(r, q, m)
    ensures MainPart(r.(leaf := r.leaf[Prof(t) := v]), c, m, p)
    ensures ProfPart(r.(leaf := r.leaf[Prof(t) := v]), q.(leaf := q.leaf[t := v]), m)
  {
    var r', q' := r.(leaf := r.leaf[Prof(t) := v]), q.(leaf := q.leaf[t := v]);
    assert forall i: nat :: Leaf(q', i) == (if i == t then Some(v) else Leaf(q, i));
    assert forall i: nat :: Leaf(r', Prof(i)) == if i == t then Some(v) else Leaf(r, Prof(i));
    assert forall i: nat :: Leaf(r', Main(i)) == Leaf(r, Main(i));
    assert (forall o: Obj, x: nat :: Next(r', o, x) == Next(r, o, x)) && forall o: nat, x: nat ::
        Next(q', o, x) == Next(q, o, x);
  }

  lemma {:induction false} ProfWalks(r: Chain<Obj>, c: Chain<nat>, q: Chain<nat>, m: nat, p: nat, t: nat, d: nat,
      k: nat)
    requires MainPart(r, c, m, p) && ProfPart(r, q, m) && k <= m + 2
    ensures MainPart(Walk(r, AtLevel(k, t), AtLevel(k, d), k, m + 2), c, m, p)
    ensures ProfPart(Walk(r, AtLevel(k, t), AtLevel(k, d), k, m + 2), Walk(q, t, d, k, m + 2), m)
    decreases m + 2 - k
  {
    if k == m + 2 {
      assert Leaf(r, Prof(d)) == Leaf(q, d);
      if Leaf(q, d).Some? { ProfLeaf(r, c, q, m, p, t, Leaf(q, d).value); }
    } else {
      assert Next(r, AtLevel(k, d), k) == LevelOf(k + 1, Next(q, d, k));
      assert Next(r, AtLevel(k, t), k) == LevelOf(k + 1, Next(q, t, k));
      if Next(q, d, k).Some? {
        if Next(q, t, k).Some? {
          ProfWalks(r, c, q, m, p, Next(q, t, k).value, Next(q, d, k).value, k + 1);
        } else {
          ProfLinks(r, c, q, m, p, t, Next(q, d, k).value, k);
        }
      }
    }
  }

  lemma LayerParts(r: Chain<Obj>, c: Chain<nat>, q: Chain<nat>, m: nat, p: nat, root: nat, d: nat, late: bool)
    requires MainPart(r, c, m, p) && ProfPart(r, q, m) && root != p && d != p
    ensures MainPart(MergeLayer(r, root, d, m, late), Walk(c, root, d, 0, m), m, p)
    ensures ProfPart(MergeLayer(r, root, d, m, late), Walk(q, root, d, 0, m + 2), m)
  {
    if late {
      var r' := Walk(r, Main(root), Main(d), 2, m + 2);
      MainWalks(r, c, q, m, p, root, d, 0);
      ProfWalks(r', Walk(c, root, d, 0, m), q, m, p, root, d, 0);
    } else {
      var r' := Walk(r, Main(root), Main(d), 0, m + 2);
      ProfWalks(r, c, q, m, p, root, d, 0);
      MainWalks(r', c, Walk(q, root, d, 0, m + 2), m, p, root, d, 0);
    }
  }

  /** Until a profile is added the two paths are merged apart. */
  lemma {:induction false} MergeParts(r: Chain<Obj>, c: Chain<nat>, q: Chain<nat>, m: nat, p: nat, root: nat,
      order: seq<nat>, late: nat -> bool)
    requires MainPart(r, c, m, p) && ProfPart(r, q, m) && root != p && p !in order
    ensures MainPart(MergeLayers(r, root, order, m, late), MergeAll(c, root, order, m), m, p)
    ensures ProfPart(MergeLayers(r, root, order, m, late), MergeAll(q, root, order, m + 2), m)
    decreases |order|
  {
    if order != [] {
      var front, d := order[..|order| - 1], order[|order| - 1];
      MergeParts(r, c, q, m, p, root, front, late);
      LayerParts(MergeLayers(r, root, front, m, late), MergeAll(c, root, front, m), MergeAll(q, root, front, m + 2),
          m, p, root, d, late(d));
    }
  }

  // ---- The setting ------------------------------------------------------------------

  /** The layers and where the profile is added. Its object counts as a layer `p`. */
  datatype Setting = Setting(s: Sources, below: seq<nat>, above: seq<nat>, root: nat, second: nat, p: nat, m: nat)

  function All(g: Setting): seq<nat> { g.below + g.above }

  /** How many objects of the path the merged profile has, and who owns them. */
  function MergedDepth(g: Setting, n: nat): (e: nat)
    ensures e <= n
  {
    if n == 0 || First(g.s.prof, All(g), n + 2).Some? then n else MergedDepth(g, n - 1)
  }

  function Deep(g: Setting): (e: nat)
    ensures e <= g.m
  {
    MergedDepth(g, g.m)
  }

  function OwnerOf(g: Setting, j: nat): nat {
    match First(g.s.prof, All(g), j + 2)
    case None => 0
    case Some(t) => t
  }

  /** The value of the merged profile at the path. */
  function ProfileLeaf(g: Setting): Option<int> { Top(g.s.prof, All(g)) }

  /** The layers with the profile among them, as a merge of documents just read has them. */
  function WithProfile(g: Setting): Layers {
    Layers(g.s.main.depth[g.p := Deep(g)],
           if ProfileLeaf(g).Some? then g.s.main.leaf[g.p := ProfileLeaf(g).value] else g.s.main.leaf)
  }

  function MainWorld(g: Setting): World { World(WithProfile(g), All(g), g.root, g.second, g.m) }

  predicate Aside(l: Layers, i: nat) { i !in l.depth && i !in l.leaf }

  /** Some layer has the profile, and it is added right above the first layer that has any
      profiles: that is its rank. */
  predicate RightAbove(g: Setting) {
    && First(g.s.prof, All(g), 2).Some?
    && g.below != [] && Depth(g.s.prof, g.below[|g.below| - 1]) >= 1
    && forall i :: 0 <= i < |g.below| - 1 ==> Depth(g.s.prof, g.below[i]) == 0
  }

  predicate Valid(g: Setting) {
    && Proper(g.s.main, g.m) && Proper(g.s.prof, g.m + 2)
    && Ordered(g.s.main, All(g), g.root) && Ordered(g.s.prof, All(g), g.root)
    && Aside(g.s.main, g.p) && Aside(g.s.prof, g.p) && Aside(g.s.main, g.second) && Aside(g.s.prof, g.second)
    && Aside(g.s.main, g.root) && Aside(g.s.prof, g.root)
    && g.root != g.second && g.root != g.p && g.second != g.p
    && RightAbove(g)
  }

  lemma {:induction false} DeepestIs(g: Setting, n: nat)
    requires First(g.s.prof, All(g), 2).Some?
    ensures First(g.s.prof, All(g), MergedDepth(g, n) + 2).Some?
    ensures MergedDepth(g, n) < n ==> First(g.s.prof, All(g), MergedDepth(g, n) + 3).None?
  {
    if n > 0 && First(g.s.prof, All(g), n + 2).None? { DeepestIs(g, n - 1); }
  }

  /** The merged profile has an object at every depth up to its own, and none below. */
  lemma DeepIs(g: Setting, j: nat)
    requires First(g.s.prof, All(g), 2).Some? && j <= g.m
    ensures First(g.s.prof, All(g), j + 2).Some? <==> j <= Deep(g)
  {
    DeepestIs(g, g.m);
    if j <= Deep(g) { FirstShallower(g.s.prof, All(g), Deep(g) + 2, j + 2); }
    else if First(g.s.prof, All(g), j + 2).Some? { FirstShallower(g.s.prof, All(g), j + 2, Deep(g) + 3); }
  }

  /** A layer that has the profile's leaf has the objects around it. */
  lemma LeafIsDeep(g: Setting, d: nat)
    requires Valid(g) && d in All(g) && Own(g.s.prof, d).Some?
    ensures Deep(g) == g.m && Depth(g.s.prof, d) == g.m + 2
  {
    FirstNone(g.s.prof, All(g), g.m + 2);
    DeepIs(g, g.m);
  }

  lemma {:induction false} TopAmong(l: Layers, order: seq<nat>)
    ensures Top(l, order).Some? ==> exists d :: d in order && Own(l, d).Some?
  {
    if order != [] {
      var front, last := order[..|order| - 1], order[|order| - 1];
      TopAmong(l, front);
      assert last in order && forall d :: d in front ==> d in order;
    }
  }

  lemma WorldIsSound(g: Setting)
    requires Valid(g)
    ensures Sound(MainWorld(g)) && Added(MainWorld(g), g.below, g.p, g.above)
    ensures Own(WithProfile(g), g.p) == ProfileLeaf(g) && Depth(WithProfile(g), g.p) == Deep(g)
  {
    TopAmong(g.s.prof, All(g));
    if ProfileLeaf(g).Some? {
      var d :| d in All(g) && Own(g.s.prof, d).Some?;
      LeafIsDeep(g, d);
    }
  }

  // ---- The first merge --------------------------------------------------------------

  function ReadChain(l: Layers): Chain<nat> {
    Chain(map c | c in (set i: nat, j: nat | i in l.depth.Keys && 0 <= j < l.depth[i] :: (i, j)) :: c.0, l.leaf)
  }

  lemma ReadIsFresh(l: Layers, m: nat)
    ensures Fresh(ReadChain(l), l, m)
  {
    var c := ReadChain(l);
    forall i: nat, j: nat {:trigger Next(c, i, j)}
      ensures Next(c, i, j) == if j < Depth(l, i) then Some(i) else None
    {
      assert (i, j) in c.next <==> i in l.depth && j < l.depth[i];
    }
    assert forall i: nat :: Leaf(c, i) == Own(l, i);
  }

  lemma PartsOfRead(r: Chain<Obj>, g: Setting)
    requires Valid(g) && JustRead(r, g.s, g.m)
    ensures MainPart(r, ReadChain(WithProfile(g)), g.m, g.p) && ProfPart(r, ReadChain(g.s.prof), g.m)
  {
    var l, c, q := WithProfile(g), ReadChain(WithProfile(g)), ReadChain(g.s.prof);
    ReadIsFresh(l, g.m);
    ReadIsFresh(g.s.prof, g.m + 2);
    forall i: nat, j: nat {:trigger Next(c, i, j)} | i != g.p && j < g.m
      ensures Next(c, i, j) != Some(g.p) && Next(r, Main(i), j + 2) == MainOf(Next(c, i, j))
    {
      assert Depth(l, i) == Depth(g.s.main, i);
      assert Next(r, Main(i), j + 2) == if j < Depth(g.s.main, i) then Some(Main(i)) else None;
    }
    forall i: nat {:trigger Leaf(c, i)} | i != g.p
      ensures Leaf(r, Main(i)) == Leaf(c, i)
    {
      assert Own(l, i) == Own(g.s.main, i);
    }
    forall i: nat, k: nat {:trigger Next(q, i, k)} | k < g.m + 2
      ensures Next(r, AtLevel(k, i), k) == LevelOf(k + 1, Next(q, i, k))
    {
      assert Next(r, AtLevel(k, i), k) == if k < Depth(g.s.prof, i) then Some(AtLevel(k + 1, i)) else None;
    }
    assert forall i: nat {:trigger Leaf(q, i)} :: Leaf(r, Prof(i)) == Leaf(q, i);
  }

  // ---- When the two paths are joined ------------------------------------------------

  /** The profile's objects after the first merge: each leads on as there, except that the
      last one may have been linked to other objects and its leaf written. `linked` says
      whether the second document has its `profiles` yet. */
  ghost predicate Profs(r: Chain<Obj>, g: Setting, linked: bool) {
    && (forall i: nat {:trigger Next(r, Main(i), 0)} :: Next(r, Main(i), 0) ==
          if i == g.second then (if linked then MainOf(First(g.s.prof, All(g), 1)) else None)
          else MainOf(NextAfter(g.s.prof, All(g), g.root, i, 0)))
    && (forall i: nat {:trigger Next(r, Main(i), 1)} ::
          Next(r, Main(i), 1) == LevelOf(2, NextAfter(g.s.prof, All(g), g.root, i, 1)))
    && (forall i: nat, k: nat {:trigger Next(r, Prof(i), k)} ::
       2 <= k < g.m + 2 && !(k == Deep(g) + 2 && i == OwnerOf(g, Deep(g))) ==>
          Next(r, Prof(i), k) == LevelOf(k + 1, NextAfter(g.s.prof, All(g), g.root, i, k)))
    && (forall i: nat {:trigger Leaf(r, Prof(i))} :: i != OwnerOf(g, g.m) ==> Leaf(r, Prof(i)) == Own(g.s.prof, i))
  }

  /** The object of an owner at a depth of the path; `p` owns those of the merged profile. */
  function ObjAt(g: Setting, j: nat, i: nat): Obj { if i == g.p then Prof(OwnerOf(g, j)) else Main(i) }

  function ObjOf(g: Setting, j: nat, o: Option<nat>): Option<Obj> {
    if o.Some? then Some(ObjAt(g, j, o.value)) else None
  }

  /** An owner has an object at a depth, as far as the profile's are concerned. */
  predicate There(g: Setting, i: nat, j: nat) { i == g.p ==> j <= Deep(g) }

  /** One link of `Joined`. */
  ghost predicate JoinedAt(r: Chain<Obj>, c: Chain<nat>, g: Setting, i: nat, j: nat) {
    && Next(r, ObjAt(g, j, i), j + 2) == ObjOf(g, j + 1, Next(c, i, j))
    && (Next(c, i, j) == Some(g.p) ==> j < Deep(g))
    && (i == g.p && j < Deep(g) ==> Next(c, i, j) == Some(g.p))
  }

  /** The path of `r` is that of `c`, where the merged profile counts as a layer. */
  ghost predicate Joined(r: Chain<Obj>, c: Chain<nat>, g: Setting) {
    && (forall i: nat, j: nat {:trigger Next(c, i, j)} {:trigger JoinedAt(r, c, g, i, j)} ::
          j < g.m && There(g, i, j) ==> JoinedAt(r, c, g, i, j))
    && (forall i: nat {:trigger Leaf(c, i)} ::
       (i == g.p ==> Deep(g) == g.m) ==> Leaf(r, ObjAt(g, g.m, i)) == Leaf(c, i))
  }

  lemma SameLeaves(r: Chain<Obj>, c: Chain<nat>, r': Chain<Obj>, c': Chain<nat>, g: Setting)
    requires Joined(r, c, g) && r'.leaf == r.leaf && c'.leaf == c.leaf
    ensures forall i: nat {:trigger Leaf(c', i)} ::
            (i == g.p ==> Deep(g) == g.m) ==> Leaf(r', ObjAt(g, g.m, i)) == Leaf(c', i)
  {
    forall i: nat {:trigger Leaf(c', i)} | i == g.p ==> Deep(g) == g.m
      ensures Leaf(r', ObjAt(g, g.m, i)) == Leaf(c', i)
    {
      assert Leaf(c', i) == Leaf(c, i);
      assert Leaf(r, ObjAt(g, g.m, i)) == Leaf(c, i);
      assert Leaf(r', ObjAt(g, g.m, i)) == Leaf(r, ObjAt(g, g.m, i));
    }
  }

  lemma JoinLinks(r: Chain<Obj>, c: Chain<nat>, g: Setting, linked: bool, t: nat, d: nat, j: nat)
    requires Joined(r, c, g) && Profs(r, g, linked) && j < g.m && There(g, t, j) && There(g, d, j + 1)
             && Next(c, t, j).None?
    ensures Joined(r.(next := r.next[(ObjAt(g, j, t), j + 2) := ObjAt(g, j + 1, d)]), c.(next := c.next[(t, j) := d]),
            g)
    ensures Profs(r.(next := r.next[(ObjAt(g, j, t), j + 2) := ObjAt(g, j + 1, d)]), g, linked)
  {
    var r', c' := r.(next := r.next[(ObjAt(g, j, t), j + 2) := ObjAt(g, j + 1, d)]), c.(next := c.next[(t, j) := d]);
    assert JoinedAt(r, c, g, t, j);
    forall i: nat, x: nat {:trigger JoinedAt(r', c', g, i, x)} | x < g.m && There(g, i, x)
      ensures JoinedAt(r', c', g, i, x)
    {
      assert JoinedAt(r, c, g, i, x);
      assert Next(c', i, x) == if i == t && x == j then Some(d) else Next(c, i, x);
      assert Next(r', ObjAt(g, x, i), x + 2) == if i == t && x == j then Some(ObjAt(g, j + 1, d))
          else Next(r, ObjAt(g, x, i), x + 2);
    }
    SameLeaves(r, c, r', c', g);
    LinkKeepsProfs(r, r', g, linked, t, d, j);
  }

  lemma LinkKeepsProfs(r: Chain<Obj>, r': Chain<Obj>, g: Setting, linked: bool, t: nat, d: nat, j: nat)
    requires Profs(r, g, linked) && (t == g.p ==> j == Deep(g))
    requires r' == r.(next := r.next[(ObjAt(g, j, t), j + 2) := ObjAt(g, j + 1, d)])
    ensures Profs(r', g, linked)
  {
    assert forall i: nat, k: nat :: k < 2 ==> Next(r', Main(i), k) == Next(r, Main(i), k);
    forall i: nat, k: nat {:trigger Next(r', Prof(i), k)}
      | 2 <= k < g.m + 2 && !(k == Deep(g) + 2 && i == OwnerOf(g, Deep(g)))
      ensures Next(r', Prof(i), k) == LevelOf(k + 1, NextAfter(g.s.prof, All(g), g.root, i, k))
    {
      assert Next(r', Prof(i), k) == Next(r, Prof(i), k);
    }
    assert forall i: nat :: Leaf(r', Prof(i)) == Leaf(r, Prof(i));
  }

  lemma JoinLeaf(r: Chain<Obj>, c: Chain<nat>, g: Setting, linked: bool, t: nat, v: int)
    requires Joined(r, c, g) && Profs(r, g, linked) && There(g, t, g.m)
    ensures Joined(r.(leaf := r.leaf[ObjAt(g, g.m, t) := v]), c.(leaf := c.leaf[t := v]), g)
    ensures Profs(r.(leaf := r.leaf[ObjAt(g, g.m, t) := v]), g, linked)
  {
    var r', c' := r.(leaf := r.leaf[ObjAt(g, g.m, t) := v]), c.(leaf := c.leaf[t := v]);
    assert (forall o: Obj, x: nat :: Next(r', o, x) == Next(r, o, x)) && forall o: nat, x: nat ::
        Next(c', o, x) == Next(c, o, x);
    forall i: nat, x: nat {:trigger JoinedAt(r', c', g, i, x)} | x < g.m && There(g, i, x)
      ensures JoinedAt(r', c', g, i, x)
    {
      assert Next(c, i, x) == Next(c', i, x);
      assert JoinedAt(r, c, g, i, x);
    }
    forall i: nat {:trigger Leaf(c', i)} | i == g.p ==> Deep(g) == g.m
      ensures Leaf(r', ObjAt(g, g.m, i)) == Leaf(c', i)
    {
      assert Leaf(c, i) == Leaf(r, ObjAt(g, g.m, i));
    }
    LeafKeepsProfs(r, r', g, linked, t, v);
  }

  lemma LeafKeepsProfs(r: Chain<Obj>, r': Chain<Obj>, g: Setting, linked: bool, t: nat, v: int)
    requires Profs(r, g, linked) && r' == r.(leaf := r.leaf[ObjAt(g, g.m, t) := v])
    ensures Profs(r', g, linked)
  {
    assert forall o: Obj, x: nat :: Next(r', o, x) == Next(r, o, x);
    forall i: nat {:trigger Leaf(r', Prof(i))} | i != OwnerOf(g, g.m)
      ensures Leaf(r', Prof(i)) == Own(g.s.prof, i)
    {
      assert Leaf(r', Prof(i)) == Leaf(r, Prof(i));
    }
  }

  /** Merging along the path is merging along the joined path. */
  lemma {:induction false} JoinWalks(r: Chain<Obj>, c: Chain<nat>, g: Setting, linked: bool, t: nat, d: nat, j: nat)
    requires Joined(r, c, g) && Profs(r, g, linked) && j <= g.m && There(g, t, j) && There(g, d, j)
    ensures Joined(Walk(r, ObjAt(g, j, t), ObjAt(g, j, d), j + 2, g.m + 2), Walk(c, t, d, j, g.m), g)
    ensures Profs(Walk(r, ObjAt(g, j, t), ObjAt(g, j, d), j + 2, g.m + 2), g, linked)
    decreases g.m - j
  {
    if j == g.m {
      assert Leaf(r, ObjAt(g, g.m, d)) == Leaf(c, d);
      if Leaf(c, d).Some? { JoinLeaf(r, c, g, linked, t, Leaf(c, d).value); }
    } else {
      var n, o := Next(c, d, j), Next(c, t, j);
      assert JoinedAt(r, c, g, d, j) && JoinedAt(r, c, g, t, j);
      if n.Some? {
        if o.Some? {
          JoinWalks(r, c, g, linked, o.value, n.value, j + 1);
        } else {
          JoinLinks(r, c, g, linked, t, n.value, j);
        }
      }
    }
  }

  lemma {:induction false} JoinReads(r: Chain<Obj>, c: Chain<nat>, g: Setting, o: nat, j: nat)
    requires Joined(r, c, g) && j <= g.m && There(g, o, j)
    ensures Read(r, ObjAt(g, j, o), j + 2, g.m + 2) == Read(c, o, j, g.m)
    decreases g.m - j
  {
    if j < g.m {
      assert JoinedAt(r, c, g, o, j);
      if Next(c, o, j).Some? { JoinReads(r, c, g, Next(c, o, j).value, j + 1); }
    }
  }

  // ---- What the profiles of a layer write -------------------------------------------

  /** The leaf that the profile of a layer writes into the merged one, if it has its own. */
  function Writes(g: Setting, d: nat): Option<int> { if d == OwnerOf(g, g.m) then None else Own(g.s.prof, d) }

  function Settled<O>(c: Chain<O>, o: O, x: Option<int>): Chain<O> {
    match x
    case None => c
    case Some(v) => c.(leaf := c.leaf[o := v])
  }

  lemma SelfWalk(c: Chain<Obj>, o: Obj, k: nat, m: nat)
    ensures Walk(c, o, o, k, m) == c
    decreases m - k
  {
    if k >= m {
      if o in c.leaf { assert c.leaf[o := c.leaf[o]] == c.leaf; }
    } else if Next(c, o, k).Some? {
      SelfWalk(c, Next(c, o, k).value, k + 1, m);
    }
  }

  /** A layer that owns an object of the merged profile writes nothing of its own. */
  lemma OwnerWritesNothing(g: Setting, d: nat, j: nat)
    requires Valid(g) && d in All(g) && j <= g.m && First(g.s.prof, All(g), j + 2) == Some(d)
    ensures Writes(g, d).None?
  {
    if Own(g.s.prof, d).Some? {
      LeafIsDeep(g, d);
      FirstStays(g.s.prof, All(g), j + 2, g.m + 2);
    }
  }

  /** The links of the merged profile and of a layer's own one. */
  lemma ProfileLinks(r: Chain<Obj>, g: Setting, linked: bool, d: nat, j: nat)
    requires Valid(g) && Profs(r, g, linked) && d in All(g) && j < g.m && j + 2 <= Depth(g.s.prof, d)
    requires First(g.s.prof, All(g), j + 2) != Some(d)
    ensures Next(r, Prof(d), j + 2) == if j + 2 < Depth(g.s.prof, d) then Some(Prof(d)) else None
    ensures j + 2 < Depth(g.s.prof, d) ==> Next(r, Prof(OwnerOf(g, j)), j + 2) == Some(Prof(OwnerOf(g, j + 1)))
  {
    FirstNone(g.s.prof, All(g), j + 2);
    assert Next(r, Prof(d), j + 2) == LevelOf(j + 3, NextAfter(g.s.prof, All(g), g.root, d, j + 2)) by { DeepIs(g, j); }
    if j + 2 < Depth(g.s.prof, d) {
      FirstNone(g.s.prof, All(g), j + 3);
      DeepIs(g, j + 1);
      NextOfTarget(g.s.prof, All(g), g.root, j + 2);
    }
  }

  lemma SomeOwner(g: Setting, d: nat, j: nat)
    requires d in All(g) && j + 2 <= Depth(g.s.prof, d)
    ensures First(g.s.prof, All(g), j + 2) == Some(OwnerOf(g, j))
  {
    FirstNone(g.s.prof, All(g), j + 2);
  }

  lemma ProfileLeaves(r: Chain<Obj>, g: Setting, linked: bool, d: nat)
    requires Profs(r, g, linked) && d != OwnerOf(g, g.m)
    ensures Walk(r, Prof(OwnerOf(g, g.m)), Prof(d), g.m + 2, g.m + 2) == Settled(r, Prof(OwnerOf(g, g.m)), Writes(g, d))
  {
  }

  /** A profile that is not as deep as the path has no leaf there. */
  lemma ShortWritesNothing(g: Setting, d: nat)
    requires Valid(g) && d in All(g) && Depth(g.s.prof, d) < g.m + 2
    ensures Writes(g, d).None?
  {
    if Own(g.s.prof, d).Some? { LeafIsDeep(g, d); }
  }

  /** Below the name: the profile of a layer is merged into the merged profile. */
  lemma {:induction false} ProfileBelow(r: Chain<Obj>, g: Setting, linked: bool, d: nat, j: nat)
    requires Valid(g) && Profs(r, g, linked) && d in All(g) && j <= g.m && j + 2 <= Depth(g.s.prof, d)
    ensures Walk(r, Prof(OwnerOf(g, j)), Prof(d), j + 2, g.m + 2) == Settled(r, Prof(OwnerOf(g, g.m)), Writes(g, d))
    decreases g.m - j
  {
    SomeOwner(g, d, j);
    if d == OwnerOf(g, j) {
      SelfWalk(r, Prof(d), j + 2, g.m + 2);
      OwnerWritesNothing(g, d, j);
    } else if j == g.m {
      ProfileLeaves(r, g, linked, d);
    } else {
      ProfileLinks(r, g, linked, d, j);
      if j + 2 < Depth(g.s.prof, d) { ProfileBelow(r, g, linked, d, j + 1); } else { ShortWritesNothing(g, d); }
    }
  }

  /** The `profiles` key of a layer in the second merge. */
  lemma ProfilesKey(r: Chain<Obj>, g: Setting, linked: bool, d: nat)
    requires Valid(g) && Profs(r, g, linked) && d in All(g)
    requires !linked && Depth(g.s.prof, d) >= 1 ==> First(g.s.prof, All(g), 1) == Some(d)
    ensures Walk(r, Main(g.second), Main(d), 0, g.m + 2) ==
              if Depth(g.s.prof, d) >= 1 && !linked then r.(next := r.next[(Main(g.second), 0) := Main(d)])
              else Settled(r, Prof(OwnerOf(g, g.m)), Writes(g, d))
    ensures Depth(g.s.prof, d) >= 1 && !linked ==> Writes(g, d).None?
  {
    var l, order := g.s.prof, All(g);
    assert Next(r, Main(d), 0) == MainOf(NextAfter(l, order, g.root, d, 0));
    if Depth(l, d) >= 1 {
      FirstNone(l, order, 1);
      if !linked {
        if Own(l, d).Some? { LeafIsDeep(g, d); FirstStays(l, order, 1, g.m + 2); }
      } else {
        var f := First(l, order, 1).value;
        NextOfTarget(l, order, g.root, 1);
        assert Next(r, Main(f), 1) == Some(Prof(OwnerOf(g, 0)));
        assert Next(r, Main(d), 1) == LevelOf(2, NextAfter(l, order, g.root, d, 1));
        if Depth(l, d) >= 2 {
          ProfileBelow(r, g, linked, d, 0);
        } else if d == f {
          SelfWalk(r, Prof(OwnerOf(g, 0)), 2, g.m + 2);
        }
      }
    }
  }

  // ---- The second merge -------------------------------------------------------------

  /** One layer on the joined path. */
  function Layered(c: Chain<nat>, g: Setting, d: nat, late: bool): Chain<nat> {
    if late then Settled(Walk(c, g.second, d, 0, g.m), g.p, Writes(g, d))
    else Walk(Settled(c, g.p, Writes(g, d)), g.second, d, 0, g.m)
  }

  function LayeredAll(c: Chain<nat>, g: Setting, order: seq<nat>, late: nat -> bool): Chain<nat>
    decreases |order|
  {
    if order == [] then c
    else
      var d := order[|order| - 1];
      Layered(LayeredAll(c, g, order[..|order| - 1], late), g, d, late(d))
  }

  /** The second document gets its `profiles`. */
  lemma KeyLinked(r: Chain<Obj>, c: Chain<nat>, g: Setting, d: nat)
    requires Joined(r, c, g) && Profs(r, g, false) && First(g.s.prof, All(g), 1) == Some(d)
    ensures var r' := r.(next := r.next[(Main(g.second), 0) := Main(d)]); Joined(r', c, g) && Profs(r', g, true)
  {
    var r' := r.(next := r.next[(Main(g.second), 0) := Main(d)]);
    assert forall o: Obj, k: nat ::
        Next(r', o, k) == if o == Main(g.second) && k == 0 then Some(Main(d)) else Next(r, o, k);
    assert forall o: Obj :: Leaf(r', o) == Leaf(r, o);
    SameLeaves(r, c, r', c, g);
    forall i: nat, j: nat {:trigger JoinedAt(r', c, g, i, j)} | j < g.m && There(g, i, j)
      ensures JoinedAt(r', c, g, i, j)
    {
      assert JoinedAt(r, c, g, i, j);
    }
  }

  /** The `profiles` key of a layer on the joined path. */
  lemma KeyJoined(r: Chain<Obj>, c: Chain<nat>, g: Setting, linked: bool, d: nat)
    requires Valid(g) && Joined(r, c, g) && Profs(r, g, linked) && d in All(g)
    requires !linked && Depth(g.s.prof, d) >= 1 ==> First(g.s.prof, All(g), 1) == Some(d)
    ensures var r' := Walk(r, Main(g.second), Main(d), 0, g.m + 2);
            Joined(r', Settled(c, g.p, Writes(g, d)), g) && Profs(r', g, linked || Depth(g.s.prof, d) >= 1)
  {
    var r' := Walk(r, Main(g.second), Main(d), 0, g.m + 2);
    ProfilesKey(r, g, linked, d);
    if Depth(g.s.prof, d) >= 1 && !linked {
      KeyLinked(r, c, g, d);
    } else if Writes(g, d).Some? {
      LeafIsDeep(g, d);
      JoinLeaf(r, c, g, linked, g.p, Writes(g, d).value);
    }
  }

  lemma LayerJoined(r: Chain<Obj>, c: Chain<nat>, g: Setting, linked: bool, d: nat, late: bool)
    requires Valid(g) && Joined(r, c, g) && Profs(r, g, linked) && d in All(g)
    requires !linked && Depth(g.s.prof, d) >= 1 ==> First(g.s.prof, All(g), 1) == Some(d)
    ensures var r' := MergeLayer(r, g.second, d, g.m, late);
            Joined(r', Layered(c, g, d, late), g) && Profs(r', g, linked || Depth(g.s.prof, d) >= 1)
  {
    assert ObjAt(g, 0, d) == Main(d) && ObjAt(g, 0, g.second) == Main(g.second);
    if late {
      JoinWalks(r, c, g, linked, g.second, d, 0);
      KeyJoined(Walk(r, Main(g.second), Main(d), 2, g.m + 2), Walk(c, g.second, d, 0, g.m), g, linked, d);
    } else {
      KeyJoined(r, c, g, linked, d);
      var r1, c1 := Walk(r, Main(g.second), Main(d), 0, g.m + 2), Settled(c, g.p, Writes(g, d));
      JoinWalks(r1, c1, g, linked || Depth(g.s.prof, d) >= 1, g.second, d, 0);
    }
  }

  /** Layers in front of the first one with profiles link nothing. */
  lemma NewestLinks(g: Setting, front: seq<nat>, d: nat)
    requires front + [d] <= All(g) && First(g.s.prof, front, 1).None? && Depth(g.s.prof, d) >= 1
    ensures First(g.s.prof, All(g), 1) == Some(d)
  {
    FirstSnoc(g.s.prof, front, d, 1);
    FirstOfPrefix(g.s.prof, front + [d], All(g), 1);
  }

  /** The layers below the profile. */
  lemma {:induction false} BelowJoined(r: Chain<Obj>, c: Chain<nat>, g: Setting, order: seq<nat>, late: nat -> bool)
    requires Valid(g) && Joined(r, c, g) && Profs(r, g, false) && order <= All(g)
    ensures Joined(MergeLayers(r, g.second, order, g.m, late), LayeredAll(c, g, order, late), g)
    ensures Profs(MergeLayers(r, g.second, order, g.m, late), g, First(g.s.prof, order, 1).Some?)
    decreases |order|
  {
    if order != [] {
      var front, d := order[..|order| - 1], order[|order| - 1];
      assert front + [d] == order && d == All(g)[|order| - 1];
      BelowJoined(r, c, g, front, late);
      var linked := First(g.s.prof, front, 1).Some?;
      if !linked && Depth(g.s.prof, d) >= 1 { NewestLinks(g, front, d); }
      FirstSnoc(g.s.prof, front, d, 1);
      LayerJoined(MergeLayers(r, g.second, front, g.m, late), LayeredAll(c, g, front, late), g, linked, d, late(d));
    }
  }

  /** The layers above it. */
  lemma {:induction false} AboveJoined(r: Chain<Obj>, c: Chain<nat>, g: Setting, order: seq<nat>, late: nat -> bool)
    requires Valid(g) && Joined(r, c, g) && Profs(r, g, true) && forall d :: d in order ==> d in All(g)
    ensures Joined(MergeLayers(r, g.second, order, g.m, late), LayeredAll(c, g, order, late), g)
    ensures Profs(MergeLayers(r, g.second, order, g.m, late), g, true)
    decreases |order|
  {
    if order != [] {
      var front, d := order[..|order| - 1], order[|order| - 1];
      assert d in order && forall x :: x in front ==> x in order;
      AboveJoined(r, c, g, front, late);
      LayerJoined(MergeLayers(r, g.second, front, g.m, late), LayeredAll(c, g, front, late), g, true, d, late(d));
    }
  }

  /** After the first merge the path is joined with that of the profile. */
  lemma JoinBegins(r: Chain<Obj>, c: Chain<nat>, q: Chain<nat>, g: Setting)
    requires Valid(g) && MainPart(r, c, g.m, g.p) && ProfPart(r, q, g.m)
    requires Merged(c, WithProfile(g), All(g), g.root, g.m) && Merged(q, g.s.prof, All(g), g.root, g.m + 2)
    ensures Joined(r, c, g) && Profs(r, g, false)
    ensures ProfileOf(r, g.root) == Some(Prof(OwnerOf(g, 0)))
  {
    WorldIsSound(g);
    ProfsBegin(r, q, g);
    forall i: nat, j: nat {:trigger JoinedAt(r, c, g, i, j)} | j < g.m && There(g, i, j)
      ensures JoinedAt(r, c, g, i, j)
    {
      assert Next(c, i, j) == NextAfter(WithProfile(g), All(g), g.root, i, j);
      if i == g.p {
        LinkBegins(r, q, g, OwnerOf(g, j), j + 2);
        ProfileBegins(r, c, g, j);
      }
    }
    forall i: nat {:trigger Leaf(c, i)} | i == g.p ==> Deep(g) == g.m
      ensures Leaf(r, ObjAt(g, g.m, i)) == Leaf(c, i)
    {
      assert Leaf(c, i) == LeafAfter(WithProfile(g), All(g), g.root, g.m, i);
      if i == g.p { LeafBegins(r, c, q, g); }
    }
  }

  lemma LinkBegins(r: Chain<Obj>, q: Chain<nat>, g: Setting, i: nat, k: nat)
    requires ProfPart(r, q, g.m) && Merged(q, g.s.prof, All(g), g.root, g.m + 2) && k < g.m + 2
    ensures Next(r, AtLevel(k, i), k) == LevelOf(k + 1, NextAfter(g.s.prof, All(g), g.root, i, k))
  {
    assert Next(q, i, k) == NextAfter(g.s.prof, All(g), g.root, i, k);
  }

  lemma ProfsBegin(r: Chain<Obj>, q: Chain<nat>, g: Setting)
    requires Valid(g) && ProfPart(r, q, g.m) && Merged(q, g.s.prof, All(g), g.root, g.m + 2)
    ensures Profs(r, g, false)
    ensures ProfileOf(r, g.root) == Some(Prof(OwnerOf(g, 0)))
  {
    var l, order := g.s.prof, All(g);
    forall i: nat, k: nat
      ensures k < g.m + 2 ==> Next(r, AtLevel(k, i), k) == LevelOf(k + 1, NextAfter(l, order, g.root, i, k))
    {
      if k < g.m + 2 { LinkBegins(r, q, g, i, k); }
    }
    forall i: nat {:trigger Leaf(r, Prof(i))} | i != OwnerOf(g, g.m)
      ensures Leaf(r, Prof(i)) == Own(l, i)
    {
      assert Leaf(q, i) == LeafAfter(l, order, g.root, g.m + 2, i);
    }
    forall i: nat {:trigger Next(r, Main(i), 0)}
      ensures Next(r, Main(i), 0) == if i == g.second then None else MainOf(NextAfter(l, order, g.root, i, 0))
    {
      assert Next(r, AtLevel(0, i), 0) == LevelOf(1, NextAfter(l, order, g.root, i, 0));
    }
    forall i: nat {:trigger Next(r, Main(i), 1)}
      ensures Next(r, Main(i), 1) == LevelOf(2, NextAfter(l, order, g.root, i, 1))
    {
      assert Next(r, AtLevel(1, i), 1) == LevelOf(2, NextAfter(l, order, g.root, i, 1));
    }
    forall i: nat, k: nat {:trigger Next(r, Prof(i), k)} | 2 <= k < g.m + 2
      ensures Next(r, Prof(i), k) == LevelOf(k + 1, NextAfter(l, order, g.root, i, k))
    {
      assert Next(r, AtLevel(k, i), k) == LevelOf(k + 1, NextAfter(l, order, g.root, i, k));
    }
    FirstShallower(l, order, 2, 1);
    NextOfTarget(l, order, g.root, 1);
  }

  lemma ProfileBegins(r: Chain<Obj>, c: Chain<nat>, g: Setting, j: nat)
    requires Valid(g) && Profs(r, g, false) && j < g.m && j <= Deep(g)
    requires Next(c, g.p, j) == NextAfter(WithProfile(g), All(g), g.root, g.p, j)
    requires Next(r, Prof(OwnerOf(g, j)), j + 2)
             == LevelOf(j + 3, NextAfter(g.s.prof, All(g), g.root, OwnerOf(g, j), j + 2))
    ensures JoinedAt(r, c, g, g.p, j)
  {
    WorldIsSound(g);
    DeepIs(g, j);
    DeepIs(g, j + 1);
    NextOfTarget(g.s.prof, All(g), g.root, j + 2);
    FirstIs(WithProfile(g), All(g), j);
  }

  lemma LeafBegins(r: Chain<Obj>, c: Chain<nat>, q: Chain<nat>, g: Setting)
    requires Valid(g) && ProfPart(r, q, g.m) && Deep(g) == g.m
    requires Merged(q, g.s.prof, All(g), g.root, g.m + 2)
             && Leaf(c, g.p) == LeafAfter(WithProfile(g), All(g), g.root, g.m, g.p)
    ensures Leaf(r, Prof(OwnerOf(g, g.m))) == Leaf(c, g.p)
  {
    WorldIsSound(g);
    DeepIs(g, g.m);
    assert Leaf(q, OwnerOf(g, g.m)) == LeafAfter(g.s.prof, All(g), g.root, g.m + 2, OwnerOf(g, g.m));
    FirstIs(WithProfile(g), All(g), g.m);
  }

  // ---- From the documents to the joined path ----------------------------------------

  /** The joined path at the end of the second merge. */
  function JoinedMerge(g: Setting, late: nat -> bool): Chain<nat> {
    var once := MergeAll(ReadChain(WithProfile(g)), g.root, All(g), g.m);
    LayeredAll(Walk(LayeredAll(once, g, g.below, late), g.second, g.p, 0, g.m), g, g.above, late)
  }

  lemma SecondIsJoined(r: Chain<Obj>, c: Chain<nat>, g: Setting, late: nat -> bool)
    requires Valid(g) && Joined(r, c, g) && Profs(r, g, false)
    ensures Read(MergeWith(r, g.second, g.below, Prof(OwnerOf(g, 0)), g.above, g.m, late), Main(g.second), 2, g.m + 2)
         == Read(LayeredAll(Walk(LayeredAll(c, g, g.below, late), g.second, g.p, 0, g.m), g, g.above, late), g.second,
            0, g.m)
  {
    var r1, c1 := MergeLayers(r, g.second, g.below, g.m, late), LayeredAll(c, g, g.below, late);
    BelowJoined(r, c, g, g.below, late);
    ProfilesBelow(g);
    JoinWalks(r1, c1, g, true, g.second, g.p, 0);
    RestIsJoined(Walk(r1, Main(g.second), Prof(OwnerOf(g, 0)), 2, g.m + 2), Walk(c1, g.second, g.p, 0, g.m), g, late);
  }

  lemma RestIsJoined(r: Chain<Obj>, c: Chain<nat>, g: Setting, late: nat -> bool)
    requires Valid(g) && Joined(r, c, g) && Profs(r, g, true)
    ensures Read(MergeLayers(r, g.second, g.above, g.m, late), Main(g.second), 2, g.m + 2)
         == Read(LayeredAll(c, g, g.above, late), g.second, 0, g.m)
  {
    AboveJoined(r, c, g, g.above, late);
    JoinReads(MergeLayers(r, g.second, g.above, g.m, late), LayeredAll(c, g, g.above, late), g, g.second, 0);
  }

  lemma FirstMergeIsApart(r: Chain<Obj>, g: Setting, once: nat -> bool)
    requires MainPart(r, ReadChain(WithProfile(g)), g.m, g.p) && ProfPart(r, ReadChain(g.s.prof), g.m)
    requires g.root != g.p && g.p !in All(g)
    ensures MainPart(MergeLayers(r, g.root, All(g), g.m, once),
            MergeAll(ReadChain(WithProfile(g)), g.root, All(g), g.m), g.m, g.p)
    ensures ProfPart(MergeLayers(r, g.root, All(g), g.m, once),
            MergeAll(ReadChain(g.s.prof), g.root, All(g), g.m + 2), g.m)
  {
    MergeParts(r, ReadChain(WithProfile(g)), ReadChain(g.s.prof), g.m, g.p, g.root, All(g), once);
  }

  lemma FirstMergeIsMerged(g: Setting)
    requires Valid(g)
    ensures Merged(MergeAll(ReadChain(WithProfile(g)), g.root, All(g), g.m), WithProfile(g), All(g), g.root, g.m)
    ensures Merged(MergeAll(ReadChain(g.s.prof), g.root, All(g), g.m + 2), g.s.prof, All(g), g.root, g.m + 2)
  {
    WorldIsSound(g);
    ReadIsFresh(WithProfile(g), g.m);
    ReadIsFresh(g.s.prof, g.m + 2);
    MergeAllMerges(ReadChain(WithProfile(g)), WithProfile(g), All(g), g.root, g.m);
    MergeAllMerges(ReadChain(g.s.prof), g.s.prof, All(g), g.root, g.m + 2);
  }

  /** The profile is selected from the first merge, and what the second one makes of the
      path is what it makes of the joined path. */
  lemma MergeIsJoined(r: Chain<Obj>, g: Setting, once: nat -> bool, late: nat -> bool)
    requires Valid(g) && JustRead(r, g.s, g.m)
    ensures var merged := MergeLayers(r, g.root, All(g), g.m, once);
            && ProfileOf(merged, g.root).Some?
            && Read(MergeWith(merged, g.second, g.below, ProfileOf(merged, g.root).value, g.above, g.m, late),
               Main(g.second), 2, g.m + 2)
               == Read(JoinedMerge(g, late), g.second, 0, g.m)
  {
    var merged := MergeLayers(r, g.root, All(g), g.m, once);
    var c, q := MergeAll(ReadChain(WithProfile(g)), g.root, All(g), g.m),
        MergeAll(ReadChain(g.s.prof), g.root, All(g), g.m + 2);
    PartsOfRead(r, g);
    FirstMergeIsApart(r, g, once);
    FirstMergeIsMerged(g);
    JoinBegins(merged, c, q, g);
    SecondIsJoined(merged, c, g, late);
  }

  /** The last layer below the profile is the first with any profiles. */
  lemma ProfilesBelow(g: Setting)
    requires Valid(g)
    ensures First(g.s.prof, g.below, 1).Some?
    ensures forall d :: d in g.below ==> Writes(g, d).None?
  {
    var front, last := g.below[..|g.below| - 1], g.below[|g.below| - 1];
    assert g.below == front + [last];
    FirstNone(g.s.prof, g.below, 1);
    FirstNone(g.s.prof, front, 1);
    assert front + [last] <= All(g);
    NewestLinks(g, front, last);
    forall d | d in g.below
      ensures Writes(g, d).None?
    {
      assert d in All(g);
      if Own(g.s.prof, d).Some? {
        LeafIsDeep(g, d);
        assert d == last;
        FirstStays(g.s.prof, All(g), 1, g.m + 2);
      }
    }
  }
}
