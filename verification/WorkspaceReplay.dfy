/** A follower that subscribes first and reads its baseline later: the stream of
    `internal/dshstream/workspace.go` over the table of `cli/consoleworkspaces.go`. Changes
    between the two calls are in the baseline and are applied to it once more. */
module WorkspaceReplay {
  import opened Sequences
  import opened Options
  import opened Workspaces

  // ---- Filters ----------------------------------------------------------------------

  function Only(s: seq<ID>, keep: set<ID>): seq<ID> {
    if s == [] then [] else if s[0] in keep then [s[0]] + Only(s[1..], keep) else Only(s[1..], keep)
  }

  lemma {:induction false} OnlyMembers(s: seq<ID>, keep: set<ID>)
    ensures forall x :: x in Only(s, keep) <==> x in s && x in keep
  {
    if s != [] { OnlyMembers(s[1..], keep); }
  }

  lemma {:induction false} OnlyConcat(a: seq<ID>, b: seq<ID>, keep: set<ID>)
    ensures Only(a + b, keep) == Only(a, keep) + Only(b, keep)
  {
    if a == [] {
      assert a + b == b;
    } else {
      var s, first := a + b, [a[0]];
      OnlyConcat(a[1..], b, keep);
      assert s[0] == a[0] && s[1..] == a[1..] + b;
      assert first + (Only(a[1..], keep) + Only(b, keep)) == first + Only(a[1..], keep) + Only(b, keep);
    }
  }

  lemma OnlyPlus(s: seq<ID>, x: ID, keep: set<ID>)
    ensures Only(s + [x], keep) == if x in keep then Only(s, keep) + [x] else Only(s, keep)
  {
    OnlyConcat(s, [x], keep);
    assert [x][1..] == [];
  }

  lemma {:induction false} OnlySame(s: seq<ID>, keep: set<ID>, also: set<ID>)
    requires forall x :: x in s ==> (x in keep <==> x in also)
    ensures Only(s, keep) == Only(s, also)
  {
    if s != [] { OnlySame(s[1..], keep, also); }
  }

  lemma {:induction false} OnlyAll(s: seq<ID>, keep: set<ID>)
    requires forall x :: x in s ==> x in keep
    ensures Only(s, keep) == s
  {
    if s != [] { OnlyAll(s[1..], keep); }
  }

  lemma {:induction false} OnlyNone(s: seq<ID>, keep: set<ID>)
    requires forall x :: x in s ==> x !in keep
    ensures Only(s, keep) == []
  {
    if s != [] { OnlyNone(s[1..], keep); }
  }

  lemma {:induction false} OnlyTwice(s: seq<ID>, keep: set<ID>, also: set<ID>)
    ensures Only(Only(s, keep), also) == Only(s, keep * also)
  {
    if s != [] {
      var rest := Only(s[1..], keep);
      OnlyTwice(s[1..], keep, also);
      if s[0] in keep { assert ([s[0]] + rest)[1..] == rest; }
    }
  }

  lemma {:induction false} WithoutIsOnly(s: seq<ID>, x: ID, keep: set<ID>)
    ensures Without(Only(s, keep), x) == Only(s, keep - {x})
    ensures Only(Without(s, x), keep) == Only(s, keep - {x})
  {
    if s != [] {
      var only, less := Only(s[1..], keep), Without(s[1..], x);
      WithoutIsOnly(s[1..], x, keep);
      assert ([s[0]] + only)[1..] == only && ([s[0]] + less)[1..] == less;
      assert [] + Without(only, x) == Without(only, x) && [] + less == less;
    }
  }

  lemma {:induction false} OnlyDistinct(s: seq<ID>, keep: set<ID>)
    requires Distinct(s)
    ensures Distinct(Only(s, keep))
  {
    if s != [] {
      var rest, only := s[1..], Only(s[1..], keep);
      assert forall i :: 0 <= i < |rest| ==> rest[i] == s[i + 1];
      OnlyDistinct(rest, keep);
      OnlyMembers(rest, keep);
      assert forall i :: 0 <= i < |only| ==> only[i] in rest;
    }
  }

  // ---- The ids of a replica ---------------------------------------------------------

  function SetOf(ids: seq<ID>): (all: set<ID>)
    ensures forall x :: x in all <==> x in ids
  {
    set x | x in ids
  }

  /** What a change does to the ids alone. */
  function Next(ids: seq<ID>, u: Update): seq<ID> {
    match u
    case Upsert(row) => if row.id in ids then ids else ids + [row.id]
    case Remove(id) => Without(ids, id)
    case Reordered(order) => Only(order, SetOf(ids)) + Only(ids, SetOf(ids) - SetOf(order))
    case Archived(_) => ids
  }

  lemma {:induction false} IdsAt(items: seq<Row>)
    ensures forall i :: 0 <= i < |items| ==> Ids(items)[i] == items[i].id && items[i].id in Ids(items)
  {
    if items != [] { IdsAt(items[1..]); }
  }

  lemma IdsPut(items: seq<Row>, row: Row)
    ensures Ids(Put(items, row)) == if row.id in Ids(items) then Ids(items) else Ids(items) + [row.id]
  {
    var put := Put(items, row);
    IdsAt(items);
    IdsAt(put);
    if row.id in Ids(items) {
      assert exists i :: 0 <= i < |items| && items[i].id == row.id;
      assert Ids(put) == Ids(items);
    } else {
      assert Find(items, row.id) == |items|;
      assert Ids(put) == Ids(items) + [row.id];
    }
  }

  lemma {:induction false} IdsDrop(items: seq<Row>, id: ID)
    ensures Ids(Drop(items, id)) == Without(Ids(items), id)
  {
    if items != [] {
      var rest := Drop(items[1..], id);
      IdsDrop(items[1..], id);
      assert Ids(items)[1..] == Ids(items[1..]);
      assert ([items[0]] + rest)[1..] == rest && [] + rest == rest;
      assert [] + Ids(rest) == Ids(rest);
    }
  }

  lemma {:induction false} FindsItsId(items: seq<Row>, id: ID)
    ensures Find(items, id) < |items| <==> id in Ids(items)
  {
    if items != [] && items[0].id != id { FindsItsId(items[1..], id); }
  }

  lemma {:induction false} IdsNamed(items: seq<Row>, order: seq<ID>)
    ensures Ids(Named(items, order)) == Only(order, SetOf(Ids(items)))
  {
    if order != [] {
      var i, rest := Find(items, order[0]), Named(items, order[1..]);
      IdsNamed(items, order[1..]);
      FindsItsId(items, order[0]);
      if i < |items| { assert ([items[i]] + rest)[1..] == rest; } else { assert [] + rest == rest; }
    }
  }

  lemma {:induction false} IdsOthers(items: seq<Row>, order: seq<ID>, all: set<ID>)
    requires forall id :: id in Ids(items) ==> id in all
    ensures Ids(Others(items, order)) == Only(Ids(items), all - SetOf(order))
  {
    if items != [] {
      var rest := Others(items[1..], order);
      assert Ids(items)[0] == items[0].id && Ids(items)[1..] == Ids(items[1..]);
      assert items[0].id in Ids(items) && forall id :: id in Ids(items[1..]) ==> id in Ids(items);
      IdsOthers(items[1..], order, all);
      assert ([items[0]] + rest)[1..] == rest;
    }
  }

  lemma {:induction false} IdsConcat(a: seq<Row>, b: seq<Row>)
    ensures Ids(a + b) == Ids(a) + Ids(b)
  {
    if a == [] {
      assert a + b == b;
    } else {
      IdsConcat(a[1..], b);
      assert (a + b)[1..] == a[1..] + b;
      assert [a[0].id] + (Ids(a[1..]) + Ids(b)) == [a[0].id] + Ids(a[1..]) + Ids(b);
    }
  }

  lemma IdsArrange(items: seq<Row>, order: seq<ID>)
    ensures Ids(Arrange(items, order)) == Next(Ids(items), Reordered(order))
  {
    IdsNamed(items, order);
    IdsOthers(items, order, SetOf(Ids(items)));
    IdsConcat(Named(items, order), Others(items, order));
  }

  lemma IdsFollow(b: Baseline, u: Update)
    ensures Ids(Follow(b, u).items) == Next(Ids(b.items), u)
  {
    match u
    case Upsert(row) => IdsPut(b.items, row);
    case Remove(id) => IdsDrop(b.items, id);
    case Reordered(order) => IdsArrange(b.items, order);
    case Archived(_) =>
  }

  lemma DistinctConcat(a: seq<ID>, b: seq<ID>)
    requires Distinct(a) && Distinct(b) && forall x :: x in a ==> x !in b
    ensures Distinct(a + b)
  {
    var s := a + b;
    forall i, j | 0 <= i < j < |s|
      ensures s[i] != s[j]
    {
      if i < |a| && j >= |a| { assert s[i] in a && s[j] in b; }
    }
  }

  lemma ReorderedDistinct(ids: seq<ID>, order: seq<ID>)
    requires Distinct(ids) && Distinct(order)
    ensures Distinct(Next(ids, Reordered(order)))
  {
    var all := SetOf(ids);
    OnlyDistinct(order, all);
    OnlyDistinct(ids, all - SetOf(order));
    OnlyMembers(order, all);
    OnlyMembers(ids, all - SetOf(order));
    DistinctConcat(Only(order, all), Only(ids, all - SetOf(order)));
  }

  lemma NextDistinct(ids: seq<ID>, u: Update)
    requires Distinct(ids) && (u.Reordered? ==> Distinct(u.ids))
    ensures Distinct(Next(ids, u))
  {
    match u
    case Upsert(row) =>
    case Remove(id) => WithoutDistinct(ids, id);
    case Reordered(order) => ReorderedDistinct(ids, order);
    case Archived(_) =>
  }

  // ---- The rows of a replica --------------------------------------------------------

  function RowOf(items: seq<Row>, id: ID): (r: Option<Row>)
    ensures r.Some? ==> r.value.id == id
    ensures r.Some? <==> id in Ids(items)
  {
    if items == [] then None else if items[0].id == id then Some(items[0]) else RowOf(items[1..], id)
  }

  /** What a change does to the row of one id. */
  function NextRow(r: Option<Row>, id: ID, u: Update): Option<Row> {
    match u
    case Upsert(row) => if row.id == id then Some(row) else r
    case Remove(other) => if other == id then None else r
    case Reordered(_) => r
    case Archived(_) => r
  }

  lemma {:induction false} RowOfPut(items: seq<Row>, row: Row, id: ID)
    ensures RowOf(Put(items, row), id) == if row.id == id then Some(row) else RowOf(items, id)
  {
    if items == [] || items[0].id == row.id {
    } else {
      var rest := items[1..];
      RowOfPut(rest, row, id);
      assert Put(items, row)[0] == items[0] && Put(items, row)[1..] == Put(rest, row);
    }
  }

  lemma {:induction false} RowOfDrop(items: seq<Row>, other: ID, id: ID)
    ensures RowOf(Drop(items, other), id) == if other == id then None else RowOf(items, id)
  {
    if items != [] {
      var rest := Drop(items[1..], other);
      RowOfDrop(items[1..], other, id);
      assert ([items[0]] + rest)[1..] == rest && [] + rest == rest;
    }
  }

  lemma {:induction false} RowOfFound(items: seq<Row>, id: ID)
    ensures var i := Find(items, id); RowOf(items, id) == if i < |items| then Some(items[i]) else None
  {
    if items != [] && items[0].id != id { RowOfFound(items[1..], id); }
  }

  lemma {:induction false} RowOfNamed(items: seq<Row>, order: seq<ID>, id: ID)
    ensures RowOf(Named(items, order), id) == if id in order then RowOf(items, id) else None
  {
    if order != [] {
      var i, rest := Find(items, order[0]), Named(items, order[1..]);
      RowOfNamed(items, order[1..], id);
      RowOfFound(items, order[0]);
      if i < |items| { assert ([items[i]] + rest)[1..] == rest; } else { assert [] + rest == rest; }
    }
  }

  lemma {:induction false} RowOfOthers(items: seq<Row>, order: seq<ID>, id: ID)
    ensures RowOf(Others(items, order), id) == if id in order then None else RowOf(items, id)
  {
    if items != [] {
      var rest := Others(items[1..], order);
      RowOfOthers(items[1..], order, id);
      assert ([items[0]] + rest)[1..] == rest;
    }
  }

  lemma {:induction false} RowOfConcat(a: seq<Row>, b: seq<Row>, id: ID)
    ensures RowOf(a + b, id) == if RowOf(a, id).Some? then RowOf(a, id) else RowOf(b, id)
  {
    if a == [] {
      assert a + b == b;
    } else {
      RowOfConcat(a[1..], b, id);
      assert (a + b)[1..] == a[1..] + b;
    }
  }

  lemma RowOfArrange(items: seq<Row>, order: seq<ID>, id: ID)
    ensures RowOf(Arrange(items, order), id) == RowOf(items, id)
  {
    RowOfNamed(items, order, id);
    RowOfOthers(items, order, id);
    RowOfConcat(Named(items, order), Others(items, order), id);
  }

  lemma RowOfFollow(b: Baseline, u: Update, id: ID)
    ensures RowOf(Follow(b, u).items, id) == NextRow(RowOf(b.items, id), id, u)
  {
    match u
    case Upsert(row) => RowOfPut(b.items, row, id);
    case Remove(other) => RowOfDrop(b.items, other, id);
    case Reordered(order) => RowOfArrange(b.items, order, id);
    case Archived(_) =>
  }

  ghost predicate SameRows(a: seq<Row>, b: seq<Row>) { forall id :: RowOf(a, id) == RowOf(b, id) }

  /** A list is its ids in order and the row of each. */
  lemma {:induction false} ListIsIdsAndRows(a: seq<Row>, b: seq<Row>)
    requires Ids(a) == Ids(b) && Distinct(Ids(a)) && SameRows(a, b)
    ensures a == b
  {
    if a != [] {
      var ids := Ids(a);
      assert RowOf(a, ids[0]) == Some(a[0]) && RowOf(b, ids[0]) == Some(b[0]);
      assert Ids(a[1..]) == ids[1..] && Ids(b[1..]) == ids[1..];
      assert forall i :: 0 <= i < |ids| - 1 ==> ids[1..][i] == ids[i + 1];
      forall id
        ensures RowOf(a[1..], id) == RowOf(b[1..], id)
      {
        assert RowOf(a, id) == RowOf(b, id);
      }
      ListIsIdsAndRows(a[1..], b[1..]);
    } else {
      assert b == [];
    }
  }

  // ---- Runs of changes --------------------------------------------------------------

  predicate HasReorder(us: seq<Update>) { exists u :: u in us && u.Reordered? }

  function Removed(us: seq<Update>): (ids: set<ID>)
    ensures forall id :: id in ids <==> Remove(id) in us
  {
    var ids := set u | u in us && u.Remove? :: u.id;
    assert forall id :: Remove(id) in us ==> Remove(id).id in ids;
    ids
  }

  lemma LastOne(us: seq<Update>)
    requires us != []
    ensures var u := us[|us| - 1];
            && HasReorder(us) == (HasReorder(us[..|us| - 1]) || u.Reordered?)
            && Removed(us) == Removed(us[..|us| - 1]) + (if u.Remove? then {u.id} else {})
  {
    assert us == us[..|us| - 1] + [us[|us| - 1]];
  }

  lemma {:induction false} FollowSplit(b: Baseline, us: seq<Update>, vs: seq<Update>)
    ensures FollowAll(b, us + vs) == FollowAll(FollowAll(b, us), vs)
    ensures SendsAll(b, us + vs) <==> SendsAll(b, us) && SendsAll(FollowAll(b, us), vs)
    decreases |vs|
  {
    if vs == [] {
      assert us + vs == us;
    } else {
      var all, last := us + vs, |vs| - 1;
      FollowSplit(b, us, vs[..last]);
      assert all[..|all| - 1] == us + vs[..last] && all[|all| - 1] == vs[last];
    }
  }

  /** Whatever copy the changes of a host are applied to, no id comes twice. */
  lemma {:induction false} RunDistinct(b: Baseline, c: Baseline, us: seq<Update>)
    requires SendsAll(b, us) && Distinct(Ids(c.items))
    ensures Distinct(Ids(FollowAll(c, us).items))
    decreases |us|
  {
    if us != [] {
      var before, u := us[..|us| - 1], us[|us| - 1];
      RunDistinct(b, c, before);
      IdsFollow(FollowAll(c, before), u);
      NextDistinct(Ids(FollowAll(c, before).items), u);
    }
  }

  /** Applied to any copy, the changes of a host leave each row as the host has it, or as
      the copy had it. */
  lemma {:induction false} RowAfter(b: Baseline, c: Baseline, us: seq<Update>, id: ID)
    requires SendsAll(b, us)
    ensures RowOf(FollowAll(c, us).items, id) in {RowOf(FollowAll(b, us).items, id), RowOf(c.items, id)}
    decreases |us|
  {
    if us != [] {
      var before, u := us[..|us| - 1], us[|us| - 1];
      RowAfter(b, c, before, id);
      RowOfFollow(FollowAll(c, before), u, id);
      RowOfFollow(FollowAll(b, before), u, id);
    }
  }

  lemma {:induction false} ArchivedAfter(b: Baseline, c: Baseline, us: seq<Update>)
    ensures FollowAll(c, us).archived in {FollowAll(b, us).archived, c.archived}
    decreases |us|
  {
    if us != [] { ArchivedAfter(b, c, us[..|us| - 1]); }
  }

  // ---- The order after the overlap --------------------------------------------------

  /** The rows that the last new order has placed and that were not removed since. */
  function Placed(us: seq<Update>): seq<ID>
    decreases |us|
  {
    if us == [] then []
    else
      match us[|us| - 1]
      case Upsert(_) => Placed(us[..|us| - 1])
      case Remove(id) => Without(Placed(us[..|us| - 1]), id)
      case Reordered(order) => order
      case Archived(_) => Placed(us[..|us| - 1])
  }

  /** The rows of the host behind them. */
  function Rest(b: Baseline, us: seq<Update>): seq<ID>
    decreases |us|
  {
    if us == [] then Ids(b.items)
    else
      var before := us[..|us| - 1];
      match us[|us| - 1]
      case Upsert(row) =>
        if row.id in Ids(FollowAll(b, before).items) then Rest(b, before) else Rest(b, before) + [row.id]
      case Remove(id) => Without(Rest(b, before), id)
      case Reordered(_) => []
      case Archived(_) => Rest(b, before)
  }

  lemma ReorderedAll(x: seq<ID>, order: seq<ID>)
    requires forall id :: id in x ==> id in order
    requires forall id :: id in order ==> id in x
    ensures Next(x, Reordered(order)) == order
  {
    OnlyAll(order, SetOf(x));
    OnlyNone(x, SetOf(x) - SetOf(order));
    assert order + [] == order;
  }

  lemma {:induction false} PlacedAndRest(b: Baseline, us: seq<Update>)
    requires SendsAll(b, us)
    ensures Ids(FollowAll(b, us).items) == Placed(us) + Rest(b, us)
    decreases |us|
  {
    if us == [] {
      assert [] + Ids(b.items) == Ids(b.items);
    } else {
      var before, u := us[..|us| - 1], us[|us| - 1];
      var p, w := Placed(before), Rest(b, before);
      PlacedAndRest(b, before);
      IdsFollow(FollowAll(b, before), u);
      match u
      case Upsert(row) => assert p + w + [row.id] == p + (w + [row.id]);
      case Remove(id) => WithoutConcat(p, w, id);
      case Reordered(order) =>
        ReorderedAll(p + w, order);
        assert order + [] == order;
      case Archived(_) =>
    }
  }

  /** The ids `y` of a copy that began with `kept`, against those of the host, which are
      `p` and then `w`: the placed ones first, then those of `kept` that were never removed
      in their order there, then the others as the host has them. */
  ghost predicate Kept(y: seq<ID>, p: seq<ID>, w: seq<ID>, kept: seq<ID>, removed: set<ID>) {
    var all := SetOf(kept);
    && Distinct(p + w) && (forall id :: id in all && id in p + w ==> id in y)
    && Only(y, all) == Only(p, all) + Only(kept, all - removed - SetOf(p)) + Only(w, removed * all)
  }

  lemma KeptMembers(p: seq<ID>, w: seq<ID>, kept: seq<ID>, removed: set<ID>, id: ID)
    ensures var all := SetOf(kept);
            id in all ==>
              (id in (Only(p, all) + Only(kept, all - removed - SetOf(p)) + Only(w, removed * all)) <==>
                 (id in p || id !in removed || id in w))
  {
    var all := SetOf(kept);
    OnlyMembers(p, all);
    OnlyMembers(kept, all - removed - SetOf(p));
    OnlyMembers(w, removed * all);
  }

  lemma DistinctSnoc(s: seq<ID>, r: ID)
    requires Distinct(s) && r !in s
    ensures Distinct(s + [r])
  {
  }

  /** A row that only one of the two has is not one the other gets a place for. */
  lemma KeptUpsert(y: seq<ID>, p: seq<ID>, w: seq<ID>, kept: seq<ID>, removed: set<ID>, r: ID)
    requires Kept(y, p, w, kept, removed)
    ensures Kept(if r in y then y else y + [r], p, if r in p + w then w else w + [r], kept, removed)
  {
    var all := SetOf(kept);
    KeptMembers(p, w, kept, removed, r);
    OnlyMembers(y, all);
    OnlyPlus(y, r, all);
    OnlyPlus(w, r, removed * all);
    var front, back := Only(p, all) + Only(kept, all - removed - SetOf(p)), Only(w, removed * all);
    assert front + (back + [r]) == front + back + [r];
    assert p + (w + [r]) == p + w + [r];
    if r !in p + w { DistinctSnoc(p + w, r); }
  }

  lemma KeptRemove(y: seq<ID>, p: seq<ID>, w: seq<ID>, kept: seq<ID>, removed: set<ID>, r: ID)
    requires Kept(y, p, w, kept, removed)
    ensures Kept(Without(y, r), Without(p, r), Without(w, r), kept, removed + {r})
  {
    WithoutMembers(y, r);
    WithoutMembers(p, r);
    WithoutMembers(w, r);
    WithoutConcat(p, w, r);
    WithoutDistinct(p + w, r);
    WithoutIsOnly(y, r, SetOf(kept));
    PartsWithout(p, w, kept, SetOf(kept), removed, r);
  }

  lemma PartsWithout(p: seq<ID>, w: seq<ID>, kept: seq<ID>, all: set<ID>, removed: set<ID>, r: ID)
    ensures Without(Only(p, all) + Only(kept, all - removed - SetOf(p)) + Only(w, removed * all), r)
         == Only(Without(p, r), all) + Only(kept, all - (removed + {r}) - SetOf(Without(p, r)))
            + Only(Without(w, r), (removed + {r}) * all)
  {
    var first, middle, last := Only(p, all), Only(kept, all - removed - SetOf(p)), Only(w, removed * all);
    WithoutMembers(p, r);
    WithoutIsOnly(p, r, all);
    WithoutIsOnly(kept, r, all - removed - SetOf(p));
    WithoutIsOnly(w, r, removed * all);
    WithoutIsOnly(w, r, (removed + {r}) * all);
    WithoutConcat(first + middle, last, r);
    WithoutConcat(first, middle, r);
    assert all - removed - SetOf(p) - {r} == all - (removed + {r}) - SetOf(Without(p, r));
    assert removed * all - {r} == (removed + {r}) * all - {r};
  }

  /** What was there before a new order, without the rows that it names. */
  lemma KeptUnnamed(p: seq<ID>, w: seq<ID>, kept: seq<ID>, removed: set<ID>, order: seq<ID>, rest: set<ID>)
    requires forall id :: id in p + w ==> id !in rest
    requires forall id :: id in kept && id !in order ==> id in rest
    requires forall id :: id in order <==> id in p + w
    ensures var all := SetOf(kept);
            Only(Only(p, all) + Only(kept, all - removed - SetOf(p)) + Only(w, removed * all), rest)
              == Only(kept, all - removed - SetOf(order))
  {
    var all := SetOf(kept);
    var first, middle, last := Only(p, all), Only(kept, all - removed - SetOf(p)), Only(w, removed * all);
    OnlyConcat(first + middle, last, rest);
    OnlyConcat(first, middle, rest);
    OnlyMembers(p, all);
    OnlyMembers(w, removed * all);
    OnlyNone(first, rest);
    OnlyNone(last, rest);
    OnlyTwice(kept, all - removed - SetOf(p), rest);
    OnlySame(kept, (all - removed - SetOf(p)) * rest, all - removed - SetOf(order));
  }

  lemma KeptReorder(y: seq<ID>, p: seq<ID>, w: seq<ID>, kept: seq<ID>, removed: set<ID>, order: seq<ID>)
    requires Kept(y, p, w, kept, removed) && Distinct(order) && forall id :: id in order <==> id in p + w
    ensures Kept(Next(y, Reordered(order)), order, [], kept, removed)
  {
    var all, rest := SetOf(kept), SetOf(y) - SetOf(order);
    var named, others := Only(order, SetOf(y)), Only(y, rest);
    OnlyConcat(named, others, all);
    OnlyMembers(order, SetOf(y));
    OnlyMembers(y, rest);
    OnlyTwice(order, SetOf(y), all);
    OnlySame(order, SetOf(y) * all, all);
    OnlyTwice(y, rest, all);
    OnlyTwice(y, all, rest);
    assert rest * all == all * rest;
    UnnamedOf(y, p, w, kept, removed, order, rest);
    assert order + [] == order;
  }

  lemma UnnamedOf(y: seq<ID>, p: seq<ID>, w: seq<ID>, kept: seq<ID>, removed: set<ID>, order: seq<ID>, rest: set<ID>)
    requires Kept(y, p, w, kept, removed) && (forall id :: id in order <==> id in p + w)
             && rest == SetOf(y) - SetOf(order)
    ensures Only(Only(y, SetOf(kept)), rest) == Only(kept, SetOf(kept) - removed - SetOf(order))
  {
    var all := SetOf(kept);
    var more := rest + (all - SetOf(order));
    OnlyMembers(y, all);
    OnlySame(Only(y, all), rest, more);
    KeptUnnamed(p, w, kept, removed, order, more);
  }

  lemma KeptAtFirst(x: seq<ID>, kept: seq<ID>)
    requires Distinct(x)
    ensures Kept(kept, [], x, kept, {})
  {
    var all := SetOf(kept);
    assert [] + x == x && SetOf([]) == {};
    OnlySame(kept, all, all - {} - {});
    OnlyNone(x, {} * all);
    assert Only([], all) + Only(kept, all - {} - {}) + [] == Only(kept, all - {} - {});
  }

  lemma {:induction false} KeptAfter(b: Baseline, c: Baseline, us: seq<Update>)
    requires SendsAll(b, us) && Distinct(Ids(b.items))
    ensures Kept(Ids(FollowAll(c, us).items), Placed(us), Rest(b, us), Ids(c.items), Removed(us))
    decreases |us|
  {
    var kept := Ids(c.items);
    if us == [] {
      KeptAtFirst(Ids(b.items), kept);
      assert Removed(us) == {};
    } else {
      var before, u := us[..|us| - 1], us[|us| - 1];
      assert us == before + [u];
      KeptAfter(b, c, before);
      KeptNext(b, c, before, u);
    }
  }

  lemma KeptNext(b: Baseline, c: Baseline, before: seq<Update>, u: Update)
    requires SendsAll(b, before + [u]) && Distinct(Ids(b.items))
    requires Kept(Ids(FollowAll(c, before).items), Placed(before), Rest(b, before), Ids(c.items), Removed(before))
    ensures Kept(Ids(FollowAll(c, before + [u]).items), Placed(before + [u]), Rest(b, before + [u]), Ids(c.items),
            Removed(before + [u]))
  {
    var us, kept, removed := before + [u], Ids(c.items), Removed(before);
    var y, p, w := Ids(FollowAll(c, before).items), Placed(before), Rest(b, before);
    assert us[..|us| - 1] == before;
    LastOne(us);
    PlacedAndRest(b, before);
    IdsFollow(FollowAll(c, before), u);
    assert removed + {} == removed;
    match u
    case Upsert(row) => KeptUpsert(y, p, w, kept, removed, row.id);
    case Remove(id) => KeptRemove(y, p, w, kept, removed, id);
    case Reordered(order) => KeptReorder(y, p, w, kept, removed, order);
    case Archived(_) =>
  }

  /** Rows of `s` that were not removed, and behind them those that were and are back. */
  function BackBehind(s: seq<ID>, removed: set<ID>): seq<ID> {
    Only(s, SetOf(s) - removed) + Only(s, removed)
  }

  /** The ids of a baseline after the changes it has were applied to it once more. */
  lemma TwiceOrder(y: seq<ID>, p: seq<ID>, w: seq<ID>, removed: set<ID>)
    requires Kept(y, p, w, p + w, removed) && forall id :: id in y ==> id in p + w
    ensures y == p + BackBehind(w, removed)
  {
    var all := SetOf(p + w);
    OnlyAll(y, all);
    OnlyAll(p, all);
    RestParts(p, w, removed);
    var middle, last := Only(w, SetOf(w) - removed), Only(w, removed);
    assert p + middle + last == p + (middle + last);
  }

  lemma RestParts(p: seq<ID>, w: seq<ID>, removed: set<ID>)
    requires Distinct(p + w)
    ensures var all := SetOf(p + w);
            && Only(p + w, all - removed - SetOf(p)) == Only(w, SetOf(w) - removed)
            && Only(w, removed * all) == Only(w, removed)
  {
    var all := SetOf(p + w);
    forall x | x in w
      ensures x in all && x !in p
    {
      ApartParts(p, w, x);
    }
    OnlyConcat(p, w, all - removed - SetOf(p));
    OnlyNone(p, all - removed - SetOf(p));
    OnlySame(w, all - removed - SetOf(p), SetOf(w) - removed);
    OnlySame(w, removed * all, removed);
    assert [] + Only(w, SetOf(w) - removed) == Only(w, SetOf(w) - removed);
  }

  lemma ApartParts(p: seq<ID>, w: seq<ID>, x: ID)
    requires Distinct(p + w) && x in w
    ensures x in p + w && x !in p
  {
    var s := p + w;
    var j :| 0 <= j < |w| && w[j] == x;
    assert s[|p| + j] == x;
    forall i | 0 <= i < |p|
      ensures p[i] != x
    {
      assert s[i] == p[i];
    }
  }

  /** A baseline with the changes it has already applied to it once more: the same rows and
      archived sessions. Those that the last order has placed come first; of the others the
      ones that were removed and are back have moved behind the rest. */
  lemma AfterOverlap(b: Baseline, us: seq<Update>)
    requires Distinct(Ids(b.items)) && SendsAll(b, us)
    ensures var late := FollowAll(b, us);
            var twice := FollowAll(late, us);
            && SameRows(twice.items, late.items) && twice.archived == late.archived
            && Distinct(Ids(late.items)) && Distinct(Ids(twice.items))
            && Ids(late.items) == Placed(us) + Rest(b, us)
            && Ids(twice.items) == Placed(us) + BackBehind(Rest(b, us), Removed(us))
  {
    var late := FollowAll(b, us);
    var twice := FollowAll(late, us);
    RunDistinct(b, b, us);
    RunDistinct(b, late, us);
    forall id
      ensures RowOf(twice.items, id) == RowOf(late.items, id)
    {
      RowAfter(b, late, us, id);
    }
    ArchivedAfter(b, late, us);
    PlacedAndRest(b, us);
    KeptAfter(b, late, us);
    SameSets(twice.items, late.items);
    assert forall id :: id in Ids(twice.items) ==> id in SetOf(Ids(twice.items));
    TwiceOrder(Ids(twice.items), Placed(us), Rest(b, us), Removed(us));
  }

  // ---- Later changes ----------------------------------------------------------------

  /** Later changes keep two copies with the same rows so. */
  lemma {:induction false} SameRowsGoOn(c: Baseline, d: Baseline, vs: seq<Update>)
    requires SameRows(c.items, d.items) && c.archived == d.archived
    ensures SameRows(FollowAll(c, vs).items, FollowAll(d, vs).items)
            && FollowAll(c, vs).archived == FollowAll(d, vs).archived
    decreases |vs|
  {
    if vs != [] {
      var before, u := vs[..|vs| - 1], vs[|vs| - 1];
      SameRowsGoOn(c, d, before);
      forall id
        ensures RowOf(FollowAll(c, vs).items, id) == RowOf(FollowAll(d, vs).items, id)
      {
        RowOfFollow(FollowAll(c, before), u, id);
        RowOfFollow(FollowAll(d, before), u, id);
      }
    }
  }

  lemma SameSets(a: seq<Row>, b: seq<Row>)
    requires SameRows(a, b)
    ensures SetOf(Ids(a)) == SetOf(Ids(b))
  {
    forall id
      ensures id in Ids(a) <==> id in Ids(b)
    {
      assert RowOf(a, id) == RowOf(b, id);
    }
  }

  lemma NextMembers(x: seq<ID>, u: Update)
    ensures SetOf(Next(x, u)) == match u
                                 case Upsert(row) => SetOf(x) + {row.id}
                                 case Remove(id) => SetOf(x) - {id}
                                 case Reordered(_) => SetOf(x)
                                 case Archived(_) => SetOf(x)
  {
    match u
    case Upsert(row) =>
    case Remove(id) => WithoutMembers(x, id);
    case Reordered(order) =>
      OnlyMembers(order, SetOf(x));
      OnlyMembers(x, SetOf(x) - SetOf(order));
    case Archived(_) =>
  }

  lemma {:induction false} SetsGoOn(c: Baseline, d: Baseline, vs: seq<Update>)
    requires SetOf(Ids(c.items)) == SetOf(Ids(d.items))
    ensures SetOf(Ids(FollowAll(c, vs).items)) == SetOf(Ids(FollowAll(d, vs).items))
    decreases |vs|
  {
    if vs != [] {
      var before, u := vs[..|vs| - 1], vs[|vs| - 1];
      SetsGoOn(c, d, before);
      IdsFollow(FollowAll(c, before), u);
      IdsFollow(FollowAll(d, before), u);
      NextMembers(Ids(FollowAll(c, before).items), u);
      NextMembers(Ids(FollowAll(d, before).items), u);
    }
  }

  /** A new order that names every row makes the orders the same for good. */
  lemma {:induction false} OrderSettles(c: Baseline, d: Baseline, vs: seq<Update>)
    requires SendsAll(c, vs) && SetOf(Ids(c.items)) == SetOf(Ids(d.items))
             && (HasReorder(vs) || Ids(c.items) == Ids(d.items))
    ensures Ids(FollowAll(c, vs).items) == Ids(FollowAll(d, vs).items)
    decreases |vs|
  {
    if vs != [] {
      var before, u := vs[..|vs| - 1], vs[|vs| - 1];
      LastOne(vs);
      IdsFollow(FollowAll(c, before), u);
      IdsFollow(FollowAll(d, before), u);
      if u.Reordered? {
        SetsGoOn(c, d, before);
        SameReordered(Ids(FollowAll(c, before).items), Ids(FollowAll(d, before).items), u.ids);
      } else {
        OrderSettles(c, d, before);
      }
    }
  }

  lemma SameReordered(x: seq<ID>, y: seq<ID>, order: seq<ID>)
    requires SetOf(x) == SetOf(y) && forall id :: id in order <==> id in x
    ensures Next(x, Reordered(order)) == Next(y, Reordered(order))
  {
    assert forall id :: id in y <==> id in SetOf(y);
    assert forall id :: id in x <==> id in SetOf(x);
    ReorderedAll(x, order);
    ReorderedAll(y, order);
  }

  /** What a change does to the new rows behind those that stay. */
  function NextAdded(ids: seq<ID>, added: seq<ID>, u: Update): seq<ID> {
    match u
    case Upsert(row) => if row.id in ids then added else added + [row.id]
    case Remove(id) => Without(added, id)
    case Reordered(_) => added
    case Archived(_) => added
  }

  lemma StayStep(s: seq<ID>, stay: set<ID>, added: seq<ID>, u: Update)
    requires !u.Reordered?
    ensures var ids := Only(s, stay) + added;
            Next(ids, u) == Only(s, stay - if u.Remove? then {u.id} else {}) + NextAdded(ids, added, u)
  {
    match u
    case Upsert(row) =>
      assert stay - {} == stay;
      assert Only(s, stay) + added + [row.id] == Only(s, stay) + (added + [row.id]);
    case Remove(id) =>
      WithoutConcat(Only(s, stay), added, id);
      WithoutIsOnly(s, id, stay);
    case Archived(_) =>
      assert stay - {} == stay;
  }

  lemma SameAdded(x: seq<ID>, y: seq<ID>, added: seq<ID>, u: Update)
    requires SetOf(x) == SetOf(y)
    ensures NextAdded(x, added, u) == NextAdded(y, added, u)
  {
    assert u.Upsert? ==> (u.row.id in x <==> u.row.id in SetOf(x));
    assert u.Upsert? ==> (u.row.id in y <==> u.row.id in SetOf(y));
  }

  function Added(c: Baseline, vs: seq<Update>): seq<ID>
    decreases |vs|
  {
    if vs == [] then []
    else
      var before := vs[..|vs| - 1];
      NextAdded(Ids(FollowAll(c, before).items), Added(c, before), vs[|vs| - 1])
  }

  /** Without one, the rows that are not removed keep their order, and new rows follow. */
  lemma {:induction false} OrderStays(c: Baseline, all: set<ID>, vs: seq<Update>)
    requires !HasReorder(vs) && all == SetOf(Ids(c.items))
    ensures Ids(FollowAll(c, vs).items) == Only(Ids(c.items), all - Removed(vs)) + Added(c, vs)
    decreases |vs|
  {
    if vs == [] {
      assert Removed(vs) == {};
      OnlyAll(Ids(c.items), all - {});
    } else {
      var before, u := vs[..|vs| - 1], vs[|vs| - 1];
      LastOne(vs);
      OrderStays(c, all, before);
      IdsFollow(FollowAll(c, before), u);
      StayStep(Ids(c.items), all - Removed(before), Added(c, before), u);
      assert all - Removed(before) - (if u.Remove? then {u.id} else {}) == all - Removed(vs);
    }
  }

  /** The same new rows in copies of the same rows. */
  lemma {:induction false} AddedIsSame(c: Baseline, d: Baseline, vs: seq<Update>)
    requires SetOf(Ids(c.items)) == SetOf(Ids(d.items))
    ensures Added(c, vs) == Added(d, vs)
    decreases |vs|
  {
    if vs != [] {
      var before, u := vs[..|vs| - 1], vs[|vs| - 1];
      AddedIsSame(c, d, before);
      SetsGoOn(c, d, before);
      SameAdded(Ids(FollowAll(c, before).items), Ids(FollowAll(d, before).items), Added(c, before), u);
    }
  }

  // ---- The exact condition ----------------------------------------------------------

  /** A row that was removed and is back stands before one that was not removed. */
  ghost predicate OutOfPlace(s: seq<ID>, removed: set<ID>) {
    exists i, j :: 0 <= i < j < |s| && s[i] in removed && s[j] !in removed
  }

  lemma {:induction false} InPlace(s: seq<ID>, all: set<ID>, removed: set<ID>)
    requires forall x :: x in s ==> x in all
    ensures Only(s, all - removed) + Only(s, removed) == s <==> !OutOfPlace(s, removed)
  {
    if s != [] {
      var rest := s[1..];
      var first, last := Only(rest, all - removed), Only(rest, removed);
      InPlace(rest, all, removed);
      assert s == [s[0]] + rest;
      if s[0] !in removed {
        assert ([s[0]] + first + last)[1..] == first + last;
        assert [s[0]] + first + last == [s[0]] + (first + last);
        Shifted(s, removed);
      } else {
        OnlyMembers(s, all - removed);
        if j :| 0 <= j < |s| && s[j] !in removed {
          var others := Only(s, all - removed);
          assert s[j] in others && others[0] in others;
          assert (others + Only(s, removed))[0] == others[0];
          assert OutOfPlace(s, removed);
        } else {
          OnlyNone(s, all - removed);
          OnlyAll(s, removed);
        }
      }
    }
  }

  lemma Shifted(s: seq<ID>, removed: set<ID>)
    requires s != [] && s[0] !in removed
    ensures OutOfPlace(s, removed) <==> OutOfPlace(s[1..], removed)
  {
    var rest := s[1..];
    if i, j :| 0 <= i < j < |rest| && rest[i] in removed && rest[j] !in removed {
      assert s[i + 1] in removed && s[j + 1] !in removed;
    }
    if i, j :| 0 <= i < j < |s| && s[i] in removed && s[j] !in removed {
      assert rest[i - 1] in removed && rest[j - 1] !in removed;
    }
  }

  /** The rows of a baseline that no order among the changes it has already has placed
      since they were last removed, and that no later change removes. */
  function Loose(late: Baseline, us: seq<Update>, vs: seq<Update>): seq<ID> {
    Only(Ids(late.items), SetOf(Ids(late.items)) - SetOf(Placed(us)) - Removed(vs))
  }

  lemma OrderOfStanding(s: seq<ID>, removed: set<ID>, all: set<ID>, gone: set<ID>)
    requires forall x :: x in s ==> x in all
    ensures var stay := Only(s, all - gone);
            Only(BackBehind(s, removed), all - gone) == stay <==> !OutOfPlace(stay, removed)
  {
    var stay := Only(s, all - gone);
    OnlySame(s, SetOf(s) - removed, all - removed);
    OnlyConcat(Only(s, all - removed), Only(s, removed), all - gone);
    OnlyTwice(s, all - removed, all - gone);
    OnlyTwice(s, removed, all - gone);
    OnlyTwice(s, all - gone, all - removed);
    OnlyTwice(s, all - gone, removed);
    assert (all - removed) * (all - gone) == (all - gone) * (all - removed);
    assert removed * (all - gone) == (all - gone) * removed;
    OnlyMembers(s, all - gone);
    InPlace(stay, all, removed);
  }

  /** The two orders, after rows that are gone are left out. */
  lemma StandingParts(p: seq<ID>, w: seq<ID>, removed: set<ID>, gone: set<ID>)
    requires Distinct(p + w)
    ensures var all := SetOf(p + w);
            Only(p + BackBehind(w, removed), all - gone) == Only(p + w, all - gone) <==>
              !OutOfPlace(Only(p + w, all - SetOf(p) - gone), removed)
  {
    var all := SetOf(p + w);
    OnlyConcat(p, BackBehind(w, removed), all - gone);
    OnlyConcat(p, w, all - gone);
    SameFront(Only(p, all - gone), Only(BackBehind(w, removed), all - gone), Only(w, all - gone));
    OrderOfStanding(w, removed, all, gone);
    OnlyConcat(p, w, all - SetOf(p) - gone);
    OnlyNone(p, all - SetOf(p) - gone);
    forall x | x in w
      ensures x !in p
    {
      ApartParts(p, w, x);
    }
    OnlySame(w, all - SetOf(p) - gone, all - gone);
    assert [] + Only(w, all - gone) == Only(w, all - gone);
  }

  lemma SameFront(front: seq<ID>, a: seq<ID>, b: seq<ID>)
    ensures front + a == front + b <==> a == b
  {
    if front + a == front + b {
      assert a == (front + a)[|front|..] && b == (front + b)[|front|..];
    }
  }

  /** A follower that reads its baseline `us` changes after it has subscribed, and then
      applies these and the later `vs`. It always has the rows and archived sessions of the
      host. It has them in the order of the host exactly when a later change sets the order,
      or no row that was removed and is back in the baseline stands before one that was not
      removed, among those that no order has placed and that are still there. */
  lemma LateBaseline(b: Baseline, us: seq<Update>, vs: seq<Update>)
    requires Distinct(Ids(b.items)) && SendsAll(b, us + vs)
    ensures var late := FollowAll(b, us);
            var host, replica := FollowAll(b, us + vs), FollowAll(late, us + vs);
            && host == FollowAll(late, vs) && SameRows(replica.items, host.items) && replica.archived == host.archived
            && (replica == host <==> HasReorder(vs) || !OutOfPlace(Loose(late, us, vs), Removed(us)))
  {
    var late := FollowAll(b, us);
    var twice := FollowAll(late, us);
    FollowSplit(b, us, vs);
    FollowSplit(late, us, vs);
    AfterOverlap(b, us);
    SameRowsGoOn(twice, late, vs);
    SameSets(twice.items, late.items);
    var host, replica := FollowAll(late, vs), FollowAll(twice, vs);
    RunDistinct(late, late, vs);
    if Ids(replica.items) == Ids(host.items) { ListIsIdsAndRows(host.items, replica.items); }
    if HasReorder(vs) {
      OrderSettles(late, twice, vs);
    } else {
      SameOrder(late, twice, Placed(us), Rest(b, us), Removed(us), vs);
    }
  }

  lemma SameOrder(late: Baseline, twice: Baseline, p: seq<ID>, w: seq<ID>, removed: set<ID>, vs: seq<Update>)
    requires Distinct(p + w) && SetOf(Ids(late.items)) == SetOf(Ids(twice.items)) && !HasReorder(vs)
    requires Ids(late.items) == p + w && Ids(twice.items) == p + BackBehind(w, removed)
    ensures Ids(FollowAll(twice, vs).items) == Ids(FollowAll(late, vs).items) <==>
              !OutOfPlace(Only(p + w, SetOf(p + w) - SetOf(p) - Removed(vs)), removed)
  {
    var all := SetOf(p + w);
    OrderStays(late, all, vs);
    OrderStays(twice, all, vs);
    AddedIsSame(late, twice, vs);
    StandingParts(p, w, removed, Removed(vs));
    SameEnd(Only(Ids(late.items), all - Removed(vs)), Only(Ids(twice.items), all - Removed(vs)), Added(late, vs));
  }

  lemma SameEnd(a: seq<ID>, b: seq<ID>, added: seq<ID>)
    ensures a + added == b + added <==> a == b
  {
    if a + added == b + added {
      assert a == (a + added)[..|a|] && b == (b + added)[..|b|];
    }
  }

  /** The follower of a registry that read its baseline after the first `k` changes. */
  lemma RegistryFollower(r: Registry, n: nat, k: nat)
    requires r.Valid() && n in r.subscribers && k <= |r.subscribers[n]|
    ensures var us := r.subscribers[n];
            var late := FollowAll(r.began[n], us[..k]);
            FollowAll(late, us) == r.Base() <==>
                  HasReorder(us[k..]) || !OutOfPlace(Loose(late, us[..k], us[k..]), Removed(us[..k]))
  {
    var us := r.subscribers[n];
    assert us[..k] + us[k..] == us && LeadsTo(r.began[n], us, r.Base());
    LateBaseline(r.began[n], us[..k], us[k..]);
  }

  // ---- The order is lost ------------------------------------------------------------

  lemma {:induction false} OneChange(b: Baseline, us: seq<Update>, u: Update)
    requires SendsAll(b, us) && !u.Reordered?
    ensures SendsAll(b, us + [u]) && FollowAll(b, us + [u]) == Follow(FollowAll(b, us), u)
  {
    assert (us + [u])[..|us|] == us;
  }

  lemma ThreeChanges(b: Baseline, u: Update, v: Update, w: Update)
    requires !u.Reordered? && !v.Reordered? && !w.Reordered?
    ensures SendsAll(b, [u, v, w]) && FollowAll(b, [u, v, w]) == Follow(Follow(Follow(b, u), v), w)
  {
    OneChange(b, [], u);
    OneChange(b, [u], v);
    OneChange(b, [u, v], w);
    assert [] + [u] == [u] && [u] + [v] == [u, v] && [u, v] + [w] == [u, v, w];
  }

  lemma Dropped(r: Row, a: Row, y: Row)
    requires r.id != a.id && r.id != y.id && a.id != y.id
    ensures Drop([r, a], a.id) == [r] && Drop([r, a, y], a.id) == [r, y]
  {
    assert [r, a][1..] == [a] && [r, a, y][1..] == [a, y] && [a, y][1..] == [y];
    assert Drop([y], a.id) == [y] && Drop([a], a.id) == [];
    assert Drop([a, y], a.id) == [y];
  }

  lemma PutBack(r: Row, a: Row, y: Row)
    requires r.id != a.id && r.id != y.id && a.id != y.id
    ensures Put([r], a) == [r, a] && Put([r, a], y) == [r, a, y]
    ensures Put([r, y], a) == [r, y, a] && Put([r, y, a], y) == [r, y, a]
  {
    assert [r] + [a] == [r, a] && [r, a] + [y] == [r, a, y] && [r, y] + [a] == [r, y, a];
    assert [r, y, a][1].id == y.id;
    assert [r, y, a][1 := y] == [r, y, a];
  }

  /** A row is removed, made again, and another one made, all of it before the baseline is
      read: the follower ends with the last two the other way round. */
  lemma RemovedAndBack(r: Row, a: Row, y: Row)
    requires r.id != a.id && r.id != y.id && a.id != y.id
    ensures var began, us := Baseline([r, a], {}), [Remove(a.id), Upsert(a), Upsert(y)];
            && Distinct(Ids(began.items)) && SendsAll(began, us)
            && FollowAll(began, us).items == [r, a, y]
            && FollowAll(FollowAll(began, us), us).items == [r, y, a]
  {
    var began, late := Baseline([r, a], {}), Baseline([r, a, y], {});
    ThreeChanges(began, Remove(a.id), Upsert(a), Upsert(y));
    ThreeChanges(late, Remove(a.id), Upsert(a), Upsert(y));
    Dropped(r, a, y);
    PutBack(r, a, y);
    IdsAt([r, a]);
  }

  lemma {:induction false} NamedPair(items: seq<Row>, r: Row, a: Row)
    requires Find(items, r.id) < |items| && items[Find(items, r.id)] == r
    requires Find(items, a.id) < |items| && items[Find(items, a.id)] == a
    ensures Named(items, [r.id, a.id]) == [r, a]
  {
    assert [r.id, a.id][1..] == [a.id] && [a.id][1..] == [];
    assert Named(items, [a.id]) == [a] + Named(items, []);
  }

  lemma {:induction false} OtherThan(r: Row, a: Row, y: Row)
    requires r.id != y.id && a.id != y.id
    ensures Others([r, a], [r.id, a.id]) == [] && Others([r, a, y], [r.id, a.id]) == [y]
  {
    var order := [r.id, a.id];
    assert r.id in order && a.id in order && y.id !in order;
    assert [r, a][1..] == [a] && [a][1..] == [] && [r, a, y][1..] == [a, y] && [a, y][1..] == [y] && [y][1..] == [];
    assert Others([a], order) == [] && Others([y], order) == [y] && Others([a, y], order) == [y];
  }

  lemma AlreadyInOrder(r: Row, a: Row, y: Row)
    requires r.id != a.id && r.id != y.id && a.id != y.id
    ensures Arrange([r, a], [r.id, a.id]) == [r, a] && Arrange([r, a, y], [r.id, a.id]) == [r, a, y]
  {
    NamedPair([r, a], r, a);
    NamedPair([r, a, y], r, a);
    OtherThan(r, a, y);
  }

  lemma OneOrder(b: Baseline, order: seq<ID>)
    requires Distinct(order) && forall id :: id in order <==> id in Ids(b.items)
    ensures SendsAll(b, [Reordered(order)])
  {
    assert [Reordered(order)][..0] == [];
    assert SendsAll(b, []) && FollowAll(b, []) == b;
  }

  lemma OrderFollowed(b: Baseline, order: seq<ID>)
    ensures FollowAll(b, [Reordered(order)]) == Follow(b, Reordered(order))
  {
    assert [Reordered(order)][..0] == [];
  }

  /** An order that was set before does not help: the new rows are not in it. */
  lemma EarlierOrderDoesNotHelp(r: Row, a: Row, y: Row)
    requires r.id != a.id && r.id != y.id && a.id != y.id
    ensures var began, us := Baseline([r, a], {}), [Reordered([r.id, a.id])] + [Remove(a.id), Upsert(a), Upsert(y)];
            && SendsAll(began, us) && FollowAll(began, us).items == [r, a, y]
            && FollowAll(FollowAll(began, us), us).items == [r, y, a]
  {
    var began, late := Baseline([r, a], {}), Baseline([r, a, y], {});
    var first, us := [Reordered([r.id, a.id])], [Remove(a.id), Upsert(a), Upsert(y)];
    AlreadyInOrder(r, a, y);
    RemovedAndBack(r, a, y);
    IdsAt([r, a]);
    OneOrder(began, [r.id, a.id]);
    OrderFollowed(began, [r.id, a.id]);
    OrderFollowed(late, [r.id, a.id]);
    FollowSplit(began, first, us);
    FollowSplit(late, first, us);
  }
}
