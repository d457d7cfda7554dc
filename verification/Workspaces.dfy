/** The console's table of workspaces and the replicas that follow it:
    `cli/consoleworkspaces.go`. */
module Workspaces {
  import opened Sequences
  import opened Options
  import opened Strings

  /** An id is made from the path; any other text names no workspace. */
  datatype ID = For(path: string) | Unknown(text: string)

  datatype Row = Row(id: ID, path: string, title: string, sessions: seq<string>, createdAt: int, updatedAt: int)

  /** What a follower is sent: the archived sessions as a set, since they are sent sorted. */
  datatype Update = Upsert(row: Row) | Remove(id: ID) | Reordered(ids: seq<ID>) | Archived(sessions: set<string>)

  datatype Baseline = Baseline(items: seq<Row>, archived: set<string>)

  // ---- Lists ------------------------------------------------------------------------

  function Without<T(==)>(s: seq<T>, x: T): seq<T> {
    if s == [] then [] else (if s[0] == x then [] else [s[0]]) + Without(s[1..], x)
  }

  lemma {:induction false} WithoutMembers<T(!new)>(s: seq<T>, x: T)
    ensures forall y :: y in Without(s, x) <==> y in s && y != x
  {
    if s != [] { WithoutMembers(s[1..], x); }
  }

  /** The first place of an element, or the end. */
  function PlaceOf<T(==)>(s: seq<T>, x: T): (i: nat)
    ensures i <= |s| && (i < |s| ==> s[i] == x)
    ensures i == |s| <==> x !in s
  {
    if s == [] || s[0] == x then 0 else 1 + PlaceOf(s[1..], x)
  }

  /** `movedBefore`. */
  function MovedBefore<T(==)>(s: seq<T>, x: T, before: Option<T>): seq<T> {
    var rest := Without(s, x);
    var at := if before.Some? then PlaceOf(rest, before.value) else |rest|;
    rest[..at] + [x] + rest[at..]
  }

  lemma {:induction false} WithoutConcat<T(!new)>(a: seq<T>, b: seq<T>, x: T)
    ensures Without(a + b, x) == Without(a, x) + Without(b, x)
  {
    if a == [] {
      assert a + b == b;
    } else {
      var s, first := a + b, if a[0] == x then [] else [a[0]];
      WithoutConcat(a[1..], b, x);
      assert s[0] == a[0] && s[1..] == a[1..] + b;
      assert first + (Without(a[1..], x) + Without(b, x)) == first + Without(a[1..], x) + Without(b, x);
    }
  }

  lemma {:induction false} WithoutAbsent<T(!new)>(s: seq<T>, x: T)
    requires x !in s
    ensures Without(s, x) == s
  {
    if s != [] { WithoutAbsent(s[1..], x); }
  }

  lemma {:induction false} WithoutDistinct<T(!new)>(s: seq<T>, x: T)
    requires Distinct(s)
    ensures Distinct(Without(s, x)) && |Without(s, x)| == if x in s then |s| - 1 else |s|
  {
    if s != [] {
      var rest, less := s[1..], Without(s[1..], x);
      assert forall i :: 0 <= i < |rest| ==> rest[i] == s[i + 1];
      assert s[0] !in rest;
      WithoutDistinct(rest, x);
      WithoutMembers(rest, x);
      assert forall i :: 0 <= i < |less| ==> less[i] in rest;
    }
  }

  /** Putting an element back at any place. */
  lemma InsertedAt<T(!new)>(rest: seq<T>, x: T, at: nat)
    requires Distinct(rest) && x !in rest && at <= |rest|
    ensures var m := rest[..at] + [x] + rest[at..];
            Distinct(m) && |m| == |rest| + 1 && forall y :: y in m <==> y in rest || y == x
  {
    var m := rest[..at] + [x] + rest[at..];
    assert rest == rest[..at] + rest[at..];
    forall i, j | 0 <= i < j < |m|
      ensures m[i] != m[j]
    {
      assert i < at ==> m[i] == rest[i];
      assert j < at ==> m[j] == rest[j];
      assert i > at ==> m[i] == rest[i - 1];
      assert j > at ==> m[j] == rest[j - 1];
    }
  }

  lemma WithoutOne<T(!new)>(a: seq<T>, x: T)
    requires x !in a
    ensures Without(a + [x], x) == a
  {
    WithoutConcat(a, [x], x);
    WithoutAbsent(a, x);
    assert [x][1..] == [];
  }

  lemma WithoutInserted<T(!new)>(rest: seq<T>, x: T, at: nat)
    requires x !in rest && at <= |rest|
    ensures Without(rest[..at] + [x] + rest[at..], x) == rest
  {
    WithoutConcat(rest[..at] + [x], rest[at..], x);
    WithoutOne(rest[..at], x);
    WithoutAbsent(rest[at..], x);
    assert rest == rest[..at] + rest[at..];
  }

  /** A move is a permutation, keeps the order of all others, and puts the element right
      in front of its anchor, or at the end without one. */
  lemma MoveMeans<T(!new)>(s: seq<T>, x: T, before: Option<T>)
    requires Distinct(s) && x in s && (before.Some? ==> before.value in s && before.value != x)
    ensures var m := MovedBefore(s, x, before);
            && Distinct(m) && |m| == |s| && (forall y :: y in m <==> y in s)
            && Without(m, x) == Without(s, x)
            && if before.None? then m[|m| - 1] == x
               else exists k :: 0 <= k < |m| - 1 && m[k] == x && m[k + 1] == before.value
  {
    var rest := Without(s, x);
    var at := if before.Some? then PlaceOf(rest, before.value) else |rest|;
    var m := MovedBefore(s, x, before);
    WithoutDistinct(s, x);
    WithoutMembers(s, x);
    InsertedAt(rest, x, at);
    WithoutInserted(rest, x, at);
    assert m[at] == x;
    if before.Some? { assert m[at + 1] == rest[at]; }
  }

  method MoveBefore<T(==,!new)>(s: seq<T>, x: T, before: Option<T>) returns (m: seq<T>)
    ensures m == MovedBefore(s, x, before)
  {
    var without: seq<T> := [];
    for i := 0 to |s|
      invariant without == Without(s[..i], x)
    {
      WithoutConcat(s[..i], [s[i]], x);
      assert s[..i + 1] == s[..i] + [s[i]] && [s[i]][1..] == [];
      if s[i] != x { without := without + [s[i]]; }
    }
    assert s[..|s|] == s;
    var at := |without|;
    if before.Some? {
      var index := 0;
      while index < |without| && without[index] != before.value
        invariant index <= |without| && before.value !in without[..index]
      {
        assert without[..index + 1] == without[..index] + [without[index]];
        index := index + 1;
      }
      at := index;
      SamePlace(without, before.value, index);
    }
    m := without[..at] + [x] + without[at..];
  }

  lemma {:induction false} SamePlace<T>(s: seq<T>, x: T, i: nat)
    requires i <= |s| && x !in s[..i] && (i < |s| ==> s[i] == x)
    ensures PlaceOf(s, x) == i
  {
    if i > 0 {
      assert s[..i][0] == s[0] && s[1..][..i - 1] == s[..i][1..];
      SamePlace(s[1..], x, i - 1);
    }
  }

  // ---- A replica --------------------------------------------------------------------

  function Items(rows: map<ID, Row>, order: seq<ID>): (items: seq<Row>)
    requires forall id :: id in order ==> id in rows
    ensures |items| == |order|
  {
    if order == [] then [] else [rows[order[0]]] + Items(rows, order[1..])
  }

  lemma {:induction false} ItemsAt(rows: map<ID, Row>, order: seq<ID>)
    requires forall id :: id in order ==> id in rows
    ensures forall i :: 0 <= i < |order| ==> Items(rows, order)[i] == rows[order[i]]
  {
    if order != [] { ItemsAt(rows, order[1..]); }
  }

  function Find(items: seq<Row>, id: ID): (i: nat)
    ensures i <= |items| && (i < |items| ==> items[i].id == id)
    ensures forall k :: 0 <= k < i ==> items[k].id != id
  {
    if items == [] || items[0].id == id then 0 else 1 + Find(items[1..], id)
  }

  /** A new row comes last, a known one is replaced in its place. */
  function Put(items: seq<Row>, row: Row): seq<Row> {
    var i := Find(items, row.id);
    if i < |items| then items[i := row] else items + [row]
  }

  function Drop(items: seq<Row>, id: ID): seq<Row> {
    if items == [] then [] else (if items[0].id == id then [] else [items[0]]) + Drop(items[1..], id)
  }

  /** The rows that a new order names, in that order. */
  function Named(items: seq<Row>, ids: seq<ID>): seq<Row> {
    if ids == [] then []
    else
      var i := Find(items, ids[0]);
      (if i < |items| then [items[i]] else []) + Named(items, ids[1..])
  }

  /** The rows that it does not name. */
  function Others(items: seq<Row>, ids: seq<ID>): seq<Row> {
    if items == [] then []
    else if items[0].id in ids then Others(items[1..], ids)
    else [items[0]] + Others(items[1..], ids)
  }

  /** A stable sort by the places in a new order: rows that it does not name come last. */
  function Arrange(items: seq<Row>, ids: seq<ID>): seq<Row> { Named(items, ids) + Others(items, ids) }

  /** A follower applies one change to its copy. */
  function Follow(b: Baseline, u: Update): Baseline {
    match u
    case Upsert(row) => b.(items := Put(b.items, row))
    case Remove(id) => b.(items := Drop(b.items, id))
    case Reordered(ids) => b.(items := Arrange(b.items, ids))
    case Archived(sessions) => b.(archived := sessions)
  }

  function FollowAll(b: Baseline, us: seq<Update>): Baseline {
    if us == [] then b else Follow(FollowAll(b, us[..|us| - 1]), us[|us| - 1])
  }

  // ---- The table --------------------------------------------------------------------

  /** The order lists exactly the rows, once each. */
  ghost predicate Lists(order: seq<ID>, rows: map<ID, Row>) {
    Distinct(order) && forall id :: id in order <==> id in rows
  }

  /** Paths and ids belong together, and the row of the host is there. */
  ghost predicate Keyed(rows: map<ID, Row>, byPath: map<string, ID>, root: string) {
    && (forall id {:trigger rows[id]} ::
       id in rows ==> rows[id].id == id == For(rows[id].path) && rows[id].path in byPath)
    && (forall p {:trigger byPath[p]} {:trigger p in byPath} :: p in byPath ==> byPath[p] == For(p) && For(p) in rows)
    && root in byPath
  }

  ghost predicate TitlesDiffer(rows: map<ID, Row>) {
    forall i, j {:trigger rows[i], rows[j]} :: i in rows && j in rows && i != j ==> rows[i].title != rows[j].title
  }

  /** No row has a session twice. */
  ghost predicate SessionsDiffer(rows: map<ID, Row>) {
    forall i {:trigger rows[i]} :: i in rows ==> Distinct(rows[i].sessions)
  }

  ghost predicate Table(order: seq<ID>, rows: map<ID, Row>, byPath: map<string, ID>, root: string) {
    Lists(order, rows) && Keyed(rows, byPath, root) && TitlesDiffer(rows) && SessionsDiffer(rows)
  }

  lemma {:induction false} FindInItems(rows: map<ID, Row>, order: seq<ID>, id: ID)
    requires forall x :: x in order ==> x in rows && rows[x].id == x
    ensures Find(Items(rows, order), id) == PlaceOf(order, id)
  {
    if order != [] && order[0] != id {
      FindInItems(rows, order[1..], id);
      assert Items(rows, order)[1..] == Items(rows, order[1..]);
    }
  }

  lemma ItemsPut(rows: map<ID, Row>, order: seq<ID>, row: Row)
    requires (forall x :: x in order ==> x in rows && rows[x].id == x) && Distinct(order)
    ensures var i := PlaceOf(order, row.id);
            var more := if i < |order| then order else order + [row.id];
            Items(rows[row.id := row], more) == Put(Items(rows, order), row)
  {
    FindInItems(rows, order, row.id);
    var i := PlaceOf(order, row.id);
    var more := if i < |order| then order else order + [row.id];
    var a, b := Items(rows[row.id := row], more), Put(Items(rows, order), row);
    ItemsAt(rows, order);
    ItemsAt(rows[row.id := row], more);
    forall k | 0 <= k < |more|
      ensures a[k] == b[k]
    {
      if k < |order| && k != i { assert order[k] in order && order[k] != row.id; }
    }
  }

  lemma {:induction false} ItemsDrop(rows: map<ID, Row>, order: seq<ID>, id: ID)
    requires forall x :: x in order ==> x in rows && rows[x].id == x
    ensures forall x :: x in Without(order, id) ==> x in rows - {id}
    ensures Items(rows - {id}, Without(order, id)) == Drop(Items(rows, order), id)
  {
    WithoutMembers(order, id);
    if order != [] {
      var w, rest := Without(order, id), order[1..];
      ItemsDrop(rows, rest, id);
      assert Items(rows, order)[1..] == Items(rows, rest);
      if order[0] == id {
        assert w == Without(rest, id);
      } else {
        assert w[0] == order[0] && w[1..] == Without(rest, id);
      }
    }
  }

  lemma {:induction false} ItemsNamed(rows: map<ID, Row>, order: seq<ID>, ids: seq<ID>)
    requires forall x :: x in order ==> x in rows && rows[x].id == x
    requires forall x :: x in ids ==> x in order
    ensures Named(Items(rows, order), ids) == Items(rows, ids)
  {
    if ids != [] {
      assert ids[0] in order;
      FindInItems(rows, order, ids[0]);
      ItemsAt(rows, order);
      assert forall x :: x in ids[1..] ==> x in ids;
      ItemsNamed(rows, order, ids[1..]);
    }
  }

  lemma {:induction false} NoOthers(items: seq<Row>, ids: seq<ID>)
    requires forall i :: 0 <= i < |items| ==> items[i].id in ids
    ensures Others(items, ids) == []
  {
    if items != [] { NoOthers(items[1..], ids); }
  }

  lemma ItemsArrange(rows: map<ID, Row>, order: seq<ID>, ids: seq<ID>)
    requires forall x :: x in order ==> x in rows && rows[x].id == x
    requires forall x :: x in ids <==> x in order
    ensures Arrange(Items(rows, order), ids) == Items(rows, ids)
  {
    ItemsNamed(rows, order, ids);
    ItemsAt(rows, order);
    NoOthers(Items(rows, order), ids);
  }

  // ---- Titles -----------------------------------------------------------------------

  function Numbered(title: string, n: nat): string { title + " (" + Decimal(n) + ")" }

  lemma NumberedIsInjective(title: string, m: nat, n: nat)
    requires Numbered(title, m) == Numbered(title, n)
    ensures m == n
  {
    var a, b := Numbered(title, m), Numbered(title, n);
    var p := title + " (";
    assert a == p + Decimal(m) + ")" && b == p + Decimal(n) + ")";
    assert a[|p| .. |a| - 1] == Decimal(m) && b[|p| .. |b| - 1] == Decimal(n);
    DecimalIsRead(m);
    DecimalIsRead(n);
  }

  lemma {:induction false} SubsetIsSmaller<T>(a: set<T>, b: set<T>)
    requires a <= b
    ensures |a| <= |b|
  {
    if a != {} {
      var x :| x in a;
      SubsetIsSmaller(a - {x}, b - {x});
    }
  }

  function Titles(rows: map<ID, Row>): set<string> { set id | id in rows :: rows[id].title }

  /** The title itself, or with the first number from two on that is free. */
  ghost predicate IsUniqueTitle(taken: set<string>, title: string, t: string) {
    && t !in taken
    && if title !in taken then t == title
       else exists n: nat :: n >= 2 && t == title + " (" + Decimal(n) + ")" && forall k ::
         2 <= k < n ==> title + " (" + Decimal(k) + ")" in taken
  }

  /** `uniqueTitleLocked`; the search ends because each number makes another title. */
  method UniqueTitle(taken: set<string>, title: string) returns (t: string)
    ensures IsUniqueTitle(taken, title, t)
  {
    if title !in taken { return title; }
    var n := 2;
    ghost var tried: set<string> := {};
    while Numbered(title, n) in taken
      invariant n >= 2 && tried <= taken && |tried| == n - 2
      invariant forall k :: 2 <= k < n ==> Numbered(title, k) in tried
      invariant forall s :: s in tried ==> exists k :: 2 <= k < n && s == Numbered(title, k)
      decreases |taken| + 2 - n
    {
      ghost var candidate := Numbered(title, n);
      if candidate in tried {
        ghost var k :| 2 <= k < n && candidate == Numbered(title, k);
        NumberedIsInjective(title, k, n);
      }
      SubsetIsSmaller(tried + {candidate}, taken);
      tried := tried + {candidate};
      n := n + 1;
    }
    t := Numbered(title, n);
    forall k | 2 <= k < n
      ensures title + " (" + Decimal(k) + ")" in taken
    {
      assert Numbered(title, k) in tried;
    }
    assert t == title + " (" + Decimal(n) + ")";
  }

  // ---- What an operation does to the table ------------------------------------------

  lemma TitleIsFree(rows: map<ID, Row>, row: Row)
    requires TitlesDiffer(rows) && forall i :: i in rows && i != row.id ==> rows[i].title != row.title
    ensures TitlesDiffer(rows[row.id := row])
  {
    var more := rows[row.id := row];
    forall i, j | i in more && j in more && i != j
      ensures more[i].title != more[j].title
    {
      assert i != row.id ==> more[i] == rows[i];
      assert j != row.id ==> more[j] == rows[j];
    }
  }

  lemma KeyedUpdate(rows: map<ID, Row>, byPath: map<string, ID>, root: string, row: Row)
    requires Keyed(rows, byPath, root) && row.id == For(row.path)
    ensures Keyed(rows[row.id := row], byPath[row.path := row.id], root)
    ensures row.id in rows ==> byPath[row.path := row.id] == byPath
  {
  }

  lemma ListsAdd(order: seq<ID>, rows: map<ID, Row>, row: Row)
    requires Lists(order, rows)
    ensures row.id in rows ==> Lists(order, rows[row.id := row])
    ensures row.id !in rows ==> Lists(order + [row.id], rows[row.id := row])
  {
  }

  lemma ItemsOfTable(order: seq<ID>, rows: map<ID, Row>, byPath: map<string, ID>, root: string, row: Row)
    requires Table(order, rows, byPath, root)
    ensures row.id in rows ==> Items(rows[row.id := row], order) == Put(Items(rows, order), row)
    ensures row.id !in rows ==> Items(rows[row.id := row], order + [row.id]) == Put(Items(rows, order), row)
  {
    ItemsPut(rows, order, row);
  }

  lemma TableUpdate(order: seq<ID>, rows: map<ID, Row>, byPath: map<string, ID>, root: string, row: Row)
    requires Table(order, rows, byPath, root) && row.id in rows && row.path == rows[row.id].path
    requires Distinct(row.sessions) && forall i :: i in rows && i != row.id ==> rows[i].title != row.title
    ensures Table(order, rows[row.id := row], byPath, root)
  {
    TitleIsFree(rows, row);
    KeyedUpdate(rows, byPath, root, row);
    ListsAdd(order, rows, row);
  }

  lemma TableAdd(order: seq<ID>, rows: map<ID, Row>, byPath: map<string, ID>, root: string, row: Row)
    requires Table(order, rows, byPath, root) && row.id == For(row.path) && row.path !in byPath
    requires row.title !in Titles(rows) && Distinct(row.sessions)
    ensures row.id !in rows && Table(order + [row.id], rows[row.id := row], byPath[row.path := row.id], root)
  {
    assert forall i :: i in rows ==> rows[i].title in Titles(rows);
    TitleIsFree(rows, row);
    KeyedUpdate(rows, byPath, root, row);
    ListsAdd(order, rows, row);
  }

  lemma TableDrop(order: seq<ID>, rows: map<ID, Row>, byPath: map<string, ID>, root: string, id: ID)
    requires Table(order, rows, byPath, root) && id in rows && rows[id].path != root
    ensures Table(Without(order, id), rows - {id}, byPath - {rows[id].path}, root)
  {
    WithoutDistinct(order, id);
    WithoutMembers(order, id);
  }

  lemma TableMove(order: seq<ID>, rows: map<ID, Row>, byPath: map<string, ID>, root: string, id: ID, before: Option<ID>)
    requires Table(order, rows, byPath, root) && id in rows
             && (before.Some? ==> before.value in rows && before.value != id)
    ensures var moved := MovedBefore(order, id, before);
            Table(moved, rows, byPath, root) && Distinct(moved) && forall x :: x in moved <==> x in order
  {
    MoveMeans(order, id, before);
  }

  // ---- Followers --------------------------------------------------------------------

  function Notified(subscribers: map<nat, seq<Update>>, u: Update): map<nat, seq<Update>> {
    map n | n in subscribers :: subscribers[n] + [u]
  }

  function Ids(items: seq<Row>): (ids: seq<ID>)
    ensures |ids| == |items|
  {
    if items == [] then [] else [items[0].id] + Ids(items[1..])
  }

  /** A new order is one of the rows that are there. */
  ghost predicate Sends(b: Baseline, u: Update) {
    match u
    case Reordered(ids) => Distinct(ids) && forall id :: id in ids <==> id in Ids(b.items)
    case _ => true
  }

  /** Changes that a host sends, one after the other. */
  ghost predicate SendsAll(b: Baseline, us: seq<Update>)
    decreases |us|
  {
    us == [] || (SendsAll(b, us[..|us| - 1]) && Sends(FollowAll(b, us[..|us| - 1]), us[|us| - 1]))
  }

  ghost predicate LeadsTo(b: Baseline, us: seq<Update>, base: Baseline) {
    Distinct(Ids(b.items)) && SendsAll(b, us) && FollowAll(b, us) == base
  }

  /** Whoever began with the baseline at its subscription and has applied every change it
      was sent has the baseline of now. */
  ghost predicate Followers(subscribers: map<nat, seq<Update>>, began: map<nat, Baseline>, newest: nat,
      base: Baseline)
  {
    forall n :: n in subscribers ==> n <= newest && n in began && LeadsTo(began[n], subscribers[n], base)
  }

  lemma FollowersGoOn(subscribers: map<nat, seq<Update>>, began: map<nat, Baseline>, newest: nat, base: Baseline,
      u: Update)
    requires Followers(subscribers, began, newest, base) && Sends(base, u)
    ensures Followers(Notified(subscribers, u), began, newest, Follow(base, u))
  {
    forall n | n in subscribers
      ensures LeadsTo(began[n], subscribers[n] + [u], Follow(base, u))
    {
      assert (subscribers[n] + [u])[..|subscribers[n]|] == subscribers[n];
    }
  }

  lemma OneMoreFollower(subscribers: map<nat, seq<Update>>, began: map<nat, Baseline>, newest: nat, base: Baseline)
    requires newest > 0 && Followers(subscribers, began, newest - 1, base) && Distinct(Ids(base.items))
    ensures newest !in subscribers && Followers(subscribers[newest := []], began[newest := base], newest, base)
  {
  }

  lemma {:induction false} IdsOfItems(rows: map<ID, Row>, order: seq<ID>)
    requires forall x :: x in order ==> x in rows && rows[x].id == x
    ensures Ids(Items(rows, order)) == order
  {
    if order != [] {
      IdsOfItems(rows, order[1..]);
      assert Items(rows, order)[1..] == Items(rows, order[1..]);
    }
  }

  /** Followers stay with the table through each kind of change. */
  lemma RowFollows(
    subscribers: map<nat, seq<Update>>, began: map<nat, Baseline>, newest: nat,
    order: seq<ID>, rows: map<ID, Row>, byPath: map<string, ID>, root: string, archived: seq<string>, row: Row)
    requires Table(order, rows, byPath, root) && Followers(subscribers, began, newest, BaseOf(order, rows, archived))
    ensures var more := if row.id in rows then order else order + [row.id];
            Followers(Notified(subscribers, Upsert(row)), began, newest, BaseOf(more, rows[row.id := row], archived))
  {
    ItemsOfTable(order, rows, byPath, root, row);
    FollowersGoOn(subscribers, began, newest, BaseOf(order, rows, archived), Upsert(row));
  }

  lemma DropFollows(
    subscribers: map<nat, seq<Update>>, began: map<nat, Baseline>, newest: nat,
    order: seq<ID>, rows: map<ID, Row>, byPath: map<string, ID>, root: string, archived: seq<string>, id: ID)
    requires Table(order, rows, byPath, root) && Followers(subscribers, began, newest, BaseOf(order, rows, archived))
    ensures forall x :: x in Without(order, id) ==> x in rows - {id}
    ensures Followers(Notified(subscribers, Remove(id)), began, newest,
            BaseOf(Without(order, id), rows - {id}, archived))
  {
    ItemsDrop(rows, order, id);
    FollowersGoOn(subscribers, began, newest, BaseOf(order, rows, archived), Remove(id));
  }

  lemma OrderFollows(
    subscribers: map<nat, seq<Update>>, began: map<nat, Baseline>, newest: nat,
    order: seq<ID>, rows: map<ID, Row>, byPath: map<string, ID>, root: string, archived: seq<string>, moved: seq<ID>)
    requires Table(order, rows, byPath, root) && Followers(subscribers, began, newest, BaseOf(order, rows, archived))
    requires Distinct(moved) && forall x :: x in moved <==> x in order
    ensures Followers(Notified(subscribers, Reordered(moved)), began, newest, BaseOf(moved, rows, archived))
  {
    ItemsArrange(rows, order, moved);
    IdsOfItems(rows, order);
    FollowersGoOn(subscribers, began, newest, BaseOf(order, rows, archived), Reordered(moved));
  }

  function BaseOf(order: seq<ID>, rows: map<ID, Row>, archived: seq<string>): Baseline
    requires forall id :: id in order ==> id in rows
  {
    Baseline(Items(rows, order), set s | s in archived)
  }

  // ---- The registry -----------------------------------------------------------------

  datatype Answer<T> = Done(value: T) | InvalidPath | NotFound | NameConflict | RootImmutable | MoveInvalid

  class Registry {
    const root: string
    var order: seq<ID>
    var rows: map<ID, Row>
    var byPath: map<string, ID>
    var archived: seq<string>
    /** What each subscriber has been sent. */
    var subscribers: map<nat, seq<Update>>
    var nextSubID: nat
    /** The baseline at each subscription. */
    ghost var began: map<nat, Baseline>

    ghost predicate Valid()
      reads this
    {
      && Table(order, rows, byPath, root) && Distinct(archived)
      && Followers(subscribers, began, nextSubID, BaseOf(order, rows, archived))
    }

    function Base(): Baseline
      requires forall id :: id in order ==> id in rows
      reads this
    {
      BaseOf(order, rows, archived)
    }

    constructor (root: string, title: string, now: int)
      ensures Valid() && this.root == root && order == [For(root)]
              && rows == map[For(root) := Row(For(root), root, title, [], now, now)]
      ensures archived == [] && subscribers == map[]
    {
      this.root := root;
      order, rows := [For(root)], map[For(root) := Row(For(root), root, title, [], now, now)];
      byPath, archived, subscribers, nextSubID, began := map[root := For(root)], [], map[], 0, map[];
    }

    /** A changed table, and `notifyLocked` of the change. */
    method Install(order: seq<ID>, rows: map<ID, Row>, byPath: map<string, ID>, u: Update)
      requires Distinct(archived) && Table(order, rows, byPath, root)
      requires Followers(Notified(subscribers, u), began, nextSubID, BaseOf(order, rows, archived))
      modifies this`order, this`rows, this`byPath, this`subscribers
      ensures Valid() && this.order == order && this.rows == rows && this.byPath == byPath
      ensures subscribers == Notified(old(subscribers), u)
    {
      this.order, this.rows, this.byPath := order, rows, byPath;
      subscribers := Notified(subscribers, u);
    }

    /** A changed set of archived sessions. */
    method InstallArchived(archived: seq<string>)
      requires Valid() && Distinct(archived)
      modifies this`archived, this`subscribers
      ensures Valid() && this.archived == archived
      ensures subscribers == Notified(old(subscribers), Archived(set s | s in archived))
    {
      var all := set s | s in archived;
      FollowersGoOn(subscribers, began, nextSubID, BaseOf(order, rows, this.archived), Archived(all));
      this.archived := archived;
      subscribers := Notified(subscribers, Archived(all));
    }

    /** The console's `Subscribe`: every later change is sent. */
    method Subscribe() returns (n: nat)
      requires Valid()
      modifies this`subscribers, this`nextSubID, this`began
      ensures Valid()
      ensures n !in old(subscribers) && subscribers == old(subscribers)[n := []]
              && began == old(began)[n := old(Base())]
    {
      IdsOfItems(rows, order);
      OneMoreFollower(subscribers, began, nextSubID + 1, Base());
      Admit(Base());
      n := nextSubID;
    }

    method Admit(ghost base: Baseline)
      requires Distinct(archived) && Table(order, rows, byPath, root)
      requires Followers(subscribers[nextSubID + 1 := []], began[nextSubID + 1 := base], nextSubID + 1,
               BaseOf(order, rows, archived))
      modifies this`subscribers, this`nextSubID, this`began
      ensures Valid() && nextSubID == old(nextSubID) + 1
      ensures subscribers == old(subscribers)[nextSubID := []] && began == old(began)[nextSubID := base]
    {
      nextSubID := nextSubID + 1;
      subscribers := subscribers[nextSubID := []];
      began := began[nextSubID := base];
    }

    /** `Baseline`, in a locked section of its own: a follower reads it after it has
        subscribed. */
    method ReadBaseline() returns (b: Baseline)
      requires Valid()
      ensures b == Base() && forall n :: n in subscribers ==> b == FollowAll(began[n], subscribers[n])
    {
      b := Baseline(Items(rows, order), set s | s in archived);
    }

    method Unsubscribe(n: nat)
      requires Valid()
      modifies this`subscribers
      ensures Valid() && subscribers == old(subscribers) - {n}
    {
      subscribers := subscribers - {n};
    }

    /** `Create`, of a directory that exists; None is a path that cannot be one. A directory
        that is there already keeps its row. */
    method Create(path: Option<string>, title: string, now: int) returns (a: Answer<(Row, bool)>)
      requires Valid()
      modifies this`order, this`rows, this`byPath, this`subscribers
      ensures Valid()
      ensures a == InvalidPath <==> path.None?
      ensures path.Some? ==> a.Done? && a.value.1 == (path.value !in old(byPath)) && a.value.0.path == path.value
      ensures a.Done? && !a.value.1 ==> rows == old(rows) && order == old(order) && a.value.0 == rows[For(path.value)]
      ensures a.Done? && a.value.1 ==>
                var row := a.value.0;
                && row == Row(For(path.value), path.value, row.title, [], now, now)
                && IsUniqueTitle(Titles(old(rows)), title, row.title)
                && order == old(order) + [row.id] && rows == old(rows)[row.id := row]
                   && byPath == old(byPath)[row.path := row.id]
                && subscribers == Notified(old(subscribers), Upsert(row))
                && forall removed :: ClientPut(old(Base()).items, removed, row) != Base().items
    {
      if path.None? { return InvalidPath; }
      if path.value in byPath { return Done((rows[byPath[path.value]], false)); }
      var unique := UniqueTitle(Titles(rows), title);
      var row := Row(For(path.value), path.value, unique, [], now, now);
      TableAdd(order, rows, byPath, root, row);
      RowFollows(subscribers, began, nextSubID, order, rows, byPath, root, archived, row);
      NewRowDiverges(order, rows, byPath, root, row);
      Install(order + [row.id], rows[row.id := row], byPath[path.value := row.id], Upsert(row));
      a := Done((row, true));
    }

    /** A changed row is stored and sent. */
    method Replace(row: Row)
      requires Valid() && row.id in rows && row.path == rows[row.id].path && Distinct(row.sessions)
      requires forall i :: i in rows && i != row.id ==> rows[i].title != row.title
      modifies this`order, this`rows, this`byPath, this`subscribers
      ensures Valid() && order == old(order) && byPath == old(byPath)
      ensures rows == old(rows)[row.id := row] && subscribers == Notified(old(subscribers), Upsert(row))
    {
      TableUpdate(order, rows, byPath, root, row);
      RowFollows(subscribers, began, nextSubID, order, rows, byPath, root, archived, row);
      Install(order, rows[row.id := row], byPath, Upsert(row));
    }

    method Rename(id: ID, title: string, now: int) returns (a: Answer<Row>)
      requires Valid()
      modifies this`order, this`rows, this`byPath, this`subscribers
      ensures Valid() && order == old(order) && byPath == old(byPath)
      ensures a == if id !in old(rows) then NotFound
                   else if exists i :: i in old(rows) && i != id && old(rows)[i].title == title then NameConflict
                   else Done(old(rows)[id].(title := title, updatedAt := now))
      ensures rows == if a.Done? then old(rows)[id := a.value] else old(rows)
      ensures subscribers == if a.Done? then Notified(old(subscribers), Upsert(a.value)) else old(subscribers)
    {
      if id !in rows { return NotFound; }
      if exists i :: i in rows && i != id && rows[i].title == title { return NameConflict; }
      var row := rows[id].(title := title, updatedAt := now);
      Replace(row);
      a := Done(row);
    }

    /** `Delete`; the row of the directory the host runs in stays. */
    method Delete(id: ID) returns (a: Answer<()>)
      requires Valid()
      modifies this`order, this`rows, this`byPath, this`subscribers
      ensures Valid()
      ensures a == if id !in old(rows) then NotFound else if id == For(root) then RootImmutable else Done(())
      ensures a.Done? ==>
                && order == Without(old(order), id) && rows == old(rows) - {id}
                && byPath == old(byPath) - {old(rows)[id].path}
                && subscribers == Notified(old(subscribers), Remove(id))
      ensures !a.Done? ==>
              order == old(order) && rows == old(rows) && byPath == old(byPath) && subscribers == old(subscribers)
    {
      if id !in rows { return NotFound; }
      var row := rows[id];
      if row.path == root { return RootImmutable; }
      TableDrop(order, rows, byPath, root, id);
      DropFollows(subscribers, began, nextSubID, order, rows, byPath, root, archived, id);
      Install(Without(order, id), rows - {id}, byPath - {row.path}, Remove(id));
      a := Done(());
    }

    method ArchiveSession(session: string) returns (all: set<string>)
      requires Valid()
      modifies this`archived, this`subscribers
      ensures Valid() && all == set s | s in archived
      ensures archived == if session in old(archived) then old(archived) else old(archived) + [session]
      ensures subscribers == if session in old(archived) then old(subscribers)
              else Notified(old(subscribers), Archived(all))
    {
      if session !in archived {
        InstallArchived(archived + [session]);
      }
      all := set s | s in archived;
    }

    method UnarchiveSession(session: string) returns (all: set<string>)
      requires Valid()
      modifies this`archived, this`subscribers
      ensures Valid() && all == set s | s in archived
      ensures archived == Without(old(archived), session)
      ensures subscribers == if session in old(archived) then Notified(old(subscribers), Archived(all))
              else old(subscribers)
    {
      WithoutDistinct(archived, session);
      if session in archived {
        InstallArchived(Without(archived, session));
      } else {
        WithoutAbsent(archived, session);
      }
      all := set s | s in archived;
    }

    /** `AttachSession`; without an id it is the host's own workspace. */
    method AttachSession(workspace: Option<ID>, session: string, now: int) returns (a: Answer<()>)
      requires Valid()
      modifies this`order, this`rows, this`byPath, this`subscribers
      ensures Valid() && order == old(order) && byPath == old(byPath)
      ensures var id := if workspace.None? then For(root) else workspace.value;
              && a == (if id in old(rows) then Done(()) else NotFound)
              && if id !in old(rows) || session in old(rows)[id].sessions
                 then rows == old(rows) && subscribers == old(subscribers)
                 else (var row := old(rows)[id].(sessions := old(rows)[id].sessions + [session], updatedAt := now);
                       rows == old(rows)[id := row] && subscribers == Notified(old(subscribers), Upsert(row)))
    {
      var id := if workspace.None? then byPath[root] else workspace.value;
      if id !in rows { return NotFound; }
      if session in rows[id].sessions { return Done(()); }
      Replace(rows[id].(sessions := rows[id].sessions + [session], updatedAt := now));
      a := Done(());
    }

    /** `InsertBefore`; without an anchor the row goes to the end. */
    method InsertBefore(id: ID, before: Option<ID>) returns (a: Answer<seq<ID>>)
      requires Valid()
      modifies this`order, this`rows, this`byPath, this`subscribers
      ensures Valid() && rows == old(rows) && byPath == old(byPath)
      ensures a == if id !in rows || (before.Some? && before.value !in rows) then NotFound else Done(order)
      ensures order == if a.Done? && before != Some(id) then MovedBefore(old(order), id, before) else old(order)
      ensures subscribers == if a.Done? && before != Some(id) then Notified(old(subscribers), Reordered(order))
              else old(subscribers)
    {
      if id !in rows { return NotFound; }
      if before.Some? && before.value !in rows { return NotFound; }
      if before == Some(id) { return Done(order); }
      TableMove(order, rows, byPath, root, id, before);
      var moved := MoveBefore(order, id, before);
      OrderFollows(subscribers, began, nextSubID, order, rows, byPath, root, archived, moved);
      Install(moved, rows, byPath, Reordered(moved));
      a := Done(order);
    }

    /** `InsertSessionBefore`; the empty anchor is none. */
    method InsertSessionBefore(id: ID, session: string, before: string, now: int) returns (a: Answer<Row>)
      requires Valid()
      modifies this`order, this`rows, this`byPath, this`subscribers
      ensures Valid() && order == old(order) && byPath == old(byPath)
      ensures a == if id !in old(rows) then NotFound
                   else if session !in old(rows)[id].sessions || (before != "" && before !in old(rows)[id].sessions)
                      then MoveInvalid
                   else if before == session then Done(old(rows)[id])
                   else Done(old(rows)[id].(sessions :=
                      MovedBefore(old(rows)[id].sessions, session, if before == "" then None else Some(before)),
                                            updatedAt := now))
      ensures if a.Done? && before != session
              then rows == old(rows)[id := a.value] && subscribers == Notified(old(subscribers), Upsert(a.value))
              else rows == old(rows) && subscribers == old(subscribers)
    {
      if id !in rows { return NotFound; }
      var row := rows[id];
      if session !in row.sessions { return MoveInvalid; }
      if before != "" && before !in row.sessions { return MoveInvalid; }
      if before == session { return Done(row); }
      MoveMeans(row.sessions, session, if before == "" then None else Some(before));
      var moved := MoveBefore(row.sessions, session, if before == "" then None else Some(before));
      row := row.(sessions := moved, updatedAt := now);
      Replace(row);
      a := Done(row);
    }
  }

  /** The table is never empty, so that a new row never comes to the console's own client
      where the host has it. */
  lemma NewRowDiverges(order: seq<ID>, rows: map<ID, Row>, byPath: map<string, ID>, root: string, row: Row)
    requires Table(order, rows, byPath, root) && row.id !in rows
    ensures forall removed ::
            ClientPut(Items(rows, order), removed, row) != Items(rows[row.id := row], order + [row.id])
  {
    var items := Items(rows, order);
    ItemsOfTable(order, rows, byPath, root, row);
    FindInItems(rows, order, row.id);
    assert byPath[root] in order;
    forall removed
      ensures ClientPut(items, removed, row) != Put(items, row)
    {
      ClientFollows(items, removed, row);
    }
  }

  // ---- The shipped follower ---------------------------------------------------------

  /** What the console's own client does with a row it is sent: a row it has removed once is
      ignored, and a row it does not know comes first. */
  function ClientPut(items: seq<Row>, removed: set<ID>, row: Row): seq<Row> {
    if row.id in removed then items
    else
      var i := Find(items, row.id);
      if i < |items| then (if row.updatedAt < items[i].updatedAt then items else items[i := row]) else [row] + items
  }

  /** It has the table of the host exactly when it never removed the row and the row is not
      older than the one it has, or is the only one. */
  lemma ClientFollows(items: seq<Row>, removed: set<ID>, row: Row)
    ensures var i := Find(items, row.id);
            ClientPut(items, removed, row) == Put(items, row) <==>
              if i < |items| then items[i] == row || (row.id !in removed && items[i].updatedAt <= row.updatedAt)
              else row.id !in removed && items == []
  {
    var i := Find(items, row.id);
    if i < |items| {
      assert items[i := row][i] == row;
      assert items[i] == row ==> items[i := row] == items;
    } else {
      assert |items + [row]| == |items| + 1;
      if items != [] { assert ([row] + items)[0] == row && (items + [row])[0] == items[0]; }
    }
  }
}
