/** The bounded table of runs a server has started: `servedRunRegistry` of
    `cli/mcprun_status.go`. */
module ServedRuns {
  import opened Sequences
  import opened Options

  type RunID = string

  const MAX_RECORDS := 100

  datatype Status = Running | Completed | Ended(word: string)

  datatype Record = Record(status: Status, output: string, detached: bool, startedAt: int, finishedAt: Option<int>)

  type Runs = map<RunID, Record>

  predicate Terminal(runs: Runs, id: RunID) { id in runs && !runs[id].status.Running? }

  function Terminals(order: seq<RunID>, runs: Runs): nat {
    if order == [] then 0 else (if Terminal(runs, order[0]) then 1 else 0) + Terminals(order[1..], runs)
  }

  /** The order without its first `n` terminal records. */
  function DropOldest(order: seq<RunID>, runs: Runs, n: nat): seq<RunID>
    decreases |order|
  {
    if order == [] || n == 0 then order
    else if Terminal(runs, order[0]) then DropOldest(order[1..], runs, n - 1)
    else [order[0]] + DropOldest(order[1..], runs, n)
  }

  function Min(a: int, b: int): int { if a <= b then a else b }

  /** How many records go: as many as there are too many, or as many as may go. */
  function Excess(order: seq<RunID>, runs: Runs): nat {
    if |order| <= MAX_RECORDS then 0 else Min(|order| - MAX_RECORDS, Terminals(order, runs))
  }

  function Restrict(runs: Runs, order: seq<RunID>): Runs { map id | id in runs && id in order :: runs[id] }

  // ---- What dropping means ----------------------------------------------------------

  lemma {:induction false} DropOldestShrinks(order: seq<RunID>, runs: Runs, n: nat)
    requires n <= Terminals(order, runs)
    ensures |DropOldest(order, runs, n)| == |order| - n
    ensures Terminals(DropOldest(order, runs, n), runs) == Terminals(order, runs) - n
    decreases |order|
  {
    if order != [] && n > 0 {
      if Terminal(runs, order[0]) {
        DropOldestShrinks(order[1..], runs, n - 1);
      } else {
        DropOldestShrinks(order[1..], runs, n);
        assert ([order[0]] + DropOldest(order[1..], runs, n))[1..] == DropOldest(order[1..], runs, n);
      }
    }
  }

  /** Exactly the oldest terminal records go: a running one stays, and a terminal one stays
      exactly when at least `n` terminal ones are older. */
  lemma {:induction false} DropOldestKeeps(order: seq<RunID>, runs: Runs, n: nat, k: nat)
    requires Distinct(order) && k < |order|
    ensures order[k] in DropOldest(order, runs, n) <==> !Terminal(runs, order[k]) || n <= Terminals(order[..k], runs)
    decreases |order|
  {
    if n > 0 {
      var rest := order[1..];
      assert forall i :: 0 <= i < |rest| ==> rest[i] == order[i + 1];
      MembersStay(rest, runs, n);
      MembersStay(rest, runs, if Terminal(runs, order[0]) then n - 1 else n);
      if k > 0 {
        assert order[..k][1..] == rest[..k - 1];
        DropOldestKeeps(rest, runs, if Terminal(runs, order[0]) then n - 1 else n, k - 1);
        assert order[k] != order[0];
      } else {
        assert forall i :: 0 <= i < |rest| ==> rest[i] != order[0];
      }
    }
  }

  lemma {:induction false} MembersStay(order: seq<RunID>, runs: Runs, n: nat)
    ensures forall id :: id in DropOldest(order, runs, n) ==> id in order
    decreases |order|
  {
    if order != [] && n > 0 {
      MembersStay(order[1..], runs, if Terminal(runs, order[0]) then n - 1 else n);
    }
  }

  lemma {:induction false} DropOldestDistinct(order: seq<RunID>, runs: Runs, n: nat)
    requires Distinct(order)
    ensures Distinct(DropOldest(order, runs, n))
    decreases |order|
  {
    if order != [] && n > 0 {
      var rest := order[1..];
      var m := if Terminal(runs, order[0]) then n - 1 else n;
      var d := DropOldest(rest, runs, m);
      DropOldestDistinct(rest, runs, m);
      MembersStay(rest, runs, m);
      assert forall i :: 0 <= i < |rest| ==> rest[i] != order[0];
      assert forall i :: 0 <= i < |d| ==> d[i] in rest;
    }
  }

  /** What stays keeps its order. */
  lemma {:induction false} DropOldestIsOrdered(order: seq<RunID>, runs: Runs, n: nat)
    ensures IsSubsequence(DropOldest(order, runs, n), order)
    decreases |order|
  {
    if order == [] || n == 0 {
      SubsequenceOfItself(order);
    } else if Terminal(runs, order[0]) {
      DropOldestIsOrdered(order[1..], runs, n - 1);
    } else {
      DropOldestIsOrdered(order[1..], runs, n);
      assert ([order[0]] + DropOldest(order[1..], runs, n))[1..] == DropOldest(order[1..], runs, n);
    }
  }

  predicate IsSubsequence(a: seq<RunID>, b: seq<RunID>)
    decreases |b|
  {
    a == [] || (b != [] && ((a[0] == b[0] && IsSubsequence(a[1..], b[1..])) || IsSubsequence(a, b[1..])))
  }

  lemma {:induction false} SubsequenceOfItself(a: seq<RunID>)
    ensures IsSubsequence(a, a)
  {
    if a != [] { SubsequenceOfItself(a[1..]); }
  }

  /** Dropping one by one. */
  lemma {:induction false} DropOneMore(order: seq<RunID>, runs: Runs, n: nat)
    ensures DropOldest(DropOldest(order, runs, n), runs, 1) == DropOldest(order, runs, n + 1)
    decreases |order|
  {
    if order != [] && n > 0 {
      if Terminal(runs, order[0]) {
        DropOneMore(order[1..], runs, n - 1);
      } else {
        DropOneMore(order[1..], runs, n);
        var d := DropOldest(order[1..], runs, n);
        assert ([order[0]] + d)[1..] == d;
      }
    } else if order != [] && !Terminal(runs, order[0]) {
      DropOneMore(order[1..], runs, 0);
    }
  }

  lemma RestrictTwice(runs: Runs, order: seq<RunID>, less: seq<RunID>)
    ensures (forall id :: id in less ==> id in order) ==> Restrict(Restrict(runs, order), less) == Restrict(runs, less)
  {
  }

  /** The table after `n` records have gone, and how it goes on. */
  lemma AfterDropping(order: seq<RunID>, runs: Runs, n: nat)
    requires n <= Terminals(order, runs)
    ensures var o := DropOldest(order, runs, n);
            var r := Restrict(runs, o);
            && |o| == |order| - n && Terminals(o, r) == Terminals(order, runs) - n
            && DropOldest(o, r, 1) == DropOldest(order, runs, n + 1)
            && forall id :: id in DropOldest(o, r, 1) ==> id in o
  {
    var o := DropOldest(order, runs, n);
    DropOldestShrinks(order, runs, n);
    MembersStay(order, runs, n);
    SameTerminals(o, Restrict(runs, o), runs);
    DropOneMore(order, runs, n);
    MembersStay(o, Restrict(runs, o), 1);
  }

  /** The first terminal record is the one that goes first. */
  lemma {:induction false} DropFirst(order: seq<RunID>, runs: Runs, index: nat)
    requires index < |order| && Terminal(runs, order[index]) && forall i :: 0 <= i < index ==> !Terminal(runs, order[i])
    ensures DropOldest(order, runs, 1) == order[..index] + order[index + 1..]
    decreases index
  {
    if index > 0 {
      var rest := order[1..];
      assert forall i :: 0 <= i < index - 1 ==> rest[i] == order[i + 1];
      DropFirst(rest, runs, index - 1);
      assert [order[0]] + (rest[..index - 1] + rest[index..]) == order[..index] + order[index + 1..];
    }
  }

  lemma {:induction false} NoTerminals(order: seq<RunID>, runs: Runs)
    ensures Terminals(order, runs) == 0 <==> forall id :: id in order ==> !Terminal(runs, id)
  {
    if order != [] {
      NoTerminals(order[1..], runs);
      assert forall id :: id in order <==> id == order[0] || id in order[1..];
    }
  }

  lemma {:induction false} SameTerminals(order: seq<RunID>, a: Runs, b: Runs)
    requires forall id :: id in order ==> Terminal(a, id) == Terminal(b, id)
    ensures Terminals(order, a) == Terminals(order, b)
    ensures forall n: nat :: DropOldest(order, a, n) == DropOldest(order, b, n)
  {
    if order != [] {
      assert forall id :: id in order[1..] ==> id in order;
      SameTerminals(order[1..], a, b);
    }
  }

  /** The order has each record once, and only running runs have a cancel function. */
  ghost predicate Consistent(order: seq<RunID>, runs: Runs, cancellers: map<RunID, nat>) {
    && Distinct(order)
    && (forall id :: id in runs <==> id in order)
    && (forall id :: id in cancellers ==> id in runs && runs[id].status.Running?)
  }

  predicate FirstTerminal(order: seq<RunID>, runs: Runs, index: nat) {
    index < |order| && Terminal(runs, order[index]) && forall i :: 0 <= i < index ==> !Terminal(runs, order[i])
  }

  /** The table with `n` records gone, none of them needlessly. */
  ghost predicate Dropped(order0: seq<RunID>, runs0: Runs, n: nat, order: seq<RunID>, runs: Runs) {
    && n <= Excess(order0, runs0)
    && order == DropOldest(order0, runs0, n) && runs == Restrict(runs0, order)
    && |order| == |order0| - n && Terminals(order, runs) == Terminals(order0, runs0) - n
  }

  lemma NoneDropped(order: seq<RunID>, runs: Runs)
    requires forall id :: id in runs <==> id in order
    ensures Dropped(order, runs, 0, order, runs)
  {
    assert runs == Restrict(runs, order);
  }

  lemma OneMoreDropped(order0: seq<RunID>, runs0: Runs, n: nat, order: seq<RunID>, runs: Runs)
    requires Dropped(order0, runs0, n, order, runs) && Terminals(order, runs) > 0 && |order| > MAX_RECORDS
    ensures var o := DropOldest(order, runs, 1); Dropped(order0, runs0, n + 1, o, Restrict(runs, o))
  {
    AfterDropping(order0, runs0, n);
    AfterDropping(order0, runs0, n + 1);
    RestrictTwice(runs0, order, DropOldest(order, runs, 1));
  }

  lemma AllDropped(order0: seq<RunID>, runs0: Runs, n: nat, order: seq<RunID>, runs: Runs)
    requires Dropped(order0, runs0, n, order, runs) && (|order| <= MAX_RECORDS || Terminals(order, runs) == 0)
    ensures n == Excess(order0, runs0)
  {
  }

  lemma OnlyRunning(order: seq<RunID>, runs: Runs)
    requires Terminals(order, runs) == 0 && forall id :: id in runs <==> id in order
    ensures forall id :: id in runs ==> runs[id].status.Running?
  {
    NoTerminals(order, runs);
    assert forall id :: id in runs ==> !Terminal(runs, id);
  }

  /** Taking out the first terminal record. */
  lemma TakeOut(order: seq<RunID>, runs: Runs, cancellers: map<RunID, nat>, index: nat)
    requires Consistent(order, runs, cancellers) && FirstTerminal(order, runs, index)
    ensures var o, r := order[..index] + order[index + 1..], runs - {order[index]};
            Consistent(o, r, cancellers) && o == DropOldest(order, runs, 1) && r == Restrict(runs, o)
                && Terminals(order, runs) > 0
  {
    var o := order[..index] + order[index + 1..];
    DropFirst(order, runs, index);
    DropOldestDistinct(order, runs, 1);
    Without(order, index);
    assert runs - {order[index]} == Restrict(runs, o);
    assert order[index] in order;
    NoTerminals(order, runs);
  }

  // ---- The registry -----------------------------------------------------------------

  class Registry {
    var runs: Runs
    var order: seq<RunID>
    /** The cancel functions of running runs, and all the calls made of such functions. */
    var cancellers: map<RunID, nat>
    var called: seq<nat>

    ghost predicate Valid()
      reads this
    {
      Consistent(order, runs, cancellers)
    }

    /** The table is within its bound, or holds only running runs. */
    ghost predicate Bounded()
      reads this
    {
      |order| <= MAX_RECORDS || forall id :: id in runs ==> runs[id].status.Running?
    }

    constructor ()
      ensures Valid() && Bounded() && order == [] && called == []
    {
      runs, order, cancellers, called := map[], [], map[], [];
    }

    /** One turn of `evictLocked`: the oldest terminal record goes, if there is one. */
    method EvictOne() returns (evicted: bool)
      requires Valid()
      modifies this`runs, this`order
      ensures Valid() && evicted == (Terminals(old(order), old(runs)) > 0)
      ensures !evicted ==> order == old(order) && runs == old(runs)
      ensures evicted ==> order == DropOldest(old(order), old(runs), 1) && runs == Restrict(old(runs), order)
      ensures evicted ==> |order| == |old(order)| - 1
    {
      var index := 0;
      while index < |order| && !Terminal(runs, order[index])
        invariant index <= |order| && forall i :: 0 <= i < index ==> !Terminal(runs, order[i])
      {
        index := index + 1;
      }
      if index == |order| {
        NoTerminals(order, runs);
        return false;
      }
      TakeOut(order, runs, cancellers, index);
      runs := runs - {order[index]};
      order := order[..index] + order[index + 1..];
      evicted := true;
    }

    /** `evictLocked`. */
    method Evict()
      requires Valid()
      modifies this`runs, this`order
      ensures Valid() && Bounded()
      ensures order == DropOldest(old(order), old(runs), Excess(old(order), old(runs)))
      ensures runs == Restrict(old(runs), order)
    {
      ghost var order0, runs0, n: nat := order, runs, 0;
      NoneDropped(order, runs);
      while |order| > MAX_RECORDS
        invariant Valid() && Dropped(order0, runs0, n, order, runs)
        decreases |order|
      {
        ghost var o, r := order, runs;
        var evicted := EvictOne();
        if !evicted {
          AllDropped(order0, runs0, n, order, runs);
          OnlyRunning(order, runs);
          return;
        }
        OneMoreDropped(order0, runs0, n, o, r);
        n := n + 1;
      }
      AllDropped(order0, runs0, n, order, runs);
    }

    /** `start`: a run that is there already is refused, and its cancel function called. */
    method Start(id: RunID, detached: bool, cancel: Option<nat>, now: int) returns (ok: bool)
      requires Valid()
      modifies this
      ensures Valid() && (ok ==> Bounded()) && ok == (id !in old(runs))
      ensures !ok ==> order == old(order) && runs == old(runs) && cancellers == old(cancellers)
      ensures !ok ==> called == if cancel.Some? then old(called) + [cancel.value] else old(called)
      ensures ok ==> called == old(called)
      ensures ok ==> var record := Record(Running, "", detached, now, None);
                     var all, table := old(order) + [id], old(runs)[id := record];
                     && order == DropOldest(all, table, Excess(all, table)) && runs == Restrict(table, order)
                     && id in runs && runs[id] == record
                     && cancellers == if cancel.Some? then old(cancellers)[id := cancel.value] else old(cancellers)
    {
      if id in runs {
        if cancel.Some? { called := called + [cancel.value]; }
        return false;
      }
      Register(id, Record(Running, "", detached, now, None), cancel);
      ok := true;
    }

    method Register(id: RunID, record: Record, cancel: Option<nat>)
      requires Valid() && id !in runs && record.status.Running?
      modifies this`runs, this`order, this`cancellers
      ensures Valid() && Bounded()
      ensures var all, table := old(order) + [id], old(runs)[id := record];
              && order == DropOldest(all, table, Excess(all, table)) && runs == Restrict(table, order)
              && id in runs && runs[id] == record
      ensures cancellers == if cancel.Some? then old(cancellers)[id := cancel.value] else old(cancellers)
    {
      runs := runs[id := record];
      order := order + [id];
      assert order[|order| - 1] == id;
      if cancel.Some? { cancellers := cancellers[id := cancel.value]; }
      RunningStay(order, runs, Excess(order, runs));
      Evict();
    }

    /** `finish`: the record of a run that ended keeps when it was started; that of a run
        never seen is new. It may be the very record that is evicted, when all others run. */
    method Finish(id: RunID, status: Status, output: string, startedAt: int, detached: bool, now: int)
      requires Valid()
      modifies this`runs, this`order, this`cancellers
      ensures Valid() && Bounded()
      ensures var had := id in old(runs);
              var record := Record(if status == Ended("") then Completed else status, output,
                                   if had then old(runs)[id].detached else detached,
                                   if had then old(runs)[id].startedAt else startedAt, Some(now));
              var all, table := if had then old(order) else old(order) + [id], old(runs)[id := record];
              && order == DropOldest(all, table, Excess(all, table)) && runs == Restrict(table, order)
      ensures cancellers == old(cancellers) - {id}
    {
      var record := Record(status, output, detached, startedAt, Some(now));
      if id in runs {
        record := record.(startedAt := runs[id].startedAt, detached := runs[id].detached);
      } else {
        order := order + [id];
        assert order[|order| - 1] == id;
      }
      if record.status == Ended("") { record := record.(status := Completed); }
      runs := runs[id := record];
      cancellers := cancellers - {id};
      ghost var table := runs;
      RunningStay(order, table, Excess(order, table));
      Evict();
    }

    /** `requestCancel`: only a running run with a cancel function is cancelled. */
    method RequestCancel(id: RunID) returns (found: Option<Record>, requested: bool)
      requires Valid()
      modifies this`called
      ensures found == if id in runs then Some(runs[id]) else None
      ensures requested == (id in cancellers)
      ensures called == if requested then old(called) + [cancellers[id]] else old(called)
    {
      if id !in runs { return None, false; }
      found := Some(runs[id]);
      if !runs[id].status.Running? || id !in cancellers { return found, false; }
      called := called + [cancellers[id]];
      requested := true;
    }
  }

  lemma Without(order: seq<RunID>, index: nat)
    requires Distinct(order) && index < |order|
    ensures var rest := order[..index] + order[index + 1..];
            forall id :: id in rest <==> id in order && id != order[index]
  {
    var rest := order[..index] + order[index + 1..];
    forall id | id in order && id != order[index]
      ensures id in rest
    {
      var k :| 0 <= k < |order| && order[k] == id;
      assert if k < index then rest[k] == id else rest[k - 1] == id;
    }
  }

  /** Records of running runs are never dropped. */
  lemma RunningStay(order: seq<RunID>, runs: Runs, n: nat)
    requires Distinct(order)
    ensures forall id :: id in order && !Terminal(runs, id) ==> id in DropOldest(order, runs, n)
  {
    forall k | 0 <= k < |order| && !Terminal(runs, order[k])
      ensures order[k] in DropOldest(order, runs, n)
    {
      DropOldestKeeps(order, runs, n, k);
    }
  }

  /** A table of up to a hundred records is left alone; of a larger one a hundred stay, or
      more when all that stay are running. */
  lemma HundredStay(order: seq<RunID>, runs: Runs)
    requires Distinct(order)
    ensures var kept := DropOldest(order, runs, Excess(order, runs));
            if |order| <= 100 then kept == order
            else |kept| == 100 || (|kept| > 100 && forall id :: id in kept && id in runs ==> runs[id].status.Running?)
  {
    if |order| > 100 {
      DropOldestShrinks(order, runs, Excess(order, runs));
      var kept := DropOldest(order, runs, Excess(order, runs));
      NoTerminals(kept, runs);
      assert forall id :: id in kept && id in runs && !Terminal(runs, id) ==> runs[id].status.Running?;
    }
  }

  /** A record that has just ended is itself dropped exactly when the table is too large
      and no terminal record is older than it among those that have to go. */
  lemma FinishedIsEvicted(order: seq<RunID>, runs: Runs, k: nat)
    requires Distinct(order) && k < |order| && Terminal(runs, order[k])
    ensures order[k] !in DropOldest(order, runs, Excess(order, runs)) <==>
              Terminals(order[..k], runs) < Excess(order, runs)
  {
    DropOldestKeeps(order, runs, Excess(order, runs), k);
  }
}
