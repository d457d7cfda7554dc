/** `FanoutStore.Append` of `eventlog/bus.go`: append to the durable store, then publish,
    then close the run after a terminal event, all under the store's own mutex. The steps
    of the bus it writes to interleave freely with subscribers and readers. */
module FanoutStore {
  import opened EventBus

  /** Where the one `Append` that holds the store's mutex is. */
  datatype Phase =
    | Idle
    | Written(event: Event)
    | Offering(event: Event)
    | Published(event: Event)
    | Shutting(event: Event)

  /** An event in the durable store, and whether the bus has published it: not when its
      publication failed, or came after the run was closed. */
  datatype Entry = Entry(event: Event, published: bool)

  /** `before` is what the durable store held when the bus was created and `settled` what
      was appended since; an event that is written and not yet offered is in `phase` only.
      `since` is how much of its run was settled when a channel subscribed. */
  datatype Fanout = Fanout(
    bus: State, before: map<RunID, seq<Event>>, settled: map<RunID, seq<Entry>>, since: map<ChanID, nat>, phase: Phase)

  datatype Action =
    | Write(event: Event)
    | FailPublish
    | Return
    | OnBus(step: Step)

  function Initial(before: map<RunID, seq<Event>>): Fanout { Fanout(INIT, before, map[], map[], Idle) }

  function Settled(f: Fanout, run: RunID): seq<Entry> { if run in f.settled then f.settled[run] else [] }

  function Before(f: Fanout, run: RunID): seq<Event> { if run in f.before then f.before[run] else [] }

  function Events(es: seq<Entry>): (events: seq<Event>)
    ensures |events| == |es| && forall i :: 0 <= i < |es| ==> events[i] == es[i].event
  {
    seq(|es|, i requires 0 <= i < |es| => es[i].event)
  }

  /** All that was appended to a run. */
  function Written(f: Fanout, run: RunID): seq<Event> {
    Events(Settled(f, run)) + if f.phase.Written? && f.phase.event.run == run then [f.phase.event] else []
  }

  /** The durable log of a run. */
  function Durable(f: Fanout, run: RunID): seq<Event> { Before(f, run) + Written(f, run) }

  function Settle(f: Fanout, published: bool): map<RunID, seq<Entry>>
    requires f.phase.Written?
  {
    f.settled[f.phase.event.run := Settled(f, f.phase.event.run) + [Entry(f.phase.event, published)]]
  }

  /** Publishing and closing are done by `Append` alone; everybody else may subscribe,
      unsubscribe and receive at any time. */
  predicate Allowed(f: Fanout, step: Step) {
    match step
    case BeginPublish(e) => f.phase == Phase.Written(e)
    case BeginClose(run) => f.phase.Published? && f.phase.event.terminal && f.phase.event.run == run
    case _ => true
  }

  predicate Can(f: Fanout, a: Action) {
    match a
    case Write(e) => f.phase.Idle?
    case FailPublish => f.phase.Written?
    case Return => f.phase.Published? && !f.phase.event.terminal
    case OnBus(step) => Enabled(f.bus, step) && Allowed(f, step)
  }

  function PhaseAfter(f: Fanout, step: Step): Phase {
    match step
    case BeginPublish(e) => if e.run in f.bus.closed then Published(e) else Offering(e)
    case EndPublish => if f.phase.Offering? then Published(f.phase.event) else f.phase
    case BeginClose(run) => if f.phase.Published? then Shutting(f.phase.event) else f.phase
    case EndClose => Idle
    case _ => f.phase
  }

  function Do(f: Fanout, a: Action): Fanout
    requires Can(f, a)
  {
    match a
    case Write(e) => f.(phase := Phase.Written(e))
    case FailPublish => f.(settled := Settle(f, false), phase := Idle)
    case Return => f.(phase := Idle)
    case OnBus(step) =>
      f.(bus := Next(f.bus, step), phase := PhaseAfter(f, step),
         settled := if step.BeginPublish? then Settle(f, step.event.run !in f.bus.closed) else f.settled,
         since := if step.Subscribe? then f.since[step.ch := |Settled(f, step.run)|] else f.since)
  }

  // ---- Runs -------------------------------------------------------------------------

  /** The published ones of some entries. */
  function Picked(es: seq<Entry>): seq<Event> {
    if es == [] then []
    else
      var front, last := es[..|es| - 1], es[|es| - 1];
      if last.published then Picked(front) + [last.event] else Picked(front)
  }

  lemma PickedSnoc(es: seq<Entry>, e: Entry)
    ensures Picked(es + [e]) == if e.published then Picked(es) + [e.event] else Picked(es)
  {
    assert (es + [e])[..|es|] == es;
  }

  /** Nothing but the last event is terminal. */
  predicate OnlyLastEnds(s: seq<Event>) { forall i :: 0 <= i < |s| - 1 ==> !s[i].terminal }

  predicate Ended(log: seq<Event>) { log != [] && log[|log| - 1].terminal }

  ghost predicate PhaseOk(f: Fanout) {
    && (f.bus.lock.Publishing? <==> f.phase.Offering?)
    && (f.bus.lock.Publishing? ==> f.bus.lock.event == f.phase.event)
    && (f.bus.lock.Closing? <==> f.phase.Shutting?)
    && (f.bus.lock.Closing? ==> f.bus.lock.run == f.phase.event.run)
  }

  /** The publication in progress is of a terminal event of this run. */
  predicate Ending(f: Fanout, run: RunID) {
    (f.phase.Offering? || f.phase.Published?) && f.phase.event.run == run && f.phase.event.terminal
  }

  /** A run's publication log is what was published of its entries, up to a terminal event
      that closes the run. */
  ghost predicate RunOk(f: Fanout, run: RunID) {
    var log := Log(f.bus, run);
    && log == Picked(Settled(f, run)) && OnlyLastEnds(log)
    && (Ended(log) <==> run in f.bus.closed || Ending(f, run))
  }

  /** Where a channel of the bus began is where it began in the entries of its run. */
  ghost predicate SinceOk(f: Fanout, ch: ChanID) {
    ch in f.bus.chans ==>
      var c := f.bus.chans[ch];
      && ch in f.since && f.since[ch] <= |Settled(f, c.run)|
      && c.from == |Picked(Settled(f, c.run)[..f.since[ch]])|
  }

  ghost predicate FanoutInv(f: Fanout) {
    && Inv(f.bus)
    && PhaseOk(f)
    && (forall run :: RunOk(f, run))
    && (forall ch :: SinceOk(f, ch))
  }

  lemma DoKeepsPhase(f: Fanout, a: Action)
    requires FanoutInv(f) && Can(f, a)
    ensures PhaseOk(Do(f, a))
  {
  }

  /** Nothing that concerns the run changes. */
  lemma SameRun(f: Fanout, g: Fanout, run: RunID)
    requires RunOk(f, run) && Log(g.bus, run) == Log(f.bus, run) && (run in g.bus.closed <==> run in f.bus.closed)
    requires Settled(g, run) == Settled(f, run) && (Ending(g, run) <==> Ending(f, run))
    ensures RunOk(g, run)
  {
  }

  lemma AppendKeepsRun(f: Fanout, a: Action, run: RunID)
    requires RunOk(f, run) && Can(f, a) && !a.OnBus?
    ensures RunOk(Do(f, a), run)
  {
    if a.FailPublish? && run == f.phase.event.run {
      PickedSnoc(Settled(f, run), Entry(f.phase.event, false));
    } else {
      SameRun(f, Do(f, a), run);
    }
  }

  lemma EndsSnoc(log: seq<Event>, e: Event)
    requires OnlyLastEnds(log) && !Ended(log)
    ensures OnlyLastEnds(log + [e]) && (Ended(log + [e]) <==> e.terminal)
  {
  }

  lemma PublishSettles(f: Fanout, e: Event)
    requires RunOk(f, e.run) && Can(f, OnBus(BeginPublish(e)))
    ensures RunOk(Do(f, OnBus(BeginPublish(e))), e.run)
  {
    var g := Do(f, OnBus(BeginPublish(e)));
    PickedSnoc(Settled(f, e.run), Entry(e, e.run !in f.bus.closed));
    if e.run in f.bus.closed {
      assert Log(g.bus, e.run) == Log(f.bus, e.run);
    } else {
      EndsSnoc(Log(f.bus, e.run), e);
      assert Log(g.bus, e.run) == Log(f.bus, e.run) + [e];
    }
  }

  lemma PublishKeepsRun(f: Fanout, e: Event, run: RunID)
    requires RunOk(f, run) && Can(f, OnBus(BeginPublish(e)))
    ensures RunOk(Do(f, OnBus(BeginPublish(e))), run)
  {
    if run == e.run { PublishSettles(f, e); } else { SameRun(f, Do(f, OnBus(BeginPublish(e))), run); }
  }

  lemma BusKeepsRun(f: Fanout, step: Step, run: RunID)
    requires PhaseOk(f) && RunOk(f, run) && Can(f, OnBus(step)) && !step.BeginPublish?
    ensures RunOk(Do(f, OnBus(step)), run)
  {
    assert Log(Do(f, OnBus(step)).bus, run) == Log(f.bus, run);
  }

  lemma DoKeepsRun(f: Fanout, a: Action, run: RunID)
    requires PhaseOk(f) && RunOk(f, run) && Can(f, a)
    ensures RunOk(Do(f, a), run)
  {
    match a
    case OnBus(BeginPublish(e)) => PublishKeepsRun(f, e, run);
    case OnBus(step) => BusKeepsRun(f, step, run);
    case _ => AppendKeepsRun(f, a, run);
  }

  /** A channel keeps its run and where it began; a new one begins with the log of now. */
  lemma ChannelBegins(s: State, step: Step, ch: ChanID)
    requires Enabled(s, step) && ch in Next(s, step).chans
    ensures var c := Next(s, step).chans[ch];
            if ch in s.chans then c.run == s.chans[ch].run && c.from == s.chans[ch].from
            else step.Subscribe? && step.ch == ch && c.run == step.run && c.from == |Log(s, c.run)|
  {
  }

  lemma SettledGrows(f: Fanout, a: Action, run: RunID)
    requires Can(f, a)
    ensures Settled(f, run) <= Settled(Do(f, a), run)
  {
  }

  lemma DoKeepsSince(f: Fanout, a: Action, ch: ChanID)
    requires SinceOk(f, ch) && Can(f, a) && forall run :: RunOk(f, run)
    ensures SinceOk(Do(f, a), ch)
  {
    var g := Do(f, a);
    if ch in g.bus.chans {
      var c := g.bus.chans[ch];
      if a.OnBus? { ChannelBegins(f.bus, a.step, ch); }
      SettledGrows(f, a, c.run);
      if ch in f.bus.chans {
        assert Settled(g, c.run)[..f.since[ch]] == Settled(f, c.run)[..f.since[ch]];
      } else {
        assert Settled(g, c.run)[..|Settled(f, c.run)|] == Settled(f, c.run);
        assert RunOk(f, c.run);
      }
    }
  }

  lemma DoKeeps(f: Fanout, a: Action)
    requires FanoutInv(f) && Can(f, a)
    ensures FanoutInv(Do(f, a))
  {
    DoKeepsPhase(f, a);
    if a.OnBus? { NextKeeps(f.bus, a.step); }
    forall run ensures RunOk(Do(f, a), run) { DoKeepsRun(f, a, run); }
    forall ch ensures SinceOk(Do(f, a), ch) { DoKeepsSince(f, a, ch); }
  }

  ghost predicate FanoutRuns(f: Fanout, actions: seq<Action>, g: Fanout)
    decreases actions
  {
    if actions == [] then f == g
    else Can(f, actions[0]) && FanoutRuns(Do(f, actions[0]), actions[1..], g)
  }

  lemma {:induction false} FanoutRunKeeps(f: Fanout, actions: seq<Action>, g: Fanout)
    requires FanoutInv(f) && FanoutRuns(f, actions, g)
    ensures FanoutInv(g) && g.before == f.before
    decreases actions
  {
    if actions != [] {
      DoKeeps(f, actions[0]);
      FanoutRunKeeps(Do(f, actions[0]), actions[1..], g);
    }
  }

  // ---- Places in the durable log ----------------------------------------------------

  /** The places of the published entries from `from` on. */
  function Places(es: seq<Entry>, from: nat): seq<nat> {
    if |es| <= from then []
    else
      var front := Places(es[..|es| - 1], from);
      if es[|es| - 1].published then front + [|es| - 1] else front
  }

  predicate Rising(at: seq<nat>) { forall i, j :: 0 <= i < j < |at| ==> at[i] < at[j] }

  lemma PlacesSnoc(es: seq<Entry>, e: Entry, from: nat)
    requires from <= |es|
    ensures Places(es + [e], from) == if e.published then Places(es, from) + [|es|] else Places(es, from)
  {
    assert (es + [e])[..|es|] == es;
  }

  predicate Below(at: seq<nat>, n: nat) { forall p :: p in at ==> p < n }

  lemma RisingSnoc(at: seq<nat>, n: nat)
    requires Rising(at) && Below(at, n)
    ensures Rising(at + [n]) && Below(at + [n], n + 1)
  {
    assert forall i :: 0 <= i < |at| ==> at[i] in at;
  }

  lemma {:induction false} PlacesRise(es: seq<Entry>, from: nat)
    requires from <= |es|
    ensures Rising(Places(es, from)) && Below(Places(es, from), |es|)
    decreases |es|
  {
    if from < |es| {
      var front := es[..|es| - 1];
      PlacesRise(front, from);
      RisingSnoc(Places(front, from), |front|);
    }
  }

  /** The places are those of the published entries, in order. */
  lemma {:induction false} PlacesMean(es: seq<Entry>, from: nat, p: nat)
    requires from <= |es|
    ensures p in Places(es, from) <==> from <= p < |es| && es[p].published
    decreases |es|
  {
    if from < |es| {
      PlacesMean(es[..|es| - 1], from, p);
    }
  }

  /** The log has the events of these places behind what was published earlier. */
  lemma {:induction false} PlacesPick(es: seq<Entry>, from: nat)
    requires from <= |es|
    ensures var at, log, skip := Places(es, from), Picked(es), |Picked(es[..from])|;
            |log| == skip + |at| && forall i :: 0 <= i < |at| ==> at[i] < |es| && log[skip + i] == es[at[i]].event
    decreases |es|
  {
    if from == |es| {
      assert es[..from] == es;
    } else {
      var front, last := es[..|es| - 1], es[|es| - 1];
      PlacesPick(front, from);
      assert front[..from] == es[..from] && front + [last] == es;
      PickedSnoc(front, last);
      PlacesSnoc(front, last, from);
    }
  }

  /** Rising places between which nothing is missing are consecutive. */
  lemma {:induction false} Consecutive(at: seq<nat>, from: nat)
    requires Rising(at) && at != [] && forall p :: p in at ==> from <= p
    requires forall p :: from <= p <= at[|at| - 1] ==> p in at
    ensures forall i :: 0 <= i < |at| ==> at[i] == from + i
  {
    var n := |at| - 1;
    assert at[n] in at && at[0] in at;
    if n == 0 {
      assert from in at;
    } else {
      var front := at[..n];
      assert front[n - 1] == at[n - 1];
      forall p | from <= p <= front[n - 1]
        ensures p in front
      {
        assert p in at;
        var k :| 0 <= k < |at| && at[k] == p;
        assert k < n && front[k] == p;
      }
      Consecutive(front, from);
      assert at[n - 1] == from + n - 1;
      assert forall k :: 0 <= k < n ==> at[k] == front[k] == from + k;
      assert from + n in at;
    }
  }

  /** As many rising places as there are in a range are all of it. */
  lemma {:induction false} Packed(at: seq<nat>, from: nat)
    requires Rising(at) && forall i :: 0 <= i < |at| ==> from <= at[i] < from + |at|
    ensures forall i :: 0 <= i < |at| ==> at[i] == from + i
  {
    if at != [] {
      var n := |at| - 1;
      var front := at[..n];
      LastIsFar(at, from);
      assert forall i :: 0 <= i < n ==> at[i] == front[i] < at[n];
      Packed(front, from);
    }
  }

  lemma {:induction false} LastIsFar(at: seq<nat>, from: nat)
    requires Rising(at) && at != [] && from <= at[0]
    ensures from + |at| - 1 <= at[|at| - 1]
  {
    if |at| > 1 {
      var front := at[..|at| - 1];
      LastIsFar(front, from);
      assert front[|front| - 1] == at[|at| - 2] < at[|at| - 1];
    }
  }

  // ---- What a reader was sent -------------------------------------------------------

  predicate IsSlice(s: seq<Event>, log: seq<Event>, from: nat) { from + |s| <= |log| && s == log[from .. from + |s|] }

  /** What a channel was sent, of what its run has published. */
  ghost predicate SentFrom(f: Fanout, ch: ChanID)
    requires ch in f.bus.chans
  {
    var c := f.bus.chans[ch];
    var log := Log(f.bus, c.run);
    && IsSlice(c.Sent(), log, c.from)
    && (f.phase.Idle? && (c.open || c.fate.RunClosed?) ==> c.from + |c.Sent()| == |log|)
    && (f.phase.Idle? && c.open ==> c.run !in f.bus.closed)
    && (c.fate.RunClosed? ==> c.run in f.bus.closed)
  }

  lemma ChannelIsSent(f: Fanout, ch: ChanID)
    requires PhaseOk(f) && Registration(f.bus) && ChannelInv(f.bus, ch)
    ensures SentFrom(f, ch)
  {
  }

  /** Where in the durable log a channel subscribed. */
  function Subscribed(f: Fanout, ch: ChanID): nat
    requires ch in f.bus.chans && ch in f.since
  {
    |Before(f, f.bus.chans[ch].run)| + f.since[ch]
  }

  /** The event at a place of the durable log was appended and never published. */
  predicate Lost(f: Fanout, run: RunID, p: nat) {
    var n := |Before(f, run)|;
    n <= p < n + |Settled(f, run)| && !Settled(f, run)[p - n].published
  }

  /** The events at some rising places of a log. */
  predicate At(sent: seq<Event>, log: seq<Event>, at: seq<nat>) {
    |at| == |sent| && Rising(at) && forall i :: 0 <= i < |at| ==> at[i] < |log| && log[at[i]] == sent[i]
  }

  /** The events at some places of the durable log from `from` on: every one up to the
      last of them that was not lost. */
  ghost predicate SentAt(f: Fanout, run: RunID, from: nat, sent: seq<Event>, at: seq<nat>) {
    && from <= |Durable(f, run)| && At(sent, Durable(f, run), at)
    && (forall p :: p in at ==> from <= p && !Lost(f, run, p))
    && (at != [] ==> forall p :: from <= p <= at[|at| - 1] && !Lost(f, run, p) ==> p in at)
  }

  /** And every one there is. */
  ghost predicate AllAt(f: Fanout, run: RunID, from: nat, at: seq<nat>) {
    forall p :: from <= p < |Before(f, run)| + |Settled(f, run)| && !Lost(f, run, p) ==> p in at
  }

  function Shifted(at: seq<nat>, n: nat): (s: seq<nat>)
    ensures |s| == |at| && forall i :: 0 <= i < |at| ==> s[i] == at[i] + n
  {
    seq(|at|, i requires 0 <= i < |at| => at[i] + n)
  }

  lemma SettledInDurable(f: Fanout, run: RunID, p: nat)
    requires p < |Settled(f, run)|
    ensures |Before(f, run)| + p < |Durable(f, run)|
            && Durable(f, run)[|Before(f, run)| + p] == Settled(f, run)[p].event
  {
  }

  lemma ShiftedInDurable(f: Fanout, run: RunID, from: nat, n: nat, sent: seq<Event>)
    requires from <= |Settled(f, run)| && |sent| == n <= |Places(Settled(f, run), from)|
    requires forall i :: 0 <= i < n ==>
               var p := Places(Settled(f, run), from)[i];
               p < |Settled(f, run)| && sent[i] == Settled(f, run)[p].event
    ensures At(sent, Durable(f, run), Shifted(Places(Settled(f, run), from)[..n], |Before(f, run)|))
  {
    var at := Places(Settled(f, run), from);
    PlacesRise(Settled(f, run), from);
    forall i | 0 <= i < n
      ensures |Before(f, run)| + at[i] < |Durable(f, run)| && Durable(f, run)[|Before(f, run)| + at[i]] == sent[i]
    {
      SettledInDurable(f, run, at[i]);
    }
  }

  /** Of rising places, those up to the last of the first `n` are these. */
  lemma UpToLast(all: seq<nat>, n: nat, p: nat)
    requires Rising(all) && 0 < n <= |all| && p in all && p <= all[n - 1]
    ensures p in all[..n]
  {
    var k :| 0 <= k < |all| && all[k] == p;
    assert k < n;
    assert all[..n][k] == p;
  }

  lemma PlacesAreNotLost(f: Fanout, run: RunID, from: nat, n: nat, p: nat)
    requires from <= |Settled(f, run)| && n <= |Places(Settled(f, run), from)|
    ensures var at := Shifted(Places(Settled(f, run), from)[..n], |Before(f, run)|);
            p in at ==> |Before(f, run)| + from <= p && !Lost(f, run, p)
  {
    var all, b := Places(Settled(f, run), from), |Before(f, run)|;
    var at := Shifted(all[..n], b);
    if p in at {
      var i :| 0 <= i < |at| && at[i] == p;
      assert all[i] in all;
      PlacesMean(Settled(f, run), from, p - b);
    }
  }

  lemma NotLostIsPlace(f: Fanout, run: RunID, from: nat, n: nat, p: nat)
    requires from <= |Settled(f, run)| && n <= |Places(Settled(f, run), from)|
    requires |Before(f, run)| + from <= p < |Before(f, run)| + |Settled(f, run)| && !Lost(f, run, p)
    ensures var all := Places(Settled(f, run), from);
            n == |all| || (n > 0 && p <= all[n - 1] + |Before(f, run)|) ==> p in Shifted(all[..n], |Before(f, run)|)
  {
    var all, b := Places(Settled(f, run), from), |Before(f, run)|;
    PlacesRise(Settled(f, run), from);
    PlacesMean(Settled(f, run), from, p - b);
    if n == |all| || (n > 0 && p <= all[n - 1] + b) {
      if n == |all| { assert all[..n] == all; } else { UpToLast(all, n, p - b); }
      var k :| 0 <= k < n && all[..n][k] == p - b;
      assert Shifted(all[..n], b)[k] == p;
    }
  }

  lemma PlacesSentAt(f: Fanout, run: RunID, from: nat, sent: seq<Event>, at: seq<nat>)
    requires from <= |Settled(f, run)| && |sent| <= |Places(Settled(f, run), from)|
    requires at == Shifted(Places(Settled(f, run), from)[..|sent|], |Before(f, run)|) && At(sent, Durable(f, run), at)
    ensures SentAt(f, run, |Before(f, run)| + from, sent, at)
    ensures |sent| == |Places(Settled(f, run), from)| ==> AllAt(f, run, |Before(f, run)| + from, at)
  {
    var all, b, n := Places(Settled(f, run), from), |Before(f, run)|, |sent|;
    PlacesRise(Settled(f, run), from);
    forall p | p in at
      ensures b + from <= p && !Lost(f, run, p)
    {
      PlacesAreNotLost(f, run, from, n, p);
    }
    if n > 0 { assert all[n - 1] in all; }
    forall p | b + from <= p < b + |Settled(f, run)| && !Lost(f, run, p) && (n == |all| || (n > 0 && p <= at[n - 1]))
      ensures p in at
    {
      NotLostIsPlace(f, run, from, n, p);
    }
  }

  lemma ChannelSentAt(f: Fanout, ch: ChanID) returns (at: seq<nat>)
    requires ch in f.bus.chans && SinceOk(f, ch) && RunOk(f, f.bus.chans[ch].run) && SentFrom(f, ch)
    ensures var c := f.bus.chans[ch];
            && SentAt(f, c.run, Subscribed(f, ch), c.Sent(), at)
            && (c.from + |c.Sent()| == |Log(f.bus, c.run)| ==> AllAt(f, c.run, Subscribed(f, ch), at))
  {
    var c := f.bus.chans[ch];
    var es := Settled(f, c.run);
    PlacesPick(es, f.since[ch]);
    at := Shifted(Places(es, f.since[ch])[..|c.Sent()|], |Before(f, c.run)|);
    ShiftedInDurable(f, c.run, f.since[ch], |c.Sent()|, c.Sent());
    PlacesSentAt(f, c.run, f.since[ch], c.Sent(), at);
  }

  // ---- When that is a piece of the log ----------------------------------------------

  /** Nothing was lost from a channel's subscription up to the last event it was sent. */
  ghost predicate NoneLost(f: Fanout, run: RunID, from: nat, at: seq<nat>) {
    at != [] ==> forall p :: from <= p <= at[|at| - 1] ==> !Lost(f, run, p)
  }

  ghost predicate InARow(at: seq<nat>, from: nat) { forall i :: 0 <= i < |at| ==> at[i] == from + i }

  predicate Differ(log: seq<Event>, from: nat) { forall i, j :: from <= i < j < |log| ==> log[i] != log[j] }

  /** The places are in a row from the subscription on exactly when nothing was lost. */
  lemma RowIsExact(f: Fanout, run: RunID, from: nat, sent: seq<Event>, at: seq<nat>)
    requires SentAt(f, run, from, sent, at)
    ensures InARow(at, from) <==> NoneLost(f, run, from, at)
  {
    if at != [] {
      assert at[|at| - 1] in at;
      if NoneLost(f, run, from, at) { Consecutive(at, from); }
      if InARow(at, from) {
        forall p | from <= p <= at[|at| - 1]
          ensures !Lost(f, run, p)
        {
          assert at[p - from] in at;
        }
      }
    }
  }

  /** Then what was sent is a piece of the log, and only then when its events differ. */
  lemma RowIsSlice(sent: seq<Event>, log: seq<Event>, at: seq<nat>, from: nat)
    requires At(sent, log, at) && from <= |log| && forall i :: 0 <= i < |at| ==> from <= at[i]
    ensures InARow(at, from) ==> IsSlice(sent, log, from)
    ensures Differ(log, from) ==> (IsSlice(sent, log, from) <==> InARow(at, from))
  {
    if InARow(at, from) {
      assert at != [] ==> at[|at| - 1] < |log|;
      assert forall i :: 0 <= i < |at| ==> log[at[i]] == sent[i] && at[i] == from + i;
      assert sent == log[from .. from + |sent|];
    }
    if Differ(log, from) && IsSlice(sent, log, from) {
      forall i | 0 <= i < |at|
        ensures at[i] == from + i
      {
        assert log[at[i]] == sent[i] == log[from + i];
      }
    }
  }

  /** A channel that was sent everything there is has the rest of the log exactly when
      nothing of it was lost. */
  lemma RestIsExact(f: Fanout, run: RunID, from: nat, sent: seq<Event>, at: seq<nat>)
    requires SentAt(f, run, from, sent, at) && AllAt(f, run, from, at)
             && |Durable(f, run)| == |Before(f, run)| + |Settled(f, run)|
    ensures from + |sent| == |Durable(f, run)| <==> forall p :: from <= p < |Durable(f, run)| ==> !Lost(f, run, p)
  {
    var log := Durable(f, run);
    if from + |sent| == |log| {
      forall i | 0 <= i < |at|
        ensures from <= at[i] < from + |at|
      {
        assert at[i] in at;
      }
      Packed(at, from);
      forall p | from <= p < |log|
        ensures !Lost(f, run, p)
      {
        assert at[p - from] in at;
      }
    }
    if forall p :: from <= p < |log| ==> !Lost(f, run, p) {
      RowIsExact(f, run, from, sent, at);
      assert at != [] ==> at[|at| - 1] in at && at[|at| - 1] < |log|;
      assert from + |at| < |log| ==> from + |at| in at;
    }
  }

  /** What the log of one reader is. */
  ghost predicate Follows(f: Fanout, ch: ChanID, at: seq<nat>)
    requires ch in f.bus.chans && ch in f.since
  {
    var c, from := f.bus.chans[ch], Subscribed(f, ch);
    var sent, log := c.Sent(), Durable(f, c.run);
    && SentAt(f, c.run, from, sent, at) && OnlyLastEnds(sent)
    && (InARow(at, from) <==> NoneLost(f, c.run, from, at))
    && (NoneLost(f, c.run, from, at) ==> IsSlice(sent, log, from))
    && (Differ(log, from) && IsSlice(sent, log, from) ==> NoneLost(f, c.run, from, at))
    && (f.phase.Idle? && c.open ==>
          (from + |sent| == |log| <==> forall p :: from <= p < |log| ==> !Lost(f, c.run, p)))
    && (f.phase.Idle? && c.fate.RunClosed? && sent != [] ==> Ended(sent))
  }

  lemma SliceEnds(sent: seq<Event>, log: seq<Event>, from: nat)
    requires IsSlice(sent, log, from) && OnlyLastEnds(log)
    ensures OnlyLastEnds(sent)
    ensures sent != [] && from + |sent| == |log| && Ended(log) ==> Ended(sent)
  {
    assert forall i :: 0 <= i < |sent| ==> sent[i] == log[from + i];
  }

  lemma Parts(f: Fanout, ch: ChanID)
    requires FanoutInv(f) && ch in f.bus.chans
    ensures SentFrom(f, ch) && RunOk(f, f.bus.chans[ch].run) && SinceOk(f, ch)
  {
    assert ChannelInv(f.bus, ch);
    ChannelIsSent(f, ch);
  }

  lemma ReaderFollows(f: Fanout, ch: ChanID) returns (at: seq<nat>)
    requires ch in f.bus.chans && SentFrom(f, ch) && RunOk(f, f.bus.chans[ch].run) && SinceOk(f, ch)
    ensures Follows(f, ch, at)
  {
    var c := f.bus.chans[ch];
    at := ChannelSentAt(f, ch);
    SliceEnds(c.Sent(), Log(f.bus, c.run), c.from);
    RowIsExact(f, c.run, Subscribed(f, ch), c.Sent(), at);
    assert forall i :: 0 <= i < |at| ==> at[i] in at;
    RowIsSlice(c.Sent(), Durable(f, c.run), at, Subscribed(f, ch));
    if f.phase.Idle? && c.open { RestIsExact(f, c.run, Subscribed(f, ch), c.Sent(), at); }
  }

  /** In every interleaving, what a reader was sent are the events of the durable log from
      its subscription on that were published, none of them but the last terminal. It is a
      contiguous piece of the log exactly when no publication was lost between the
      subscription and the last event that the reader was sent, and a reader still
      listening lacks nothing exactly when none was lost since it subscribed. */
  lemma LiveDeliveryFollowsTheLog(before: map<RunID, seq<Event>>, actions: seq<Action>, f: Fanout,
      ch: ChanID) returns (at: seq<nat>)
    requires FanoutRuns(Initial(before), actions, f) && ch in f.bus.chans
    ensures ch in f.since && Follows(f, ch, at)
  {
    FanoutRunKeeps(Initial(before), actions, f);
    Parts(f, ch);
    at := ReaderFollows(f, ch);
  }

  // ---- A lost publication -----------------------------------------------------------

  lemma {:induction false} FanoutConcat(f: Fanout, a: seq<Action>, g: Fanout, b: seq<Action>, h: Fanout)
    requires FanoutRuns(f, a, g) && FanoutRuns(g, b, h)
    ensures FanoutRuns(f, a + b, h)
    decreases a
  {
    if a == [] {
      assert a + b == b;
    } else {
      assert (a + b)[0] == a[0] && (a + b)[1..] == a[1..] + b;
      FanoutConcat(Do(f, a[0]), a[1..], g, b, h);
    }
  }

  lemma FanoutStep(f: Fanout, a: seq<Action>, g: Fanout, last: Action)
    requires FanoutRuns(f, a, g) && Can(g, last)
    ensures FanoutRuns(f, a + [last], Do(g, last))
  {
    assert FanoutRuns(Do(g, last), [], Do(g, last));
    FanoutConcat(f, a, g, [last], Do(g, last));
  }

  lemma TwoSteps(init: Fanout, a: seq<Action>, f: Fanout, x: Action, y: Action)
    requires FanoutRuns(init, a, f) && Can(f, x) && Can(Do(f, x), y)
    ensures FanoutRuns(init, a + [x] + [y], Do(Do(f, x), y))
  {
    FanoutStep(init, a, f, x);
    FanoutStep(init, a + [x], Do(f, x), y);
  }

  /** The first half of an append: written, and its publication begun. */
  lemma BeginAppend(init: Fanout, a: seq<Action>, f: Fanout, e: Event) returns (b: seq<Action>, g: Fanout)
    requires FanoutRuns(init, a, f) && f.phase.Idle? && f.bus.lock.Free? && e.run !in f.bus.closed
    ensures FanoutRuns(init, b, g) && g.phase == Offering(e) && g.bus == Next(f.bus, BeginPublish(e))
    ensures g.before == f.before && Settled(g, e.run) == Settled(f, e.run) + [Entry(e, true)]
  {
    TwoSteps(init, a, f, Write(e), OnBus(BeginPublish(e)));
    b, g := a + [Write(e)] + [OnBus(BeginPublish(e))], Do(Do(f, Write(e)), OnBus(BeginPublish(e)));
  }

  /** The second half, for one reader with room. */
  lemma EndAppend(init: Fanout, a: seq<Action>, f: Fanout, e: Event) returns (b: seq<Action>, g: Fanout)
    requires FanoutRuns(init, a, f) && f.phase == Offering(e) && f.bus.lock == Publishing(e, {0}) && !e.terminal
    requires 0 in f.bus.chans && |f.bus.chans[0].buf| < f.bus.chans[0].cap
    ensures FanoutRuns(init, b, g) && g.phase.Idle? && g.bus.lock.Free? && g.bus.subs == f.bus.subs
            && g.bus.closed == f.bus.closed
    ensures g.bus.chans == f.bus.chans[0 := f.bus.chans[0].(buf := f.bus.chans[0].buf + [e])]
    ensures g.before == f.before && g.settled == f.settled
  {
    TwoSteps(init, a, f, OnBus(Offer(0, false)), OnBus(EndPublish));
    b, g := a + [OnBus(Offer(0, false))] + [OnBus(EndPublish)], Do(Do(f, OnBus(Offer(0, false))), OnBus(EndPublish));
    FanoutStep(init, b, g, Return);
    b, g := b + [Return], Do(g, Return);
  }

  lemma WrittenSnoc(f: Fanout, g: Fanout, e: Event, published: bool)
    requires f.phase.Idle? && g.phase.Idle? && Settled(g, e.run) == Settled(f, e.run) + [Entry(e, published)]
    ensures Written(g, e.run) == Written(f, e.run) + [e]
  {
  }

  /** One whole append of an event that is not terminal, seen by one reader with room. */
  lemma AppendToOne(init: Fanout, a: seq<Action>, f: Fanout, run: RunID, e: Event) returns (b: seq<Action>, g: Fanout)
    requires FanoutRuns(init, a, f) && f.phase.Idle? && f.bus.lock.Free? && !e.terminal
    requires e.run == run && run !in f.bus.closed && Subs(f.bus, run) == {0}
    requires 0 in f.bus.chans && |f.bus.chans[0].buf| < f.bus.chans[0].cap
    ensures FanoutRuns(init, b, g) && g.phase.Idle? && g.bus.lock.Free? && Subs(g.bus, run) == {0}
    ensures g.bus.chans == f.bus.chans[0 := f.bus.chans[0].(buf := f.bus.chans[0].buf + [e])]
    ensures g.bus.closed == f.bus.closed && g.before == f.before && Written(g, run) == Written(f, run) + [e]
  {
    var begun: Fanout;
    b, begun := BeginAppend(init, a, f, e);
    b, g := EndAppend(init, b, begun, e);
    WrittenSnoc(f, g, e, true);
  }

  /** An append of which the store keeps the event and the publication fails. */
  lemma AppendToNone(init: Fanout, a: seq<Action>, f: Fanout, e: Event) returns (b: seq<Action>, g: Fanout)
    requires FanoutRuns(init, a, f) && f.phase.Idle?
    ensures FanoutRuns(init, b, g) && g.phase.Idle? && g.bus == f.bus && g.before == f.before
    ensures Written(g, e.run) == Written(f, e.run) + [e]
  {
    TwoSteps(init, a, f, Write(e), FailPublish);
    b, g := a + [Write(e)] + [FailPublish], Do(Do(f, Write(e)), FailPublish);
    WrittenSnoc(f, g, e, false);
  }

  predicate ContiguousIn(s: seq<Event>, log: seq<Event>) {
    exists k, n :: 0 <= k <= n <= |log| && s == log[k .. n]
  }

  lemma EndsAreNotContiguous(e1: Event, e2: Event, e3: Event)
    requires e1 != e2 && e2 != e3 && e1 != e3
    ensures !ContiguousIn([e1, e3], [e1, e2, e3])
  {
    var log := [e1, e2, e3];
    forall k, n | 0 <= k <= n <= 3 ensures [e1, e3] != log[k .. n] {
      if n == k + 2 { assert log[k .. n][0] == log[k] && log[k .. n][1] == log[k + 1]; }
    }
  }

  /** One reader of the run with room for four events, and what it was sent so far. */
  ghost predicate OneReader(f: Fanout, run: RunID, sent: seq<Event>) {
    && f.phase.Idle? && f.bus.lock.Free? && run !in f.bus.closed && Subs(f.bus, run) == {0}
    && 0 in f.bus.chans && f.bus.chans[0] == Channel(run, 4, sent, true, 0, [], 0, Listening)
  }

  lemma FirstReader(init: Fanout, run: RunID) returns (a: seq<Action>, f: Fanout)
    requires init == Initial(map[])
    ensures FanoutRuns(init, a, f) && OneReader(f, run, []) && Durable(f, run) == []
  {
    assert FanoutRuns(init, [], init);
    FanoutStep(init, [], init, OnBus(Subscribe(0, run, 4)));
    a, f := [] + [OnBus(Subscribe(0, run, 4))], Do(init, OnBus(Subscribe(0, run, 4)));
  }

  lemma ReaderGets(init: Fanout, a: seq<Action>, f: Fanout, run: RunID, sent: seq<Event>, e: Event)
    returns (b: seq<Action>, g: Fanout)
    requires FanoutRuns(init, a, f) && OneReader(f, run, sent) && |sent| < 4 && e.run == run && !e.terminal
    ensures FanoutRuns(init, b, g) && OneReader(g, run, sent + [e]) && Durable(g, run) == Durable(f, run) + [e]
  {
    b, g := AppendToOne(init, a, f, run, e);
    assert Before(f, run) + (Written(f, run) + [e]) == Before(f, run) + Written(f, run) + [e];
  }

  lemma ReaderMisses(init: Fanout, a: seq<Action>, f: Fanout, run: RunID, sent: seq<Event>, e: Event)
    returns (b: seq<Action>, g: Fanout)
    requires FanoutRuns(init, a, f) && OneReader(f, run, sent) && e.run == run
    ensures FanoutRuns(init, b, g) && OneReader(g, run, sent) && Durable(g, run) == Durable(f, run) + [e]
  {
    b, g := AppendToNone(init, a, f, e);
    assert Before(f, run) + (Written(f, run) + [e]) == Before(f, run) + Written(f, run) + [e];
  }

  lemma GetsMissesGets(run: RunID, e1: Event, e2: Event, e3: Event) returns (actions: seq<Action>, f: Fanout)
    requires e1.run == run && e2.run == run && e3.run == run && !e1.terminal && !e3.terminal
    ensures FanoutRuns(Initial(map[]), actions, f) && OneReader(f, run, [] + [e1] + [e3])
    ensures Durable(f, run) == [] + [e1] + [e2] + [e3]
  {
    var init := Initial(map[]);
    var a, g := FirstReader(init, run);
    a, g := ReaderGets(init, a, g, run, [], e1);
    a, g := ReaderMisses(init, a, g, run, [] + [e1], e2);
    actions, f := ReaderGets(init, a, g, run, [] + [e1], e3);
  }

  /** The condition is needed: an append whose publication fails after its write leaves a
      hole in what an open reader of that run has received. */
  lemma LostPublicationLeavesAHole(run: RunID) returns (actions: seq<Action>, f: Fanout)
    ensures FanoutRuns(Initial(map[]), actions, f) && f.phase.Idle?
    ensures 0 in f.bus.chans && f.bus.chans[0].open && f.bus.chans[0].run == run
    ensures !ContiguousIn(f.bus.chans[0].Sent(), Durable(f, run))
  {
    var e1, e2, e3 := Event(run, 1, false), Event(run, 2, false), Event(run, 3, false);
    actions, f := GetsMissesGets(run, e1, e2, e3);
    EndsAreNotContiguous(e1, e2, e3);
    assert [] + [e1] + [e3] == [e1, e3] && [] + [e1] + [e2] + [e3] == [e1, e2, e3];
    assert f.bus.chans[0].Sent() == [] + ([] + [e1] + [e3]) == [e1, e3];
  }

  /** What the environment does to one `Append`: each of the three calls may fail. */
  datatype Faults = Faults(latestFails: bool, writeFails: bool, contextDone: bool, persistable: bool)

  /** `FanoutStore`, over a durable store kept as one log for each run. */
  class Store {
    const bus: Bus
    var durable: map<RunID, seq<Event>>

    constructor (bus: Bus, durable: map<RunID, seq<Event>>)
      ensures this.bus == bus && this.durable == durable
    {
      this.bus, this.durable := bus, durable;
    }

    function Read(run: RunID): seq<Event>
      reads this
    {
      if run in durable then durable[run] else []
    }

    function LatestSeq(run: RunID): nat
      reads this
    {
      if Read(run) == [] then 0 else Read(run)[|Read(run)| - 1].number
    }

    /** A successful append is the write, then the publication, then, for a terminal event,
        the closing of the run; a failed write touches nothing; a publication that fails
        leaves the event in the store and the bus as it was. */
    method Append(e: Event, faults: Faults) returns (stored: Event, ok: bool)
      requires bus.Valid()
      modifies this, bus
      ensures bus.Valid()
      ensures stored == if e.number == 0 then e.(number := old(LatestSeq(e.run)) + 1) else e
      ensures (faults.latestFails && e.number == 0) || faults.writeFails ==>
                !ok && durable == old(durable) && bus.Abs() == old(bus.Abs())
      ensures !((faults.latestFails && e.number == 0) || faults.writeFails) ==>
                Read(e.run) == old(Read(e.run)) + [stored] && durable == old(durable)[e.run := Read(e.run)]
      ensures !((faults.latestFails && e.number == 0) || faults.writeFails)
              && (faults.contextDone || !faults.persistable) ==>
                !ok && bus.Abs() == old(bus.Abs())
      ensures ok <==>
                !((faults.latestFails && e.number == 0) || faults.writeFails
                  || faults.contextDone || !faults.persistable)
      ensures ok ==> Subs(old(bus.Abs()), e.run) <= old(bus.Abs()).chans.Keys
      ensures ok ==>
                var after := PublishAll(old(bus.Abs()), stored);
                && Subs(after, e.run) <= after.chans.Keys
                && bus.Abs() == if e.terminal && e.run != "" then CloseAll(after, e.run) else after
    {
      stored, ok := e, false;
      if e.number == 0 {
        stored := e.(number := LatestSeq(e.run) + 1);
        if faults.latestFails { return; }
      }
      if faults.writeFails { return; }
      durable := durable[e.run := Read(e.run) + [stored]];
      var err := bus.Publish(faults.contextDone, faults.persistable, stored);
      if !err.None? { return; }
      if stored.terminal { bus.CloseRun(stored.run); }
      ok := true;
    }
  }
}
