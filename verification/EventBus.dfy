/** The live event bus of `eventlog/bus.go`, as a state machine whose steps are the
    pieces of code that run without another goroutine in between: one locked section,
    or one iteration of a loop inside a locked section. A receiver takes no lock, so a
    `Receive` may fall between any two steps, also between two iterations. */
module EventBus {

  type RunID = string
  type ChanID = nat

  datatype Event = Event(run: RunID, number: nat, terminal: bool)

  /** Why a channel was closed. `Slow(queued)` remembers how many events were waiting. */
  datatype Fate = Listening | Slow(queued: nat) | Unsubscribed | RunClosed | BornClosed

  /** One Go channel and its history: `from` is the length of the run's publication log
      when the channel subscribed, `got` is what its reader has received. */
  datatype Channel = Channel(
    run: RunID, cap: nat, buf: seq<Event>, open: bool, closes: nat,
    got: seq<Event>, from: nat, fate: Fate)
  {
    /** Everything ever sent on the channel, in order. */
    function Sent(): seq<Event> { got + buf }
  }

  /** Who holds `Bus.mu` across several steps, and which channels its loop has left. */
  datatype Lock =
    | Free
    | Publishing(event: Event, todo: set<ChanID>)
    | Closing(run: RunID, todo: set<ChanID>)

  /** `log` is a history variable: the events each run has published, in order.
      `panicked` records a send on, or a close of, a closed channel. */
  datatype State = State(
    subs: map<RunID, set<ChanID>>, closed: set<RunID>, chans: map<ChanID, Channel>,
    log: map<RunID, seq<Event>>, lock: Lock, panicked: bool)

  datatype Step =
    | Subscribe(ch: ChanID, run: RunID, cap: nat)
    | Unsubscribe(ch: ChanID)
    | BeginPublish(event: Event)
    | Offer(ch: ChanID, handoff: bool)
    | EndPublish
    | BeginClose(run: RunID)
    | CloseOne(ch: ChanID)
    | EndClose
    | Receive(ch: ChanID)

  const INIT := State(map[], {}, map[], map[], Free, false)

  function Subs(s: State, run: RunID): set<ChanID> { if run in s.subs then s.subs[run] else {} }

  function Log(s: State, run: RunID): seq<Event> { if run in s.log then s.log[run] else [] }

  /** A step is enabled when the code can be at that point: `mu` must be free to enter a
      locked section, and a hand-off needs a reader blocked on an empty channel. */
  predicate Enabled(s: State, step: Step) {
    match step
    case Subscribe(ch, run, cap) => s.lock.Free? && ch !in s.chans
    case Unsubscribe(ch) => s.lock.Free? && ch in s.chans
    case BeginPublish(e) => s.lock.Free?
    case Offer(ch, handoff) =>
      s.lock.Publishing? && ch in s.lock.todo && ch in s.chans && (handoff ==> s.chans[ch].buf == [])
    case EndPublish => s.lock.Publishing? && s.lock.todo == {}
    case BeginClose(run) => s.lock.Free?
    case CloseOne(ch) => s.lock.Closing? && ch in s.lock.todo && ch in s.chans
    case EndClose => s.lock.Closing? && s.lock.todo == {}
    case Receive(ch) => ch in s.chans && s.chans[ch].buf != []
  }

  /** `close(ch)`: closing a closed channel panics. */
  function CloseChan(s: State, ch: ChanID, fate: Fate): State
    requires ch in s.chans
  {
    var c := s.chans[ch];
    s.(chans := s.chans[ch := c.(open := false, closes := c.closes + 1, fate := fate)],
       panicked := s.panicked || !c.open)
  }

  function Deregister(s: State, run: RunID, ch: ChanID): State {
    s.(subs := s.subs[run := Subs(s, run) - {ch}])
  }

  /** `select { case ch <- event: default: delete; close }`. */
  function SendOrDrop(s: State, ch: ChanID, e: Event, handoff: bool): State
    requires ch in s.chans
  {
    var c := s.chans[ch];
    if handoff then
      s.(chans := s.chans[ch := c.(got := c.got + [e])], panicked := s.panicked || !c.open)
    else if |c.buf| < c.cap then
      s.(chans := s.chans[ch := c.(buf := c.buf + [e])], panicked := s.panicked || !c.open)
    else
      CloseChan(Deregister(s, e.run, ch), ch, Slow(|c.buf|))
  }

  function Next(s: State, step: Step): State
    requires Enabled(s, step)
  {
    match step
    case Subscribe(ch, run, cap) =>
      var newborn := Channel(run, cap, [], true, 0, [], |Log(s, run)|, Listening);
      var added := s.(chans := s.chans[ch := newborn]);
      if run in s.closed then CloseChan(added, ch, BornClosed)
      else added.(subs := s.subs[run := Subs(s, run) + {ch}])
    case Unsubscribe(ch) =>
      var run := s.chans[ch].run;
      if ch !in Subs(s, run) then s else CloseChan(Deregister(s, run, ch), ch, Unsubscribed)
    case BeginPublish(e) =>
      if e.run in s.closed then s
      else s.(log := s.log[e.run := Log(s, e.run) + [e]], lock := Publishing(e, Subs(s, e.run)))
    case Offer(ch, handoff) =>
      var sent := SendOrDrop(s, ch, s.lock.event, handoff);
      sent.(lock := Publishing(s.lock.event, s.lock.todo - {ch}))
    case EndPublish => s.(lock := Free)
    case BeginClose(run) => s.(closed := s.closed + {run}, lock := Closing(run, Subs(s, run)))
    case CloseOne(ch) => CloseChan(s, ch, RunClosed).(lock := Closing(s.lock.run, s.lock.todo - {ch}))
    case EndClose => s.(subs := s.subs - {s.lock.run}, lock := Free)
    case Receive(ch) =>
      var c := s.chans[ch];
      s.(chans := s.chans[ch := c.(got := c.got + [c.buf[0]], buf := c.buf[1..])])
  }

  // ---- What every step keeps ------------------------------------------------------

  /** The events of the run's log that this channel must have been sent by now. */
  function Upto(s: State, ch: ChanID): nat
    requires ch in s.chans
  {
    var n := |Log(s, s.chans[ch].run)|;
    if s.lock.Publishing? && ch in s.lock.todo && n > 0 then n - 1 else n
  }

  /** What was sent is the log from the subscription point on, without a gap; while the
      channel is open nothing is missing, and a channel its run closed missed nothing. */
  ghost predicate Delivered(s: State, ch: ChanID)
    requires ch in s.chans
  {
    var c := s.chans[ch];
    && c.from + |c.Sent()| <= |Log(s, c.run)|
    && c.Sent() == Log(s, c.run)[c.from .. c.from + |c.Sent()|]
    && (c.open || c.fate.RunClosed? ==> c.from + |c.Sent()| == Upto(s, ch))
    && (c.fate.Slow? ==> c.fate.queued == c.cap && c.from + |c.Sent()| < |Log(s, c.run)|)
    && (c.fate.BornClosed? ==> c.Sent() == [])
  }

  /** A running `CloseRun` has closed this channel and not yet forgotten it. */
  predicate ClosedInLoop(s: State, ch: ChanID)
    requires ch in s.chans
  {
    s.lock.Closing? && s.lock.run == s.chans[ch].run && ch !in s.lock.todo
  }

  predicate Attached(s: State, ch: ChanID)
    requires ch in s.chans
  {
    ch in Subs(s, s.chans[ch].run) && !ClosedInLoop(s, ch)
  }

  /** Open exactly while registered, except for the channels a running `CloseRun` has
      closed and not yet forgotten; closed at most once. */
  ghost predicate Lively(s: State, ch: ChanID)
    requires ch in s.chans
  {
    var c := s.chans[ch];
    && |c.buf| <= c.cap
    && c.closes == (if c.open then 0 else 1)
    && (c.open <==> c.fate.Listening?)
    && (c.open <==> Attached(s, ch))
    && (c.fate.RunClosed? || c.fate.BornClosed? ==> c.run in s.closed)
  }

  ghost predicate LockOk(s: State) {
    match s.lock
    case Free => true
    case Publishing(e, todo) =>
      todo <= Subs(s, e.run) && e.run !in s.closed && Log(s, e.run) != [] && Log(s, e.run)[|Log(s, e.run)| - 1] == e
    case Closing(run, todo) => todo <= Subs(s, run) && run in s.closed
  }

  ghost predicate Registration(s: State) {
    && (forall run, ch :: ch in Subs(s, run) ==> ch in s.chans && s.chans[ch].run == run)
    && (forall run :: run in s.closed && Subs(s, run) != {} ==> s.lock.Closing? && s.lock.run == run)
  }

  ghost predicate Inv(s: State) {
    && !s.panicked
    && LockOk(s)
    && Registration(s)
    && (forall ch :: ch in s.chans ==> ChannelInv(s, ch))
  }

  /** What the invariant says of one channel. */
  ghost predicate ChannelInv(s: State, ch: ChanID) {
    ch in s.chans && Lively(s, ch) && Delivered(s, ch)
  }

  /** The channel a step is about. */
  predicate Subject(step: Step, ch: ChanID) {
    match step
    case Unsubscribe(c) => c == ch
    case Offer(c, _) => c == ch
    case CloseOne(c) => c == ch
    case _ => false
  }

  /** No step sends on or closes a closed channel, and the loops stay inside the
      registered channels. */
  lemma NextKeepsLock(s: State, step: Step)
    requires LockOk(s) && !s.panicked && Registration(s) && Enabled(s, step)
    requires forall ch :: Subject(step, ch) ==> Lively(s, ch)
    ensures !Next(s, step).panicked && LockOk(Next(s, step))
  {
    match step {
      case Unsubscribe(ch) => assert Subject(step, ch);
      case Offer(ch, _) => assert Subject(step, ch);
      case CloseOne(ch) => assert Subject(step, ch);
      case _ =>
    }
  }

  lemma StepRegisters(s: State, step: Step, run: RunID, ch: ChanID)
    requires LockOk(s) && Enabled(s, step) && ch in Subs(Next(s, step), run)
    requires ch in Subs(s, run) ==> ch in s.chans && s.chans[ch].run == run
    ensures ch in Next(s, step).chans && Next(s, step).chans[ch].run == run
  {
  }

  lemma NextKeepsRegistration(s: State, step: Step)
    requires LockOk(s) && Registration(s) && Enabled(s, step)
    ensures Registration(Next(s, step))
  {
    var t := Next(s, step);
    forall run, ch | ch in Subs(t, run) ensures ch in t.chans && t.chans[ch].run == run {
      StepRegisters(s, step, run, ch);
    }
    forall run | run in t.closed && Subs(t, run) != {} ensures t.lock.Closing? && t.lock.run == run {
      assert Subs(t, run) <= Subs(s, run);
    }
  }

  /** A channel that a step does not touch. */
  lemma Untouched(s: State, t: State, ch: ChanID)
    requires ChannelInv(s, ch) && ch in t.chans && t.chans[ch] == s.chans[ch]
    requires Log(t, s.chans[ch].run) == Log(s, s.chans[ch].run) && Upto(t, ch) == Upto(s, ch)
    requires (Attached(t, ch) <==> Attached(s, ch)) && s.closed <= t.closed
    ensures ChannelInv(t, ch)
  {
  }

  /** A channel of which its reader has received more. */
  predicate Alike(c: Channel, d: Channel) {
    d == c.(got := d.got, buf := d.buf) && d.Sent() == c.Sent() && |d.buf| <= |c.buf|
  }

  lemma FirstReceived(c: Channel)
    requires c.buf != []
    ensures Alike(c, c.(got := c.got + [c.buf[0]], buf := c.buf[1..]))
  {
    assert c.buf == [c.buf[0]] + c.buf[1..];
  }

  lemma ReceivedKeeps(s: State, ch: ChanID, d: Channel)
    requires ChannelInv(s, ch) && Alike(s.chans[ch], d)
    ensures ChannelInv(s.(chans := s.chans[ch := d]), ch)
  {
    var t := s.(chans := s.chans[ch := d]);
    assert Upto(t, ch) == Upto(s, ch) && Log(t, d.run) == Log(s, d.run) && (Attached(t, ch) <==> Attached(s, ch));
  }

  /** A receive moves one event from the buffer to the reader and sends nothing. */
  lemma ReceiveKeeps(s: State, r: ChanID, ch: ChanID)
    requires ChannelInv(s, ch) && Enabled(s, Receive(r))
    ensures ChannelInv(Next(s, Receive(r)), ch)
  {
    if ch == r {
      var c := s.chans[ch];
      FirstReceived(c);
      ReceivedKeeps(s, ch, c.(got := c.got + [c.buf[0]], buf := c.buf[1..]));
    } else {
      Untouched(s, Next(s, Receive(r)), ch);
    }
  }

  /** One more event on the log, sent at once to a channel that had everything. */
  lemma SendExtends(log: seq<Event>, from: nat, sent: seq<Event>, e: Event)
    requires from + |sent| == |log| - 1 && sent == log[from .. |log| - 1] && log[|log| - 1] == e
    ensures sent + [e] == log[from ..]
  {
  }

  /** An offer that finds a reader or room sends the published event. */
  lemma OfferSent(s: State, ch: ChanID, handoff: bool)
    requires LockOk(s) && ChannelInv(s, ch) && Enabled(s, Offer(ch, handoff))
    requires s.chans[ch].run == s.lock.event.run
    requires handoff || |s.chans[ch].buf| < s.chans[ch].cap
    ensures ChannelInv(Next(s, Offer(ch, handoff)), ch)
  {
    var t := Next(s, Offer(ch, handoff));
    var e, c, d := s.lock.event, s.chans[ch], t.chans[ch];
    SendExtends(Log(s, e.run), c.from, c.Sent(), e);
    assert d.Sent() == c.Sent() + [e];
    assert Subs(t, c.run) == Subs(s, c.run) && Log(t, c.run) == Log(s, c.run);
  }

  /** An offer that finds the buffer full forgets the channel and closes it. */
  lemma OfferDropped(s: State, ch: ChanID)
    requires LockOk(s) && ChannelInv(s, ch) && Enabled(s, Offer(ch, false))
    requires s.chans[ch].run == s.lock.event.run
    requires |s.chans[ch].buf| >= s.chans[ch].cap
    ensures ChannelInv(Next(s, Offer(ch, false)), ch)
  {
    var t := Next(s, Offer(ch, false));
    var c, d := s.chans[ch], t.chans[ch];
    assert d.Sent() == c.Sent() && Log(t, c.run) == Log(s, c.run);
  }

  lemma OfferKeeps(s: State, o: ChanID, handoff: bool, ch: ChanID)
    requires LockOk(s) && ChannelInv(s, ch) && Enabled(s, Offer(o, handoff))
    requires s.chans[o].run == s.lock.event.run
    ensures ChannelInv(Next(s, Offer(o, handoff)), ch)
  {
    if ch != o {
      Untouched(s, Next(s, Offer(o, handoff)), ch);
    } else if handoff || |s.chans[ch].buf| < s.chans[ch].cap {
      OfferSent(s, ch, handoff);
    } else {
      OfferDropped(s, ch);
    }
  }

  lemma BeginPublishKeeps(s: State, e: Event, ch: ChanID)
    requires Registration(s) && ChannelInv(s, ch) && s.lock.Free?
    ensures ChannelInv(Next(s, BeginPublish(e)), ch)
  {
    var t := Next(s, BeginPublish(e));
    if e.run != s.chans[ch].run { Untouched(s, t, ch); }
  }

  lemma NewbornOk(s: State, o: ChanID, run: RunID, cap: nat)
    requires Enabled(s, Subscribe(o, run, cap)) && o !in Subs(s, run)
    ensures ChannelInv(Next(s, Subscribe(o, run, cap)), o)
  {
    assert Next(s, Subscribe(o, run, cap)).chans[o].Sent() == [];
  }

  lemma SubscribeKeeps(s: State, o: ChanID, run: RunID, cap: nat, ch: ChanID)
    requires Registration(s) && Enabled(s, Subscribe(o, run, cap)) && (ch in s.chans ==> ChannelInv(s, ch))
    requires ch in s.chans || ch == o
    ensures ChannelInv(Next(s, Subscribe(o, run, cap)), ch)
  {
    if ch == o {
      NewbornOk(s, o, run, cap);
    } else {
      Untouched(s, Next(s, Subscribe(o, run, cap)), ch);
    }
  }

  lemma UnsubscribeKeeps(s: State, o: ChanID, ch: ChanID)
    requires ChannelInv(s, ch) && Enabled(s, Unsubscribe(o))
    ensures ChannelInv(Next(s, Unsubscribe(o)), ch)
  {
    if ch != o { Untouched(s, Next(s, Unsubscribe(o)), ch); }
  }

  lemma CloseOneKeeps(s: State, o: ChanID, ch: ChanID)
    requires LockOk(s) && ChannelInv(s, ch) && Enabled(s, CloseOne(o)) && s.chans[o].run == s.lock.run
    ensures ChannelInv(Next(s, CloseOne(o)), ch)
  {
    if ch != o { Untouched(s, Next(s, CloseOne(o)), ch); }
  }

  lemma BeginCloseKeeps(s: State, run: RunID, ch: ChanID)
    requires s.lock.Free? && ChannelInv(s, ch)
    ensures ChannelInv(s.(closed := s.closed + {run}, lock := Closing(run, Subs(s, run))), ch)
  {
    Untouched(s, s.(closed := s.closed + {run}, lock := Closing(run, Subs(s, run))), ch);
  }

  lemma EndCloseKeeps(s: State, ch: ChanID)
    requires s.lock.Closing? && ch !in s.lock.todo && ChannelInv(s, ch)
    ensures ChannelInv(s.(subs := s.subs - {s.lock.run}, lock := Free), ch)
  {
    Untouched(s, s.(subs := s.subs - {s.lock.run}, lock := Free), ch);
  }

  lemma EndPublishKeeps(s: State, ch: ChanID)
    requires s.lock.Publishing? && ch !in s.lock.todo && ChannelInv(s, ch)
    ensures ChannelInv(s.(lock := Free), ch)
  {
    Untouched(s, s.(lock := Free), ch);
  }

  /** Every step of every goroutine keeps the invariant. */
  lemma NextKeeps(s: State, step: Step)
    requires Inv(s) && Enabled(s, step)
    ensures Inv(Next(s, step))
  {
    var t := Next(s, step);
    assert forall ch :: Subject(step, ch) ==> ChannelInv(s, ch);
    NextKeepsLock(s, step);
    NextKeepsRegistration(s, step);
    forall ch | ch in t.chans ensures ChannelInv(t, ch) {
      match step
      case Receive(r) => ReceiveKeeps(s, r, ch);
      case Offer(o, handoff) => OfferKeeps(s, o, handoff, ch);
      case BeginPublish(e) => BeginPublishKeeps(s, e, ch);
      case Subscribe(o, run, cap) => SubscribeKeeps(s, o, run, cap, ch);
      case Unsubscribe(o) => UnsubscribeKeeps(s, o, ch);
      case CloseOne(o) => CloseOneKeeps(s, o, ch);
      case EndPublish => EndPublishKeeps(s, ch);
      case BeginClose(run) => BeginCloseKeeps(s, run, ch);
      case EndClose => EndCloseKeeps(s, ch);
    }
  }

  // ---- Over whole runs ------------------------------------------------------------

  /** `steps` is an interleaving that leads from `s` to `t`. */
  ghost predicate Runs(s: State, steps: seq<Step>, t: State)
    decreases steps
  {
    if steps == [] then s == t
    else Enabled(s, steps[0]) && Runs(Next(s, steps[0]), steps[1..], t)
  }

  lemma {:induction false} RunKeeps(s: State, steps: seq<Step>, t: State)
    requires Inv(s) && Runs(s, steps, t)
    ensures Inv(t)
    decreases steps
  {
    if steps != [] {
      NextKeeps(s, steps[0]);
      RunKeeps(Next(s, steps[0]), steps[1..], t);
    }
  }

  lemma {:induction false} RunsConcat(s: State, a: seq<Step>, t: State, b: seq<Step>, u: State)
    requires Runs(s, a, t) && Runs(t, b, u)
    ensures Runs(s, a + b, u)
    decreases a
  {
    if a == [] {
      assert a + b == b;
    } else {
      assert (a + b)[0] == a[0] && (a + b)[1..] == a[1..] + b;
      RunsConcat(Next(s, a[0]), a[1..], t, b, u);
    }
  }

  /** In every interleaving no goroutine panics; a channel is closed at most once and,
      whenever the bus is unlocked, is open exactly while it is registered; its reader
      gets a contiguous piece of what its run published, starting where it subscribed. */
  lemma EveryInterleavingIsSafe(steps: seq<Step>, t: State, ch: ChanID)
    requires Runs(INIT, steps, t) && ch in t.chans
    ensures !t.panicked
    ensures t.chans[ch].closes <= 1 && (t.chans[ch].closes == 0 <==> t.chans[ch].open)
    ensures t.lock.Free? ==> (t.chans[ch].open <==> ch in Subs(t, t.chans[ch].run))
    ensures var c, log := t.chans[ch], Log(t, t.chans[ch].run);
            && c.from + |c.Sent()| <= |log|
            && c.Sent() == log[c.from .. c.from + |c.Sent()|]
            && c.got <= c.Sent()
            && (t.lock.Free? && c.open ==> c.Sent() == log[c.from ..])
            && (t.lock.Free? && c.fate.RunClosed? ==> c.Sent() == log[c.from ..])
            && (c.fate.Slow? ==> c.fate.queued == c.cap && c.from + |c.Sent()| < |log|)
  {
    assert Inv(INIT);
    RunKeeps(INIT, steps, t);
    assert ChannelInv(t, ch);
  }

  // ---- What single steps do -----------------------------------------------------------

  /** Nothing changes for any channel but one. */
  ghost predicate OthersAlone(s: State, t: State, ch: ChanID) {
    && (forall x :: x != ch ==> (x in t.chans <==> x in s.chans) && (x in s.chans ==> t.chans[x] == s.chans[x]))
    && (forall run, x {:trigger x in Subs(t, run)} {:trigger x in Subs(s, run)} ::
          x != ch ==> (x in Subs(t, run) <==> x in Subs(s, run)))
  }

  /** What a cancelled subscription comes to: the channel is registered nowhere and closed,
      and what it was sent stays for its reader. */
  ghost predicate Withdrawn(s: State, t: State, ch: ChanID)
    requires ch in s.chans && ch in t.chans
  {
    var c, d := s.chans[ch], t.chans[ch];
    && (forall run :: ch !in Subs(t, run))
    && !d.open && d.closes == 1 && d.fate == Unsubscribed && d.got == c.got && d.buf == c.buf && d.run == c.run
  }

  lemma OneRegistration(s: State, ch: ChanID, run: RunID)
    requires Registration(s) && ch in s.chans && run != s.chans[ch].run
    ensures ch !in Subs(s, run)
  {
  }

  lemma SubsWithout(s: State, ch: ChanID, run: RunID)
    requires s.lock.Free? && ch in s.chans && ch in Subs(s, s.chans[ch].run)
    ensures Subs(Next(s, Unsubscribe(ch)), run) == if run == s.chans[ch].run then Subs(s, run) - {ch} else Subs(s, run)
  {
  }

  /** Cancelling a subscription ends it if it is registered and does nothing otherwise. */
  lemma UnsubscribeEnds(s: State, ch: ChanID)
    requires Inv(s) && s.lock.Free? && ch in s.chans
    ensures var t := Next(s, Unsubscribe(ch));
            && ch in t.chans && t.closed == s.closed && t.log == s.log
            && (ch in Subs(s, s.chans[ch].run) ==> Withdrawn(s, t, ch) && OthersAlone(s, t, ch))
            && (ch !in Subs(s, s.chans[ch].run) ==> t == s && !t.chans[ch].open)
  {
    assert ChannelInv(s, ch);
    var t := Next(s, Unsubscribe(ch));
    if ch in Subs(s, s.chans[ch].run) {
      forall run
        ensures Subs(t, run) == Subs(s, run) - {ch}
      {
        SubsWithout(s, ch, run);
        if run != s.chans[ch].run { OneRegistration(s, ch, run); }
      }
    }
  }

  /** A new subscription: registered and open, unless the run is closed. */
  ghost predicate Began(s: State, t: State, ch: ChanID, run: RunID, cap: nat) {
    && ch in t.chans && t.closed == s.closed && t.log == s.log && OthersAlone(s, t, ch)
    && t.chans[ch].run == run && t.chans[ch].cap == cap && t.chans[ch].got == [] && t.chans[ch].buf == []
    && (t.chans[ch].open <==> run !in s.closed)
    && (forall r :: ch in Subs(t, r) <==> r == run && run !in s.closed)
  }

  lemma SubsWith(s: State, ch: ChanID, run: RunID, cap: nat, r: RunID)
    requires s.lock.Free? && ch !in s.chans
    ensures Subs(Next(s, Subscribe(ch, run, cap)), r)
         == if r == run && run !in s.closed then Subs(s, r) + {ch} else Subs(s, r)
  {
  }

  /** Subscribing makes one channel. It is registered and open, unless the run is closed,
      and then it is closed at once. */
  lemma SubscribeBegins(s: State, ch: ChanID, run: RunID, cap: nat)
    requires Inv(s) && s.lock.Free? && ch !in s.chans
    ensures Began(s, Next(s, Subscribe(ch, run, cap)), ch, run, cap)
  {
    var t := Next(s, Subscribe(ch, run, cap));
    forall r
      ensures Subs(t, r) == (if r == run && run !in s.closed then Subs(s, r) + {ch} else Subs(s, r))
      ensures ch !in Subs(s, r)
    {
      SubsWith(s, ch, run, cap, r);
    }
  }

  /** A receive hands the reader the next event that it was sent and has not yet got. */
  lemma ReceiveDelivers(s: State, ch: ChanID)
    requires Inv(s) && Enabled(s, Receive(ch))
    ensures var t := Next(s, Receive(ch));
            && ch in t.chans && t.chans[ch].Sent() == s.chans[ch].Sent()
            && |t.chans[ch].got| == |s.chans[ch].got| + 1 && t.chans[ch].got <= s.chans[ch].Sent()
            && OthersAlone(s, t, ch) && t.subs == s.subs && t.closed == s.closed && t.log == s.log
  {
    var c := s.chans[ch];
    FirstReceived(c);
    assert c.got + [c.buf[0]] <= c.got + c.buf;
  }

  /** A closed channel stays closed; its reader can only get what it was sent before. */
  ghost predicate StaysClosed(s: State, t: State, ch: ChanID) {
    && ch in s.chans && ch in t.chans && !t.chans[ch].open && t.chans[ch].closes == s.chans[ch].closes
    && t.chans[ch].fate == s.chans[ch].fate && t.chans[ch].Sent() == s.chans[ch].Sent()
  }

  lemma ReceiveStays(s: State, r: ChanID, ch: ChanID)
    requires Enabled(s, Receive(r)) && ch in s.chans && !s.chans[ch].open
    ensures StaysClosed(s, Next(s, Receive(r)), ch)
  {
    if r == ch { FirstReceived(s.chans[ch]); }
  }

  lemma ClosedStaysOne(s: State, step: Step, ch: ChanID)
    requires Inv(s) && Enabled(s, step) && ch in s.chans && !s.chans[ch].open
    ensures StaysClosed(s, Next(s, step), ch)
  {
    assert ChannelInv(s, ch);
    if step.Receive? { ReceiveStays(s, step.ch, ch); }
  }

  lemma {:induction false} ClosedStays(s: State, steps: seq<Step>, t: State, ch: ChanID)
    requires Inv(s) && Runs(s, steps, t) && ch in s.chans && !s.chans[ch].open
    ensures StaysClosed(s, t, ch)
    decreases steps
  {
    if steps != [] {
      ClosedStaysOne(s, steps[0], ch);
      NextKeeps(s, steps[0]);
      ClosedStays(Next(s, steps[0]), steps[1..], t, ch);
    }
  }

  /** In every interleaving a cancelled channel is closed from the cancellation on, is never
      sent anything more, and is registered nowhere whenever the bus is unlocked. */
  lemma CancelledForGood(before: seq<Step>, u: State, ch: ChanID, after: seq<Step>, t: State)
    requires Runs(INIT, before, u) && Enabled(u, Unsubscribe(ch)) && Runs(Next(u, Unsubscribe(ch)), after, t)
    ensures ch in t.chans && !t.chans[ch].open && t.chans[ch].closes == 1 && t.chans[ch].Sent() == u.chans[ch].Sent()
    ensures t.lock.Free? ==> forall run :: ch !in Subs(t, run)
  {
    assert Inv(INIT);
    RunKeeps(INIT, before, u);
    UnsubscribeEnds(u, ch);
    NextKeeps(u, Unsubscribe(ch));
    assert ChannelInv(u, ch);
    ClosedStays(Next(u, Unsubscribe(ch)), after, t, ch);
    RunKeeps(Next(u, Unsubscribe(ch)), after, t);
    assert ChannelInv(t, ch);
  }

  // ---- The locked sections in one piece ---------------------------------------------

  /** A channel after one offer that no waiting reader takes. */
  function Offered(c: Channel, e: Event): Channel {
    if |c.buf| < c.cap then c.(buf := c.buf + [e])
    else c.(open := false, closes := c.closes + 1, fate := Slow(|c.buf|))
  }

  /** `Publish` after its loop has offered `e` to the channels in `done`. */
  function OfferedTo(s: State, e: Event, done: set<ChanID>): State
    requires done <= s.chans.Keys
  {
    s.(chans := map ch | ch in s.chans :: if ch in done then Offered(s.chans[ch], e) else s.chans[ch],
       subs := if done == {} then s.subs
               else s.subs[e.run := set ch | ch in Subs(s, e.run) &&
                                            (ch in done ==> |s.chans[ch].buf| < s.chans[ch].cap)])
  }

  /** `CloseRun` after its loop has closed the channels in `done`. */
  function ClosedAll(s: State, done: set<ChanID>): State
    requires done <= s.chans.Keys
  {
    s.(chans := map ch | ch in s.chans ::
                  if ch in done
                  then s.chans[ch].(open := false, closes := s.chans[ch].closes + 1, fate := RunClosed)
                  else s.chans[ch])
  }

  /** What a whole `Publish` does when no receive falls inside it. */
  function PublishAll(s: State, e: Event): State
    requires Subs(s, e.run) <= s.chans.Keys
  {
    if e.run in s.closed then s
    else OfferedTo(s.(log := s.log[e.run := Log(s, e.run) + [e]]), e, Subs(s, e.run))
  }

  /** What a whole `CloseRun` does. */
  function CloseAll(s: State, run: RunID): State
    requires Subs(s, run) <= s.chans.Keys
  {
    var t := ClosedAll(s, Subs(s, run));
    t.(closed := s.closed + {run}, subs := s.subs - {run})
  }

  lemma PrependStep(s: State, step: Step, steps: seq<Step>, t: State)
    requires Enabled(s, step) && Runs(Next(s, step), steps, t)
    ensures Runs(s, [step] + steps, t)
  {
    assert ([step] + steps)[1..] == steps;
  }

  lemma OfferNext(s: State, e: Event, done: set<ChanID>, todo: set<ChanID>, ch: ChanID)
    requires done + {ch} <= Subs(s, e.run) <= s.chans.Keys && ch in todo
    requires ch !in done && s.chans[ch].open && !s.panicked
    ensures var here := OfferedTo(s, e, done).(lock := Publishing(e, todo));
            && Enabled(here, Offer(ch, false))
            && Next(here, Offer(ch, false)) == OfferedTo(s, e, done + {ch}).(lock := Publishing(e, todo - {ch}))
  {
    OneOffer(s, e, done, ch);
  }

  lemma {:induction false} OffersRun(s: State, e: Event, todo: set<ChanID>, done: set<ChanID>)
    returns (steps: seq<Step>)
    requires todo !! done && todo + done == Subs(s, e.run) && Subs(s, e.run) <= s.chans.Keys
    requires forall ch :: ch in Subs(s, e.run) ==> s.chans[ch].open
    requires !s.panicked
    ensures Runs(OfferedTo(s, e, done).(lock := Publishing(e, todo)), steps,
            OfferedTo(s, e, Subs(s, e.run)).(lock := Publishing(e, {})))
    decreases todo
  {
    if todo == {} {
      assert done == Subs(s, e.run);
      steps := [];
    } else {
      var ch :| ch in todo;
      OfferNext(s, e, done, todo, ch);
      var rest := OffersRun(s, e, todo - {ch}, done + {ch});
      PrependStep(OfferedTo(s, e, done).(lock := Publishing(e, todo)), Offer(ch, false), rest,
                  OfferedTo(s, e, Subs(s, e.run)).(lock := Publishing(e, {})));
      steps := [Offer(ch, false)] + rest;
    }
  }

  /** One iteration of `Publish`'s loop. */
  lemma OneOffer(s: State, e: Event, done: set<ChanID>, ch: ChanID)
    requires done + {ch} <= Subs(s, e.run) <= s.chans.Keys
    requires ch !in done && s.chans[ch].open && !s.panicked
    ensures SendOrDrop(OfferedTo(s, e, done), ch, e, false) == OfferedTo(s, e, done + {ch})
  {
    var t, u := SendOrDrop(OfferedTo(s, e, done), ch, e, false), OfferedTo(s, e, done + {ch});
    assert t.chans == u.chans;
    assert Subs(t, e.run) == Subs(u, e.run);
    assert t.subs == u.subs;
  }

  /** One iteration of `CloseRun`'s loop. */
  lemma OneClose(s: State, done: set<ChanID>, ch: ChanID)
    requires done + {ch} <= s.chans.Keys
    requires ch !in done && s.chans[ch].open && !s.panicked
    ensures CloseChan(ClosedAll(s, done), ch, RunClosed) == ClosedAll(s, done + {ch})
  {
    assert CloseChan(ClosedAll(s, done), ch, RunClosed).chans == ClosedAll(s, done + {ch}).chans;
  }

  lemma {:induction false} ClosesRun(s: State, run: RunID, todo: set<ChanID>, done: set<ChanID>)
    returns (steps: seq<Step>)
    requires todo !! done && todo + done <= s.chans.Keys
    requires forall ch :: ch in todo ==> s.chans[ch].open
    requires !s.panicked
    ensures Runs(ClosedAll(s, done).(lock := Closing(run, todo)), steps,
            ClosedAll(s, todo + done).(lock := Closing(run, {})))
    decreases todo
  {
    if todo == {} {
      assert todo + done == done;
      steps := [];
    } else {
      var ch :| ch in todo;
      OneClose(s, done, ch);
      var rest := ClosesRun(s, run, todo - {ch}, done + {ch});
      assert todo - {ch} + (done + {ch}) == todo + done;
      PrependStep(ClosedAll(s, done).(lock := Closing(run, todo)), CloseOne(ch), rest,
                  ClosedAll(s, todo + done).(lock := Closing(run, {})));
      steps := [CloseOne(ch)] + rest;
    }
  }

  lemma AppendStep(s: State, steps: seq<Step>, t: State, step: Step)
    requires Runs(s, steps, t) && Enabled(t, step)
    ensures Runs(s, steps + [step], Next(t, step))
  {
    assert Runs(Next(t, step), [], Next(t, step));
    RunsConcat(s, steps, t, [step], Next(t, step));
  }

  lemma OpenSubs(s: State, run: RunID)
    requires Inv(s) && s.lock.Free?
    ensures Subs(s, run) <= s.chans.Keys && forall ch :: ch in Subs(s, run) ==> s.chans[ch].open
  {
    forall ch | ch in Subs(s, run)
      ensures ch in s.chans && s.chans[ch].open
    {
      assert ChannelInv(s, ch);
    }
  }

  lemma NothingDone(s: State, e: Event)
    ensures OfferedTo(s, e, {}) == s && ClosedAll(s, {}) == s
  {
    assert OfferedTo(s, e, {}).chans == s.chans && ClosedAll(s, {}).chans == s.chans;
  }

  /** The offers of a `Publish`, and the steps around them. */
  lemma PublishSteps(s: State, e: Event, offers: seq<Step>, t: State)
    requires s.lock.Free? && t.lock.Free? && e.run !in s.closed
    requires Runs(s.(log := s.log[e.run := Log(s, e.run) + [e]], lock := Publishing(e, Subs(s, e.run))), offers,
                  t.(lock := Publishing(e, {})))
    ensures Runs(s, [BeginPublish(e)] + offers + [EndPublish], t)
  {
    PrependStep(s, BeginPublish(e), offers, t.(lock := Publishing(e, {})));
    AppendStep(s, [BeginPublish(e)] + offers, t.(lock := Publishing(e, {})), EndPublish);
    assert Next(t.(lock := Publishing(e, {})), EndPublish) == t;
  }

  /** A whole `Publish` is a run of steps, whichever order its loop takes. */
  lemma PublishIsARun(s: State, e: Event) returns (steps: seq<Step>)
    requires Inv(s) && s.lock.Free?
    ensures Subs(s, e.run) <= s.chans.Keys && Runs(s, steps, PublishAll(s, e))
  {
    OpenSubs(s, e.run);
    if e.run in s.closed {
      steps := [];
    } else {
      var begun := s.(log := s.log[e.run := Log(s, e.run) + [e]]);
      NothingDone(begun, e);
      var offers := OffersRun(begun, e, Subs(s, e.run), {});
      PublishSteps(s, e, offers, PublishAll(s, e));
      steps := [BeginPublish(e)] + offers + [EndPublish];
    }
  }

  /** The same of a `CloseRun`. */
  lemma CloseSteps(s: State, run: RunID, closes: seq<Step>, t: State)
    requires s.lock.Free? && t.lock.Free?
    requires Runs(s.(closed := s.closed + {run}, lock := Closing(run, Subs(s, run))), closes,
             t.(lock := Closing(run, {})))
    ensures Runs(s, [BeginClose(run)] + closes + [EndClose], t.(subs := t.subs - {run}))
  {
    PrependStep(s, BeginClose(run), closes, t.(lock := Closing(run, {})));
    AppendStep(s, [BeginClose(run)] + closes, t.(lock := Closing(run, {})), EndClose);
    assert Next(t.(lock := Closing(run, {})), EndClose) == t.(subs := t.subs - {run});
  }

  /** A whole `CloseRun` is a run of steps. */
  lemma CloseIsARun(s: State, run: RunID) returns (steps: seq<Step>)
    requires Inv(s) && s.lock.Free?
    ensures Subs(s, run) <= s.chans.Keys && Runs(s, steps, CloseAll(s, run))
  {
    OpenSubs(s, run);
    var begun := s.(closed := s.closed + {run});
    NothingDone(begun, Event(run, 0, false));
    var closes := ClosesRun(begun, run, Subs(s, run), {});
    assert Subs(s, run) + {} == Subs(s, run);
    CloseSteps(s, run, closes, ClosedAll(begun, Subs(s, run)));
    steps := [BeginClose(run)] + closes + [EndClose];
  }

  /** What a publication does to a channel of its run: the event comes last of what it was
      sent, or it had no room and is closed as it is. */
  predicate Reached(c: Channel, d: Channel, e: Event) {
    if |c.buf| < c.cap then d == c.(buf := c.buf + [e])
    else d == c.(open := false, closes := c.closes + 1, fate := Slow(c.cap))
  }

  /** A whole publication of an open run, told channel by channel. */
  ghost predicate Reaches(s: State, t: State, e: Event)
    requires Subs(s, e.run) <= s.chans.Keys
  {
    && t.chans.Keys == s.chans.Keys && t.closed == s.closed && Log(t, e.run) == Log(s, e.run) + [e]
    && (forall ch :: ch in Subs(s, e.run) ==> Reached(s.chans[ch], t.chans[ch], e))
    && (forall ch :: ch in s.chans && ch !in Subs(s, e.run) ==> t.chans[ch] == s.chans[ch])
    && (forall ch :: ch in Subs(t, e.run) <==> ch in Subs(s, e.run) && |s.chans[ch].buf| < s.chans[ch].cap)
    && (forall run :: run != e.run ==> Subs(t, run) == Subs(s, run) && Log(t, run) == Log(s, run))
  }

  lemma PublishReachesOne(s: State, e: Event, ch: ChanID)
    requires Inv(s) && s.lock.Free? && Subs(s, e.run) <= s.chans.Keys && ch in s.chans && e.run !in s.closed
    ensures ch in Subs(s, e.run) ==> Reached(s.chans[ch], PublishAll(s, e).chans[ch], e)
    ensures ch !in Subs(s, e.run) ==> PublishAll(s, e).chans[ch] == s.chans[ch]
  {
    assert ChannelInv(s, ch);
  }

  lemma PublishRegisters(s: State, e: Event, run: RunID, ch: ChanID)
    requires Subs(s, e.run) <= s.chans.Keys && e.run !in s.closed
    ensures var t := PublishAll(s, e);
            && Log(t, run) == (if run == e.run then Log(s, run) + [e] else Log(s, run))
            && (ch in Subs(t, run) <==> ch in Subs(s, run) && (run == e.run ==> |s.chans[ch].buf| < s.chans[ch].cap))
  {
  }

  lemma PublishReaches(s: State, e: Event)
    requires Inv(s) && s.lock.Free? && Subs(s, e.run) <= s.chans.Keys
    ensures if e.run in s.closed then PublishAll(s, e) == s else Reaches(s, PublishAll(s, e), e)
  {
    if e.run !in s.closed {
      forall run, ch
        ensures var t := PublishAll(s, e);
                && Log(t, run) == (if run == e.run then Log(s, run) + [e] else Log(s, run))
                && (ch in Subs(t, run) <==>
                      ch in Subs(s, run) && (run == e.run ==> |s.chans[ch].buf| < s.chans[ch].cap))
      {
        PublishRegisters(s, e, run, ch);
      }
      PublishChannels(s, e);
    }
  }

  lemma PublishChannels(s: State, e: Event)
    requires Inv(s) && s.lock.Free? && Subs(s, e.run) <= s.chans.Keys && e.run !in s.closed
    ensures var t := PublishAll(s, e);
            && t.chans.Keys == s.chans.Keys
            && (forall ch :: ch in Subs(s, e.run) ==> Reached(s.chans[ch], t.chans[ch], e))
            && (forall ch :: ch in s.chans && ch !in Subs(s, e.run) ==> t.chans[ch] == s.chans[ch])
  {
    forall ch | ch in s.chans
      ensures ch in Subs(s, e.run) ==> Reached(s.chans[ch], PublishAll(s, e).chans[ch], e)
      ensures ch !in Subs(s, e.run) ==> PublishAll(s, e).chans[ch] == s.chans[ch]
    {
      PublishReachesOne(s, e, ch);
    }
  }

  predicate ClosedWith(c: Channel, d: Channel) {
    !d.open && d.closes == 1 && d.fate == RunClosed && d.got == c.got && d.buf == c.buf && d.run == c.run
  }

  /** A whole `CloseRun`, told channel by channel. */
  ghost predicate Closes(s: State, t: State, run: RunID)
    requires Subs(s, run) <= s.chans.Keys
  {
    && t.chans.Keys == s.chans.Keys && t.closed == s.closed + {run} && t.log == s.log
    && Subs(t, run) == {} && (forall r :: r != run ==> Subs(t, r) == Subs(s, r))
    && (forall ch :: ch in Subs(s, run) ==> ClosedWith(s.chans[ch], t.chans[ch]))
    && (forall ch :: ch in s.chans && ch !in Subs(s, run) ==> t.chans[ch] == s.chans[ch])
  }

  lemma CloseReachesOne(s: State, run: RunID, ch: ChanID)
    requires Inv(s) && s.lock.Free? && Subs(s, run) <= s.chans.Keys && ch in s.chans
    ensures ch in Subs(s, run) ==> ClosedWith(s.chans[ch], CloseAll(s, run).chans[ch])
    ensures ch !in Subs(s, run) ==> CloseAll(s, run).chans[ch] == s.chans[ch]
  {
    assert ChannelInv(s, ch);
  }

  lemma CloseReaches(s: State, run: RunID)
    requires Inv(s) && s.lock.Free? && Subs(s, run) <= s.chans.Keys
    ensures Closes(s, CloseAll(s, run), run)
  {
    forall ch | ch in s.chans
      ensures ch in Subs(s, run) ==> ClosedWith(s.chans[ch], CloseAll(s, run).chans[ch])
      ensures ch !in Subs(s, run) ==> CloseAll(s, run).chans[ch] == s.chans[ch]
    {
      CloseReachesOne(s, run, ch);
    }
  }

  // ---- The object -----------------------------------------------------------------

  /** The errors `Subscribe` and `Publish` return before they take the lock. */
  datatype BusError = None | ContextDone | MissingRunID | NegativeBuffer | InvalidEvent

  /** `Bus`. The Go channels are the entries of `chans`; `log` is history only. A failed
      precondition of `Close` would be a panic. */
  class Bus {
    var subscribers: map<RunID, set<ChanID>>
    var closedRuns: set<RunID>
    var chans: map<ChanID, Channel>
    var log: map<RunID, seq<Event>>

    function Abs(): State
      reads this
    {
      State(subscribers, closedRuns, chans, log, Free, false)
    }

    ghost predicate Valid()
      reads this
    {
      Inv(Abs())
    }

    constructor ()
      ensures Valid() && Abs() == INIT
    {
      subscribers, closedRuns, chans, log := map[], {}, map[], map[];
    }

    /** `close(ch)`. */
    method Close(ch: ChanID, fate: Fate)
      requires ch in chans && chans[ch].open
      modifies `chans
      ensures chans == old(chans)[ch :=
              old(chans)[ch].(open := false, closes := old(chans)[ch].closes + 1, fate := fate)]
    {
      chans := chans[ch := chans[ch].(open := false, closes := chans[ch].closes + 1, fate := fate)];
    }

    /** `ch` is the channel that `make` allocates. */
    method Subscribe(ch: ChanID, contextDone: bool, run: RunID, buffer: int) returns (err: BusError)
      requires Valid() && ch !in chans
      modifies this
      ensures Valid()
      ensures err.None? <==> !contextDone && run != "" && buffer >= 0
      ensures err.None? ==> Abs() == Next(old(Abs()), Step.Subscribe(ch, run, buffer))
      ensures err.None? ==> Began(old(Abs()), Abs(), ch, run, buffer)
      ensures !err.None? ==> Abs() == old(Abs())
    {
      if contextDone { return ContextDone; }
      if run == "" { return MissingRunID; }
      if buffer < 0 { return NegativeBuffer; }
      var was := Abs();
      SubscribeBegins(was, ch, run, buffer);
      NextKeeps(was, Step.Subscribe(ch, run, buffer));
      chans := chans[ch := Channel(run, buffer, [], true, 0, [], |Log(was, run)|, Listening)];
      if run in closedRuns {
        Close(ch, BornClosed);
        assert Abs() == Next(was, Step.Subscribe(ch, run, buffer));
        return None;
      }
      if run !in subscribers {
        subscribers := subscribers[run := {}];
      }
      subscribers := subscribers[run := subscribers[run] + {ch}];
      assert Abs() == Next(was, Step.Subscribe(ch, run, buffer));
      return None;
    }

    /** The registered channels of a run, as a range over the inner map sees them. */
    function Registered(run: RunID): set<ChanID>
      reads this
    {
      if run in subscribers then subscribers[run] else {}
    }

    /** A successful publication offers the event to every registered channel of its run
        and to no other, and drops exactly the channels with no room. */
    method Publish(contextDone: bool, persistable: bool, e: Event) returns (err: BusError)
      requires Valid()
      modifies this
      ensures Valid()
      ensures err.None? <==> !contextDone && persistable
      ensures err.None? ==> Registered(e.run) <= old(chans).Keys && Abs() == PublishAll(old(Abs()), e)
      ensures err.None? ==> Subs(old(Abs()), e.run) <= old(Abs()).chans.Keys
      ensures err.None? ==> if e.run in old(closedRuns) then Abs() == old(Abs()) else Reaches(old(Abs()), Abs(), e)
      ensures !err.None? ==> Abs() == old(Abs())
    {
      if contextDone { return ContextDone; }
      if !persistable { return InvalidEvent; }
      OpenSubs(Abs(), e.run);
      PublishReaches(Abs(), e);
      Distribute(e);
      return None;
    }

    /** The locked section of `Publish`. */
    method Distribute(e: Event)
      requires Valid()
      modifies this
      ensures Valid() && Subs(old(Abs()), e.run) <= old(Abs()).chans.Keys
      ensures Abs() == PublishAll(old(Abs()), e)
    {
      var was := Abs();
      ghost var steps := PublishIsARun(was, e);
      if e.run in closedRuns { return; }
      RunKeeps(was, steps, PublishAll(was, e));
      log := log[e.run := Log(was, e.run) + [e]];
      forall ch | ch in Registered(e.run) ensures chans[ch].open { assert ChannelInv(was, ch); }
      OfferToEach(e);
    }

    /** One iteration: `select { case ch <- event: default: delete; close }`. */
    method OfferOne(ch: ChanID, e: Event)
      requires ch in chans && chans[ch].open && ch in Registered(e.run)
      modifies `chans, `subscribers
      ensures Abs() == SendOrDrop(old(Abs()), ch, e, false)
    {
      if |chans[ch].buf| < chans[ch].cap {
        chans := chans[ch := chans[ch].(buf := chans[ch].buf + [e])];
      } else {
        subscribers := subscribers[e.run := subscribers[e.run] - {ch}];
        Close(ch, Slow(|chans[ch].buf|));
      }
    }

    /** The loop of `Publish`. */
    method OfferToEach(e: Event)
      requires Registered(e.run) <= chans.Keys
      requires forall ch :: ch in Registered(e.run) ==> chans[ch].open
      modifies `chans, `subscribers
      ensures Abs() == OfferedTo(old(Abs()), e, old(Registered(e.run)))
    {
      ghost var was := Abs();
      var todo := Registered(e.run);
      ghost var done: set<ChanID> := {};
      assert OfferedTo(was, e, {}) == was;
      while todo != {}
        invariant todo !! done && todo + done == Subs(was, e.run)
        invariant Abs() == OfferedTo(was, e, done)
        decreases todo
      {
        var ch :| ch in todo;
        OneOffer(was, e, done, ch);
        assert ch in Subs(Abs(), e.run);
        OfferOne(ch, e);
        todo, done := todo - {ch}, done + {ch};
      }
      assert done == Subs(was, e.run);
    }

    method CloseRun(run: RunID)
      requires Valid()
      modifies this
      ensures Valid()
      ensures run == "" ==> Abs() == old(Abs())
      ensures run != "" ==> Subs(old(Abs()), run) <= old(chans).Keys && Abs() == CloseAll(old(Abs()), run)
      ensures run != "" ==> Subs(old(Abs()), run) <= old(Abs()).chans.Keys && Closes(old(Abs()), Abs(), run)
    {
      if run == "" { return; }
      OpenSubs(Abs(), run);
      CloseReaches(Abs(), run);
      Shut(run);
    }

    /** Its locked section. */
    method Shut(run: RunID)
      requires Valid()
      modifies this
      ensures Valid() && Subs(old(Abs()), run) <= old(Abs()).chans.Keys && Abs() == CloseAll(old(Abs()), run)
    {
      var was := Abs();
      ghost var steps := CloseIsARun(was, run);
      RunKeeps(was, steps, CloseAll(was, run));
      closedRuns := closedRuns + {run};
      forall ch | ch in Registered(run) ensures chans[ch].open { assert ChannelInv(was, ch); }
      CloseEach(run);
      subscribers := subscribers - {run};
    }

    /** The loop of `CloseRun`. */
    method CloseEach(run: RunID)
      requires Registered(run) <= chans.Keys
      requires forall ch :: ch in Registered(run) ==> chans[ch].open
      modifies `chans
      ensures Abs() == ClosedAll(old(Abs()), Registered(run))
    {
      ghost var was := Abs();
      var todo := Registered(run);
      ghost var done: set<ChanID> := {};
      assert ClosedAll(was, {}) == was;
      while todo != {}
        invariant todo !! done && todo + done == Registered(run)
        invariant Abs() == ClosedAll(was, done)
        decreases todo
      {
        var ch :| ch in todo;
        OneClose(was, done, ch);
        Close(ch, RunClosed);
        todo, done := todo - {ch}, done + {ch};
      }
      assert done == Registered(run);
    }

    /** `unsubscribe`, which the cancel function and the context watcher both reach. */
    method Unsubscribe(run: RunID, ch: ChanID)
      requires Valid() && ch in chans && chans[ch].run == run
      modifies this
      ensures Valid() && closedRuns == old(closedRuns) && log == old(log) && ch in chans
      ensures ch in old(Registered(run)) ==> Withdrawn(old(Abs()), Abs(), ch) && OthersAlone(old(Abs()), Abs(), ch)
      ensures ch !in old(Registered(run)) ==> Abs() == old(Abs()) && !chans[ch].open
    {
      UnsubscribeEnds(Abs(), ch);
      if ch !in Registered(run) { return; }
      GoneEnds(Abs(), ch);
      Withdraw(run, ch);
    }

    /** Its locked section, for a channel that is registered. */
    method Withdraw(run: RunID, ch: ChanID)
      requires Valid() && ch in chans && chans[ch].run == run && ch in Registered(run)
      modifies this
      ensures Valid() && Abs() == Gone(Next(old(Abs()), Step.Unsubscribe(ch)), run)
    {
      var was := Abs();
      NextKeeps(was, Step.Unsubscribe(ch));
      assert ChannelInv(was, ch);
      subscribers := subscribers[run := subscribers[run] - {ch}];
      Close(ch, Unsubscribed);
      assert Abs() == Next(was, Step.Unsubscribe(ch));
      if subscribers[run] == {} {
        DropEmptyKeeps(Abs(), run);
        subscribers := subscribers - {run};
      }
    }
  }

  lemma SameEnd(s: State, t: State, u: State, ch: ChanID)
    requires ch in s.chans && ch in t.chans && Withdrawn(s, t, ch) && OthersAlone(s, t, ch)
    requires u == t.(subs := u.subs) && forall run :: Subs(u, run) == Subs(t, run)
    ensures Withdrawn(s, u, ch) && OthersAlone(s, u, ch)
  {
  }

  lemma GoneSubs(s: State, run: RunID, r: RunID)
    ensures Subs(Gone(s, run), r) == Subs(s, r)
  {
  }

  lemma GoneEnds(s: State, ch: ChanID)
    requires Inv(s) && s.lock.Free? && ch in s.chans && ch in Subs(s, s.chans[ch].run)
    ensures var t := Gone(Next(s, Unsubscribe(ch)), s.chans[ch].run);
            && t.closed == s.closed && t.log == s.log && ch in t.chans
            && Withdrawn(s, t, ch) && OthersAlone(s, t, ch)
  {
    var u, run := Next(s, Unsubscribe(ch)), s.chans[ch].run;
    UnsubscribeEnds(s, ch);
    forall r
      ensures Subs(Gone(u, run), r) == Subs(u, r)
    {
      GoneSubs(u, run, r);
    }
    SameEnd(s, u, Gone(u, run), ch);
  }

  /** The state with an empty inner subscriber map forgotten; no reader can tell. */
  function Gone(s: State, run: RunID): State {
    if Subs(s, run) == {} then s.(subs := s.subs - {run}) else s
  }

  lemma DropEmptyKeeps(s: State, run: RunID)
    requires Inv(s) && s.lock.Free? && Subs(s, run) == {}
    ensures Inv(Gone(s, run)) && forall r :: Subs(Gone(s, run), r) == Subs(s, r)
  {
    var t := Gone(s, run);
    assert forall r :: Subs(t, r) == Subs(s, r);
    forall ch | ch in t.chans ensures ChannelInv(t, ch) {
      DropEmptyChannel(s, run, ch);
    }
  }

  lemma DropEmptyChannel(s: State, run: RunID, ch: ChanID)
    requires Inv(s) && s.lock.Free? && Subs(s, run) == {} && ch in s.chans
    ensures ChannelInv(Gone(s, run), ch)
  {
    assert ChannelInv(s, ch);
    Untouched(s, Gone(s, run), ch);
  }
}
