/** Rewinding a run: the event log and the checkpoints of one run, `RevertRun` of
    `agent_time_travel.go`, the checkpoint contract of `checkpoint/interface.go` and the
    saves of a running process (`agent.go:1183-1214`). */
module TimeTravel {
  import opened Options

  /** What a run knows of approvals: the request it waits for, decisions and grants. */
  datatype Approvals = Approvals(waiting: Option<string>, decisions: seq<string>, grants: seq<string>)

  const NO_APPROVALS := Approvals(None, [], [])

  /** A state: whose it is, what it holds, its approvals, when it was last touched, and what
      reverts and a fork have noted. */
  datatype RunState = RunState(
    runID: string, parentRunID: string, content: int, phase: string, approvals: Approvals, updatedAt: int,
    revertedFrom: Option<nat>, markerSeq: Option<nat>, forkedFrom: Option<(string, nat)>)

  datatype Checkpoint = Checkpoint(seqNo: nat, state: RunState)

  /** Events are numbered from 1 in the order they were appended. */
  datatype Event =
    | Started
    | ForkStarted(parent: string, parentSeq: nat)
    | Resumed
    | Created
    | Reverted(toSeq: int, checkpointSeq: nat)
    | Other(tag: int)

  // ---- Checkpoints ------------------------------------------------------------------

  /** What a store holds: sequence numbers that increase and are never zero. */
  ghost predicate Increasing(saves: seq<Checkpoint>) {
    && (forall i :: 0 <= i < |saves| ==> saves[i].seqNo >= 1)
    && forall i, j :: 0 <= i < j < |saves| ==> saves[i].seqNo < saves[j].seqNo
  }

  function Newest(saves: seq<Checkpoint>): nat { if saves == [] then 0 else saves[|saves| - 1].seqNo }

  /** The newest checkpoint at or below `at`. */
  function Below(saves: seq<Checkpoint>, at: nat): Option<Checkpoint> {
    if saves == [] then None
    else if saves[|saves| - 1].seqNo <= at then Some(saves[|saves| - 1])
    else Below(saves[..|saves| - 1], at)
  }

  /** `LoadAt`: zero and less mean the latest. */
  function LoadAt(saves: seq<Checkpoint>, at: int): Option<Checkpoint> {
    Below(saves, if at <= 0 then Newest(saves) else at)
  }

  lemma {:induction false} BelowIsNewest(saves: seq<Checkpoint>, at: nat)
    requires Increasing(saves)
    ensures var c := Below(saves, at);
            if c.None? then forall i :: 0 <= i < |saves| ==> saves[i].seqNo > at
            else && c.value in saves && c.value.seqNo <= at
                 && forall i :: 0 <= i < |saves| && saves[i].seqNo <= at ==> saves[i].seqNo <= c.value.seqNo
  {
    if saves != [] && saves[|saves| - 1].seqNo > at { BelowIsNewest(saves[..|saves| - 1], at); }
  }

  lemma LatestIsNewest(saves: seq<Checkpoint>, at: int)
    requires Increasing(saves) && (at <= 0 || Newest(saves) <= at)
    ensures LoadAt(saves, at) == if saves == [] then None else Some(saves[|saves| - 1])
  {
  }

  lemma {:induction false} BelowPrefix(saves: seq<Checkpoint>, more: seq<Checkpoint>, at: nat)
    requires forall i :: 0 <= i < |more| ==> more[i].seqNo > at
    ensures Below(saves + more, at) == Below(saves, at)
  {
    if more == [] {
      assert saves + more == saves;
    } else {
      var all := saves + more;
      assert all[..|all| - 1] == saves + more[..|more| - 1];
      BelowPrefix(saves, more[..|more| - 1], at);
    }
  }

  /** A save is refused unless its number is new. */
  predicate Accepts(saves: seq<Checkpoint>, seqNo: nat) { seqNo >= 1 && seqNo > Newest(saves) }

  // ---- A run and its processes ------------------------------------------------------

  /** The process that runs it: none, one that has said nothing yet, one that may save, one
      whose save still has to be told (early, if it saved before it said anything), one
      that is ending after such a save, or a revert that has left its marker. */
  datatype Process =
    | Down
    | Silent(counter: nat)
    | Ready(counter: nat)
    | Saved(counter: nat, early: bool)
    | Ending
    | Reverting(target: Checkpoint, marker: nat)

  datatype World = World(events: seq<Event>, saves: seq<Checkpoint>, at: Process)

  datatype Step =
    | Open
    | Announce(event: Event)
    | CancelEarly(state: RunState)
    | Emit(event: Event)
    | Save(state: RunState)
    | Tell
    | Crash
    | Mark(toSeq: int)
    | Rewind(now: int)

  function RevertedState(s: RunState, target: nat, marker: nat, now: int): RunState {
    s.(updatedAt := now, revertedFrom := Some(target), markerSeq := Some(marker))
  }

  function Next(w: World, step: Step): World {
    match (step, w.at)
    case (Open, Down) => w.(at := Silent(Newest(w.saves)))
    case (Announce(e), Silent(c)) => w.(events := w.events + [e], at := Ready(c))
    case (CancelEarly(s), Silent(c)) => w.(saves := w.saves + [Checkpoint(c + 1, s)], at := Saved(c + 1, true))
    case (Emit(e), Ready(c)) => w.(events := w.events + [e])
    case (Emit(e), Ending) => w.(events := w.events + [e])
    case (Save(s), Ready(c)) => w.(saves := w.saves + [Checkpoint(c + 1, s)], at := Saved(c + 1, false))
    case (Tell, Saved(c, early)) => w.(events := w.events + [Created], at := if early then Ending else Ready(c))
    case (Crash, _) => w.(at := Down)
    case (Mark(toSeq), Down) =>
      (match LoadAt(w.saves, toSeq)
       case None => w
       case Some(cp) => World(w.events + [Reverted(toSeq, cp.seqNo)], w.saves, Reverting(cp, |w.events| + 1)))
    case (Rewind(now), Reverting(cp, marker)) =>
      if Accepts(w.saves, marker)
      then World(w.events, w.saves + [Checkpoint(marker, RevertedState(cp.state, cp.seqNo, marker, now))], Down)
      else w.(at := Down)
    case _ => w
  }

  function After(w: World, steps: seq<Step>): World {
    if steps == [] then w else Next(After(w, steps[..|steps| - 1]), steps[|steps| - 1])
  }

  /** A process that saved before it had said anything is lost before it tells. */
  predicate IsLoss(w: World, step: Step) { step.Crash? && w.at.Saved? && w.at.early }

  function Losses(w: World, steps: seq<Step>): nat {
    if steps == [] then 0
    else
      var front := steps[..|steps| - 1];
      Losses(w, front) + if IsLoss(After(w, front), steps[|steps| - 1]) then 1 else 0
  }

  /** The newest checkpoint against the newest event, where `lost` processes were lost. */
  ghost predicate Inv(w: World, lost: nat) {
    && Increasing(w.saves)
    && match w.at
       case Down => Newest(w.saves) <= |w.events| + lost
       case Silent(c) => c == Newest(w.saves) <= |w.events| + lost
       case Ready(c) => c == Newest(w.saves) < |w.events| + lost
       case Saved(c, early) => c == Newest(w.saves) <= |w.events| + lost + if early then 1 else 0
       case Ending => Newest(w.saves) <= |w.events| + lost
       case Reverting(cp, marker) => marker == |w.events| && cp in w.saves && Newest(w.saves) < marker + lost
  }

  lemma SavingKeeps(saves: seq<Checkpoint>, c: Checkpoint)
    requires Increasing(saves) && Accepts(saves, c.seqNo)
    ensures Increasing(saves + [c]) && Newest(saves + [c]) == c.seqNo
  {
    assert saves != [] ==> forall i :: 0 <= i < |saves| ==> saves[i].seqNo <= saves[|saves| - 1].seqNo;
  }

  lemma StepKeeps(w: World, lost: nat, step: Step)
    requires Inv(w, lost)
    ensures Inv(Next(w, step), lost + if IsLoss(w, step) then 1 else 0)
  {
    match (step, w.at) {
      case (CancelEarly(s), Silent(c)) => SavingKeeps(w.saves, Checkpoint(c + 1, s));
      case (Save(s), Ready(c)) => SavingKeeps(w.saves, Checkpoint(c + 1, s));
      case (Mark(toSeq), Down) =>
        BelowIsNewest(w.saves, if toSeq <= 0 then Newest(w.saves) else toSeq);
      case (Rewind(now), Reverting(cp, marker)) =>
        if Accepts(w.saves, marker) {
          SavingKeeps(w.saves, Checkpoint(marker, RevertedState(cp.state, cp.seqNo, marker, now)));
        }
      case _ =>
    }
  }

  lemma {:induction false} AfterKeeps(w: World, steps: seq<Step>)
    requires Inv(w, 0)
    ensures Inv(After(w, steps), Losses(w, steps))
  {
    if steps != [] {
      var front := steps[..|steps| - 1];
      AfterKeeps(w, front);
      StepKeeps(After(w, front), Losses(w, front), steps[|steps| - 1]);
    }
  }

  const NEW_RUN := World([], [], Down)

  /** Over every history of processes, saves, crashes and reverts, the newest checkpoint is
      ahead of the newest event by no more than the processes lost early. Without such a
      loss no revert is refused as stale. */
  lemma CheckpointsStayBehind(steps: seq<Step>)
    ensures var w := After(NEW_RUN, steps);
            && Increasing(w.saves)
            && Newest(w.saves) <= |w.events| + Losses(NEW_RUN, steps) + (if w.at.Saved? && w.at.early then 1 else 0)
            && (w.at.Reverting? && Losses(NEW_RUN, steps) == 0 ==> Accepts(w.saves, w.at.marker))
  {
    AfterKeeps(NEW_RUN, steps);
  }

  /** A run whose second process was cancelled before it said anything, and lost before it
      told of its save. */
  function LossyRun(s: RunState): seq<Step> {
    [Open, Announce(Started), Save(s), Crash] + [Open, CancelEarly(s), Crash]
  }

  lemma FirstProcess(s: RunState)
    ensures var steps := [Open, Announce(Started), Save(s), Crash];
            After(NEW_RUN, steps) == World([Started], [Checkpoint(1, s)], Down) && Losses(NEW_RUN, steps) == 0
  {
    var steps := [Open, Announce(Started), Save(s), Crash];
    AfterOne(NEW_RUN, [], Open);
    AfterOne(NEW_RUN, steps[..1], Announce(Started));
    AfterOne(NEW_RUN, steps[..2], Save(s));
    AfterOne(NEW_RUN, steps[..3], Crash);
    assert [] + [Open] == steps[..1] && steps[..1] + [Announce(Started)] == steps[..2];
    assert steps[..2] + [Save(s)] == steps[..3] && steps[..3] + [Crash] == steps;
  }

  lemma SecondProcess(s: RunState)
    ensures After(NEW_RUN, LossyRun(s)) == World([Started], [Checkpoint(1, s), Checkpoint(2, s)], Down)
    ensures Losses(NEW_RUN, LossyRun(s)) == 1
  {
    var first, steps := [Open, Announce(Started), Save(s), Crash], LossyRun(s);
    FirstProcess(s);
    AfterOne(NEW_RUN, first, Open);
    AfterOne(NEW_RUN, steps[..5], CancelEarly(s));
    AfterOne(NEW_RUN, steps[..6], Crash);
    assert first + [Open] == steps[..5] && steps[..5] + [CancelEarly(s)] == steps[..6] && steps[..6] + [Crash] == steps;
  }

  /** Such a loss makes the next revert stale: its marker is there, the state is not. */
  lemma LossMakesRevertStale(s: RunState, now: int)
    ensures var w := After(NEW_RUN, LossyRun(s));
            && Losses(NEW_RUN, LossyRun(s)) == 1 && LoadAt(w.saves, 1) == Some(Checkpoint(1, s))
            && Revert(w, 1, now) == World([Started, Reverted(1, 1)], w.saves, Down)
  {
    SecondProcess(s);
    var w := After(NEW_RUN, LossyRun(s));
    assert w.saves[..|w.saves| - 1] == [Checkpoint(1, s)];
    assert Below([Checkpoint(1, s)], 1) == Some(Checkpoint(1, s));
    assert LoadAt(w.saves, 1) == Some(Checkpoint(1, s));
    var m := Next(w, Mark(1));
    assert m == World(w.events + [Reverted(1, 1)], w.saves, Reverting(Checkpoint(1, s), 2));
    assert w.events + [Reverted(1, 1)] == [Started, Reverted(1, 1)];
  }

  lemma AfterOne(w: World, steps: seq<Step>, step: Step)
    ensures After(w, steps + [step]) == Next(After(w, steps), step)
    ensures Losses(w, steps + [step]) == Losses(w, steps) + if IsLoss(After(w, steps), step) then 1 else 0
  {
    assert (steps + [step])[..|steps|] == steps;
  }

  // ---- What a revert does -----------------------------------------------------------

  /** A revert that succeeds from a state at rest. */
  function Revert(w: World, toSeq: int, now: int): World { Next(Next(w, Mark(toSeq)), Rewind(now)) }

  predicate CanRevert(w: World, toSeq: int) {
    w.at.Down? && LoadAt(w.saves, toSeq).Some? && Newest(w.saves) <= |w.events|
  }

  /** The same state but for its time and what reverts note. */
  predicate SameState(a: RunState, b: RunState) {
    a == b.(updatedAt := a.updatedAt, revertedFrom := a.revertedFrom, markerSeq := a.markerSeq)
  }

  /** A revert appends one event and one checkpoint. Its state is the newest from then on;
      every look into the past below its marker finds what it found before. */
  lemma RevertAppends(w: World, toSeq: int, now: int)
    requires CanRevert(w, toSeq)
    ensures var v, marker, target := Revert(w, toSeq, now), |w.events| + 1, LoadAt(w.saves, toSeq).value;
            && v.at.Down?
            && v.events == w.events + [Reverted(toSeq, target.seqNo)]
            && v.saves == w.saves + [Checkpoint(marker, target.state.(
                 updatedAt := now, revertedFrom := Some(target.seqNo), markerSeq := Some(marker)))]
            && LoadAt(v.saves, 0) == Some(v.saves[|v.saves| - 1])
               && SameState(v.saves[|v.saves| - 1].state, target.state)
            && (forall at :: 0 < at < marker ==> LoadAt(v.saves, at) == LoadAt(w.saves, at))
  {
    var v, marker := Revert(w, toSeq, now), |w.events| + 1;
    var added := v.saves[|w.saves|..];
    assert v.saves == w.saves + added;
    forall at | 0 < at < marker
      ensures LoadAt(v.saves, at) == LoadAt(w.saves, at)
    {
      BelowPrefix(w.saves, added, at);
    }
  }

  /** A revert is refused exactly when the newest checkpoint is already as new as the
      marker would be. The marker is left behind all the same. */
  lemma RevertIsRefused(w: World, toSeq: int, now: int)
    requires w.at.Down? && LoadAt(w.saves, toSeq).Some?
    ensures Revert(w, toSeq, now).saves == w.saves <==> Newest(w.saves) > |w.events|
    ensures Revert(w, toSeq, now).events == w.events + [Reverted(toSeq, LoadAt(w.saves, toSeq).value.seqNo)]
  {
    var v := Revert(w, toSeq, now);
    if Newest(w.saves) <= |w.events| { assert |v.saves| == |w.saves| + 1; }
  }

  /** Reverting to just below a revert's marker undoes it. */
  lemma RevertIsUndone(w: World, toSeq: int, now: int, later: int)
    requires CanRevert(w, toSeq) && Increasing(w.saves)
    ensures var v := Revert(w, toSeq, now);
            var u := Revert(v, |w.events|, later);
            && CanRevert(v, |w.events|)
            && SameState(u.saves[|u.saves| - 1].state, w.saves[|w.saves| - 1].state)
  {
    RevertAppends(w, toSeq, now);
    var v := Revert(w, toSeq, now);
    BelowIsNewest(w.saves, if toSeq <= 0 then Newest(w.saves) else toSeq);
    LatestIsNewest(w.saves, |w.events|);
    assert LoadAt(v.saves, |w.events|) == Some(w.saves[|w.saves| - 1]);
    RevertAppends(v, |w.events|, later);
  }

  // ---- What a fork does -------------------------------------------------------------

  const CREATED_PHASE := "created"

  /** The state a fork begins with: the parent's, under the child's id, back at work and
      without its approvals. */
  function ForkedState(s: RunState, parent: string, parentSeq: nat, child: string, now: int): RunState {
    s.(runID := child, parentRunID := parent, phase := CREATED_PHASE, approvals := NO_APPROVALS,
       updatedAt := now, forkedFrom := Some((parent, parentSeq)))
  }

  /** A fork begins a run of its own: its first event is its start, and its first
      checkpoint is as new as that. */
  function Forked(parent: string, saves: seq<Checkpoint>, atSeq: int, child: string, now: int): Option<World> {
    match LoadAt(saves, atSeq)
    case None => None
    case Some(cp) =>
      Some(World([ForkStarted(parent, cp.seqNo)],
          [Checkpoint(1, ForkedState(cp.state, parent, cp.seqNo, child, now))], Down))
  }

  /** Two states that hold the same for a fork of them. */
  predicate ForkAlike(a: RunState, b: RunState) {
    a == b.(updatedAt := a.updatedAt, revertedFrom := a.revertedFrom, markerSeq := a.markerSeq,
        forkedFrom := a.forkedFrom)
  }

  /** A fork of a run that was reverted begins like a fork at the place it was reverted to,
      and forks from below the marker are what they were before. */
  lemma ForkOfReverted(w: World, toSeq: int, now: int, parent: string, child: string, later: int)
    requires CanRevert(w, toSeq)
    ensures var v := Revert(w, toSeq, now);
            var there, here := Forked(parent, w.saves, toSeq, child, later), Forked(parent, v.saves, 0, child, later);
            && there.Some? && here.Some? && ForkAlike(here.value.saves[0].state, there.value.saves[0].state)
            && here.value.saves[0].state.forkedFrom == Some((parent, |w.events| + 1))
            && (forall at :: 0 < at <= |w.events| ==>
                  Forked(parent, v.saves, at, child, later) == Forked(parent, w.saves, at, child, later))
  {
    RevertAppends(w, toSeq, now);
  }

  lemma {:induction false} SavesGrow(w: World, steps: seq<Step>)
    ensures w.saves <= After(w, steps).saves
  {
    if steps != [] { SavesGrow(w, steps[..|steps| - 1]); }
  }

  lemma {:induction false} FirstIsBelowOne(saves: seq<Checkpoint>)
    requires Increasing(saves) && saves != [] && saves[0].seqNo == 1
    ensures Below(saves, 1) == Some(saves[0])
  {
    if |saves| > 1 {
      assert saves[0].seqNo < saves[|saves| - 1].seqNo;
      FirstIsBelowOne(saves[..|saves| - 1]);
    }
  }

  /** Over every history of a fork, what it began with can be loaded, its parent and the
      place it was taken at are on record, and without an early loss no revert is stale: a
      revert to its beginning brings the parent's state back. */
  lemma ForkBegins(parent: string, saves: seq<Checkpoint>, atSeq: int, child: string, now: int, steps: seq<Step>,
      later: int)
    requires Forked(parent, saves, atSeq, child, now).Some?
    ensures var w, cp := After(Forked(parent, saves, atSeq, child, now).value, steps), LoadAt(saves, atSeq).value;
            && LoadAt(w.saves, 1) == Some(Checkpoint(1, ForkedState(cp.state, parent, cp.seqNo, child, now)))
            && ForkedState(cp.state, parent, cp.seqNo, child, now) == cp.state.(
                 runID := child, parentRunID := parent, phase := "created", approvals := Approvals(None, [], []),
                 updatedAt := now, forkedFrom := Some((parent, cp.seqNo)))
            && |w.events| >= 1 && w.events[0] == ForkStarted(parent, cp.seqNo)
            && (Losses(Forked(parent, saves, atSeq, child, now).value, steps) == 0 ==>
                  && (w.at.Reverting? ==> Accepts(w.saves, w.at.marker))
                  && (w.at.Down? ==>
                        var back := Revert(w, 1, later);
                        && |back.saves| == |w.saves| + 1
                        && SameState(back.saves[|w.saves|].state, ForkedState(cp.state, parent, cp.seqNo, child, now))))
  {
    var f := Forked(parent, saves, atSeq, child, now).value;
    var w := After(f, steps);
    AfterKeeps(f, steps);
    SavesGrow(f, steps);
    EventsGrow(f, steps);
    assert w.saves[0] == f.saves[0];
    FirstIsBelowOne(w.saves);
    if Losses(f, steps) == 0 && w.at.Down? { RevertAppends(w, 1, later); }
  }

  lemma {:induction false} EventsGrow(w: World, steps: seq<Step>)
    ensures w.events <= After(w, steps).events
  {
    if steps != [] { EventsGrow(w, steps[..|steps| - 1]); }
  }

  // ---- The stores -------------------------------------------------------------------

  /** The checkpoint store of one run, as it keeps its history. */
  class CheckpointStore {
    var history: seq<Checkpoint>

    constructor ()
      ensures history == []
    {
      history := [];
    }

    /** `Save`: a number that is not new is stale. */
    method Put(c: Checkpoint) returns (ok: bool)
      requires Increasing(history)
      modifies this
      ensures Increasing(history) && ok == Accepts(old(history), c.seqNo)
      ensures history == if ok then old(history) + [c] else old(history)
    {
      if c.seqNo < 1 { return false; }
      if |history| > 0 && c.seqNo <= history[|history| - 1].seqNo { return false; }
      SavingKeeps(history, c);
      history := history + [c];
      ok := true;
    }

    method Find(at: int) returns (c: Option<Checkpoint>)
      ensures c == LoadAt(history, at)
    {
      if |history| == 0 { return None; }
      var limit := at;
      if limit <= 0 { limit := history[|history| - 1].seqNo; }
      var index := |history| - 1;
      assert history[..|history|] == history;
      while index >= 0
        invariant -1 <= index < |history|
        invariant LoadAt(history, at) == Below(history[..index + 1], limit)
      {
        if history[index].seqNo <= limit { return Some(history[index]); }
        assert history[..index + 1][..index] == history[..index];
        index := index - 1;
      }
      c := None;
    }
  }

  /** `RevertRun` over the two stores of a run: the marker first, which may fail, then the
      state. */
  method RevertRun(events: seq<Event>, store: CheckpointStore, toSeq: int, now: int, markFails: bool)
    returns (log: seq<Event>, ok: bool)
    requires Increasing(store.history)
    modifies store
    ensures Increasing(store.history)
    ensures !markFails ==>
              var v := Revert(World(events, old(store.history), Down), toSeq, now);
              log == v.events && store.history == v.saves
    ensures markFails ==> log == events && store.history == old(store.history)
    ensures ok == (!markFails && CanRevert(World(events, old(store.history), Down), toSeq))
  {
    var cp := store.Find(toSeq);
    if cp.None? || markFails { return events, false; }
    log := events + [Reverted(toSeq, cp.value.seqNo)];
    var marker := |log|;
    ok := store.Put(Checkpoint(marker, RevertedState(cp.value.state, cp.value.seqNo, marker, now)));
  }

  /** `Fork` over the stores: the child's start first, then its first checkpoint. Each of
      the two may fail, which leaves the child without what comes after. */
  method ForkRun(parent: string, store: CheckpointStore, atSeq: int, child: string, now: int, startFails: bool,
      saveFails: bool)
    returns (log: seq<Event>, made: CheckpointStore, begun: bool)
    ensures fresh(made) && Increasing(made.history)
    ensures begun <==> parent != "" && LoadAt(store.history, atSeq).Some?
    ensures !begun || startFails ==> log == [] && made.history == []
    ensures begun && !startFails ==>
              var f := Forked(parent, store.history, atSeq, child, now).value;
              log == f.events && made.history == if saveFails then [] else f.saves
  {
    made := new CheckpointStore();
    log, begun := [], false;
    if parent == "" { return; }
    var cp := store.Find(atSeq);
    if cp.None? { return; }
    var state := cp.value.state;
    state := state.(runID := child, parentRunID := parent, updatedAt := now);
    state := state.(phase := CREATED_PHASE, approvals := NO_APPROVALS);
    state := state.(forkedFrom := Some((parent, cp.value.seqNo)));
    begun := true;
    if startFails { return; }
    log := [ForkStarted(parent, cp.value.seqNo)];
    if saveFails { return; }
    var ok := made.Put(Checkpoint(|log|, state));
  }
}
