/**
 What facts, coordinator ticks and host verdicts do to runs and commands: which lifecycle a run is left
 with, which held commands go out, which stop and probe commands exist afterwards, and that every command
 id names one row.
 */
module CommandEffects {
  import opened Common
  import opened CommandQueue
  import opened CommandStream

  // ----- one fact --------------------------------------------------------------------------------------

  /** The fact asks for the run to be stopped on its host. */
  predicate Stops(w: World, next: Option<Lifecycle>) {
    next.Some? && next.value.attempt in w.sessions && next.value.phase == Cancelling
  }

  /** The fact gives up on the commands that are still held for the run. */
  predicate GivesUp(w: World, next: Option<Lifecycle>) {
    Stops(w, next) ||
    (next.Some? && next.value.attempt in w.sessions && next.value.phase == NeedsAttention && next.value.cause == CommandUnclaimed)
  }

  ghost predicate HasId(rows: seq<Command>, id: CommandId) {
    exists i :: 0 <= i < |rows| && rows[i].id == id
  }

  /** A start of the attempt is still held on the run's page. */
  ghost predicate StartHeld(rows: seq<Command>, runId: string, attempt: string) {
    exists i :: 0 <= i < |rows| && Held(rows, runId, i) && rows[i].kind.Start? && rows[i].attempt == Some(attempt)
  }

  /**
   Held commands go out as shutdowns exactly when the fact stops the run or finds its command unclaimed;
   a stop also leaves the run's stop command in the table; nothing else happens to any command.
   */
  lemma {:induction false} FactRows(w: World, runId: string, current: Lifecycle, fact: Fact, now: nat, reduce: Reducer)
    ensures var (w', next) := (ApplyFact(w, runId, current, fact, now, reduce).0, reduce(current, fact, now));
            && |w.rows| <= |w'.rows|
            && (forall i :: 0 <= i < |w.rows| ==>
                  w'.rows[i] == if GivesUp(w, next) && Held(w.rows, runId, i) then w.rows[i].(kind := Shutdown, status := Pending) else w.rows[i])
            && (forall i :: |w.rows| <= i < |w'.rows| ==>
                  w'.rows[i].id.Stop? && w'.rows[i].runId == runId && w'.rows[i].kind == Cancel && w'.rows[i].status == Pending)
            && (Stops(w, next) ==> HasId(w'.rows, Stop(runId, next.value.attempt)))
            && (!Stops(w, next) ==> |w'.rows| == |w.rows|)
    decreases AnyHeld(w.rows, runId)
  {
    hide HoldsStart, InRunPage;
    var next := reduce(current, fact, now);
    if Stops(w, next) {
      var w1 := PatchRun(w, runId, next.value);
      var w2 := QueueStop(w1, runId, next.value.attempt);
      QueueStopRows(w1, runId, next.value.attempt);
      if HoldsStart(w1.rows, runId, next.value.attempt) {
        StopLeavesNothingHeld(w1, runId, next.value.attempt);
        HeldStart(w1.rows, runId, next.value.attempt);
        FactRows(w2, runId, next.value, StoppedFact, now, reduce);
        var w' := ApplyFact(w2, runId, next.value, StoppedFact, now, reduce).0;
        KeepsId(w2.rows, w'.rows, Stop(runId, next.value.attempt));
      }
    }
  }

  lemma KeepsId(rows: seq<Command>, rows': seq<Command>, id: CommandId)
    requires HasId(rows, id) && |rows| <= |rows'| && forall i :: 0 <= i < |rows| ==> rows'[i].id == rows[i].id
    ensures HasId(rows', id)
  {
    var i :| 0 <= i < |rows| && rows[i].id == id;
    assert rows'[i].id == id;
  }

  lemma HeldStart(rows: seq<Command>, runId: string, attempt: string)
    requires HoldsStart(rows, runId, attempt)
    ensures AnyHeld(rows, runId)
  {}

  lemma QueueStopRows(w: World, runId: string, attempt: string)
    ensures var w' := QueueStop(w, runId, attempt);
            && |w.rows| <= |w'.rows| && w'.runs == w.runs && w'.sessions == w.sessions && w'.delivered == w.delivered
            && (forall i :: 0 <= i < |w.rows| ==>
                  w'.rows[i] == if Held(w.rows, runId, i) then w.rows[i].(kind := Shutdown, status := Pending) else w.rows[i])
            && (forall i :: |w.rows| <= i < |w'.rows| ==>
                  w'.rows[i].id.Stop? && w'.rows[i].runId == runId && w'.rows[i].kind == Cancel && w'.rows[i].status == Pending)
            && HasId(w'.rows, Stop(runId, attempt))
  {
    hide Held;
    var w' := QueueStop(w, runId, attempt);
    if |w'.rows| > |w.rows| {
      assert w'.rows[|w.rows|].id == Stop(runId, attempt);
    }
  }

  /** What the run is left with: the reduced lifecycle, or, for a start that never went out, what the stop reduces it to. */
  ghost function Left(w: World, runId: string, next: Lifecycle, now: nat, reduce: Reducer): Lifecycle {
    if Stops(w, Some(next)) && StartHeld(w.rows, runId, next.attempt) then GetOr(reduce(next, StoppedFact, now), next) else next
  }

  /** The coarse status a reader sees says no more than the phase. */
  predicate Follows(status: RunStatus, phase: Phase) {
    && (phase == Completed <==> status == RunCompleted)
    && (phase == PhaseCancelled <==> status == RunCancelled)
    && (phase == Failed <==> status == RunFailed)
    && (phase == WaitingForApproval || phase == WaitingForInput <==> status == RunWaitingForApproval)
    && (phase == Queued || phase == Waking || phase == Starting <==> status == RunQueued)
  }

  /** A fact moves its own run to the lifecycle it reduces to, with a status that follows; a fact that is not applied moves nothing. */
  lemma {:induction false} FactRuns(w: World, runId: string, current: Lifecycle, fact: Fact, now: nat, reduce: Reducer)
    ensures var (w', next) := (ApplyFact(w, runId, current, fact, now, reduce).0, reduce(current, fact, now));
            && w'.sessions == w.sessions && w'.delivered == w.delivered && w'.runs.Keys == w.runs.Keys
            && (forall r :: r in w.runs && r != runId ==> w'.runs[r] == w.runs[r])
            && (next.None? ==> w' == w)
            && (next.Some? && runId in w.runs ==>
                  && w'.runs[runId].lifecycle == Some(Left(w, runId, next.value, now, reduce))
                  && Follows(w'.runs[runId].status, w'.runs[runId].lifecycle.value.phase)
                  && w'.runs[runId].leaseExpiresAt == w.runs[runId].leaseExpiresAt)
    decreases AnyHeld(w.rows, runId)
  {
    hide InRunPage, HoldsStart;
    var next := reduce(current, fact, now);
    if Stops(w, next) {
      var w1 := PatchRun(w, runId, next.value);
      var w2 := QueueStop(w1, runId, next.value.attempt);
      QueueStopRows(w1, runId, next.value.attempt);
      assert HoldsStart(w1.rows, runId, next.value.attempt) == StartHeld(w.rows, runId, next.value.attempt) by { SameStart(w.rows, runId, next.value.attempt); }
      if HoldsStart(w1.rows, runId, next.value.attempt) {
        StopLeavesNothingHeld(w1, runId, next.value.attempt);
        HeldStart(w1.rows, runId, next.value.attempt);
        FactRuns(w2, runId, next.value, StoppedFact, now, reduce);
        assert forall a :: !StartHeld(w2.rows, runId, a);
      }
    }
  }

  lemma SameStart(rows: seq<Command>, runId: string, attempt: string)
    ensures HoldsStart(rows, runId, attempt) == StartHeld(rows, runId, attempt)
  {}

  /** The lifecycle a fact leads to, including the stop of a start that never went out. */
  predicate LeadsTo(lc: Lifecycle, fact: Fact, lc': Lifecycle, now: nat, reduce: Reducer) {
    match reduce(lc, fact, now)
    case None => lc' == lc
    case Some(next) => lc' == next || (next.phase == Cancelling && reduce(next, StoppedFact, now) == Some(lc'))
  }

  lemma FactLeads(w: World, runId: string, lc: Lifecycle, fact: Fact, now: nat, reduce: Reducer)
    requires runId in w.runs && w.runs[runId].lifecycle == Some(lc)
    ensures var w' := ApplyFact(w, runId, lc, fact, now, reduce).0;
            runId in w'.runs && w'.runs[runId].lifecycle.Some? && LeadsTo(lc, fact, w'.runs[runId].lifecycle.value, now, reduce)
  {
    hide ApplyFact, StartHeld;
    FactRuns(w, runId, lc, fact, now, reduce);
  }

  // ----- one coordinator tick ------------------------------------------------------------------------------

  /** The caller is the coordinator the run has now, and the attempt is known. */
  predicate Coordinates(w: World, runId: string, coordinator: string, generation: nat) {
    && runId in w.runs && w.runs[runId].lifecycle.Some?
    && var lc := w.runs[runId].lifecycle.value;
       lc.coordinator == Some(coordinator) && lc.generation == generation && lc.attempt in w.sessions
  }

  /** A tick of anyone but the run's own coordinator changes nothing. */
  lemma OthersDoNotAdvance(w: World, runId: string, coordinator: string, generation: nat, wake: bool, refused: bool, now: nat, reduce: Reducer)
    requires !Coordinates(w, runId, coordinator, generation)
    ensures Advance(w, runId, coordinator, generation, wake, refused, now, reduce) == w
  {}

  /** A fact that is applied asks for no stop, so what it returns is what the run is left with. */
  lemma PlainFact(w: World, runId: string, current: Lifecycle, fact: Fact, now: nat, reduce: Reducer)
    requires reduce(current, fact, now).None? || reduce(current, fact, now).value.phase != Cancelling
    ensures AfterFact(w, runId, current, fact, now, reduce).1 == GetOr(reduce(current, fact, now), current)
  {}

  /** Such a fact leaves the run with what it reduces to, and answers it. */
  lemma PlainFactLeaves(w: World, runId: string, lc: Lifecycle, fact: Fact, now: nat, reduce: Reducer)
    requires runId in w.runs && w.runs[runId].lifecycle == Some(lc)
    requires GetOr(reduce(lc, fact, now), lc).phase != Cancelling || reduce(lc, fact, now).None?
    ensures var (w', lc') := AfterFact(w, runId, lc, fact, now, reduce);
            lc' == GetOr(reduce(lc, fact, now), lc) && runId in w'.runs && w'.runs[runId].lifecycle == Some(lc')
  {
    PlainFact(w, runId, lc, fact, now, reduce);
    FactRuns(w, runId, lc, fact, now, reduce);
    hide ApplyFact, StartHeld;
  }

  lemma DispatchLeaves(w: World, runId: string, lc: Lifecycle, wake: bool, now: nat, reduce: Reducer)
    requires runId in w.runs && w.runs[runId].lifecycle == Some(lc)
    requires GetOr(reduce(lc, DispatchFact, now), lc).phase != Cancelling
    ensures var (w', lc') := Dispatched(w, runId, lc, wake, now, reduce);
            && lc' == (if (lc.phase == Queued || lc.phase == Waking) && !wake then GetOr(reduce(lc, DispatchFact, now), lc) else lc)
            && runId in w'.runs && w'.runs[runId].lifecycle == Some(lc')
  {
    PlainFactLeaves(w, runId, lc, DispatchFact, now, reduce);
    hide AfterFact, ReleaseForDispatch;
  }

  /** The fact a tick brings: a refusal first, then a wake-up, then an observation. */
  function Brought(wake: bool, refused: bool): Fact {
    if refused then RefuseFact else if wake then WakeFact else ObserveFact
  }

  lemma EnsuredRuns(w: World, id: CommandId, runId: string, attempt: string, kind: Kind)
    ensures var w' := EnsureCommand(w, id, runId, attempt, kind);
            && w'.runs == w.runs && w'.sessions == w.sessions && HasId(w'.rows, id) && w.rows <= w'.rows
            && (if HasId(w.rows, id) then w' == w
                else |w'.rows| == |w.rows| + 1 && w'.rows[|w.rows|].id == id && w'.rows[|w.rows|].kind == kind
                     && w'.rows[|w.rows|].status == Pending && w'.rows[|w.rows|].runId == runId && w'.rows[|w.rows|].attempt == Some(attempt))
  {
    var w' := EnsureCommand(w, id, runId, attempt, kind);
    if !HasId(w.rows, id) {
      assert w'.rows[|w.rows|].id == id;
    }
  }

  /**
   A tick of the coordinator of a run that nothing stops: the run is left with what the brought fact reduces
   it to, or, if that leaves it waiting and it is not being woken, with what the dispatch reduces that to.
   */
  lemma TickReduces(w: World, runId: string, coordinator: string, generation: nat, wake: bool, refused: bool, now: nat, reduce: Reducer)
    requires Coordinates(w, runId, coordinator, generation)
    requires var lc := w.runs[runId].lifecycle.value;
             var first := GetOr(reduce(lc, Brought(wake, refused), now), lc);
             first.phase != Cancelling && GetOr(reduce(first, DispatchFact, now), first).phase != Cancelling
    ensures var w' := Advance(w, runId, coordinator, generation, wake, refused, now, reduce);
            var lc := w.runs[runId].lifecycle.value;
            var first := GetOr(reduce(lc, Brought(wake, refused), now), lc);
            && runId in w'.runs
            && w'.runs[runId].lifecycle == Some(if (first.phase == Queued || first.phase == Waking) && !wake
                                                then GetOr(reduce(first, DispatchFact, now), first) else first)
  {
    hide AfterFact, Dispatched, EnsureCommand;
    var lc, fact := w.runs[runId].lifecycle.value, Brought(wake, refused);
    PlainFactLeaves(w, runId, lc, fact, now, reduce);
    var (w1, first) := AfterFact(w, runId, lc, fact, now, reduce);
    DispatchLeaves(w1, runId, first, wake, now, reduce);
    var (w2, lc2) := Dispatched(w1, runId, first, wake, now, reduce);
    EnsuredRuns(w2, Probe(runId, lc2.attempt, now / 60000), runId, lc2.attempt, Observe);
    EnsuredRuns(Probed(w2, runId, lc2, now), Stop(runId, lc2.attempt), runId, lc2.attempt, Cancel);
  }

  lemma NothingHeldAnswers(w: World, runId: string, current: Lifecycle, fact: Fact, now: nat, reduce: Reducer)
    requires !AnyHeld(w.rows, runId)
    ensures ApplyFact(w, runId, current, fact, now, reduce).1 == reduce(current, fact, now)
  {
    hide InRunPage;
  }

  /** What a fact answers: the lifecycle the run is left with, or none when the last reduction was not applied. */
  lemma FactAnswers(w: World, runId: string, current: Lifecycle, fact: Fact, now: nat, reduce: Reducer)
    ensures var (w', answer) := ApplyFact(w, runId, current, fact, now, reduce);
            var next := reduce(current, fact, now);
            answer == if next.Some? && Stops(w, next) && StartHeld(w.rows, runId, next.value.attempt)
                      then reduce(next.value, StoppedFact, now) else next
  {
    hide InRunPage, HoldsStart;
    var next := reduce(current, fact, now);
    if Stops(w, next) {
      var w1 := PatchRun(w, runId, next.value);
      var w2 := QueueStop(w1, runId, next.value.attempt);
      SameStart(w.rows, runId, next.value.attempt);
      if HoldsStart(w1.rows, runId, next.value.attempt) {
        StopLeavesNothingHeld(w1, runId, next.value.attempt);
        NothingHeldAnswers(w2, runId, next.value, StoppedFact, now, reduce);
      }
    }
  }

  /** The tick knows the lifecycle the run is left with, unless that is a stop whose command is already queued. */
  ghost predicate Known(w: World, runId: string, lc: Lifecycle) {
    && runId in w.runs && w.runs[runId].lifecycle.Some?
    && var stored := w.runs[runId].lifecycle.value;
       stored == lc || (stored.phase == Cancelling && HasId(w.rows, Stop(runId, stored.attempt)))
  }

  lemma FactKeepsKnown(w: World, runId: string, lc: Lifecycle, fact: Fact, now: nat, reduce: Reducer)
    requires Known(w, runId, lc)
    ensures var (w', lc') := AfterFact(w, runId, lc, fact, now, reduce); Known(w', runId, lc')
  {
    hide ApplyFact, StartHeld, Held;
    FactRows(w, runId, lc, fact, now, reduce);
    FactRuns(w, runId, lc, fact, now, reduce);
    FactAnswers(w, runId, lc, fact, now, reduce);
  }

  /**
   What a tick leaves for the host. A run that ends up being cancelled has its stop command in the table, and
   one whose process must show itself has the probe of this attempt and minute.
   */
  lemma TickReachesHost(w: World, runId: string, coordinator: string, generation: nat, wake: bool, refused: bool, now: nat, reduce: Reducer)
    requires Coordinates(w, runId, coordinator, generation)
    ensures var w' := Advance(w, runId, coordinator, generation, wake, refused, now, reduce);
            && runId in w'.runs && w'.runs[runId].lifecycle.Some?
            && var lc := w'.runs[runId].lifecycle.value;
               && (lc.phase == Cancelling ==> HasId(w'.rows, Stop(runId, lc.attempt)))
               && (lc.phase == NeedsAttention && lc.cause == ProcessHealthRequired ==> HasId(w'.rows, Probe(runId, lc.attempt, now / 60000)))
  {
    hide ApplyFact, EnsureCommand, ReleaseForDispatch, HasId;
    var lc, fact := w.runs[runId].lifecycle.value, Brought(wake, refused);
    FactKeepsKnown(w, runId, lc, fact, now, reduce);
    var (w1, lc1) := AfterFact(w, runId, lc, fact, now, reduce);
    FactKeepsKnown(w1, runId, lc1, DispatchFact, now, reduce);
    var (w2, lc2) := Dispatched(w1, runId, lc1, wake, now, reduce);
    DispatchKeepsKnown(w1, runId, lc1, wake, now, reduce);
    var w3 := Probed(w2, runId, lc2, now);
    EnsuredRuns(w2, Probe(runId, lc2.attempt, now / 60000), runId, lc2.attempt, Observe);
    EnsuredRuns(w3, Stop(runId, lc2.attempt), runId, lc2.attempt, Cancel);
    var w' := Advance(w, runId, coordinator, generation, wake, refused, now, reduce);
    PrefixKeepsIds(w2.rows, w3.rows);
    PrefixKeepsIds(w3.rows, w'.rows);
  }

  lemma PrefixKeepsIds(rows: seq<Command>, rows': seq<Command>)
    requires rows <= rows'
    ensures forall id :: HasId(rows, id) ==> HasId(rows', id)
  {
    forall id | HasId(rows, id)
      ensures HasId(rows', id)
    {
      KeepsId(rows, rows', id);
    }
  }

  lemma DispatchKeepsKnown(w: World, runId: string, lc: Lifecycle, wake: bool, now: nat, reduce: Reducer)
    requires Known(w, runId, lc)
    ensures var (w', lc') := Dispatched(w, runId, lc, wake, now, reduce);
            Known(w', runId, lc') && w'.sessions == w.sessions
  {
    hide ApplyFact, InRunPage;
    FactKeepsKnown(w, runId, lc, DispatchFact, now, reduce);
    FactRuns(w, runId, lc, DispatchFact, now, reduce);
    var (w1, lc1) := AfterFact(w, runId, lc, DispatchFact, now, reduce);
    var w' := Dispatched(w, runId, lc, wake, now, reduce).0;
    if (lc.phase.Queued? || lc.phase.Waking?) && !wake && w'.runs[runId].lifecycle.value != lc1 {
      KeepsId(w1.rows, w'.rows, Stop(runId, w1.runs[runId].lifecycle.value.attempt));
    }
  }
}
