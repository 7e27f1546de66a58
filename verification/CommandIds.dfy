/**
 Every command id names one row, in every run: stop and probe commands are queued once, and a preparation
 is retried once, because its retry exists only beside the command it replaced, which stays cancelled.
 */
module CommandIds {
  import opened Common
  import opened CommandQueue
  import opened CommandStream
  import opened CommandEffects

  ghost predicate UniqueIds(rows: seq<Command>) {
    forall i, j :: 0 <= i < j < |rows| ==> rows[i].id != rows[j].id
  }

  ghost predicate Replaced(rows: seq<Command>, id: CommandId) {
    exists i :: 0 <= i < |rows| && rows[i].id == id && rows[i].status == Cancelled
  }

  /** A retry stands beside the cancelled command it replaced. */
  ghost predicate RetriesFollow(rows: seq<Command>) {
    forall i :: 0 <= i < |rows| && rows[i].id.PreparationRetry? ==> Replaced(rows, rows[i].id.of)
  }

  ghost predicate Inv(rows: seq<Command>) {
    UniqueIds(rows) && RetriesFollow(rows)
  }

  /** Rows keep their ids and stay cancelled, and new rows are no retries and repeat no id. */
  ghost predicate Keeps(rows: seq<Command>, rows': seq<Command>) {
    && |rows| <= |rows'|
    && (forall i :: 0 <= i < |rows| ==> rows'[i].id == rows[i].id && (rows[i].status == Cancelled ==> rows'[i].status == Cancelled))
    && (forall i :: |rows| <= i < |rows'| ==> !rows'[i].id.PreparationRetry?)
    && (UniqueIds(rows) ==> UniqueIds(rows'))
  }

  lemma KeepsItself(rows: seq<Command>)
    ensures Keeps(rows, rows)
  {}

  lemma KeepsTransitive(a: seq<Command>, b: seq<Command>, c: seq<Command>)
    requires Keeps(a, b) && Keeps(b, c)
    ensures Keeps(a, c)
  {
    hide UniqueIds;
  }

  lemma KeepsInv(rows: seq<Command>, rows': seq<Command>)
    requires Inv(rows) && Keeps(rows, rows')
    ensures Inv(rows')
  {
    hide UniqueIds;
    forall i | 0 <= i < |rows'| && rows'[i].id.PreparationRetry?
      ensures Replaced(rows', rows'[i].id.of)
    {
      assert rows[i].id == rows'[i].id;
      var j :| 0 <= j < |rows| && rows[j].id == rows[i].id.of && rows[j].status == Cancelled;
      assert rows'[j].id == rows[i].id.of;
    }
  }

  /** A change of states only. */
  lemma SameIdsKeep(rows: seq<Command>, rows': seq<Command>)
    requires |rows'| == |rows|
    requires forall i :: 0 <= i < |rows| ==> rows'[i].id == rows[i].id && (rows[i].status == Cancelled ==> rows'[i].status == Cancelled)
    ensures Keeps(rows, rows')
  {}

  lemma EnsureKeeps(w: World, id: CommandId, runId: string, attempt: string, kind: Kind)
    requires !id.PreparationRetry?
    ensures Keeps(w.rows, EnsureCommand(w, id, runId, attempt, kind).rows)
  {
    EnsuredRuns(w, id, runId, attempt, kind);
    hide EnsureCommand;
  }

  lemma {:induction false} FactKeeps(w: World, runId: string, current: Lifecycle, fact: Fact, now: nat, reduce: Reducer)
    ensures Keeps(w.rows, ApplyFact(w, runId, current, fact, now, reduce).0.rows)
    decreases AnyHeld(w.rows, runId)
  {
    hide HoldsStart, InRunPage, Keeps, EnsureCommand;
    var next := reduce(current, fact, now);
    KeepsItself(w.rows);
    if next.Some? {
      var w1 := PatchRun(w, runId, next.value);
      var released := w1.(rows := ReleaseAsShutdown(w1.rows, runId));
      SameIdsKeep(w.rows, released.rows);
      if Stops(w, next) {
        var w2 := QueueStop(w1, runId, next.value.attempt);
        EnsureKeeps(released, Stop(runId, next.value.attempt), runId, next.value.attempt, Cancel);
        KeepsTransitive(w.rows, released.rows, w2.rows);
        if HoldsStart(w1.rows, runId, next.value.attempt) {
          StopLeavesNothingHeld(w1, runId, next.value.attempt);
          HeldStart(w1.rows, runId, next.value.attempt);
          FactKeeps(w2, runId, next.value, StoppedFact, now, reduce);
          KeepsTransitive(w.rows, w2.rows, ApplyFact(w2, runId, next.value, StoppedFact, now, reduce).0.rows);
        }
      }
    }
  }

  lemma DispatchedKeeps(w: World, runId: string, lc: Lifecycle, wake: bool, now: nat, reduce: Reducer)
    ensures Keeps(w.rows, Dispatched(w, runId, lc, wake, now, reduce).0.rows)
  {
    hide ApplyFact, InRunPage, Keeps;
    KeepsItself(w.rows);
    FactKeeps(w, runId, lc, DispatchFact, now, reduce);
    var w1 := AfterFact(w, runId, lc, DispatchFact, now, reduce).0;
    var w' := Dispatched(w, runId, lc, wake, now, reduce).0;
    if w' != w {
      SameIdsKeep(w1.rows, w'.rows);
      KeepsTransitive(w.rows, w1.rows, w'.rows);
    }
  }

  lemma AdvanceKeeps(w: World, runId: string, coordinator: string, generation: nat, wake: bool, refused: bool, now: nat, reduce: Reducer)
    ensures Keeps(w.rows, Advance(w, runId, coordinator, generation, wake, refused, now, reduce).rows)
  {
    hide ApplyFact, Dispatched, EnsureCommand, Keeps;
    KeepsItself(w.rows);
    if Coordinates(w, runId, coordinator, generation) {
      var lc, fact := w.runs[runId].lifecycle.value, Brought(wake, refused);
      FactKeeps(w, runId, lc, fact, now, reduce);
      var (w1, lc1) := AfterFact(w, runId, lc, fact, now, reduce);
      DispatchedKeeps(w1, runId, lc1, wake, now, reduce);
      var (w2, lc2) := Dispatched(w1, runId, lc1, wake, now, reduce);
      var w3 := Probed(w2, runId, lc2, now);
      KeepsItself(w2.rows);
      EnsureKeeps(w2, Probe(runId, lc2.attempt, now / 60000), runId, lc2.attempt, Observe);
      KeepsItself(w3.rows);
      EnsureKeeps(w3, Stop(runId, lc2.attempt), runId, lc2.attempt, Cancel);
      var w' := Advance(w, runId, coordinator, generation, wake, refused, now, reduce);
      KeepsTransitive(w.rows, w1.rows, w2.rows);
      KeepsTransitive(w.rows, w2.rows, w3.rows);
      KeepsTransitive(w.rows, w3.rows, w'.rows);
    }
  }

  // ----- verdicts ----------------------------------------------------------------------------------------

  /** A retry is queued for a command that was claimed until now, so it is the first. */
  lemma RetryKeepsInv(rows: seq<Command>, i: nat, c: Command, retry: Command)
    requires Inv(rows) && i < |rows| && rows[i].status != Cancelled
    requires c == rows[i].(status := Cancelled, claimExpiresAt := None) && retry.id == PreparationRetry(c.id)
    ensures Inv(rows[i := c] + [retry])
  {
    var rows' := rows[i := c] + [retry];
    assert Keeps(rows, rows[i := c]);
    assert !Replaced(rows, rows[i].id);
    assert forall j :: 0 <= j < |rows| ==> rows[j].id != retry.id;
    assert rows'[i].id == c.id && rows'[i].status == Cancelled;
    forall j | 0 <= j < |rows'| && rows'[j].id.PreparationRetry?
      ensures Replaced(rows', rows'[j].id.of)
    {
      if j < |rows| {
        var k :| 0 <= k < |rows| && rows[k].id == rows[j].id.of && rows[k].status == Cancelled;
        assert rows'[k].id == rows[j].id.of;
      }
    }
  }

  lemma ResolveKeepsInv(w: World, i: nat, status: Status)
    requires Inv(w.rows) && i < |w.rows| && w.rows[i].status != Cancelled
    ensures Inv(SetStatus(w, i, status).rows)
  {
    hide Inv, Keeps;
    SameIdsKeep(w.rows, SetStatus(w, i, status).rows);
    KeepsInv(w.rows, SetStatus(w, i, status).rows);
  }

  lemma FactKeepsInv(w: World, runId: string, current: Lifecycle, fact: Fact, now: nat, reduce: Reducer)
    requires Inv(w.rows)
    ensures Inv(ApplyFact(w, runId, current, fact, now, reduce).0.rows)
  {
    hide Inv, Keeps, ApplyFact;
    FactKeeps(w, runId, current, fact, now, reduce);
    KeepsInv(w.rows, ApplyFact(w, runId, current, fact, now, reduce).0.rows);
  }

  lemma RetriedKeepsInv(w: World, i: nat)
    requires Inv(w.rows) && i < |w.rows| && w.rows[i].status != Cancelled
    ensures var c := w.rows[i];
            Inv(Append(SetStatus(w, i, Cancelled), PreparationRetry(c.id), c.runId, c.attempt, c.kind, Pending).rows)
  {
    var (c, w1) := (w.rows[i], SetStatus(w, i, Cancelled));
    RetryKeepsInv(w.rows, i, c.(status := Cancelled, claimExpiresAt := None),
                  Command(PreparationRetry(c.id), c.runId, c.attempt, c.kind, Latest(w1.rows) + 1, Pending, None));
  }

  lemma VerdictKeepsInv(w: World, id: CommandId, verdict: Verdict, now: nat, reduce: Reducer)
    requires Inv(w.rows)
    ensures Inv(Acknowledge(w, id, verdict, now, reduce).0.rows)
  {
    FindFinds(w.rows, id, 0);
    var f := Find(w.rows, id, 0);
    hide Find, ApplyFact, Inv, Append, SetStatus;
    if f.Some? && !w.rows[f.value].status.Cancelled? {
      var i, c := f.value, w.rows[f.value];
      RetriedKeepsInv(w, i);
      ResolveKeepsInv(w, i, Acknowledged);
      ResolveKeepsInv(w, i, Cancelled);
      if c.runId in w.runs && w.runs[c.runId].lifecycle.Some? {
        var lc := w.runs[c.runId].lifecycle.value;
        FactKeepsInv(if c.status.Acknowledged? then w else SetStatus(w, i, Acknowledged), c.runId, lc, DecisionDelivered, now, reduce);
        FactKeepsInv(SetStatus(w, i, Cancelled), c.runId, lc, HealthUnknown, now, reduce);
      }
    }
  }

  // ----- delivery ------------------------------------------------------------------------------------------

  lemma ExamineKeeps(w: World, snapshot: map<string, Run>, row: Command, capable: bool, now: nat, reduce: Reducer)
    ensures Keeps(w.rows, Examine(w, snapshot, row, capable, now, reduce).w.rows)
  {
    hide ApplyFact, Keeps;
    KeepsItself(w.rows);
    if row.runId in snapshot && snapshot[row.runId].lifecycle.Some? {
      var lc := snapshot[row.runId].lifecycle.value;
      var w1 := if !capable then ApplyFact(w, row.runId, lc, HealthUnknown, now, reduce).0 else w;
      FactKeeps(w, row.runId, lc, HealthUnknown, now, reduce);
      KeepsItself(w1.rows);
      FactKeeps(w1, row.runId, lc, ObserveFact, now, reduce);
      KeepsTransitive(w.rows, w1.rows, Examine(w, snapshot, row, capable, now, reduce).w.rows);
    }
  }

  lemma {:induction false} ScanKeeps(
      w: World, rows0: seq<Command>, snapshot: map<string, Run>, candidates: seq<nat>, k: nat, blocked: Option<nat>,
      limit: nat, capable: bool, now: nat, reduce: Reducer, acc: Batch)
    requires forall a :: 0 <= a < |candidates| ==> candidates[a] < |rows0|
    requires k <= |candidates|
    ensures Keeps(w.rows, Scan(w, rows0, snapshot, candidates, k, blocked, limit, capable, now, reduce, acc).0.rows)
    decreases |candidates| - k
  {
    hide Examine, Keeps;
    KeepsItself(w.rows);
    if k < |candidates| && |acc.claimable| < limit {
      var e := Examine(w, snapshot, rows0[candidates[k]], capable, now, reduce);
      ExamineKeeps(w, snapshot, rows0[candidates[k]], capable, now, reduce);
      var acc' := Batch(acc.claimable + [candidates[k]], if e.neutral then acc.neutralized + {candidates[k]} else acc.neutralized);
      ScanKeeps(e.w, rows0, snapshot, candidates, k + 1, blocked, limit, capable, now, reduce, acc');
      KeepsTransitive(w.rows, e.w.rows, Scan(e.w, rows0, snapshot, candidates, k + 1, blocked, limit, capable, now, reduce, acc').0.rows);
    }
  }

  lemma PollKeeps(w: World, available: bool, capable: bool, now: nat, leaseMs: int, limit: int, reduce: Reducer)
    requires Dense(w.rows) && Poll(w, available, capable, now, leaseMs, limit, reduce).Some?
    ensures Keeps(w.rows, Poll(w, available, capable, now, leaseMs, limit, reduce).value.0.rows)
  {
    hide Scan, Keeps, FirstWith;
    KeepsItself(w.rows);
    if available {
      var candidates := Candidates(w.rows, now, limit);
      var blocked := FirstWith(w.rows, CoordinatorPending, 0);
      CandidatesShape(w, now, limit);
      ScanAllTakesPrefix(w, candidates, blocked, limit, capable, now, reduce);
      ScanKeeps(w, w.rows, w.runs, candidates, 0, blocked, limit, capable, now, reduce, Batch([], {}));
      var (w1, b) := ScanAll(w, candidates, blocked, limit, capable, now, reduce);
      ClaimKeeps(w, w1, b.claimable, candidates, now, now + leaseMs);
      KeepsTransitive(w.rows, w1.rows, MarkClaimed(w1, b.claimable, now + leaseMs).rows);
    }
  }

  lemma ClaimKeeps(w: World, w1: World, claimable: seq<nat>, candidates: seq<nat>, now: nat, expiresAt: nat)
    requires Calm(w, w1) && claimable <= candidates
    requires forall a :: 0 <= a < |candidates| ==> candidates[a] < |w.rows| && (w.rows[candidates[a]].status.Pending? || Expired(w.rows[candidates[a]], now))
    ensures Keeps(w1.rows, MarkClaimed(w1, claimable, expiresAt).rows)
  {
    forall i | i in claimable
      ensures i < |w1.rows| && w1.rows[i].status != Cancelled
    {
      assert i in candidates;
    }
    SameIdsKeep(w1.rows, MarkClaimed(w1, claimable, expiresAt).rows);
  }

  // ----- runs ------------------------------------------------------------------------------------------------

  /** An enqueued command comes with an id of its caller's that no row has. */
  ghost predicate Fresh(w: World, a: Action) {
    a.Enqueue? ==> a.id.Given? && !HasId(w.rows, a.id)
  }

  ghost predicate FreshRun(w: World, actions: seq<Action>, reduce: Reducer)
    decreases |actions|
  {
    actions == [] || (Fresh(w, actions[0]) && FreshRun(Step(w, actions[0], reduce), actions[1..], reduce))
  }

  lemma StepKeepsIds(w: World, a: Action, reduce: Reducer)
    requires Inv(w.rows) && Dense(w.rows) && Fresh(w, a)
    ensures Inv(Step(w, a, reduce).rows)
  {
    hide ApplyFact, Advance, Acknowledge, Poll, InRunPage, Keeps, Inv;
    KeepsItself(w.rows);
    match a
    case Enqueue(id, runId, attempt, kind, held) =>
      assert Keeps(w.rows, Step(w, a, reduce).rows) by { EnqueueKeeps(w, a, reduce); }
      KeepsInv(w.rows, Step(w, a, reduce).rows);
    case WriteRun(_, _, _) =>
    case ApplyRunFact(runId, fact, at) =>
      if runId in w.runs && w.runs[runId].lifecycle.Some? {
        FactKeeps(w, runId, w.runs[runId].lifecycle.value, fact, at, reduce);
        KeepsInv(w.rows, Step(w, a, reduce).rows);
      }
    case AdvanceRun(runId, coordinator, generation, wake, refused, at) =>
      AdvanceKeeps(w, runId, coordinator, generation, wake, refused, at, reduce);
      KeepsInv(w.rows, Step(w, a, reduce).rows);
    case Ack(id, verdict, at) => VerdictKeepsInv(w, id, verdict, at, reduce);
    case StopEnvironment(at) =>
      SameIdsKeep(w.rows, Step(w, a, reduce).rows);
      KeepsInv(w.rows, Step(w, a, reduce).rows);
    case TerminalEvent(runId) =>
      SameIdsKeep(w.rows, Step(w, a, reduce).rows);
      KeepsInv(w.rows, Step(w, a, reduce).rows);
    case PollCommands(available, capable, now, leaseMs, limit) =>
      if Poll(w, available, capable, now, leaseMs, limit, reduce).Some? {
        PollKeeps(w, available, capable, now, leaseMs, limit, reduce);
        KeepsInv(w.rows, Step(w, a, reduce).rows);
      }
  }

  lemma EnqueueKeeps(w: World, a: Action, reduce: Reducer)
    requires a.Enqueue? && Fresh(w, a)
    ensures Keeps(w.rows, Step(w, a, reduce).rows)
  {}

  lemma {:induction false} RunKeepsIds(w: World, actions: seq<Action>, reduce: Reducer)
    requires Inv(w.rows) && CommandStream.Inv(w) && FreshRun(w, actions, reduce)
    ensures Inv(CommandStream.Run(w, actions, reduce).rows)
    decreases |actions|
  {
    hide Step, Inv, CommandStream.Inv;
    if actions != [] {
      assert Dense(w.rows) by { InvIsDense(w); }
      StepKeepsIds(w, actions[0], reduce);
      StepKeepsInv(w, actions[0], reduce);
      RunKeepsIds(Step(w, actions[0], reduce), actions[1..], reduce);
    }
  }

  lemma InvIsDense(w: World)
    requires CommandStream.Inv(w)
    ensures Dense(w.rows)
  {}

  /**
   In every run, whatever is retried and however facts, ticks and verdicts interleave, no two commands carry
   one id: each attempt has at most one stop command and one probe a minute, and each command one retry.
   */
  lemma IdsAreUnique(actions: seq<Action>, reduce: Reducer, i: nat, j: nat)
    requires FreshRun(EMPTY, actions, reduce) && i < j < |CommandStream.Run(EMPTY, actions, reduce).rows|
    ensures CommandStream.Run(EMPTY, actions, reduce).rows[i].id != CommandStream.Run(EMPTY, actions, reduce).rows[j].id
  {
    RunKeepsIds(EMPTY, actions, reduce);
  }
}
