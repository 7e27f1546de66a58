/** The mutations of the command stream as they run: rows and runs are updated in place, one loop at a time. */
module CommandTable {
  import opened Common
  import opened CommandQueue
  import opened CommandStream

  class Table {
    var rows: seq<Command>
    var runs: map<string, Run>
    var sessions: set<string>
    const reduce: Reducer
    /** Positions some poll has handed out; nothing reads it. */
    ghost var delivered: set<nat>

    ghost function State(): World
      reads this
    {
      World(rows, runs, sessions, delivered)
    }

    constructor (reduce: Reducer)
      ensures State() == EMPTY && this.reduce == reduce
    {
      rows, runs, sessions, delivered := [], map[], {}, {};
      this.reduce := reduce;
    }

    method Insert(id: CommandId, runId: string, attempt: Option<string>, kind: Kind, status: Status)
      modifies this
      ensures State() == Append(old(State()), id, runId, attempt, kind, status)
    {
      var latest := if rows == [] then 0 else rows[|rows| - 1].sequence;
      rows := rows + [Command(id, runId, attempt, kind, latest + 1, status, None)];
    }

    method InsertOnce(id: CommandId, runId: string, attempt: string, kind: Kind)
      modifies this
      ensures State() == EnsureCommand(old(State()), id, runId, attempt, kind)
    {
      var existing := Find(rows, id, 0);
      FindFinds(rows, id, 0);
      if existing.None? {
        Insert(id, runId, Some(attempt), kind, Pending);
      }
    }

    /** The first hundred commands of a run, in order. */
    method RunPage(runId: string) returns (page: seq<nat>)
      ensures forall i: nat :: i in page <==> i < |rows| && InRunPage(rows, runId, i)
    {
      page := [];
      var count := 0;
      for n := 0 to |rows|
        invariant count == |set j: nat | 0 <= j < n && rows[j].runId == runId|
        invariant forall i: nat :: i in page <==> i < n && InRunPage(rows, runId, i)
      {
        assert (set j: nat | 0 <= j < n + 1 && rows[j].runId == runId)
               == (set j: nat | 0 <= j < n && rows[j].runId == runId) + (if rows[n].runId == runId then {n} else {});
        if rows[n].runId == runId {
          if count < RUN_COMMANDS {
            page := page + [n];
          }
          count := count + 1;
        }
      }
    }

    method ReleaseHeld(runId: string)
      modifies this`rows
      ensures rows == ReleaseAsShutdown(old(rows), runId)
    {
      var page := RunPage(runId);
      for n := 0 to |page|
        invariant |rows| == |old(rows)|
        invariant forall i: nat :: i < |rows| ==> (rows[i] == if i in page[..n] && old(rows)[i].status.CoordinatorPending?
                                                             then old(rows)[i].(kind := Shutdown, status := Pending) else old(rows)[i])
      {
        var k := page[n];
        assert k in page;
        if rows[k].status.CoordinatorPending? {
          rows := rows[k := rows[k].(kind := Shutdown, status := Pending)];
        }
      }
    }

    method DispatchHeld(runId: string, attempt: string)
      modifies this`rows
      ensures rows == ReleaseForDispatch(old(rows), runId, attempt)
    {
      var page := RunPage(runId);
      for n := 0 to |page|
        invariant |rows| == |old(rows)|
        invariant forall i: nat :: i < |rows| ==> (rows[i] == if i in page[..n] && old(rows)[i].status.CoordinatorPending?
                                                                && old(rows)[i].attempt == Some(attempt)
                                                             then old(rows)[i].(status := Pending) else old(rows)[i])
      {
        var k := page[n];
        assert k in page;
        if rows[k].status.CoordinatorPending? && rows[k].attempt == Some(attempt) {
          rows := rows[k := rows[k].(status := Pending)];
        }
      }
    }

    method NeverDispatched(runId: string, attempt: string) returns (held: bool)
      ensures held == HoldsStart(rows, runId, attempt)
    {
      var page := RunPage(runId);
      assert forall n :: 0 <= n < |page| ==> page[n] in page;
      held := exists n :: 0 <= n < |page| && rows[page[n]].status.CoordinatorPending?
                && rows[page[n]].kind.Start? && rows[page[n]].attempt == Some(attempt);
      if HoldsStart(rows, runId, attempt) {
        var i :| 0 <= i < |rows| && Held(rows, runId, i) && rows[i].kind.Start? && rows[i].attempt == Some(attempt);
        assert i in page;
        var n :| 0 <= n < |page| && page[n] == i;
      }
    }

    method ApplyRemoteFact(runId: string, current: Lifecycle, fact: Fact, now: nat) returns (next: Option<Lifecycle>)
      modifies this
      ensures (State(), next) == ApplyFact(old(State()), runId, current, fact, now, reduce)
      decreases AnyHeld(rows, runId)
    {
      next := reduce(current, fact, now);
      if next.None? {
        return;
      }
      var state := next.value;
      if runId in runs {
        runs := runs[runId := runs[runId].(lifecycle := Some(state), status := CoarseStatus(state.phase))];
      }
      if state.attempt !in sessions {
        return;
      }
      if state.phase.NeedsAttention? && state.cause.CommandUnclaimed? {
        ReleaseHeld(runId);
      }
      if state.phase.Cancelling? {
        var neverDispatched := NeverDispatched(runId, state.attempt);
        StopLeavesNothingHeld(State(), runId, state.attempt);
        ReleaseHeld(runId);
        InsertOnce(Stop(runId, state.attempt), runId, state.attempt, Cancel);
        if neverDispatched {
          next := ApplyRemoteFact(runId, state, StoppedFact, now);
        }
      }
    }

    /** One coordinator tick: the run's current lifecycle is threaded through every fact applied. */
    method AdvanceRun(runId: string, coordinator: string, generation: nat, wake: bool, refused: bool, now: nat)
      modifies this
      ensures State() == Advance(old(State()), runId, coordinator, generation, wake, refused, now, reduce)
    {
      hide ApplyFact;
      if runId !in runs || runs[runId].lifecycle.None? {
        return;
      }
      var state := runs[runId].lifecycle.value;
      if state.coordinator != Some(coordinator) || state.generation != generation || state.attempt !in sessions {
        return;
      }
      var next := ApplyRemoteFact(runId, state, if refused then RefuseFact else if wake then WakeFact else ObserveFact, now);
      state := GetOr(next, state);
      if (state.phase.Queued? || state.phase.Waking?) && !wake {
        next := ApplyRemoteFact(runId, state, DispatchFact, now);
        state := GetOr(next, state);
        DispatchHeld(runId, state.attempt);
      }
      if state.phase.NeedsAttention? && state.cause.ProcessHealthRequired? {
        InsertOnce(Probe(runId, state.attempt, now / 60000), runId, state.attempt, Observe);
      }
      if state.phase.Cancelling? {
        InsertOnce(Stop(runId, state.attempt), runId, state.attempt, Cancel);
      }
    }

    method StopEnvironmentCommands(now: nat)
      modifies this
      ensures State() == CancelOpen(old(State()), now)
    {
      var page := if |rows| < ENVIRONMENT_COMMANDS then |rows| else ENVIRONMENT_COMMANDS;
      for n := 0 to page
        invariant |rows| == |old(rows)| && runs == old(runs) && sessions == old(sessions) && delivered == old(delivered)
        invariant forall i: nat :: i < |rows| ==> (rows[i] == if i < n && (old(rows)[i].status.Pending? || old(rows)[i].status.Claimed?)
                                                             then old(rows)[i].(status := Cancelled, claimExpiresAt := Some(now))
                                                             else old(rows)[i])
      {
        if rows[n].status.Pending? || rows[n].status.Claimed? {
          rows := rows[n := rows[n].(status := Cancelled, claimExpiresAt := Some(now))];
        }
      }
    }

    method AcknowledgeFinished(runId: string)
      modifies this
      ensures State() == FinishRun(old(State()), runId)
    {
      var page := RunPage(runId);
      for n := 0 to |page|
        invariant |rows| == |old(rows)| && runs == old(runs) && sessions == old(sessions) && delivered == old(delivered)
        invariant forall i: nat :: i < |rows| ==> (rows[i] == if i in page[..n] && (old(rows)[i].status.Claimed? || old(rows)[i].status.Acknowledged?)
                                                             then old(rows)[i].(status := Acknowledged, claimExpiresAt := None)
                                                             else old(rows)[i])
      {
        var k := page[n];
        assert k in page;
        if rows[k].status.Claimed? || rows[k].status.Acknowledged? {
          rows := rows[k := rows[k].(status := Acknowledged, claimExpiresAt := None)];
        }
      }
    }

    method AcknowledgeCommand(id: CommandId, verdict: Verdict, now: nat) returns (done: bool)
      modifies this
      ensures (State(), done) == Acknowledge(old(State()), id, verdict, now, reduce)
    {
      hide ApplyFact;
      var found := Find(rows, id, 0);
      FindFinds(rows, id, 0);
      if found.None? || rows[found.value].status.Cancelled? {
        return false;
      }
      var i, c := found.value, rows[found.value];
      var run := if c.runId in runs then Some(runs[c.runId]) else None;
      if verdict.Accepted? {
        if !c.status.Acknowledged? {
          rows := rows[i := c.(status := Acknowledged, claimExpiresAt := None)];
        }
        if c.kind.ApprovalResponse? && run.Some? && run.value.lifecycle.Some? && c.attempt == Some(run.value.lifecycle.value.attempt) {
          var _ := ApplyRemoteFact(c.runId, run.value.lifecycle.value, DecisionDelivered, now);
        }
        return true;
      }
      if c.status.Acknowledged? {
        return false;
      }
      if !verdict.SequenceGap? {
        rows := rows[i := c.(status := Cancelled, claimExpiresAt := None)];
      }
      if run.Some? && run.value.lifecycle.Some? && run.value.lifecycle.value.attempt in sessions {
        if verdict.PreparationRetryable? && c.status.Claimed? {
          Insert(PreparationRetry(id), c.runId, c.attempt, c.kind, Pending);
          runs := runs[c.runId := runs[c.runId].(lifecycle := Some(verdict.next), status := CoarseStatus(verdict.next.phase))];
        } else if !verdict.SequenceGap? {
          var _ := ApplyRemoteFact(c.runId, run.value.lifecycle.value, HealthUnknown, now);
        }
      } else if run.Some? && run.value.lifecycle.None? && !(run.value.status in {RunCompleted, RunFailed, RunCancelled}) {
        runs := runs[c.runId := run.value.(status := RunFailed)];
      }
      return true;
    }

    /** The decision about one candidate, applying run facts on the way. */
    method ExamineCandidate(snapshot: map<string, Run>, row: Command, lifecycleCapable: bool, now: nat) returns (neutral: bool, wait: bool)
      modifies this
      ensures Examined(State(), neutral, wait) == Examine(old(State()), snapshot, row, lifecycleCapable, now, reduce)
    {
      hide ApplyFact;
      neutral, wait := false, false;
      if row.runId !in snapshot {
        return;
      }
      var run := snapshot[row.runId];
      if run.lifecycle.None? {
        neutral := !row.kind.Cancel? && (!(run.status in {RunQueued, RunRunning, RunWaitingForApproval})
                   || (run.leaseExpiresAt.Some? && run.leaseExpiresAt.value <= now));
        return;
      }
      var lc := run.lifecycle.value;
      if !lifecycleCapable {
        var _ := ApplyRemoteFact(row.runId, lc, HealthUnknown, now);
        neutral := true;
      }
      if row.kind.Start? && !row.kind.freshAttempt && !lc.prepared && now >= lc.claimDeadlineAt {
        var _ := ApplyRemoteFact(row.runId, lc, ObserveFact, now);
        neutral := true;
      }
      if lc.coordinator.None? && !row.kind.Cancel? && !row.kind.Shutdown? && !neutral {
        wait := true;
        return;
      }
      if lc.phase in {Cancelling, Completed, PhaseCancelled, Failed} && !(row.kind in {Cancel, Shutdown, Observe}) {
        neutral := true;
      }
    }

    method ClaimCommands(available: bool, lifecycleCapable: bool, now: nat, leaseMs: int, limit: int) returns (batch: Option<Batch>)
      modifies this
      ensures Poll(old(State()), available, lifecycleCapable, now, leaseMs, limit, reduce)
              == if batch.None? then None else Some((State(), batch.value))
      ensures batch.None? ==> State() == old(State())
    {
      hide Candidates, Examine, FirstWith;
      if !available {
        return Some(Batch([], {}));
      }
      if limit < 1 || limit > MAX_COMMANDS_PER_POLL || leaseMs < 1000 || leaseMs > 60000 {
        return None;
      }
      var rows0, snapshot := rows, runs;
      var candidates := Candidates(rows, now, limit);
      var blocked := FirstWith(rows, CoordinatorPending, 0);
      CandidatesShape(State(), now, limit);
      var claimable, neutralized, k, stop := [], {}, 0, false;
      while k < |candidates| && |claimable| < limit && !stop
        invariant k <= |candidates|
        invariant !stop ==>
          Scan(State(), rows0, snapshot, candidates, k, blocked, limit, lifecycleCapable, now, reduce, Batch(claimable, neutralized))
          == ScanAll(old(State()), candidates, blocked, limit, lifecycleCapable, now, reduce)
        invariant stop ==> ScanAll(old(State()), candidates, blocked, limit, lifecycleCapable, now, reduce) == (State(), Batch(claimable, neutralized))
        decreases |candidates| - k, !stop
      {
        var row := rows0[candidates[k]];
        if blocked.Some? && row.sequence > blocked.value {
          stop := true;
        } else {
          ghost var before, acc := State(), Batch(claimable, neutralized);
          var neutral, wait := ExamineCandidate(snapshot, row, lifecycleCapable, now);
          if wait {
            stop := true;
          } else {
            if neutral {
              neutralized := neutralized + {candidates[k]};
            }
            claimable := claimable + [candidates[k]];
            assert Scan(before, rows0, snapshot, candidates, k, blocked, limit, lifecycleCapable, now, reduce, acc)
                   == Scan(State(), rows0, snapshot, candidates, k + 1, blocked, limit, lifecycleCapable, now, reduce, Batch(claimable, neutralized));
            k := k + 1;
          }
        }
      }
      MarkBatch(claimable, now + leaseMs);
      return Some(Batch(claimable, neutralized));
    }

    method MarkBatch(claimable: seq<nat>, expiresAt: nat)
      modifies this
      ensures State() == MarkClaimed(old(State()), claimable, expiresAt)
    {
      for n := 0 to |claimable|
        invariant |rows| == |old(rows)| && runs == old(runs) && sessions == old(sessions) && delivered == old(delivered)
        invariant forall i: nat :: i < |rows| ==> (rows[i] == if i in claimable[..n]
                                                             then old(rows)[i].(status := Claimed, claimExpiresAt := Some(expiresAt))
                                                             else old(rows)[i])
      {
        var k := claimable[n];
        if k < |rows| {
          rows := rows[k := rows[k].(status := Claimed, claimExpiresAt := Some(expiresAt))];
        }
      }
      delivered := delivered + (set i | i in claimable);
    }

    /** Three first-row lookups; the answer is the exact floor of the table. */
    method ResolutionFloor() returns (floor: int)
      requires Dense(rows)
      ensures IsFloor(rows, floor)
    {
      var lowest: Option<nat> := None;
      var statuses := [Pending, Claimed, CoordinatorPending];
      for n := 0 to 3
        invariant lowest.None? ==> forall i, m :: 0 <= i < |rows| && 0 <= m < n ==> rows[i].status != statuses[m]
        invariant lowest.Some? ==> && 1 <= lowest.value <= |rows| && !Resolved(rows[lowest.value - 1])
                                   && forall i, m :: 0 <= i < lowest.value - 1 && 0 <= m < n ==> rows[i].status != statuses[m]
      {
        var first := FirstWith(rows, statuses[n], 0);
        FirstWithIsFirst(rows, statuses[n], 0);
        if first.Some? && (lowest.None? || first.value < lowest.value) {
          lowest := first;
        }
      }
      assert forall i :: 0 <= i < |rows| && !Resolved(rows[i]) ==> rows[i].status in statuses;
      if lowest.Some? {
        floor := lowest.value - 1;
      } else {
        floor := if rows == [] then 0 else rows[|rows| - 1].sequence;
      }
    }
  }
}
