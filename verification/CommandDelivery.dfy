/**
 What one poll hands to the host, told from the table and the run rows as they stand before the
 poll: which rows go out as shutdowns, and where the batch stops.
 */
module CommandDelivery {
  import opened Common
  import opened CommandQueue
  import opened CommandStream
  import opened CommandEffects

  predicate Ended(run: Run, now: nat) {
    || run.status.RunCompleted? || run.status.RunFailed? || run.status.RunCancelled?
    || (run.leaseExpiresAt.Some? && run.leaseExpiresAt.value <= now)
  }

  predicate Over(lc: Lifecycle) {
    lc.phase.Cancelling? || lc.phase.Completed? || lc.phase.PhaseCancelled? || lc.phase.Failed?
  }

  /** A first start that the host never prepared and that came past its deadline. */
  predicate Unclaimed(lc: Lifecycle, c: Command, now: nat) {
    c.kind == Start(false) && !lc.prepared && lc.claimDeadlineAt <= now
  }

  /** The command must not take effect any more, so it may only go out as a shutdown. */
  predicate Stale(runs: map<string, Run>, c: Command, capable: bool, now: nat) {
    c.runId in runs &&
    match runs[c.runId].lifecycle
    case None => Ended(runs[c.runId], now) && c.kind != Cancel
    case Some(lc) =>
      || !capable
      || Unclaimed(lc, c, now)
      || (Over(lc) && c.kind != Cancel && c.kind != Shutdown && c.kind != Observe)
  }

  /** The command belongs to a live run that no coordinator has taken up yet. */
  predicate Waits(runs: map<string, Run>, c: Command, capable: bool, now: nat) {
    c.runId in runs &&
    match runs[c.runId].lifecycle
    case None => false
    case Some(lc) => lc.coordinator.None? && capable && !Unclaimed(lc, c, now) && c.kind != Cancel && c.kind != Shutdown
  }

  lemma ExamineIsExact(w: World, runs: map<string, Run>, c: Command, capable: bool, now: nat, reduce: Reducer)
    ensures var e := Examine(w, runs, c, capable, now, reduce);
            && e.wait == Waits(runs, c, capable, now)
            && (!e.wait ==> e.neutral == Stale(runs, c, capable, now))
  {
    hide ApplyFact;
  }

  predicate PastBlock(c: Command, blocked: Option<nat>) {
    blocked.Some? && blocked.value < c.sequence
  }

  /** The loop takes candidates up to the limit, the first one past the block, or the first that waits. */
  ghost predicate TakenUpTo(rows: seq<Command>, runs: map<string, Run>, candidates: seq<nat>, k: nat, m: nat, blocked: Option<nat>,
                            room: bool, capable: bool, now: nat)
    requires k <= m <= |candidates|
    requires forall a :: 0 <= a < |candidates| ==> candidates[a] < |rows|
  {
    && (forall a :: k <= a < m ==> !PastBlock(rows[candidates[a]], blocked) && !Waits(runs, rows[candidates[a]], capable, now))
    && (m == |candidates| || !room || PastBlock(rows[candidates[m]], blocked) || Waits(runs, rows[candidates[m]], capable, now))
  }

  /** How far the loop gets from candidate `k` on. */
  lemma {:induction false} ScanStops(
      w: World, rows: seq<Command>, runs: map<string, Run>, candidates: seq<nat>, k: nat, blocked: Option<nat>,
      limit: nat, capable: bool, now: nat, reduce: Reducer, acc: Batch) returns (m: nat)
    requires forall a :: 0 <= a < |candidates| ==> candidates[a] < |rows|
    requires k <= |candidates| && |acc.claimable| <= limit
    ensures var b := Scan(w, rows, runs, candidates, k, blocked, limit, capable, now, reduce, acc).1;
            && k <= m <= |candidates| && |b.claimable| <= limit
            && b.claimable == acc.claimable + candidates[k..m]
            && TakenUpTo(rows, runs, candidates, k, m, blocked, |b.claimable| < limit, capable, now)
    decreases |candidates| - k
  {
    hide Examine, Stale, Waits;
    m := k;
    if k < |candidates| && |acc.claimable| < limit && !PastBlock(rows[candidates[k]], blocked) {
      var c := candidates[k];
      var e := Examine(w, runs, rows[c], capable, now, reduce);
      ExamineIsExact(w, runs, rows[c], capable, now, reduce);
      if !e.wait {
        var acc' := Batch(acc.claimable + [c], if e.neutral then acc.neutralized + {c} else acc.neutralized);
        m := ScanStops(e.w, rows, runs, candidates, k + 1, blocked, limit, capable, now, reduce, acc');
        assert acc.claimable + candidates[k..m] == acc'.claimable + candidates[k + 1..m];
      }
    }
  }

  /** What the loop marks from candidate `k` on. */
  lemma {:induction false} ScanNeutralizes(
      w: World, rows: seq<Command>, runs: map<string, Run>, candidates: seq<nat>, k: nat, blocked: Option<nat>,
      limit: nat, capable: bool, now: nat, reduce: Reducer, acc: Batch)
    requires forall a :: 0 <= a < |candidates| ==> candidates[a] < |rows|
    requires k <= |candidates|
    requires forall i :: i in acc.claimable ==> i < |rows| && (i in acc.neutralized <==> Stale(runs, rows[i], capable, now))
    requires forall i :: i in acc.neutralized ==> i in acc.claimable
    ensures var b := Scan(w, rows, runs, candidates, k, blocked, limit, capable, now, reduce, acc).1;
            && (forall i :: i in b.claimable ==> i < |rows| && (i in b.neutralized <==> Stale(runs, rows[i], capable, now)))
            && (forall i :: i in b.neutralized ==> i in b.claimable)
    decreases |candidates| - k
  {
    hide Examine, Stale, Waits;
    if k < |candidates| && |acc.claimable| < limit && !PastBlock(rows[candidates[k]], blocked) {
      var c := candidates[k];
      var e := Examine(w, runs, rows[c], capable, now, reduce);
      ExamineIsExact(w, runs, rows[c], capable, now, reduce);
      if !e.wait {
        var acc' := Batch(acc.claimable + [c], if e.neutral then acc.neutralized + {c} else acc.neutralized);
        ScanNeutralizes(e.w, rows, runs, candidates, k + 1, blocked, limit, capable, now, reduce, acc');
      }
    }
  }

  /**
   A poll delivers a row as a shutdown exactly when, as its run stood before the poll, the run had
   ended or lost its lease, was over or being cancelled, left its first start unclaimed past the
   deadline, or has a lifecycle that the host cannot follow.
   */
  lemma ShutdownsAreExact(w: World, available: bool, capable: bool, now: nat, leaseMs: int, limit: int, reduce: Reducer)
    requires Poll(w, available, capable, now, leaseMs, limit, reduce).Some?
    ensures var b := Poll(w, available, capable, now, leaseMs, limit, reduce).value.1;
            && (forall i :: i in b.claimable ==> i < |w.rows| && (i in b.neutralized <==> Stale(w.runs, w.rows[i], capable, now)))
            && (forall i :: i in b.neutralized ==> i in b.claimable)
  {
    hide Scan, Stale, FirstWith, MarkClaimed;
    if available {
      var candidates := Candidates(w.rows, now, limit);
      var blocked := FirstWith(w.rows, CoordinatorPending, 0);
      CandidatesShape(w, now, limit);
      ScanNeutralizes(w, w.rows, w.runs, candidates, 0, blocked, limit, capable, now, reduce, Batch([], {}));
    }
  }

  /**
   The batch is the longest run of candidates within the limit in which none lies above a held
   command and none belongs to a live run without a coordinator.
   */
  lemma BatchStopsExactly(w: World, capable: bool, now: nat, leaseMs: int, limit: int, reduce: Reducer)
    requires Poll(w, true, capable, now, leaseMs, limit, reduce).Some?
    ensures var c := Candidates(w.rows, now, limit);
            var batch := Poll(w, true, capable, now, leaseMs, limit, reduce).value.1.claimable;
            && (forall a :: 0 <= a < |c| ==> c[a] < |w.rows|)
            && batch <= c && |batch| <= limit
            && TakenUpTo(w.rows, w.runs, c, 0, |batch|, FirstWith(w.rows, CoordinatorPending, 0), |batch| < limit, capable, now)
  {
    hide Scan, TakenUpTo, FirstWith, MarkClaimed, Candidates;
    var c := Candidates(w.rows, now, limit);
    CandidatesShape(w, now, limit);
    var m := ScanStops(w, w.rows, w.runs, c, 0, FirstWith(w.rows, CoordinatorPending, 0), limit, capable, now, reduce, Batch([], {}));
    assert c[0..m] == c[..m];
  }

  // ----- held commands ---------------------------------------------------------------------------

  /** Rows keep their run and attempt, and held ones stay held or become pending. */
  ghost predicate SameOwners(rows: seq<Command>, rows': seq<Command>) {
    && |rows| <= |rows'|
    && forall i :: 0 <= i < |rows| ==>
         && rows'[i].runId == rows[i].runId && rows'[i].attempt == rows[i].attempt
         && (rows[i].status.CoordinatorPending? ==> Undelivered(rows'[i]))
         && (rows[i].status.Pending? ==> rows'[i].status.Pending?)
  }

  lemma QueueStopKeepsOwners(w: World, runId: string, attempt: string)
    ensures SameOwners(w.rows, QueueStop(w, runId, attempt).rows)
  {
    hide InRunPage;
  }

  lemma {:induction false} ApplyFactKeepsOwners(w: World, runId: string, current: Lifecycle, fact: Fact, now: nat, reduce: Reducer)
    ensures SameOwners(w.rows, ApplyFact(w, runId, current, fact, now, reduce).0.rows)
    decreases AnyHeld(w.rows, runId)
  {
    hide QueueStop, Held;
    var next := reduce(current, fact, now);
    if next.Some? && next.value.attempt in w.sessions && next.value.phase.Cancelling? {
      var w1 := PatchRun(w, runId, next.value);
      var w2 := QueueStop(w1, runId, next.value.attempt);
      QueueStopKeepsOwners(w1, runId, next.value.attempt);
      if HoldsStart(w1.rows, runId, next.value.attempt) {
        StopLeavesNothingHeld(w1, runId, next.value.attempt);
        ApplyFactKeepsOwners(w2, runId, next.value, StoppedFact, now, reduce);
      }
    }
  }

  lemma SamePage(rows: seq<Command>, rows': seq<Command>, runId: string, i: nat)
    requires SameOwners(rows, rows') && i < |rows|
    ensures InRunPage(rows, runId, i) == InRunPage(rows', runId, i)
  {
    assert (set j: nat | 0 <= j < i && rows[j].runId == runId) == (set j: nat | 0 <= j < i && rows'[j].runId == runId);
  }

  /** A reduction that asks neither for a stop nor for attention. */
  predicate Plain(next: Option<Lifecycle>) {
    next.None? || (!next.value.phase.Cancelling? && !next.value.phase.NeedsAttention?)
  }

  /**
   Dispatching a waiting run sends out every command held for its attempt on the run's page, and
   holds none back. Unless the reducer stops the run at the same time, nothing else changes.
   */
  lemma DispatchReleasesExactly(w: World, runId: string, lc: Lifecycle, now: nat, reduce: Reducer)
    requires lc.phase.Queued? || lc.phase.Waking?
    ensures var (w', lc') := Dispatched(w, runId, lc, false, now, reduce);
            && |w.rows| <= |w'.rows|
            && (forall i :: 0 <= i < |w'.rows| ==> !(Held(w'.rows, runId, i) && w'.rows[i].attempt == Some(lc'.attempt)))
            && (forall i :: 0 <= i < |w.rows| && Held(w.rows, runId, i) && w.rows[i].attempt == Some(lc'.attempt) ==> w'.rows[i].status.Pending?)
            && (Plain(reduce(lc, DispatchFact, now)) ==>
                  && |w'.rows| == |w.rows|
                  && forall i :: 0 <= i < |w.rows| ==>
                       w'.rows[i] == if Held(w.rows, runId, i) && w.rows[i].attempt == Some(lc'.attempt)
                                     then w.rows[i].(status := Pending) else w.rows[i])
  {
    hide InRunPage, AnyHeld, HoldsStart;
    var (w1, lc') := AfterFact(w, runId, lc, DispatchFact, now, reduce);
    ApplyFactKeepsOwners(w, runId, lc, DispatchFact, now, reduce);
    var w' := Dispatched(w, runId, lc, false, now, reduce).0;
    forall i | 0 <= i < |w1.rows|
      ensures InRunPage(w'.rows, runId, i) == InRunPage(w1.rows, runId, i)
    {
      SamePage(w1.rows, w'.rows, runId, i);
    }
    forall i | 0 <= i < |w.rows|
      ensures InRunPage(w.rows, runId, i) == InRunPage(w1.rows, runId, i)
    {
      SamePage(w.rows, w1.rows, runId, i);
    }
  }

  // ----- what the runs of a batch are told ---------------------------------------------------------------

  /** The fact that delivering the row brings to its run: the host cannot follow it, or nobody claimed its start in time. */
  predicate Tells(lc: Lifecycle, c: Command, capable: bool, now: nat, fact: Fact) {
    (fact == HealthUnknown && !capable) || (fact == ObserveFact && Unclaimed(lc, c, now))
  }

  /** Some delivered row of the run brings a fact that the reducer applies, and the run is left with what it leads to. */
  ghost predicate Moved(rows: seq<Command>, taken: seq<nat>, r: string, lc: Lifecycle, run: Run, capable: bool, now: nat, reduce: Reducer) {
    exists i, fact :: i in taken && i < |rows| && rows[i].runId == r && Tells(lc, rows[i], capable, now, fact)
                      && reduce(lc, fact, now).Some? && run.lifecycle.Some? && LeadsTo(lc, fact, run.lifecycle.value, now, reduce)
  }

  /** No delivered row of the run brings a fact that the reducer applies. */
  ghost predicate Unmoved(rows: seq<Command>, taken: seq<nat>, r: string, lc: Lifecycle, capable: bool, now: nat, reduce: Reducer) {
    forall i, fact :: i in taken && i < |rows| && rows[i].runId == r && Tells(lc, rows[i], capable, now, fact) ==> reduce(lc, fact, now).None?
  }

  /** A run with a lifecycle moves exactly when a delivered row brings it a fact that applies; any other run stays as it is. */
  ghost predicate Told(rows: seq<Command>, taken: seq<nat>, r: string, before: Run, after: Run, capable: bool, now: nat, reduce: Reducer) {
    match before.lifecycle
    case None => after == before
    case Some(lc) =>
      (after == before && Unmoved(rows, taken, r, lc, capable, now, reduce)) || Moved(rows, taken, r, lc, after, capable, now, reduce)
  }

  lemma ExamineTells(w: World, runs: map<string, Run>, c: Command, capable: bool, now: nat, reduce: Reducer)
    requires w.runs.Keys == runs.Keys
    ensures var e := Examine(w, runs, c, capable, now, reduce);
            && e.w.runs.Keys == runs.Keys
            && (forall r :: r in runs && (r != c.runId || runs[r].lifecycle.None? || e.wait) ==> e.w.runs[r] == w.runs[r])
            && (c.runId in runs && runs[c.runId].lifecycle.Some? ==>
                  var (lc, run) := (runs[c.runId].lifecycle.value, e.w.runs[c.runId]);
                  || (run == w.runs[c.runId] && forall f :: Tells(lc, c, capable, now, f) ==> reduce(lc, f, now).None?)
                  || (exists f :: Tells(lc, c, capable, now, f) && reduce(lc, f, now).Some? && run.lifecycle.Some? && LeadsTo(lc, f, run.lifecycle.value, now, reduce)))
  {
    hide ApplyFact, StartHeld;
    if c.runId in runs && runs[c.runId].lifecycle.Some? {
      var lc := runs[c.runId].lifecycle.value;
      var w1 := if !capable then ApplyFact(w, c.runId, lc, HealthUnknown, now, reduce).0 else w;
      FactRuns(w, c.runId, lc, HealthUnknown, now, reduce);
      FactRuns(w1, c.runId, lc, ObserveFact, now, reduce);
      assert Tells(lc, c, capable, now, HealthUnknown) <==> !capable;
      assert Tells(lc, c, capable, now, ObserveFact) <==> Unclaimed(lc, c, now);
    }
  }

  lemma TakenTells(rows: seq<Command>, taken: seq<nat>, k: nat, before: Run, run: Run, run': Run, capable: bool, now: nat, reduce: Reducer)
    requires k < |rows| && Told(rows, taken, rows[k].runId, before, run, capable, now, reduce)
    requires before.lifecycle.None? ==> run' == run
    requires before.lifecycle.Some? ==>
               var lc := before.lifecycle.value;
               || (run' == run && forall f :: Tells(lc, rows[k], capable, now, f) ==> reduce(lc, f, now).None?)
               || (exists f :: Tells(lc, rows[k], capable, now, f) && reduce(lc, f, now).Some? && run'.lifecycle.Some?
                               && LeadsTo(lc, f, run'.lifecycle.value, now, reduce))
    ensures Told(rows, taken + [k], rows[k].runId, before, run', capable, now, reduce)
  {
    hide Tells, LeadsTo;
    assert forall i :: i in taken + [k] <==> i in taken || i == k;
    assert k in taken + [k];
  }

  lemma OthersStayTold(rows: seq<Command>, taken: seq<nat>, k: nat, r: string, before: Run, run: Run, capable: bool, now: nat, reduce: Reducer)
    requires k < |rows| && rows[k].runId != r && Told(rows, taken, r, before, run, capable, now, reduce)
    ensures Told(rows, taken + [k], r, before, run, capable, now, reduce)
  {
    hide Tells, LeadsTo;
    assert forall i :: i in taken + [k] <==> i in taken || i == k;
  }

  ghost predicate AllTold(rows: seq<Command>, taken: seq<nat>, runs: map<string, Run>, runs': map<string, Run>, capable: bool, now: nat, reduce: Reducer) {
    runs'.Keys == runs.Keys && forall r :: r in runs ==> Told(rows, taken, r, runs[r], runs'[r], capable, now, reduce)
  }

  lemma ExamineKeepsTold(w: World, rows: seq<Command>, runs: map<string, Run>, taken: seq<nat>, k: nat, capable: bool, now: nat, reduce: Reducer)
    requires k < |rows| && AllTold(rows, taken, runs, w.runs, capable, now, reduce)
    ensures var e := Examine(w, runs, rows[k], capable, now, reduce);
            AllTold(rows, if e.wait then taken else taken + [k], runs, e.w.runs, capable, now, reduce)
  {
    hide Examine, Told, Tells, LeadsTo;
    var e := Examine(w, runs, rows[k], capable, now, reduce);
    ExamineTells(w, runs, rows[k], capable, now, reduce);
    if !e.wait {
      forall r | r in runs
        ensures Told(rows, taken + [k], r, runs[r], e.w.runs[r], capable, now, reduce)
      {
        if r == rows[k].runId {
          TakenTells(rows, taken, k, runs[r], w.runs[r], e.w.runs[r], capable, now, reduce);
        } else {
          OthersStayTold(rows, taken, k, r, runs[r], w.runs[r], capable, now, reduce);
        }
      }
    } else {
      assert forall r :: r in runs ==> e.w.runs[r] == w.runs[r] by {
        ExamineIsExact(w, runs, rows[k], capable, now, reduce);
        WaitingChangesNothing(w, runs, rows[k], capable, now, reduce);
      }
    }
  }

  lemma WaitingChangesNothing(w: World, runs: map<string, Run>, c: Command, capable: bool, now: nat, reduce: Reducer)
    requires Examine(w, runs, c, capable, now, reduce).wait
    ensures Examine(w, runs, c, capable, now, reduce).w == w
  {
    hide ApplyFact;
  }

  lemma {:induction false} ScanTells(
      w: World, rows: seq<Command>, runs: map<string, Run>, candidates: seq<nat>, k: nat, blocked: Option<nat>,
      limit: nat, capable: bool, now: nat, reduce: Reducer, acc: Batch)
    requires forall a :: 0 <= a < |candidates| ==> candidates[a] < |rows|
    requires k <= |candidates| && AllTold(rows, acc.claimable, runs, w.runs, capable, now, reduce)
    ensures var (w', b) := Scan(w, rows, runs, candidates, k, blocked, limit, capable, now, reduce, acc);
            AllTold(rows, b.claimable, runs, w'.runs, capable, now, reduce)
    decreases |candidates| - k
  {
    hide Examine, AllTold;
    if k < |candidates| && |acc.claimable| < limit && !PastBlock(rows[candidates[k]], blocked) {
      var c := candidates[k];
      var e := Examine(w, runs, rows[c], capable, now, reduce);
      ExamineKeepsTold(w, rows, runs, acc.claimable, c, capable, now, reduce);
      if !e.wait {
        var acc' := Batch(acc.claimable + [c], if e.neutral then acc.neutralized + {c} else acc.neutralized);
        ScanTells(e.w, rows, runs, candidates, k + 1, blocked, limit, capable, now, reduce, acc');
      }
    }
  }

  /**
   A poll tells the runs of its batch: a run whose delivered commands the host cannot follow, or whose start
   came too late, is left with what that fact leads to; every other run is as it was before.
   */
  lemma PollTellsRuns(w: World, available: bool, capable: bool, now: nat, leaseMs: int, limit: int, reduce: Reducer)
    requires Poll(w, available, capable, now, leaseMs, limit, reduce).Some?
    ensures var (w', b) := Poll(w, available, capable, now, leaseMs, limit, reduce).value;
            w'.runs.Keys == w.runs.Keys && forall r :: r in w.runs ==> Told(w.rows, b.claimable, r, w.runs[r], w'.runs[r], capable, now, reduce)
  {
    hide Scan, FirstWith, Tells, LeadsTo;
    if available {
      var candidates := Candidates(w.rows, now, limit);
      var blocked := FirstWith(w.rows, CoordinatorPending, 0);
      CandidatesShape(w, now, limit);
      ScanTells(w, w.rows, w.runs, candidates, 0, blocked, limit, capable, now, reduce, Batch([], {}));
    }
  }

  // ----- delivery under a lease -----------------------------------------------------------------------------

  /** Every row of the batch is claimed until the end of the lease, and nothing else about it changes. */
  lemma BatchIsClaimed(w: World, capable: bool, now: nat, leaseMs: int, limit: int, reduce: Reducer)
    requires Dense(w.rows) && Poll(w, true, capable, now, leaseMs, limit, reduce).Some?
    ensures var (w', b) := Poll(w, true, capable, now, leaseMs, limit, reduce).value;
            && 1000 <= leaseMs <= 60000 && 1 <= limit <= 50 && |w.rows| <= |w'.rows|
            && forall i :: i in b.claimable ==>
                 && i < |w.rows| && (w.rows[i].status == Pending || Expired(w.rows[i], now))
                 && w'.rows[i] == w.rows[i].(status := Claimed, claimExpiresAt := Some(now + leaseMs))
  {
    hide ScanAll, FirstWith, Candidates;
    var w1 := PollShape(w, capable, now, leaseMs, limit, reduce);
    CandidatesShape(w, now, limit);
    var b := Poll(w, true, capable, now, leaseMs, limit, reduce).value.1;
    forall i | i in b.claimable
      ensures i < |w.rows| && (w.rows[i].status == Pending || Expired(w.rows[i], now)) && w1.rows[i] == w.rows[i]
    {
      assert i in Candidates(w.rows, now, limit);
    }
  }

  /**
   Nothing deliverable is forgotten: a pending command, or a claimed one whose claim has run out, is a
   candidate of the poll whenever fewer than `limit` commands are in its state.
   */
  lemma OpenCommandsAreCandidates(w: World, now: nat, limit: nat, i: nat)
    requires i < |w.rows|
    requires var c := w.rows[i];
             || (c.status == Pending && |set k: nat | k < |w.rows| && w.rows[k].status.Pending?| < limit)
             || (c.status == Claimed && (c.claimExpiresAt.None? || c.claimExpiresAt.value <= now)
                 && |set k: nat | k < |w.rows| && Expired(w.rows[k], now)| < limit)
    ensures i in Candidates(w.rows, now, limit)
  {
    if w.rows[i].status == Pending {
      PendingAreRead(w.rows, limit, i);
    } else {
      ExpiredAreRead(w.rows, now, limit, i);
    }
    hide PendingPage, ExpiredPage, Ascending;
    AscendingMembers(PendingPage(w.rows, limit) + ExpiredPage(w.rows, now, limit), |w.rows|);
  }

  lemma PendingAreRead(rows: seq<Command>, limit: nat, i: nat)
    requires i < |rows| && rows[i].status == Pending && |set k: nat | k < |rows| && rows[k].status.Pending?| < limit
    ensures i in PendingPage(rows, limit)
  {
    hide Page;
    PageWhole(set k: nat | k < |rows| && rows[k].status.Pending?, (k: nat) => k, limit);
  }

  lemma ExpiredAreRead(rows: seq<Command>, now: nat, limit: nat, i: nat)
    requires i < |rows| && Expired(rows[i], now) && |set k: nat | k < |rows| && Expired(rows[k], now)| < limit
    ensures i in ExpiredPage(rows, now, limit)
  {
    hide Page, Expired;
    PageWhole(set k: nat | k < |rows| && Expired(rows[k], now),
              (k: nat) => if k < |rows| then GetOr(rows[k].claimExpiresAt, 0) else 0, limit);
  }

  lemma PageWhole(s: set<nat>, key: nat -> int, limit: nat)
    ensures |s| < limit ==> Page(s, key, limit) == s
  {
    PageSize(s, key, limit);
    if |s| < limit {
      SubsetCardinality(Page(s, key, limit), s);
    }
  }

  /** The row is claimed until `t`, or has been resolved. */
  predicate Leased(w: World, i: nat, t: nat) {
    i < |w.rows| && (Resolved(w.rows[i]) || (w.rows[i].status == Claimed && w.rows[i].claimExpiresAt == Some(t)))
  }

  ghost predicate Delivers(w: World, a: Action, reduce: Reducer, i: nat) {
    && a.PollCommands?
    && var p := Poll(w, a.available, a.lifecycleCapable, a.now, a.leaseMs, a.limit, reduce);
       p.Some? && i in p.value.1.claimable
  }

  predicate Early(a: Action, t: nat) {
    a.PollCommands? ==> a.now < t
  }

  lemma VerdictKeepsLease(w: World, id: CommandId, verdict: Verdict, now: nat, reduce: Reducer, i: nat, t: nat)
    requires Dense(w.rows) && Leased(w, i, t)
    ensures Leased(Acknowledge(w, id, verdict, now, reduce).0, i, t)
  {
    FindFinds(w.rows, id, 0);
    var f := Find(w.rows, id, 0);
    hide Find, ApplyFact;
    if f.Some? && !w.rows[f.value].status.Cancelled? {
      var c := w.rows[f.value];
      var w1 :=
        if verdict.Accepted? then (if c.status.Acknowledged? then w else SetStatus(w, f.value, Acknowledged))
        else if verdict.SequenceGap? || c.status.Acknowledged? then w else SetStatus(w, f.value, Cancelled);
      if c.runId in w.runs && w.runs[c.runId].lifecycle.Some? {
        var fact := if verdict.Accepted? then DecisionDelivered else HealthUnknown;
        ApplyFactIsCalm(w1, c.runId, w.runs[c.runId].lifecycle.value, fact, now, reduce);
      }
    }
  }

  lemma PollKeepsLease(w: World, a: Action, reduce: Reducer, i: nat, t: nat)
    requires Dense(w.rows) && a.PollCommands? && Leased(w, i, t) && Early(a, t)
    ensures Leased(CommandStream.Step(w, a, reduce), i, t) && !Delivers(w, a, reduce, i)
  {
    hide ScanAll, FirstWith, Candidates;
    var p := Poll(w, a.available, a.lifecycleCapable, a.now, a.leaseMs, a.limit, reduce);
    if p.Some? && a.available {
      var w1 := PollShape(w, a.lifecycleCapable, a.now, a.leaseMs, a.limit, reduce);
      CandidatesShape(w, a.now, a.limit);
      assert forall k :: k in p.value.1.claimable ==> k in Candidates(w.rows, a.now, a.limit);
    }
  }

  lemma StepKeepsLease(w: World, a: Action, reduce: Reducer, i: nat, t: nat)
    requires Dense(w.rows) && Leased(w, i, t) && Early(a, t)
    ensures Leased(CommandStream.Step(w, a, reduce), i, t) && !Delivers(w, a, reduce, i)
  {
    hide ApplyFact, Advance, Acknowledge, Poll, InRunPage;
    match a
    case ApplyRunFact(runId, fact, at) =>
      if runId in w.runs && w.runs[runId].lifecycle.Some? {
        ApplyFactIsCalm(w, runId, w.runs[runId].lifecycle.value, fact, at, reduce);
      }
    case AdvanceRun(runId, coordinator, generation, wake, refused, at) =>
      AdvanceIsCalm(w, runId, coordinator, generation, wake, refused, at, reduce);
    case Ack(id, verdict, at) => VerdictKeepsLease(w, id, verdict, at, reduce, i, t);
    case PollCommands(_, _, _, _, _) => PollKeepsLease(w, a, reduce, i, t);
    case _ =>
  }

  ghost function Deliveries(w: World, actions: seq<Action>, reduce: Reducer, i: nat): nat
    decreases |actions|
  {
    if actions == [] then 0
    else (if Delivers(w, actions[0], reduce, i) then 1 else 0) + Deliveries(CommandStream.Step(w, actions[0], reduce), actions[1..], reduce, i)
  }

  /**
   One delivery per lease: in any run from a reachable state, no poll before the end of its claim hands a
   claimed command out again, and a resolved command is never handed out at all.
   */
  lemma {:induction false} NotRedeliveredEarly(w: World, actions: seq<Action>, reduce: Reducer, i: nat, t: nat)
    requires Inv(w) && Leased(w, i, t) && forall k :: 0 <= k < |actions| ==> Early(actions[k], t)
    ensures Deliveries(w, actions, reduce, i) == 0
    decreases |actions|
  {
    hide CommandStream.Step, Delivers, Inv;
    if actions != [] {
      assert Dense(w.rows) by { InvIsDense(w); }
      StepKeepsLease(w, actions[0], reduce, i, t);
      StepKeepsInv(w, actions[0], reduce);
      NotRedeliveredEarly(CommandStream.Step(w, actions[0], reduce), actions[1..], reduce, i, t);
    }
  }

  lemma InvIsDense(w: World)
    requires Inv(w)
    ensures Dense(w.rows)
  {}
}
