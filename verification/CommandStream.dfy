/**
 Whole-run properties of the command stream: dense numbering across every producer, no hole is
 ever delivered, and the three-lookup floor is the exact resolution floor.
 */
module CommandStream {
  import opened Common
  import opened CommandQueue

  // ----- the transition system ------------------------------------------------------------

  datatype Action =
    | Enqueue(id: CommandId, runId: string, attempt: Option<string>, kind: Kind, held: bool)
    | WriteRun(target: string, row: Run, attempts: set<string>)
    | ApplyRunFact(subject: string, fact: Fact, at: nat)
    | AdvanceRun(advanced: string, coordinator: string, generation: nat, wake: bool, refused: bool, when: nat)
    | Ack(command: CommandId, verdict: Verdict, ackedAt: nat)
    | StopEnvironment(stoppedAt: nat)
    | TerminalEvent(finished: string)
    | PollCommands(available: bool, lifecycleCapable: bool, now: nat, leaseMs: int, limit: int)

  function Step(w: World, a: Action, reduce: Reducer): World {
    match a
    case Enqueue(id, runId, attempt, kind, held) =>
      Append(w, id, runId, attempt, kind, if held then CoordinatorPending else Pending)
    case WriteRun(runId, row, attempts) => w.(runs := w.runs[runId := row], sessions := w.sessions + attempts)
    case ApplyRunFact(runId, fact, at) =>
      if runId in w.runs && w.runs[runId].lifecycle.Some?
      then ApplyFact(w, runId, w.runs[runId].lifecycle.value, fact, at, reduce).0 else w
    case AdvanceRun(runId, coordinator, generation, wake, refused, at) =>
      Advance(w, runId, coordinator, generation, wake, refused, at, reduce)
    case Ack(id, verdict, at) => Acknowledge(w, id, verdict, at, reduce).0
    case StopEnvironment(at) => CancelOpen(w, at)
    case TerminalEvent(runId) => FinishRun(w, runId)
    case PollCommands(available, capable, now, leaseMs, limit) =>
      match Poll(w, available, capable, now, leaseMs, limit, reduce)
      case None => w
      case Some(r) => r.0
  }

  function Run(w: World, actions: seq<Action>, reduce: Reducer): World
    decreases |actions|
  {
    if actions == [] then w else Run(Step(w, actions[0], reduce), actions[1..], reduce)
  }

  const EMPTY: World := World([], map[], {}, {})

  // ----- invariant --------------------------------------------------------------------------

  /** Sequence numbers are exactly 1..n. */
  ghost predicate Dense(rows: seq<Command>) {
    forall i :: 0 <= i < |rows| ==> rows[i].sequence == i + 1
  }

  predicate Undelivered(c: Command) {
    c.status.Pending? || c.status.CoordinatorPending?
  }

  ghost predicate Inv(w: World) {
    && Dense(w.rows)
    && (forall i :: i in w.delivered ==> i < |w.rows| && !Undelivered(w.rows[i]))
    && (forall i :: 0 <= i < |w.rows| && w.rows[i].status.Claimed? ==> i in w.delivered)
    && (forall i, j :: i in w.delivered && 0 <= j < i ==> j in w.delivered || Resolved(w.rows[j]))
  }

  /** What every step other than delivery may do to the command table. */
  ghost predicate Quiet(w: World, w': World) {
    && w'.delivered == w.delivered
    && |w.rows| <= |w'.rows|
    && (forall i :: 0 <= i < |w.rows| ==>
          && w'.rows[i].sequence == w.rows[i].sequence
          && (Resolved(w.rows[i]) ==> Resolved(w'.rows[i]))
          && (w'.rows[i].status == w.rows[i].status
              || Resolved(w'.rows[i])
              || (w.rows[i].status.CoordinatorPending? && w'.rows[i].status.Pending?)))
    && (forall i :: |w.rows| <= i < |w'.rows| ==> w'.rows[i].sequence == i + 1 && Undelivered(w'.rows[i]))
  }

  /** What applying run facts may do: release held commands and queue new ones, nothing else. */
  ghost predicate Calm(w: World, w': World) {
    && w'.delivered == w.delivered
    && |w.rows| <= |w'.rows|
    && (forall i :: 0 <= i < |w.rows| ==>
          && w'.rows[i].sequence == w.rows[i].sequence
          && (w'.rows[i] == w.rows[i]
              || (w.rows[i].status.CoordinatorPending? && Undelivered(w'.rows[i]))))
    && (forall i :: |w.rows| <= i < |w'.rows| ==> w'.rows[i].sequence == i + 1 && Undelivered(w'.rows[i]))
  }

  /** Resolution and delivery only ever grow. */
  ghost predicate Extends(w: World, w': World) {
    && |w.rows| <= |w'.rows|
    && w.delivered <= w'.delivered
    && (forall i :: 0 <= i < |w.rows| ==> Resolved(w.rows[i]) ==> Resolved(w'.rows[i]))
  }

  lemma CalmItself(w: World)
    ensures Calm(w, w)
  {}

  lemma CalmTransitive(a: World, b: World, c: World)
    requires Calm(a, b) && Calm(b, c)
    ensures Calm(a, c)
  {}

  lemma QuietKeepsInv(w: World, w': World)
    requires Inv(w) && Quiet(w, w')
    ensures Inv(w') && Extends(w, w')
  {}

  lemma AppendIsCalm(w: World, id: CommandId, runId: string, attempt: Option<string>, kind: Kind, status: Status)
    requires Dense(w.rows) && (status.Pending? || status.CoordinatorPending?)
    ensures Calm(w, Append(w, id, runId, attempt, kind, status)) && Dense(Append(w, id, runId, attempt, kind, status).rows)
  {}

  lemma CalmKeepsDense(w: World, w': World)
    requires Dense(w.rows) && Calm(w, w')
    ensures Dense(w'.rows)
  {}

  lemma EnsureCommandIsCalm(w: World, id: CommandId, runId: string, attempt: string, kind: Kind)
    requires Dense(w.rows)
    ensures Calm(w, EnsureCommand(w, id, runId, attempt, kind))
  {
    AppendIsCalm(w, id, runId, Some(attempt), kind, Pending);
  }

  lemma QueueStopIsCalm(w: World, runId: string, attempt: string)
    requires Dense(w.rows)
    ensures Calm(w, QueueStop(w, runId, attempt)) && Dense(QueueStop(w, runId, attempt).rows)
  {
    var w1 := w.(rows := ReleaseAsShutdown(w.rows, runId));
    EnsureCommandIsCalm(w1, Stop(runId, attempt), runId, attempt, Cancel);
    CalmTransitive(w, w1, QueueStop(w, runId, attempt));
    CalmKeepsDense(w, QueueStop(w, runId, attempt));
  }

  /** Applying a run fact only releases held commands and adds the one stop command. */
  lemma {:induction false} ApplyFactIsCalm(w: World, runId: string, current: Lifecycle, fact: Fact, now: nat, reduce: Reducer)
    requires Dense(w.rows)
    ensures Calm(w, ApplyFact(w, runId, current, fact, now, reduce).0)
    decreases AnyHeld(w.rows, runId)
  {
    var next := reduce(current, fact, now);
    if next.Some? && next.value.attempt in w.sessions && next.value.phase.Cancelling? {
      var w1 := PatchRun(w, runId, next.value);
      var w2 := QueueStop(w1, runId, next.value.attempt);
      QueueStopIsCalm(w1, runId, next.value.attempt);
      CalmTransitive(w, w1, w2);
      if HoldsStart(w1.rows, runId, next.value.attempt) {
        StopLeavesNothingHeld(w1, runId, next.value.attempt);
        ApplyFactIsCalm(w2, runId, next.value, StoppedFact, now, reduce);
        CalmTransitive(w, w2, ApplyFact(w2, runId, next.value, StoppedFact, now, reduce).0);
      }
    }
  }

  lemma ProbedIsCalm(w: World, runId: string, lc: Lifecycle, now: nat)
    requires Dense(w.rows)
    ensures Calm(w, Probed(w, runId, lc, now))
  {
    hide EnsureCommand;
    CalmItself(w);
    EnsureCommandIsCalm(w, Probe(runId, lc.attempt, now / 60000), runId, lc.attempt, Observe);
  }

  lemma AdvanceIsCalm(w: World, runId: string, coordinator: string, generation: nat, wake: bool, refused: bool, now: nat, reduce: Reducer)
    requires Dense(w.rows)
    ensures Calm(w, Advance(w, runId, coordinator, generation, wake, refused, now, reduce))
  {
    hide ApplyFact, Calm, Dispatched, Probed, EnsureCommand, Dense;
    CalmItself(w);
    if runId in w.runs && w.runs[runId].lifecycle.Some? {
      var lc := w.runs[runId].lifecycle.value;
      if lc.coordinator == Some(coordinator) && lc.generation == generation && lc.attempt in w.sessions {
        var fact := if refused then RefuseFact else if wake then WakeFact else ObserveFact;
        ApplyFactIsCalm(w, runId, lc, fact, now, reduce);
        var (w1, lc1) := AfterFact(w, runId, lc, fact, now, reduce);
        CalmKeepsDense(w, w1);
        var (w2, lc2) := Dispatched(w1, runId, lc1, wake, now, reduce);
        DispatchedIsCalm(w1, runId, lc1, wake, now, reduce);
        CalmTransitive(w, w1, w2);
        CalmKeepsDense(w, w2);
        var w3 := Probed(w2, runId, lc2, now);
        ProbedIsCalm(w2, runId, lc2, now);
        CalmTransitive(w, w2, w3);
        CalmKeepsDense(w, w3);
        EnsureCommandIsCalm(w3, Stop(runId, lc2.attempt), runId, lc2.attempt, Cancel);
        CalmItself(w3);
        CalmTransitive(w, w3, Advance(w, runId, coordinator, generation, wake, refused, now, reduce));
      }
    }
  }

  lemma DispatchedIsCalm(w: World, runId: string, lc: Lifecycle, wake: bool, now: nat, reduce: Reducer)
    requires Dense(w.rows)
    ensures Calm(w, Dispatched(w, runId, lc, wake, now, reduce).0)
  {
    if (lc.phase.Queued? || lc.phase.Waking?) && !wake {
      ApplyFactIsCalm(w, runId, lc, DispatchFact, now, reduce);
      CalmTransitive(w, AfterFact(w, runId, lc, DispatchFact, now, reduce).0, Dispatched(w, runId, lc, wake, now, reduce).0);
    }
  }

  lemma {:induction false} FindFinds(rows: seq<Command>, id: CommandId, from: nat)
    ensures var f := Find(rows, id, from);
            f.Some? ==> from <= f.value < |rows| && rows[f.value].id == id
                        && forall j :: from <= j < f.value ==> rows[j].id != id
    ensures Find(rows, id, from).None? ==> forall j :: from <= j < |rows| ==> rows[j].id != id
    decreases |rows| - from
  {
    if from < |rows| && rows[from].id != id {
      FindFinds(rows, id, from + 1);
    }
  }

  lemma AcknowledgeIsQuiet(w: World, id: CommandId, verdict: Verdict, now: nat, reduce: Reducer)
    requires Dense(w.rows)
    ensures Quiet(w, Acknowledge(w, id, verdict, now, reduce).0)
  {
    hide Find, ApplyFact;
    var f := Find(w.rows, id, 0);
    if f.Some? && f.value < |w.rows| && !w.rows[f.value].status.Cancelled? {
      var c := w.rows[f.value];
      var w1 :=
        if verdict.Accepted? then (if c.status.Acknowledged? then w else SetStatus(w, f.value, Acknowledged))
        else if verdict.SequenceGap? || c.status.Acknowledged? then w else SetStatus(w, f.value, Cancelled);
      if c.runId in w.runs && w.runs[c.runId].lifecycle.Some? {
        var fact := if verdict.Accepted? then DecisionDelivered else HealthUnknown;
        ApplyFactIsCalm(w1, c.runId, w.runs[c.runId].lifecycle.value, fact, now, reduce);
      }
    }
  }

  // ----- delivery ----------------------------------------------------------------------------

  lemma ExamineIsCalm(w: World, snapshot: map<string, Run>, row: Command, capable: bool, now: nat, reduce: Reducer)
    requires Dense(w.rows)
    ensures Calm(w, Examine(w, snapshot, row, capable, now, reduce).w)
  {
    if row.runId in snapshot && snapshot[row.runId].lifecycle.Some? {
      var lc := snapshot[row.runId].lifecycle.value;
      var w1 := if !capable then ApplyFact(w, row.runId, lc, HealthUnknown, now, reduce).0 else w;
      ApplyFactIsCalm(w, row.runId, lc, HealthUnknown, now, reduce);
      CalmKeepsDense(w, w1);
      ApplyFactIsCalm(w1, row.runId, lc, ObserveFact, now, reduce);
      CalmTransitive(w, w1, Examine(w, snapshot, row, capable, now, reduce).w);
    }
  }

  /** The loop delivers an unbroken prefix of the candidates, none of them past the blocking row. */
  lemma {:induction false} ScanTakesPrefix(
      w: World, rows0: seq<Command>, snapshot: map<string, Run>, candidates: seq<nat>, k: nat, blocked: Option<nat>,
      limit: nat, capable: bool, now: nat, reduce: Reducer, acc: Batch)
    requires Dense(w.rows)
    requires forall a :: 0 <= a < |candidates| ==> candidates[a] < |rows0|
    requires k <= |candidates| && |acc.claimable| <= limit
    ensures var (w', b) := Scan(w, rows0, snapshot, candidates, k, blocked, limit, capable, now, reduce, acc);
            && Calm(w, w')
            && |b.claimable| <= limit
            && var m := k + |b.claimable| - |acc.claimable|;
            && k <= m <= |candidates| && b.claimable == acc.claimable + candidates[k..m]
            && forall a :: k <= a < m && blocked.Some? ==> rows0[candidates[a]].sequence <= blocked.value
    decreases |candidates| - k
  {
    hide Examine, Calm;
    var (w', b) := Scan(w, rows0, snapshot, candidates, k, blocked, limit, capable, now, reduce, acc);
    CalmItself(w);
    if k == |candidates| || |acc.claimable| >= limit {
      assert b.claimable == acc.claimable + candidates[k..k];
    } else {
      var row := rows0[candidates[k]];
      var e := Examine(w, snapshot, row, capable, now, reduce);
      ExamineIsCalm(w, snapshot, row, capable, now, reduce);
      if (blocked.Some? && row.sequence > blocked.value) || e.wait {
        assert b.claimable == acc.claimable + candidates[k..k];
      } else {
        CalmKeepsDense(w, e.w);
        var acc' := Batch(acc.claimable + [candidates[k]],
                          if e.neutral then acc.neutralized + {candidates[k]} else acc.neutralized);
        ScanTakesPrefix(e.w, rows0, snapshot, candidates, k + 1, blocked, limit, capable, now, reduce, acc');
        CalmTransitive(w, e.w, w');
        var m := k + |b.claimable| - |acc.claimable|;
        assert b.claimable == acc.claimable + candidates[k..m];
      }
    }
  }

  lemma {:induction false} FirstWithIsFirst(rows: seq<Command>, status: Status, from: nat)
    requires Dense(rows)
    ensures var f := FirstWith(rows, status, from);
            f.Some? ==> from < f.value <= |rows| && rows[f.value - 1].status == status
                        && forall j :: from <= j < f.value - 1 ==> rows[j].status != status
    ensures FirstWith(rows, status, from).None? ==> forall j :: from <= j < |rows| ==> rows[j].status != status
    decreases |rows| - from
  {
    if from < |rows| && rows[from].status != status {
      FirstWithIsFirst(rows, status, from + 1);
    }
  }

  /** A truncated page of pending rows has no gaps: it holds every pending row below each of its rows. */
  lemma PendingPageIsPrefix(rows: seq<Command>, limit: nat, i: nat, j: nat)
    requires i in PendingPage(rows, limit) && j < i && rows[j].status.Pending?
    ensures j in PendingPage(rows, limit)
  {
    PageIsPrefix(set k: nat | k < |rows| && rows[k].status.Pending?, (k: nat) => k, limit, j, i);
  }

  /** The rows one poll hands out: a prefix of the candidates that stops before the first held row. */
  ghost predicate Deliverable(w: World, claimable: seq<nat>, now: nat, limit: nat) {
    && |claimable| <= limit
    && claimable <= Candidates(w.rows, now, limit)
    && forall a :: 0 <= a < |claimable| ==>
         && claimable[a] < |w.rows|
         && (FirstWith(w.rows, CoordinatorPending, 0).Some? ==>
               w.rows[claimable[a]].sequence <= FirstWith(w.rows, CoordinatorPending, 0).value)
  }

  lemma ScanAllTakesPrefix(w: World, candidates: seq<nat>, blocked: Option<nat>, limit: nat, capable: bool, now: nat, reduce: Reducer)
    requires Dense(w.rows)
    requires forall a :: 0 <= a < |candidates| ==> candidates[a] < |w.rows|
    ensures var (w', b) := ScanAll(w, candidates, blocked, limit, capable, now, reduce);
            && Calm(w, w') && |b.claimable| <= limit && b.claimable <= candidates
            && forall a :: 0 <= a < |b.claimable| && blocked.Some? ==> w.rows[candidates[a]].sequence <= blocked.value
  {
    hide Scan, Calm;
    ScanTakesPrefix(w, w.rows, w.runs, candidates, 0, blocked, limit, capable, now, reduce, Batch([], {}));
  }

  lemma PollShape(w: World, capable: bool, now: nat, leaseMs: int, limit: int, reduce: Reducer) returns (w1: World)
    requires Dense(w.rows)
    requires Poll(w, true, capable, now, leaseMs, limit, reduce).Some?
    ensures var (w', b) := Poll(w, true, capable, now, leaseMs, limit, reduce).value;
            Deliverable(w, b.claimable, now, limit) && Calm(w, w1) && w' == MarkClaimed(w1, b.claimable, now + leaseMs)
  {
    hide ScanAll, FirstWith, Calm, MarkClaimed, Candidates;
    var candidates := Candidates(w.rows, now, limit);
    CandidatesShape(w, now, limit);
    ScanAllTakesPrefix(w, candidates, FirstWith(w.rows, CoordinatorPending, 0), limit, capable, now, reduce);
    w1 := ScanAll(w, candidates, FirstWith(w.rows, CoordinatorPending, 0), limit, capable, now, reduce).0;
  }

  /** Candidates are pending or expired claims in increasing order, with every pending row below each pending one. */
  lemma CandidatesShape(w: World, now: nat, limit: nat)
    ensures var c := Candidates(w.rows, now, limit);
            && (forall a :: 0 <= a < |c| ==> c[a] < |w.rows| && (w.rows[c[a]].status.Pending? || Expired(w.rows[c[a]], now)))
            && (forall a, b :: 0 <= a < b < |c| ==> c[a] < c[b])
            && (forall a, j :: 0 <= a < |c| && 0 <= j < c[a] && w.rows[c[a]].status.Pending? && w.rows[j].status.Pending? ==> j in c)
  {
    var c := Candidates(w.rows, now, limit);
    var page := PendingPage(w.rows, limit);
    AscendingMembers(page + ExpiredPage(w.rows, now, limit), |w.rows|);
    forall a | 0 <= a < |c|
      ensures c[a] < |w.rows| && (w.rows[c[a]].status.Pending? || Expired(w.rows[c[a]], now))
    {
      assert c[a] in c;
    }
    forall a, j | 0 <= a < |c| && 0 <= j < c[a] && w.rows[c[a]].status.Pending? && w.rows[j].status.Pending?
      ensures j in c
    {
      assert c[a] in c;
      PendingPageIsPrefix(w.rows, limit, c[a], j);
    }
  }

  /** Every row below a delivered one was delivered, comes earlier in the batch, or is resolved. */
  ghost predicate NoHole(w: World, claimable: seq<nat>) {
    forall n, j :: 0 <= n < |claimable| && 0 <= j < claimable[n] ==>
      claimable[n] < |w.rows| && (j in w.delivered || j in claimable[..n] || Resolved(w.rows[j]))
  }

  lemma DeliverableHasNoHole(w: World, claimable: seq<nat>, now: nat, limit: nat)
    requires Inv(w) && Deliverable(w, claimable, now, limit)
    ensures NoHole(w, claimable)
  {
    var c := Candidates(w.rows, now, limit);
    CandidatesShape(w, now, limit);
    FirstWithIsFirst(w.rows, CoordinatorPending, 0);
    forall n, j | 0 <= n < |claimable| && 0 <= j < claimable[n]
      ensures claimable[n] < |w.rows| && (j in w.delivered || j in claimable[..n] || Resolved(w.rows[j]))
    {
      if j !in w.delivered && !Resolved(w.rows[j]) {
        assert claimable[n] == c[n] && c[n] !in w.delivered;
        assert w.rows[j].status.Pending?;
        var k :| 0 <= k < |c| && c[k] == j;
        assert k < n;
        assert claimable[..n][k] == j;
      }
    }
  }

  /**
   No hole is delivered. Whenever a poll hands out a command, every lower command was handed out
   before, comes earlier in the same batch, or is resolved.
   */
  lemma NoHoleDelivered(w: World, capable: bool, now: nat, leaseMs: int, limit: int, reduce: Reducer)
    requires Inv(w)
    requires Poll(w, true, capable, now, leaseMs, limit, reduce).Some?
    ensures NoHole(w, Poll(w, true, capable, now, leaseMs, limit, reduce).value.1.claimable)
  {
    var w1 := PollShape(w, capable, now, leaseMs, limit, reduce);
    DeliverableHasNoHole(w, Poll(w, true, capable, now, leaseMs, limit, reduce).value.1.claimable, now, limit);
  }

  lemma ClaimKeepsInv(w: World, w1: World, claimable: seq<nat>, now: nat, limit: nat, expiresAt: nat)
    requires Inv(w) && Calm(w, w1) && Deliverable(w, claimable, now, limit)
    ensures Inv(MarkClaimed(w1, claimable, expiresAt)) && Extends(w, MarkClaimed(w1, claimable, expiresAt))
  {
    hide Candidates, FirstWith;
    var w' := MarkClaimed(w1, claimable, expiresAt);
    CandidatesShape(w, now, limit);
    DeliverableHasNoHole(w, claimable, now, limit);
    assert forall i :: i in claimable ==> i < |w.rows| && !Resolved(w.rows[i]) && !w.rows[i].status.CoordinatorPending?;
    forall i, j | i in w'.delivered && 0 <= j < i
      ensures j in w'.delivered || Resolved(w'.rows[j])
    {
      if i !in w.delivered {
        var n :| 0 <= n < |claimable| && claimable[n] == i;
        assert j in w.delivered || j in claimable[..n] || Resolved(w.rows[j]);
      }
    }
  }

  lemma PollKeepsInv(w: World, available: bool, capable: bool, now: nat, leaseMs: int, limit: int, reduce: Reducer)
    requires Inv(w)
    requires Poll(w, available, capable, now, leaseMs, limit, reduce).Some?
    ensures var w' := Poll(w, available, capable, now, leaseMs, limit, reduce).value.0;
            Inv(w') && Extends(w, w')
  {
    hide ScanAll, Candidates, FirstWith, MarkClaimed;
    hide Calm, Deliverable;
    if available {
      var w1 := PollShape(w, capable, now, leaseMs, limit, reduce);
      ClaimKeepsInv(w, w1, Poll(w, available, capable, now, leaseMs, limit, reduce).value.1.claimable, now, limit, now + leaseMs);
    }
  }

  lemma CalmIsQuiet(w: World, w': World)
    requires Calm(w, w')
    ensures Quiet(w, w')
  {}

  /** Enqueueing, run writes, stops and terminal events deliver nothing and reopen nothing. */
  lemma RowStepIsQuiet(w: World, a: Action, reduce: Reducer)
    requires Dense(w.rows) && (a.Enqueue? || a.WriteRun? || a.StopEnvironment? || a.TerminalEvent?)
    ensures Quiet(w, Step(w, a, reduce))
  {
    hide ApplyFact, Advance, Acknowledge, Poll, InRunPage;
  }

  /** Every step other than a poll is quiet. */
  lemma StepIsQuiet(w: World, a: Action, reduce: Reducer)
    requires Dense(w.rows) && !a.PollCommands?
    ensures Quiet(w, Step(w, a, reduce))
  {
    hide Calm, Quiet, ApplyFact, Advance, Acknowledge, Append, CancelOpen, FinishRun;
    CalmItself(w);
    match a
    case ApplyRunFact(runId, fact, at) =>
      if runId in w.runs && w.runs[runId].lifecycle.Some? {
        ApplyFactIsCalm(w, runId, w.runs[runId].lifecycle.value, fact, at, reduce);
      }
      CalmIsQuiet(w, Step(w, a, reduce));
    case AdvanceRun(runId, coordinator, generation, wake, refused, at) =>
      AdvanceIsCalm(w, runId, coordinator, generation, wake, refused, at, reduce);
      CalmIsQuiet(w, Step(w, a, reduce));
    case Ack(id, verdict, at) => AcknowledgeIsQuiet(w, id, verdict, at, reduce);
    case _ => RowStepIsQuiet(w, a, reduce);
  }

  /** Every step of the protocol keeps the invariant, and resolution and delivery only grow. */
  lemma StepKeepsInv(w: World, a: Action, reduce: Reducer)
    requires Inv(w)
    ensures Inv(Step(w, a, reduce)) && Extends(w, Step(w, a, reduce))
  {
    hide Quiet, ApplyFact, Advance, Acknowledge, Poll;
    if a.PollCommands? {
      if Poll(w, a.available, a.lifecycleCapable, a.now, a.leaseMs, a.limit, reduce).Some? {
        PollKeepsInv(w, a.available, a.lifecycleCapable, a.now, a.leaseMs, a.limit, reduce);
      }
    } else {
      StepIsQuiet(w, a, reduce);
      hide Step, Inv;
      QuietKeepsInv(w, Step(w, a, reduce));
    }
  }

  lemma {:induction false} RunKeepsInv(w: World, actions: seq<Action>, reduce: Reducer)
    requires Inv(w)
    ensures Inv(Run(w, actions, reduce)) && Extends(w, Run(w, actions, reduce))
    decreases |actions|
  {
    if actions != [] {
      StepKeepsInv(w, actions[0], reduce);
      RunKeepsInv(Step(w, actions[0], reduce), actions[1..], reduce);
    }
  }

  /** Over every run from an empty environment: sequence numbers are 1..n and no poll delivers past a hole. */
  lemma NoHoleInAnyRun(actions: seq<Action>, capable: bool, now: nat, leaseMs: int, limit: int, reduce: Reducer)
    requires Poll(Run(EMPTY, actions, reduce), true, capable, now, leaseMs, limit, reduce).Some?
    ensures Dense(Run(EMPTY, actions, reduce).rows)
    ensures NoHole(Run(EMPTY, actions, reduce),
                   Poll(Run(EMPTY, actions, reduce), true, capable, now, leaseMs, limit, reduce).value.1.claimable)
  {
    RunKeepsInv(EMPTY, actions, reduce);
    NoHoleDelivered(Run(EMPTY, actions, reduce), capable, now, leaseMs, limit, reduce);
  }

  // ----- resolution floor ---------------------------------------------------------------------

  /** The simple meaning of the floor: everything up to it is resolved, and the next row, if any, is open. */
  ghost predicate IsFloor(rows: seq<Command>, k: int) {
    && 0 <= k <= |rows|
    && (forall i :: 0 <= i < k ==> Resolved(rows[i]))
    && (k < |rows| ==> !Resolved(rows[k]))
  }

  /** The three first-row lookups compute exactly the simple floor. */
  lemma FloorIsExact(rows: seq<Command>, k: int)
    requires Dense(rows)
    ensures IsFloor(rows, k) <==> k == Floor(rows)
  {
    FirstWithIsFirst(rows, Pending, 0);
    FirstWithIsFirst(rows, Claimed, 0);
    FirstWithIsFirst(rows, CoordinatorPending, 0);
    assert IsFloor(rows, Floor(rows));
  }

  /** Over any run the floor never falls. */
  lemma FloorNeverFalls(w: World, actions: seq<Action>, reduce: Reducer)
    requires Inv(w)
    ensures Floor(w.rows) <= Floor(Run(w, actions, reduce).rows)
  {
    var w' := Run(w, actions, reduce);
    RunKeepsInv(w, actions, reduce);
    FloorIsExact(w.rows, Floor(w.rows));
    FloorIsExact(w'.rows, Floor(w'.rows));
  }
}
