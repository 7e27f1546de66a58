/**
 The numbered command stream of one non-cloud environment
 (convex/agents/connectedAgents.ts, remoteRunModel.ts, remoteRuns.ts).

 A world is the command table in insertion order, the run rows, the known attempts, and the
 specification-only set of positions that some poll has already handed to the host.
 The lifecycle reducer is a parameter: every theorem holds whichever phase it picks.
 */
module CommandQueue {
  import opened Common

  datatype CommandId =
    | Given(name: string)
    | Stop(runId: string, attempt: string)
    | Probe(runId: string, attempt: string, minute: nat)
    | PreparationRetry(of: CommandId)

  datatype Kind = Start(freshAttempt: bool) | Observe | Cancel | Shutdown | ApprovalResponse | OtherKind

  datatype Status = Pending | Claimed | CoordinatorPending | Acknowledged | Cancelled

  datatype Command = Command(
    id: CommandId,
    runId: string,
    attempt: Option<string>,
    kind: Kind,
    sequence: nat,
    status: Status,
    claimExpiresAt: Option<nat>)

  datatype Phase =
    | Queued | Waking | Starting | Running | WaitingForApproval | WaitingForInput | Recovering | Finalizing
    | NeedsAttention | Cancelling | Completed | PhaseCancelled | Failed

  datatype Cause = CommandUnclaimed | ProcessHealthRequired | OtherCause

  datatype Lifecycle = Lifecycle(
    phase: Phase,
    cause: Cause,
    attempt: string,
    coordinator: Option<string>,
    generation: nat,
    claimDeadlineAt: nat,
    prepared: bool)

  datatype RunStatus = RunQueued | RunRunning | RunWaitingForApproval | RunCompleted | RunFailed | RunCancelled

  datatype Run = Run(lifecycle: Option<Lifecycle>, status: RunStatus, leaseExpiresAt: Option<nat>)

  datatype Fact = HealthUnknown | ObserveFact | WakeFact | DispatchFact | StoppedFact | RefuseFact | DecisionDelivered | OtherFact(name: string)

  /** None is a fact the reducer does not apply. */
  type Reducer = (Lifecycle, Fact, nat) -> Option<Lifecycle>

  datatype World = World(rows: seq<Command>, runs: map<string, Run>, sessions: set<string>, delivered: set<nat>)

  const RUN_COMMANDS: nat := 100
  const ENVIRONMENT_COMMANDS: nat := 1000
  const MAX_COMMANDS_PER_POLL: nat := 50

  predicate Resolved(c: Command) {
    c.status.Acknowledged? || c.status.Cancelled?
  }

  function CoarseStatus(p: Phase): RunStatus {
    match p
    case Completed => RunCompleted
    case PhaseCancelled => RunCancelled
    case Failed => RunFailed
    case WaitingForApproval | WaitingForInput => RunWaitingForApproval
    case Queued | Waking | Starting => RunQueued
    case _ => RunRunning
  }

  // ----- producers -------------------------------------------------------------------------

  /** The newest sequence number of the environment, or 0. */
  function Latest(rows: seq<Command>): nat {
    if rows == [] then 0 else rows[|rows| - 1].sequence
  }

  function Append(w: World, id: CommandId, runId: string, attempt: Option<string>, kind: Kind, status: Status): World {
    w.(rows := w.rows + [Command(id, runId, attempt, kind, Latest(w.rows) + 1, status, None)])
  }

  function EnsureCommand(w: World, id: CommandId, runId: string, attempt: string, kind: Kind): World {
    if exists i :: 0 <= i < |w.rows| && w.rows[i].id == id then w
    else Append(w, id, runId, Some(attempt), kind, Pending)
  }

  /** The row is among the first hundred commands of its run. */
  predicate InRunPage(rows: seq<Command>, runId: string, i: nat)
    requires i < |rows|
  {
    rows[i].runId == runId && |set j: nat | 0 <= j < i && rows[j].runId == runId| < RUN_COMMANDS
  }

  predicate Held(rows: seq<Command>, runId: string, i: nat)
    requires i < |rows|
  {
    rows[i].status.CoordinatorPending? && InRunPage(rows, runId, i)
  }

  /** Held commands of a run go out as shutdowns instead. */
  function ReleaseAsShutdown(rows: seq<Command>, runId: string): seq<Command> {
    seq(|rows|, i requires 0 <= i < |rows| =>
      if Held(rows, runId, i) then rows[i].(kind := Shutdown, status := Pending) else rows[i])
  }

  /** Held commands of the current attempt are dispatched unchanged. */
  function ReleaseForDispatch(rows: seq<Command>, runId: string, attempt: string): seq<Command> {
    seq(|rows|, i requires 0 <= i < |rows| =>
      if Held(rows, runId, i) && rows[i].attempt == Some(attempt) then rows[i].(status := Pending) else rows[i])
  }

  predicate HoldsStart(rows: seq<Command>, runId: string, attempt: string) {
    exists i :: 0 <= i < |rows| && Held(rows, runId, i) && rows[i].kind.Start? && rows[i].attempt == Some(attempt)
  }

  function PatchRun(w: World, runId: string, next: Lifecycle): World {
    if runId in w.runs
    then w.(runs := w.runs[runId := w.runs[runId].(lifecycle := Some(next), status := CoarseStatus(next.phase))])
    else w
  }

  predicate AnyHeld(rows: seq<Command>, runId: string) {
    exists i :: 0 <= i < |rows| && Held(rows, runId, i)
  }

  /** A cancelling run: its held commands go out as shutdowns, and its one stop command is queued. */
  function QueueStop(w: World, runId: string, attempt: string): World {
    EnsureCommand(w.(rows := ReleaseAsShutdown(w.rows, runId)), Stop(runId, attempt), runId, attempt, Cancel)
  }

  /**
   The command effects of applying a fact to a run, given the lifecycle the caller read. A never
   dispatched start is stopped at once, which applies a second fact.
   */
  function ApplyFact(w: World, runId: string, current: Lifecycle, fact: Fact, now: nat, reduce: Reducer): (World, Option<Lifecycle>)
    decreases AnyHeld(w.rows, runId)
  {
    match reduce(current, fact, now)
    case None => (w, None)
    case Some(next) =>
      var w1 := PatchRun(w, runId, next);
      if next.attempt !in w.sessions then (w1, Some(next))
      else if next.phase.NeedsAttention? && next.cause.CommandUnclaimed? then
        (w1.(rows := ReleaseAsShutdown(w1.rows, runId)), Some(next))
      else if next.phase.Cancelling? then
        var w2 := QueueStop(w1, runId, next.attempt);
        if HoldsStart(w1.rows, runId, next.attempt) then
          StopLeavesNothingHeld(w1, runId, next.attempt);
          ApplyFact(w2, runId, next, StoppedFact, now, reduce)
        else (w2, Some(next))
      else (w1, Some(next))
  }

  /** Once a run's page is released nothing on it is held, also after the stop command is added. */
  lemma StopLeavesNothingHeld(w: World, runId: string, attempt: string)
    ensures !AnyHeld(QueueStop(w, runId, attempt).rows, runId)
  {
    var w' := QueueStop(w, runId, attempt);
    forall i | 0 <= i < |w'.rows|
      ensures !Held(w'.rows, runId, i)
    {
      if i < |w.rows| {
        assert (set j: nat | 0 <= j < i && w'.rows[j].runId == runId) == (set j: nat | 0 <= j < i && w.rows[j].runId == runId);
      }
    }
  }

  /** The lifecycle a caller goes on with: the reduced one when the fact applied. */
  function AfterFact(w: World, runId: string, current: Lifecycle, fact: Fact, now: nat, reduce: Reducer): (World, Lifecycle) {
    var (w', next) := ApplyFact(w, runId, current, fact, now, reduce);
    (w', GetOr(next, current))
  }

  /** A waiting run that is not being woken is dispatched, with the commands held for its attempt. */
  function Dispatched(w: World, runId: string, lc: Lifecycle, wake: bool, now: nat, reduce: Reducer): (World, Lifecycle) {
    if (lc.phase.Queued? || lc.phase.Waking?) && !wake then
      var (w', lc') := AfterFact(w, runId, lc, DispatchFact, now, reduce);
      (w'.(rows := ReleaseForDispatch(w'.rows, runId, lc'.attempt)), lc')
    else (w, lc)
  }

  /** At most one health probe per attempt and minute. */
  function Probed(w: World, runId: string, lc: Lifecycle, now: nat): World {
    if lc.phase.NeedsAttention? && lc.cause.ProcessHealthRequired?
    then EnsureCommand(w, Probe(runId, lc.attempt, now / 60000), runId, lc.attempt, Observe)
    else w
  }

  /** One coordinator tick of a run. */
  function Advance(w: World, runId: string, coordinator: string, generation: nat, wake: bool, refused: bool,
                   now: nat, reduce: Reducer): World
  {
    if runId !in w.runs || w.runs[runId].lifecycle.None? then w
    else
      var lc := w.runs[runId].lifecycle.value;
      if lc.coordinator != Some(coordinator) || lc.generation != generation || lc.attempt !in w.sessions then w
      else
        var (w1, lc1) := AfterFact(w, runId, lc, if refused then RefuseFact else if wake then WakeFact else ObserveFact, now, reduce);
        var (w2, lc2) := Dispatched(w1, runId, lc1, wake, now, reduce);
        var w3 := Probed(w2, runId, lc2, now);
        if lc2.phase.Cancelling? then EnsureCommand(w3, Stop(runId, lc2.attempt), runId, lc2.attempt, Cancel) else w3
  }

  // ----- acknowledgement and bulk resolution -------------------------------------------------

  datatype Verdict = Accepted | SequenceGap | PreparationRetryable(next: Lifecycle) | Rejected

  /** The first position at or after `from` that holds the command. */
  function Find(rows: seq<Command>, id: CommandId, from: nat): Option<nat>
    decreases |rows| - from
  {
    if from >= |rows| then None
    else if rows[from].id == id then Some(from)
    else Find(rows, id, from + 1)
  }

  function SetStatus(w: World, i: nat, status: Status): World
    requires i < |w.rows|
  {
    w.(rows := w.rows[i := w.rows[i].(status := status, claimExpiresAt := None)])
  }

  /** A host verdict on one command, and the run effects that follow it. */
  function Acknowledge(w: World, id: CommandId, verdict: Verdict, now: nat, reduce: Reducer): (World, bool) {
    match Find(w.rows, id, 0)
    case None => (w, false)
    case Some(i) =>
      if i >= |w.rows| || w.rows[i].status.Cancelled? then (w, false)
      else
        var c := w.rows[i];
        var run := if c.runId in w.runs then Some(w.runs[c.runId]) else None;
        if verdict.Accepted? then
          var w1 := if c.status.Acknowledged? then w else SetStatus(w, i, Acknowledged);
          if c.kind.ApprovalResponse? && run.Some? && run.value.lifecycle.Some?
             && c.attempt == Some(run.value.lifecycle.value.attempt)
          then (ApplyFact(w1, c.runId, run.value.lifecycle.value, DecisionDelivered, now, reduce).0, true)
          else (w1, true)
        else if c.status.Acknowledged? then (w, false)
        else
          var w1 := if verdict.SequenceGap? then w else SetStatus(w, i, Cancelled);
          if run.Some? && run.value.lifecycle.Some? && run.value.lifecycle.value.attempt in w.sessions then
            if verdict.SequenceGap? then (w1, true)
            else if verdict.PreparationRetryable? && c.status.Claimed? then
              (PatchRun(Append(w1, PreparationRetry(id), c.runId, c.attempt, c.kind, Pending), c.runId, verdict.next), true)
            else (ApplyFact(w1, c.runId, run.value.lifecycle.value, HealthUnknown, now, reduce).0, true)
          else if run.Some? && run.value.lifecycle.None? && !(run.value.status in {RunCompleted, RunFailed, RunCancelled}) then
            (w1.(runs := w1.runs[c.runId := run.value.(status := RunFailed)]), true)
          else (w1, true)
  }

  /** Stopping a machine or revoking the environment cancels its open commands, at most a page of them. */
  function CancelOpen(w: World, now: nat): World {
    w.(rows := seq(|w.rows|, i requires 0 <= i < |w.rows| =>
      if i < ENVIRONMENT_COMMANDS && (w.rows[i].status.Pending? || w.rows[i].status.Claimed?)
      then w.rows[i].(status := Cancelled, claimExpiresAt := Some(now)) else w.rows[i]))
  }

  /** A terminal event acknowledges whatever the host was still given for the run. */
  function FinishRun(w: World, runId: string): World {
    w.(rows := seq(|w.rows|, i requires 0 <= i < |w.rows| =>
      if InRunPage(w.rows, runId, i) && (w.rows[i].status.Claimed? || w.rows[i].status.Acknowledged?)
      then w.rows[i].(status := Acknowledged, claimExpiresAt := None) else w.rows[i]))
  }

  // ----- delivery ------------------------------------------------------------------------------

  predicate Expired(c: Command, now: nat) {
    c.status.Claimed? && GetOr(c.claimExpiresAt, 0) <= now
  }

  /** The `limit` lowest pending rows. */
  function PendingPage(rows: seq<Command>, limit: nat): set<nat> {
    Page(set i: nat | i < |rows| && rows[i].status.Pending?, (i: nat) => i, limit)
  }

  /** The `limit` claims that expired earliest. */
  function ExpiredPage(rows: seq<Command>, now: nat, limit: nat): set<nat> {
    Page(set i: nat | i < |rows| && Expired(rows[i], now),
         (i: nat) => if i < |rows| then GetOr(rows[i].claimExpiresAt, 0) else 0, limit)
  }

  /** The members of `s` below `n`, in increasing order. */
  function Ascending(s: set<nat>, n: nat): seq<nat> {
    if n == 0 then [] else Ascending(s, n - 1) + (if n - 1 in s then [n - 1] else [])
  }

  /** Sequence number of the first row with the status. */
  function FirstWith(rows: seq<Command>, status: Status, from: nat): Option<nat>
    decreases |rows| - from
  {
    if from >= |rows| then None
    else if rows[from].status == status then Some(rows[from].sequence)
    else FirstWith(rows, status, from + 1)
  }

  datatype Examined = Examined(w: World, neutral: bool, wait: bool)

  /** What delivery decides about one candidate row, from the run row read before the loop. */
  function Examine(w: World, snapshot: map<string, Run>, row: Command, lifecycleCapable: bool, now: nat, reduce: Reducer): Examined {
    if row.runId !in snapshot then Examined(w, false, false)
    else
      var run := snapshot[row.runId];
      if run.lifecycle.None? then
        Examined(w, !row.kind.Cancel? && (!(run.status in {RunQueued, RunRunning, RunWaitingForApproval})
                    || (run.leaseExpiresAt.Some? && run.leaseExpiresAt.value <= now)), false)
      else
        var lc := run.lifecycle.value;
        var legacy := !lifecycleCapable;
        var w1 := if legacy then ApplyFact(w, row.runId, lc, HealthUnknown, now, reduce).0 else w;
        var unclaimed := row.kind.Start? && !row.kind.freshAttempt && !lc.prepared && now >= lc.claimDeadlineAt;
        var w2 := if unclaimed then ApplyFact(w1, row.runId, lc, ObserveFact, now, reduce).0 else w1;
        if lc.coordinator.None? && !row.kind.Cancel? && !row.kind.Shutdown? && !legacy && !unclaimed then Examined(w2, false, true)
        else
          var over := lc.phase in {Cancelling, Completed, PhaseCancelled, Failed} && !(row.kind in {Cancel, Shutdown, Observe});
          Examined(w2, legacy || unclaimed || over, false)
  }

  datatype Batch = Batch(claimable: seq<nat>, neutralized: set<nat>)

  /** The delivery loop from candidate `k` on. Row contents are the ones read before the loop. */
  function Scan(w: World, rows0: seq<Command>, snapshot: map<string, Run>, candidates: seq<nat>, k: nat, blocked: Option<nat>,
                limit: nat, lifecycleCapable: bool, now: nat, reduce: Reducer, acc: Batch): (World, Batch)
    requires forall a :: 0 <= a < |candidates| ==> candidates[a] < |rows0|
    requires k <= |candidates|
    decreases |candidates| - k
  {
    if k == |candidates| || |acc.claimable| >= limit then (w, acc)
    else
      var row := rows0[candidates[k]];
      if blocked.Some? && row.sequence > blocked.value then (w, acc)
      else
        var e := Examine(w, snapshot, row, lifecycleCapable, now, reduce);
        if e.wait then (e.w, acc)
        else
          Scan(e.w, rows0, snapshot, candidates, k + 1, blocked, limit, lifecycleCapable, now, reduce,
               Batch(acc.claimable + [candidates[k]], if e.neutral then acc.neutralized + {candidates[k]} else acc.neutralized))
  }

  function MarkClaimed(w: World, claimable: seq<nat>, expiresAt: nat): World {
    w.(rows := seq(|w.rows|, i requires 0 <= i < |w.rows| =>
         if i in claimable then w.rows[i].(status := Claimed, claimExpiresAt := Some(expiresAt)) else w.rows[i]),
       delivered := w.delivered + (set i | i in claimable))
  }

  function Candidates(rows: seq<Command>, now: nat, limit: nat): seq<nat> {
    Ascending(PendingPage(rows, limit) + ExpiredPage(rows, now, limit), |rows|)
  }

  lemma {:induction false} AscendingMembers(s: set<nat>, n: nat)
    ensures forall i :: i in Ascending(s, n) <==> i < n && i in s
    ensures forall a, b :: 0 <= a < b < |Ascending(s, n)| ==> Ascending(s, n)[a] < Ascending(s, n)[b]
  {
    if n > 0 {
      AscendingMembers(s, n - 1);
      var front := Ascending(s, n - 1);
      assert forall a :: 0 <= a < |front| ==> front[a] in front;
      forall i
        ensures i in Ascending(s, n) <==> i < n && i in s
      {
        assert i in Ascending(s, n) <==> i in front || (n - 1 in s && i == n - 1);
      }
    }
  }

  function ScanAll(w: World, candidates: seq<nat>, blocked: Option<nat>, limit: nat, lifecycleCapable: bool, now: nat, reduce: Reducer): (World, Batch)
    requires forall a :: 0 <= a < |candidates| ==> candidates[a] < |w.rows|
  {
    Scan(w, w.rows, w.runs, candidates, 0, blocked, limit, lifecycleCapable, now, reduce, Batch([], {}))
  }

  /** One poll. None is the refused argument; an unavailable environment delivers nothing. */
  function Poll(w: World, available: bool, lifecycleCapable: bool, now: nat, leaseMs: int, limit: int, reduce: Reducer): Option<(World, Batch)> {
    if !available then Some((w, Batch([], {})))
    else if limit < 1 || limit > MAX_COMMANDS_PER_POLL || leaseMs < 1000 || leaseMs > 60000 then None
    else
      var candidates := Candidates(w.rows, now, limit);
      AscendingMembers(PendingPage(w.rows, limit) + ExpiredPage(w.rows, now, limit), |w.rows|);
      assert forall a :: 0 <= a < |candidates| ==> candidates[a] in candidates;
      var (w1, batch) := ScanAll(w, candidates, FirstWith(w.rows, CoordinatorPending, 0), limit, lifecycleCapable, now, reduce);
      Some((MarkClaimed(w1, batch.claimable, now + leaseMs), batch))
  }

  /** The lower of two looked-up sequence numbers. */
  function Lower(a: Option<nat>, b: Option<nat>): Option<nat> {
    if a.None? then b else if b.None? || a.value <= b.value then a else b
  }

  /** The resolution floor, from one first-row lookup per open status. */
  function Floor(rows: seq<Command>): int {
    match Lower(Lower(FirstWith(rows, Pending, 0), FirstWith(rows, Claimed, 0)), FirstWith(rows, CoordinatorPending, 0))
    case Some(first) => first - 1
    case None => Latest(rows)
  }
}
