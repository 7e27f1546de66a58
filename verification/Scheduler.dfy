/**
 The automation scheduler (convex/automations/automations.ts): one tick takes a page of due
 automations, deals them out to users in turn, and queues, skips or disables each one it takes.
 The schedule (`next`) and the plan policy (`violates`) are parameters.
 */
module Scheduler {
  import opened Common

  const STALE_RUN_MS: nat := 15 * 60000
  const USER_CAP: nat := 5
  const CANDIDATES: nat := 100

  datatype Status = Queued | Running | Completed | Failed | CancelRequested | Cancelled | Skipped

  datatype AutomationRun = AutomationRun(
    automation: nat,
    user: nat,
    status: Status,
    scheduledFor: nat,
    createdAt: nat,
    startedAt: Option<nat>,
    updatedAt: nat)

  datatype Policy = SkipBusy | QueueBusy

  datatype Automation = Automation(user: nat, enabled: bool, nextRunAt: Option<nat>, deleted: bool, policy: Policy)

  /** Rows are known by their position. */
  datatype Desk = Desk(automations: seq<Automation>, runs: seq<AutomationRun>)

  /** What a tick remembers of a due automation. */
  datatype Candidate = Candidate(id: nat, scheduledFor: nat, policy: Policy)

  datatype Lane = Lane(user: nat, queue: seq<Candidate>)

  /** `asOf` is the caller's time, `clock` the mutation's own; the policy reads automation rows. */
  datatype Env = Env(limit: nat, asOf: nat, clock: nat, next: (nat, nat) -> nat, violates: (seq<Automation>, nat) -> bool)

  datatype Tick = Tick(desk: Desk, lanes: seq<Lane>, claimed: map<nat, nat>, runIds: seq<nat>, exhausted: bool)

  predicate Active(r: AutomationRun) {
    r.status.Queued? || r.status.Running?
  }

  // ----- the busy check ------------------------------------------------------------------------

  function FirstRun(runs: seq<AutomationRun>, a: nat, s: Status, from: nat): Option<nat>
    decreases |runs| - from
  {
    if from >= |runs| then None
    else if runs[from].automation == a && runs[from].status == s then Some(from)
    else FirstRun(runs, a, s, from + 1)
  }

  lemma {:induction false} FirstRunFinds(runs: seq<AutomationRun>, a: nat, s: Status, from: nat)
    ensures var f := FirstRun(runs, a, s, from);
            && (f.Some? ==> from <= f.value < |runs| && runs[f.value].automation == a && runs[f.value].status == s)
            && (f.None? ==> forall i :: from <= i < |runs| ==> !(runs[i].automation == a && runs[i].status == s))
    decreases |runs| - from
  {
    if from < |runs| && !(runs[from].automation == a && runs[from].status == s) {
      FirstRunFinds(runs, a, s, from + 1);
    }
  }

  function Expire(d: Desk, i: nat, now: nat): Desk
    requires i < |d.runs|
  {
    d.(runs := d.runs[i := d.runs[i].(status := Failed, updatedAt := now)])
  }

  function StartedAt(r: AutomationRun): nat {
    GetOr(r.startedAt, r.updatedAt)
  }

  /** Whether an earlier run still blocks; a stale one is failed instead of blocking. */
  function Busy(d: Desk, a: nat, now: nat): (Desk, bool) {
    var queued := FirstRun(d.runs, a, Queued, 0);
    FirstRunFinds(d.runs, a, Queued, 0);
    if queued.Some? && now - d.runs[queued.value].createdAt <= STALE_RUN_MS then (d, true)
    else
      var d1 := if queued.Some? then Expire(d, queued.value, now) else d;
      var running := FirstRun(d1.runs, a, Running, 0);
      FirstRunFinds(d1.runs, a, Running, 0);
      if running.None? then (d1, false)
      else if now - StartedAt(d1.runs[running.value]) <= STALE_RUN_MS then (d1, true)
      else (Expire(d1, running.value, now), false)
  }

  // ----- serving one candidate -----------------------------------------------------------------

  function NewRun(c: Candidate, user: nat, s: Status, now: nat): AutomationRun {
    AutomationRun(c.id, user, s, c.scheduledFor, now, None, now)
  }

  function Disable(d: Desk, a: nat): Desk
    requires a < |d.automations|
  {
    d.(automations := d.automations[a := d.automations[a].(enabled := false, nextRunAt := None)])
  }

  /** The automation's next due time, with the run its last due time produced. */
  function Record(d: Desk, a: nat, at: nat, run: AutomationRun): Desk
    requires a < |d.automations|
  {
    Desk(d.automations[a := d.automations[a].(nextRunAt := Some(at))], d.runs + [run])
  }

  /** True when a run was queued. */
  function Serve(d: Desk, c: Candidate, user: nat, e: Env): (Desk, bool)
    requires c.id < |d.automations|
  {
    if e.violates(d.automations, c.id) then (Disable(d, c.id), false)
    else
      var at := e.next(c.id, Max(e.asOf, c.scheduledFor));
      var (d1, busy) := if c.policy.SkipBusy? then Busy(d, c.id, e.clock) else (d, false);
      if busy then (Record(d1, c.id, at, NewRun(c, user, Skipped, e.clock)), false)
      else (Record(d1, c.id, at, NewRun(c, user, Queued, e.clock)), true)
  }

  // ----- the round robin -------------------------------------------------------------------------

  function Claimed(t: Tick, user: nat): nat {
    if user in t.claimed then t.claimed[user] else 0
  }

  predicate InRange(t: Tick) {
    forall i, p :: 0 <= i < |t.lanes| && 0 <= p < |t.lanes[i].queue| ==> t.lanes[i].queue[p].id < |t.desk.automations|
  }

  /** The lane has work and its user is under the cap. */
  predicate Eligible(t: Tick, k: nat)
    requires k < |t.lanes|
  {
    Claimed(t, t.lanes[k].user) < USER_CAP && t.lanes[k].queue != []
  }

  function Pop(t: Tick, k: nat): Tick
    requires k < |t.lanes| && t.lanes[k].queue != []
  {
    t.(lanes := t.lanes[k := t.lanes[k].(queue := t.lanes[k].queue[1..])])
  }

  function Visit(t: Tick, k: nat, e: Env): Tick
    requires k < |t.lanes| && InRange(t)
  {
    if !Eligible(t, k) then t
    else
      var user := t.lanes[k].user;
      var (desk, queued) := Serve(t.desk, t.lanes[k].queue[0], user, e);
      var t1 := Pop(t, k).(desk := desk);
      if !queued then t1
      else t1.(runIds := t1.runIds + [|desk.runs| - 1], claimed := t1.claimed[user := Claimed(t, user) + 1], exhausted := false)
  }

  lemma VisitShape(t: Tick, k: nat, e: Env)
    requires k < |t.lanes| && InRange(t)
    ensures var t' := Visit(t, k, e);
            && |t'.lanes| == |t.lanes| && |t'.desk.automations| == |t.desk.automations| && InRange(t')
            && |t.runIds| <= |t'.runIds| <= |t.runIds| + 1
            && (t'.exhausted <==> t.exhausted && |t'.runIds| == |t.runIds|)
  {}

  /** One pass over the users, from the k-th on. */
  function Round(t: Tick, k: nat, e: Env): (t': Tick)
    requires InRange(t)
    ensures InRange(t') && |t'.lanes| == |t.lanes|
    ensures |t.runIds| <= |t'.runIds| && (|t.runIds| <= e.limit ==> |t'.runIds| <= e.limit)
    ensures t'.exhausted <==> t.exhausted && |t'.runIds| == |t.runIds|
    decreases |t.lanes| - k
  {
    if k >= |t.lanes| || |t.runIds| >= e.limit then t
    else
      VisitShape(t, k, e);
      Round(Visit(t, k, e), k + 1, e)
  }

  function Rounds(t: Tick, e: Env): (t': Tick)
    requires InRange(t) && |t.runIds| <= e.limit
    decreases e.limit - |t.runIds|, !t.exhausted
  {
    if |t.runIds| >= e.limit || t.exhausted then t
    else Rounds(Round(t.(exhausted := true), 0, e), e)
  }

  // ----- the candidates --------------------------------------------------------------------------

  /** The enabled, due part of the index; a missing due time sorts first and is let in. */
  function DueSet(d: Desk, asOf: nat): set<nat> {
    set i: nat | i < |d.automations| && d.automations[i].enabled && GetOr(d.automations[i].nextRunAt, 0) <= asOf
  }

  function DueKey(d: Desk): nat -> int {
    (i: nat) => if i < |d.automations| && d.automations[i].nextRunAt.Some? then d.automations[i].nextRunAt.value else -1
  }

  function CandidateLimit(limit: nat): nat {
    Min(CANDIDATES, limit * 4)
  }

  ghost function DuePage(d: Desk, e: Env): seq<nat> {
    InOrder(Page(DueSet(d, e.asOf), DueKey(d), CandidateLimit(e.limit)), DueKey(d))
  }

  predicate Usable(d: Desk, a: nat) {
    a < |d.automations| && !d.automations[a].deleted && d.automations[a].nextRunAt.Some?
  }

  /** A user's due automations, in the order of the page. */
  function QueueOf(d: Desk, page: seq<nat>, user: nat): seq<Candidate>
    decreases |page|
  {
    if page == [] then []
    else
      var rest := QueueOf(d, page[..|page| - 1], user);
      var a := page[|page| - 1];
      if Usable(d, a) && d.automations[a].user == user
      then rest + [Candidate(a, d.automations[a].nextRunAt.value, d.automations[a].policy)] else rest
  }

  function Users(d: Desk, page: seq<nat>): set<nat> {
    set a | a in page && Usable(d, a) :: d.automations[a].user
  }

  /** Users are served in the order of their earliest due time, then by name. */
  function EarliestKey(d: Desk, page: seq<nat>): nat -> int {
    (user: nat) => var q := QueueOf(d, page, user); if q == [] then 0 else q[0].scheduledFor
  }

  function LanesFor(d: Desk, page: seq<nat>, users: seq<nat>): seq<Lane> {
    seq(|users|, k requires 0 <= k < |users| => Lane(users[k], QueueOf(d, page, users[k])))
  }

  ghost function Start(d: Desk, e: Env): Tick {
    var page := DuePage(d, e);
    Tick(d, LanesFor(d, page, InOrder(Users(d, page), EarliestKey(d, page))), map[], [], false)
  }

  /** The caller's limit, clamped to 1..100. */
  function Limit(requested: int): nat {
    Min(100, Max(1, requested))
  }

  ghost function ClaimDueRuns(d: Desk, e: Env): Tick {
    StartIsFresh(d, e);
    Rounds(Start(d, e), e)
  }

  // ----- the queues are fresh --------------------------------------------------------------------

  predicate Matches(d: Desk, user: nat, c: Candidate) {
    && c.id < |d.automations|
    && d.automations[c.id].user == user && d.automations[c.id].policy == c.policy
    && d.automations[c.id].nextRunAt == Some(c.scheduledFor)
  }

  /** Every waiting candidate is as its automation stands, and waits in one place only. */
  ghost predicate Fresh(t: Tick) {
    && (forall i, p :: 0 <= i < |t.lanes| && 0 <= p < |t.lanes[i].queue| ==>
          Matches(t.desk, t.lanes[i].user, t.lanes[i].queue[p]))
    && (forall i, p, j, q ::
          (0 <= i < |t.lanes| && 0 <= p < |t.lanes[i].queue| && 0 <= j < |t.lanes| && 0 <= q < |t.lanes[j].queue|
           && t.lanes[i].queue[p].id == t.lanes[j].queue[q].id) ==> i == j && p == q)
  }

  ghost predicate DistinctPage(page: seq<nat>) {
    forall i, j :: 0 <= i < j < |page| ==> page[i] != page[j]
  }

  lemma {:induction false} QueueShape(d: Desk, page: seq<nat>, user: nat)
    requires DistinctPage(page)
    ensures forall p :: 0 <= p < |QueueOf(d, page, user)| ==>
              QueueOf(d, page, user)[p].id in page && Matches(d, user, QueueOf(d, page, user)[p])
    ensures forall p, q :: 0 <= p < q < |QueueOf(d, page, user)| ==> QueueOf(d, page, user)[p].id != QueueOf(d, page, user)[q].id
    decreases |page|
  {
    if page != [] {
      QueueShape(d, page[..|page| - 1], user);
    }
  }

  lemma StartIsFresh(d: Desk, e: Env)
    ensures Fresh(Start(d, e)) && InRange(Start(d, e))
    ensures DistinctPage(DuePage(d, e))
    ensures forall i, j :: 0 <= i < j < |Start(d, e).lanes| ==> Start(d, e).lanes[i].user != Start(d, e).lanes[j].user
  {
    var key, due := DueKey(d), Page(DueSet(d, e.asOf), DueKey(d), CandidateLimit(e.limit));
    InOrderSorted(due, key);
    var page := DuePage(d, e);
    InOrderSorted(Users(d, page), EarliestKey(d, page));
    forall user {
      QueueShape(d, page, user);
    }
  }
}
