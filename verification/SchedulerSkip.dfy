/**
 Runs of the scheduler under the `skip` policy: the status steps of a run, the owner's switches and
 the ticks, in any order. Scheduler-created runs only; manual and retried runs bypass the check by design.
 */
module SchedulerSkip {
  import opened Common
  import opened Scheduler
  import opened SchedulerTick

  datatype Office = Office(desk: Desk, clock: nat)

  datatype Action =
    | ClaimDue(asOf: nat, requested: int, at: nat)
    | Started(run: nat, at: nat)
    | Finished(run: nat, at: nat)
    | Broke(run: nat, at: nat)
    | Dropped(run: nat, at: nat)
    | CancelRequest(run: nat, at: nat)
    | Settle(run: nat, expected: Status, to: Status, owns: bool, at: nat)
    | Create(user: nat, enabled: bool, at: nat)
    | Resume(automation: nat, at: nat)
    | Pause(automation: nat, delete: bool, at: nat)

  function SetStatus(d: Desk, i: nat, s: Status, now: nat): Desk
    requires i < |d.runs|
  {
    d.(runs := d.runs[i := d.runs[i].(status := s, updatedAt := now)])
  }

  function MarkStarted(d: Desk, i: nat, now: nat): Desk {
    if i >= |d.runs| || !d.runs[i].status.Queued? then d
    else d.(runs := d.runs[i := d.runs[i].(status := Running, startedAt := Some(now), updatedAt := now)])
  }

  /** Completion and failure are recorded whatever the run's status is. */
  function MarkEnded(d: Desk, i: nat, s: Status, now: nat): Desk {
    if i >= |d.runs| then d else SetStatus(d, i, s, now)
  }

  function MarkSkipped(d: Desk, i: nat, now: nat): Desk {
    if i >= |d.runs| || !d.runs[i].status.Queued? then d else SetStatus(d, i, Skipped, now)
  }

  function RequestCancellation(d: Desk, i: nat, now: nat): Desk {
    if i >= |d.runs| || !Active(d.runs[i]) then d
    else SetStatus(d, i, if d.runs[i].status.Queued? then Cancelled else CancelRequested, now)
  }

  /** Compare-and-set settlement; `owns` is the workflow and turn ownership check. */
  function SettleRun(d: Desk, i: nat, expected: Status, to: Status, owns: bool, now: nat): (Desk, bool) {
    if i >= |d.runs| || !owns then (d, false)
    else
      var s := d.runs[i].status;
      if s == to then (d, true)
      else if s != expected || !Active(d.runs[i]) || (to.Completed? && !s.Running?) then (d, false)
      else (SetStatus(d, i, to, now), true)
  }

  predicate Settleable(s: Status) {
    s.Completed? || s.Failed? || s.Cancelled? || s.Skipped?
  }

  function WithNextRun(d: Desk, a: nat, enabled: bool, at: Option<nat>, deleted: bool): Desk
    requires a < |d.automations|
  {
    d.(automations := d.automations[a := d.automations[a].(enabled := enabled, nextRunAt := at, deleted := deleted)])
  }

  ghost function Step(o: Office, a: Action, next: (nat, nat) -> nat, violates: (seq<Automation>, nat) -> bool): Office {
    var now := Max(o.clock, a.at);
    Office(StepAt(o.desk, a, now, next, violates), now)
  }

  ghost function StepAt(d: Desk, a: Action, now: nat, next: (nat, nat) -> nat, violates: (seq<Automation>, nat) -> bool): Desk {
    match a
    case ClaimDue(asOf, requested, _) => ClaimDueRuns(d, Env(Limit(requested), Min(asOf, now), now, next, violates)).desk
    case Started(i, _) => MarkStarted(d, i, now)
    case Finished(i, _) => MarkEnded(d, i, Completed, now)
    case Broke(i, _) => MarkEnded(d, i, Failed, now)
    case Dropped(i, _) => MarkSkipped(d, i, now)
    case CancelRequest(i, _) => RequestCancellation(d, i, now)
    case Settle(i, expected, to, owns, _) => if Settleable(to) then SettleRun(d, i, expected, to, owns, now).0 else d
    case Create(user, enabled, _) =>
      var at := if enabled then Some(next(|d.automations|, now)) else None;
      d.(automations := d.automations + [Automation(user, enabled, at, false, SkipBusy)])
    case Resume(x, _) =>
      if x >= |d.automations| || d.automations[x].deleted then d else WithNextRun(d, x, true, Some(next(x, now)), false)
    case Pause(x, delete, _) =>
      if x >= |d.automations| || d.automations[x].deleted then d else WithNextRun(d, x, false, None, delete)
  }

  ghost function Run(o: Office, actions: seq<Action>, next: (nat, nat) -> nat, violates: (seq<Automation>, nat) -> bool): Office
    decreases |actions|
  {
    if actions == [] then o else Run(Step(o, actions[0], next, violates), actions[1..], next, violates)
  }

  // ----- the invariant ---------------------------------------------------------------------------

  ghost predicate OneActive(runs: seq<AutomationRun>) {
    forall x, y :: 0 <= x < y < |runs| && runs[x].automation == runs[y].automation ==> !(Active(runs[x]) && Active(runs[y]))
  }

  ghost predicate Increasing(runs: seq<AutomationRun>) {
    forall x, y :: 0 <= x < y < |runs| && runs[x].automation == runs[y].automation ==> runs[x].scheduledFor < runs[y].scheduledFor
  }

  /** Runs lie in the past of the clock and before the next due time of their automation. */
  ghost predicate Past(d: Desk, clock: nat) {
    forall x :: 0 <= x < |d.runs| ==>
      var r := d.runs[x];
      && r.automation < |d.automations| && r.scheduledFor <= clock
      && (d.automations[r.automation].nextRunAt.Some? ==> r.scheduledFor < d.automations[r.automation].nextRunAt.value)
  }

  ghost predicate AllSkip(d: Desk) {
    forall a :: 0 <= a < |d.automations| ==> d.automations[a].policy.SkipBusy?
  }

  ghost predicate Inv(d: Desk, clock: nat) {
    AllSkip(d) && OneActive(d.runs) && Increasing(d.runs) && Past(d, clock)
  }

  ghost predicate Forward(next: (nat, nat) -> nat) {
    forall a, t :: next(a, t) > t
  }

  // ----- the tick ----------------------------------------------------------------------------------

  /** When the check lets an automation through, none of its runs is queued or running any more. */
  lemma IdleIsFree(d: Desk, a: nat, now: nat)
    requires OneActive(d.runs) && !Busy(d, a, now).1
    ensures var runs := Busy(d, a, now).0.runs;
            forall x :: 0 <= x < |runs| && runs[x].automation == a ==> !Active(runs[x])
  {
    FirstRunFinds(d.runs, a, Queued, 0);
    var queued := FirstRun(d.runs, a, Queued, 0);
    var d1 := if queued.Some? then Expire(d, queued.value, now) else d;
    FirstRunFinds(d1.runs, a, Running, 0);
  }

  /** A queued run blocks while it was created, a running one while it was started, within the last fifteen minutes. */
  predicate Blocks(r: AutomationRun, now: nat) {
    || (r.status.Queued? && now - r.createdAt <= STALE_RUN_MS)
    || (r.status.Running? && now - StartedAt(r) <= STALE_RUN_MS)
  }

  /** The two first-row lookups decide exactly whether some run of the automation blocks, and expire its active run otherwise. */
  lemma BusyExactly(d: Desk, a: nat, now: nat)
    requires OneActive(d.runs)
    ensures Busy(d, a, now).1 <==> exists x :: 0 <= x < |d.runs| && d.runs[x].automation == a && Blocks(d.runs[x], now)
    ensures Busy(d, a, now).1 ==> Busy(d, a, now).0 == d
  {
    FirstRunFinds(d.runs, a, Queued, 0);
    var queued := FirstRun(d.runs, a, Queued, 0);
    var d1 := if queued.Some? then Expire(d, queued.value, now) else d;
    FirstRunFinds(d1.runs, a, Running, 0);
    FirstRunFinds(d.runs, a, Running, 0);
  }

  /**
   What serving a due automation under the skip policy comes to: disabled without a run when the plan
   policy is violated; otherwise one run at its due time, skipped exactly when an earlier run blocks, and
   a next due time after both the tick and the due time just served.
   */
  lemma ServeOutcome(d: Desk, c: Candidate, user: nat, e: Env)
    requires OneActive(d.runs) && c.id < |d.automations| && c.policy.SkipBusy? && Forward(e.next)
    ensures var (d', queued) := Serve(d, c, user, e);
            var row := d'.automations[c.id];
            if e.violates(d.automations, c.id) then !queued && !row.enabled && row.nextRunAt.None? && d'.runs == d.runs
            else
              && |d'.runs| == |d.runs| + 1 && row.enabled == d.automations[c.id].enabled
              && row.nextRunAt.Some? && row.nextRunAt.value > Max(e.asOf, c.scheduledFor)
              && var r := d'.runs[|d.runs|];
                 && r.automation == c.id && r.user == user && r.scheduledFor == c.scheduledFor && r.createdAt == e.clock
                 && (queued <==> r.status.Queued?) && (!queued <==> r.status.Skipped?)
                 && (!queued <==> exists x :: 0 <= x < |d.runs| && d.runs[x].automation == c.id && Blocks(d.runs[x], e.clock))
  {
    BusyExactly(d, c.id, e.clock);
    BusyOnlyExpires(d, c.id, e.clock);
    hide Busy;
    assert e.next(c.id, Max(e.asOf, c.scheduledFor)) > Max(e.asOf, c.scheduledFor);
  }

  lemma ExpiryKeepsInv(d: Desk, d1: Desk, a: nat, clock: nat)
    requires Inv(d, clock) && OnlyExpired(d, d1, a)
    ensures Inv(d1, clock)
  {}

  lemma ServeKeepsInv(d: Desk, c: Candidate, user: nat, e: Env)
    requires Inv(d, e.clock) && Matches(d, user, c) && c.scheduledFor <= e.clock && Forward(e.next)
    ensures Inv(Serve(d, c, user, e).0, e.clock)
  {
    hide Busy;
    if !e.violates(d.automations, c.id) {
      var d1, busy := Busy(d, c.id, e.clock).0, Busy(d, c.id, e.clock).1;
      BusyOnlyExpires(d, c.id, e.clock);
      ExpiryKeepsInv(d, d1, c.id, e.clock);
      if !busy {
        IdleIsFree(d, c.id, e.clock);
      }
      var at, run := e.next(c.id, Max(e.asOf, c.scheduledFor)), NewRun(c, user, if busy then Skipped else Queued, e.clock);
      assert at > c.scheduledFor;
      RecordKeepsInv(d1, c, user, at, run, e.clock);
    }
  }

  lemma RecordKeepsInv(d: Desk, c: Candidate, user: nat, at: nat, run: AutomationRun, clock: nat)
    requires Inv(d, clock) && Matches(d, user, c) && c.scheduledFor <= clock && c.scheduledFor < at
    requires run.automation == c.id && run.scheduledFor == c.scheduledFor
    requires Active(run) ==> forall x :: 0 <= x < |d.runs| && d.runs[x].automation == c.id ==> !Active(d.runs[x])
    ensures Inv(Record(d, c.id, at, run), clock)
  {
    var d' := Record(d, c.id, at, run);
    forall x | 0 <= x < |d.runs| && d.runs[x].automation == c.id
      ensures d.runs[x].scheduledFor < run.scheduledFor
    {}
    assert OneActive(d'.runs) && Increasing(d'.runs) && Past(d', clock) && AllSkip(d');
  }

  /** Everything waiting is due. */
  ghost predicate AllDue(t: Tick, asOf: nat) {
    forall i, p :: 0 <= i < |t.lanes| && 0 <= p < |t.lanes[i].queue| ==> t.lanes[i].queue[p].scheduledFor <= asOf
  }

  ghost predicate TickInv(t: Tick, e: Env) {
    InRange(t) && Fresh(t) && AllDue(t, e.asOf) && Inv(t.desk, e.clock)
  }

  lemma VisitKeepsInv(t: Tick, k: nat, e: Env)
    requires k < |t.lanes| && TickInv(t, e) && Forward(e.next) && e.asOf <= e.clock
    ensures TickInv(Visit(t, k, e), e)
  {
    hide Serve, Inv;
    VisitShape(t, k, e);
    VisitKeepsFresh(t, k, e);
    if Eligible(t, k) {
      assert Matches(t.desk, t.lanes[k].user, t.lanes[k].queue[0]);
      ServeKeepsInv(t.desk, t.lanes[k].queue[0], t.lanes[k].user, e);
      assert AllDue(Pop(t, k), e.asOf);
    }
  }

  lemma {:induction false} RoundKeepsInv(t: Tick, k: nat, e: Env)
    requires TickInv(t, e) && Forward(e.next) && e.asOf <= e.clock
    ensures TickInv(Round(t, k, e), e)
    decreases |t.lanes| - k
  {
    hide Visit, TickInv;
    if k < |t.lanes| && |t.runIds| < e.limit {
      assert InRange(t) by { InvGivesRange(t, e); }
      VisitKeepsInv(t, k, e);
      VisitShape(t, k, e);
      RoundKeepsInv(Visit(t, k, e), k + 1, e);
    }
  }

  lemma InvGivesRange(t: Tick, e: Env)
    requires TickInv(t, e)
    ensures InRange(t) && TickInv(t.(exhausted := true), e)
  {}

  lemma {:induction false} RoundsKeepInv(t: Tick, e: Env)
    requires InRange(t) && TickInv(t, e) && Forward(e.next) && e.asOf <= e.clock && |t.runIds| <= e.limit
    ensures TickInv(Rounds(t, e), e)
    decreases e.limit - |t.runIds|, !t.exhausted
  {
    hide Visit, TickInv;
    if |t.runIds| < e.limit && !t.exhausted {
      InvGivesRange(t, e);
      RoundKeepsInv(t.(exhausted := true), 0, e);
      RoundsKeepInv(Round(t.(exhausted := true), 0, e), e);
    }
  }

  lemma TickKeepsInv(d: Desk, e: Env)
    requires Inv(d, e.clock) && Forward(e.next) && e.asOf <= e.clock
    ensures Inv(ClaimDueRuns(d, e).desk, e.clock)
  {
    hide Inv, Fresh, Start, InRange;
    StartIsFresh(d, e);
    StartDesk(d, e);
    StartIsDue(d, e);
    RoundsKeepInv(Start(d, e), e);
  }

  lemma StartIsDue(d: Desk, e: Env)
    ensures AllDue(Start(d, e), e.asOf)
  {
    hide Fresh, InRange, Page, InOrder, EarliestKey, DueKey;
    var t := Start(d, e);
    StartIsFresh(d, e);
    forall i, p | 0 <= i < |t.lanes| && 0 <= p < |t.lanes[i].queue|
      ensures t.lanes[i].queue[p].scheduledFor <= e.asOf
    {
      assert Matches(d, t.lanes[i].user, t.lanes[i].queue[p]) by { FreshMatches(t, i, p); }
      assert Waits(t, t.lanes[i].queue[p].id);
      WaitingIsDue(d, e, t.lanes[i].queue[p].id);
    }
  }

  lemma FreshMatches(t: Tick, i: nat, p: nat)
    requires Fresh(t) && i < |t.lanes| && p < |t.lanes[i].queue|
    ensures Matches(t.desk, t.lanes[i].user, t.lanes[i].queue[p])
  {}

  // ----- the other steps -----------------------------------------------------------------------------

  /** A run row changed in a way that starts nothing. */
  lemma StatusStepKeepsInv(d: Desk, i: nat, r: AutomationRun, clock: nat)
    requires Inv(d, clock) && i < |d.runs|
    requires r.automation == d.runs[i].automation && r.scheduledFor == d.runs[i].scheduledFor && (Active(r) ==> Active(d.runs[i]))
    ensures Inv(d.(runs := d.runs[i := r]), clock)
  {}

  lemma LaterKeepsInv(d: Desk, clock: nat, later: nat)
    requires Inv(d, clock) && clock <= later
    ensures Inv(d, later)
  {}

  /** The steps that change the status of one run. */
  predicate Settles(a: Action) {
    a.Started? || a.Finished? || a.Broke? || a.Dropped? || a.CancelRequest? || a.Settle?
  }

  /** They change that run only, and start none that was not queued. */
  lemma SettlesOne(d: Desk, a: Action, now: nat, next: (nat, nat) -> nat, violates: (seq<Automation>, nat) -> bool)
    requires Settles(a) && a.run < |d.runs|
    ensures var d' := StepAt(d, a, now, next, violates);
            && |d'.runs| == |d.runs| && d' == d.(runs := d.runs[a.run := d'.runs[a.run]])
            && d'.runs[a.run].automation == d.runs[a.run].automation && d'.runs[a.run].scheduledFor == d.runs[a.run].scheduledFor
            && (Active(d'.runs[a.run]) ==> Active(d.runs[a.run]))
  {
    hide ClaimDueRuns;
    assert d.runs[a.run := d.runs[a.run]] == d.runs;
  }

  lemma SettlesNone(d: Desk, a: Action, now: nat, next: (nat, nat) -> nat, violates: (seq<Automation>, nat) -> bool)
    requires Settles(a) && a.run >= |d.runs|
    ensures StepAt(d, a, now, next, violates) == d
  {
    hide ClaimDueRuns;
  }

  /** New rows and owner switches. */
  lemma SwitchKeepsInv(d: Desk, a: Action, now: nat, next: (nat, nat) -> nat, violates: (seq<Automation>, nat) -> bool)
    requires Inv(d, now) && Forward(next) && (a.Create? || a.Resume? || a.Pause?)
    ensures Inv(StepAt(d, a, now, next, violates), now)
  {
    hide ClaimDueRuns;
  }

  lemma StepKeepsInv(o: Office, a: Action, next: (nat, nat) -> nat, violates: (seq<Automation>, nat) -> bool)
    requires Inv(o.desk, o.clock) && Forward(next)
    ensures Inv(Step(o, a, next, violates).desk, Step(o, a, next, violates).clock)
  {
    hide Inv, ClaimDueRuns, MarkStarted, MarkEnded, MarkSkipped, RequestCancellation, SettleRun, WithNextRun;
    var d, now := o.desk, Max(o.clock, a.at);
    LaterKeepsInv(d, o.clock, now);
    if Settles(a) {
      if a.run < |d.runs| {
        SettlesOne(d, a, now, next, violates);
        StatusStepKeepsInv(d, a.run, StepAt(d, a, now, next, violates).runs[a.run], now);
      } else {
        SettlesNone(d, a, now, next, violates);
      }
    } else if a.ClaimDue? {
      TickKeepsInv(d, Env(Limit(a.requested), Min(a.asOf, now), now, next, violates));
    } else {
      SwitchKeepsInv(d, a, now, next, violates);
    }
  }

  lemma {:induction false} RunKeepsInv(o: Office, actions: seq<Action>, next: (nat, nat) -> nat, violates: (seq<Automation>, nat) -> bool)
    requires Inv(o.desk, o.clock) && Forward(next)
    ensures Inv(Run(o, actions, next, violates).desk, Run(o, actions, next, violates).clock)
    decreases |actions|
  {
    hide Inv, Step;
    if actions != [] {
      StepKeepsInv(o, actions[0], next, violates);
      RunKeepsInv(Step(o, actions[0], next, violates), actions[1..], next, violates);
    }
  }

  /**
   From an empty desk, in any run: no automation ever has two runs queued or running, and the
   scheduled times of an automation's runs strictly increase.
   */
  lemma OneActiveRunAlways(actions: seq<Action>, next: (nat, nat) -> nat, violates: (seq<Automation>, nat) -> bool, x: nat, y: nat)
    requires Forward(next)
    requires var runs := Run(Office(Desk([], []), 0), actions, next, violates).desk.runs;
             x < y < |runs| && runs[x].automation == runs[y].automation
    ensures var runs := Run(Office(Desk([], []), 0), actions, next, violates).desk.runs;
            !(Active(runs[x]) && Active(runs[y])) && runs[x].scheduledFor < runs[y].scheduledFor
  {
    RunKeepsInv(Office(Desk([], []), 0), actions, next, violates);
  }
}
