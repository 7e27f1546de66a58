/**
 What the maintenance protocol keeps over every run: who may take over an intent, which intents
 exclude use of the machine, and that a transition always carries the latest claim's token.
 */
module ComputerFencing {
  import opened Common
  import opened ComputerLifecycle

  /** `Elsewhere` stands for the other writers of the computer row and of the machine references. */
  datatype Action =
    | Claim(q: ClaimRequest)
    | Moved(m: MoveRequest)
    | Release(token: string)
    | Begin(session: string, now: nat, expiresAt: nat)
    | End(ended: string)
    | Prepare(holder: string, recipe: string, preparedAt: nat)
    | BillingStop
    | Elsewhere(computer: Option<Computer>, reference: Option<string>)

  function Step(s: State, a: Action): State {
    match a
    case Claim(q) => ClaimMaintenance(s, q).0
    case Moved(m) => Transition(s, m).0
    case Release(token) => ReleaseMaintenance(s, token).0
    case Begin(token, now, expiresAt) => ClaimActivity(s, token, now, expiresAt).0
    case End(token) => ReleaseActivity(s, token).0
    case Prepare(token, recipe, now) => PrepareAllocation(s, token, recipe, now).0
    case BillingStop => StopLease(s)
    case Elsewhere(computer, reference) => State(s.lease.(reference := reference), computer)
  }

  function Run(s: State, actions: seq<Action>): State
    decreases |actions|
  {
    if actions == [] then s else Run(Step(s, actions[0]), actions[1..])
  }

  /** A lease as it is created for a computer. */
  predicate Initial(s: State) {
    (s.lease.status.Reserved? || s.lease.status.Running? || s.lease.status.Paused?)
    && s.lease.intent.None? && s.lease.activity == map[] && s.lease.recipe.None? && s.lease.requestedAt.None?
  }

  // ----- stop excludes use ----------------------------------------------------------------------------

  predicate Inv(s: State) {
    var l := s.lease;
    && !l.status.Deleted?
    && (l.intent.Some? && Halts(l.intent.value.kind) ==> l.status.Stopping? || l.status.CleanupFailed?)
    && (l.intent.Some? && l.intent.value.kind.Idle? ==> l.activity == map[])
    && |l.activity| <= MAX_ACTIVITY
  }

  lemma LiveIsSmaller(activity: map<string, nat>, now: nat)
    ensures |Live(activity, now)| <= |activity| && Live(activity, now).Keys <= activity.Keys
  {
    SubsetCardinality(Live(activity, now).Keys, activity.Keys);
    KeysCount(activity);
    KeysCount(Live(activity, now));
  }

  lemma KeysCount(m: map<string, nat>)
    ensures |m| == |m.Keys|
  {}

  lemma AddedCount(m: map<string, nat>, t: string, at: nat)
    ensures |m[t := at]| <= |m| + 1
  {
    assert m[t := at].Keys == m.Keys + {t};
    SubsetCardinality(m.Keys, m.Keys + {t});
    KeysCount(m[t := at]);
    KeysCount(m);
  }

  lemma MoveKeepsInv(s: State, m: MoveRequest)
    requires Inv(s)
    ensures Inv(Transition(s, m).0)
  {
    hide Live;
    LiveIsSmaller(s.lease.activity, m.now);
    if CanMove(s, m) && ActivityGiven(m) && m.move.ToReady? {
      AddedCount(Live(s.lease.activity, m.now), m.activityToken.value, m.activityExpiresAt.value);
    }
  }

  lemma BeginKeepsInv(s: State, token: string, now: nat, expiresAt: nat)
    requires Inv(s)
    ensures Inv(ClaimActivity(s, token, now, expiresAt).0)
  {
    hide Live;
    if CanStartActivity(s, now, expiresAt) {
      AddedCount(Live(s.lease.activity, now), token, expiresAt);
    }
  }

  lemma EndKeepsInv(s: State, token: string)
    requires Inv(s)
    ensures Inv(ReleaseActivity(s, token).0)
  {
    var activity := s.lease.activity;
    SubsetCardinality((activity - {token}).Keys, activity.Keys);
    KeysCount(activity);
    KeysCount(activity - {token});
  }

  lemma ClaimKeepsInv(s: State, q: ClaimRequest)
    requires Inv(s)
    ensures Inv(ClaimMaintenance(s, q).0)
  {
    hide Live;
    LiveIsSmaller(s.lease.activity, q.now);
  }

  lemma StepKeepsInv(s: State, a: Action)
    requires Inv(s)
    ensures Inv(Step(s, a))
  {
    match a
    case Claim(q) => ClaimKeepsInv(s, q);
    case Moved(m) => MoveKeepsInv(s, m);
    case Begin(token, now, expiresAt) => BeginKeepsInv(s, token, now, expiresAt);
    case End(token) => EndKeepsInv(s, token);
    case _ =>
  }

  lemma {:induction false} RunKeepsInv(s: State, actions: seq<Action>)
    requires Inv(s)
    ensures Inv(Run(s, actions))
    decreases |actions|
  {
    hide Inv, Step;
    if actions != [] {
      StepKeepsInv(s, actions[0]);
      RunKeepsInv(Step(s, actions[0]), actions[1..]);
    }
  }

  /**
   Stop excludes use: in every reachable state a stop, idle or delete intent means the lease is stopping
   or its cleanup failed, an idle intent means nobody is using the machine, and at most 64 sessions exist.
   */
  lemma StopExcludesUse(s: State, actions: seq<Action>)
    requires Initial(s)
    ensures var l := Run(s, actions).lease;
            && (l.intent.Some? && Halts(l.intent.value.kind) ==> l.status.Stopping? || l.status.CleanupFailed?)
            && (l.intent.Some? && l.intent.value.kind.Idle? ==> l.activity == map[])
            && |l.activity| <= MAX_ACTIVITY
            && (l.intent.Some? && Halts(l.intent.value.kind) ==>
                  forall now, expiresAt :: !CanStartActivity(Run(s, actions), now, expiresAt))
  {
    RunKeepsInv(s, actions);
  }

  /** While an intent is held no session starts or is renewed, except the one its holder starts by reporting the machine ready, which ends the intent. */
  lemma NoSessionBesideIntent(s: State, a: Action, t: string)
    requires s.lease.intent.Some? && s.lease.intent.value.token != ""
    requires t in Step(s, a).lease.activity
    requires t in s.lease.activity ==> Step(s, a).lease.activity[t] != s.lease.activity[t]
    ensures a.Moved? && a.m.move.ToReady? && a.m.token == s.lease.intent.value.token && a.m.activityToken == Some(t)
    ensures !Halts(s.lease.intent.value.kind) && Step(s, a).lease.intent.None?
  {}

  /** A released lease stays released, and its machine is never claimed, moved or used again. */
  lemma {:induction false} ReleasedIsFinal(s: State, actions: seq<Action>)
    requires s.lease.status.Released?
    ensures Run(s, actions).lease.status.Released?
    ensures forall q :: !CanClaim(Run(s, actions), q)
    ensures forall m :: !CanMove(Run(s, actions), m)
    decreases |actions|
  {
    if actions != [] {
      ReleasedIsFinal(Step(s, actions[0]), actions[1..]);
    }
  }

  // ----- fencing ----------------------------------------------------------------------------------------

  /**
   A held intent passes to another token only through a claim that either forces a stop or delete over
   an unexpired intent that is no delete, or names the old token after it ran out; a delete intent is
   replaced by nothing but a delete.
   */
  lemma HandoverNeedsForceOrName(s: State, a: Action)
    requires s.lease.intent.Some? && s.lease.intent.value.token != "" && Step(s, a).lease.intent.Some?
    ensures var before, after := s.lease.intent.value, Step(s, a).lease.intent.value;
            && (before.kind.Delete? ==> after.kind.Delete?)
            && (after != before ==> a.Claim? && after == Intent(a.q.kind, a.q.token, a.q.expiresAt))
            && (after.token != before.token ==>
                  if before.expiresAt > a.q.now then a.q.force && (a.q.kind.Stop? || a.q.kind.Delete?) && !before.kind.Delete?
                  else a.q.reconcile == before.token)
  {}

  /** The token of the last claim that succeeded. */
  function Latest(s: State, actions: seq<Action>, latest: Option<string>): Option<string>
    decreases |actions|
  {
    if actions == [] then latest
    else
      var a := actions[0];
      Latest(Step(s, a), actions[1..], if a.Claim? && ClaimMaintenance(s, a.q).1 then Some(a.q.token) else latest)
  }

  lemma {:induction false} IntentIsLatest(s: State, actions: seq<Action>, latest: Option<string>)
    requires s.lease.intent.Some? ==> latest == Some(s.lease.intent.value.token)
    ensures var l := Run(s, actions).lease;
            l.intent.Some? ==> Latest(s, actions, latest) == Some(l.intent.value.token)
    decreases |actions|
  {
    if actions != [] {
      var a := actions[0];
      IntentIsLatest(Step(s, a), actions[1..], if a.Claim? && ClaimMaintenance(s, a.q).1 then Some(a.q.token) else latest);
    }
  }

  /** Every transition that succeeds carries the token of the latest successful claim: an overtaken holder can do nothing. */
  lemma TransitionsCarryLatestToken(s: State, actions: seq<Action>, m: MoveRequest)
    requires Initial(s) && Transition(Run(s, actions), m).1
    ensures Latest(s, actions, None) == Some(m.token)
  {
    IntentIsLatest(s, actions, None);
  }

  /** Whose doing each status is: a lease changes its status only in these ways. */
  lemma StatusMovesOnlySo(s: State, a: Action)
    requires Step(s, a).lease.status != s.lease.status
    ensures var held := s.lease.intent;
            match Step(s, a).lease.status
            case Reserved => a.Moved? && a.m.move.ToWakeArmed? && Holds(held, a.m.token) && held.value.kind.Wake?
            case Provisioning =>
              (a.Moved? && a.m.move.ToSessionArmed? && Holds(held, a.m.token) && held.value.kind.Provision?)
              || (a.Prepare? && Holds(held, a.holder) && held.value.kind.Provision?)
            case Running =>
              a.Moved? && a.m.move.ToReady? && Holds(held, a.m.token) && !Halts(held.value.kind)
              && Step(s, a).lease.intent.None? && Step(s, a).computer.Some? && Step(s, a).computer.value.ready
            case Paused =>
              a.Moved? && a.m.move.ToPaused? && Holds(held, a.m.token) && Halts(held.value.kind)
              && Step(s, a).lease.intent.None? && Step(s, a).computer.Some? && !Step(s, a).computer.value.ready
            case Stopping => a.BillingStop? || (a.Claim? && Halts(a.q.kind) && ClaimMaintenance(s, a.q).1)
            case CleanupFailed => a.Moved? && a.m.move.ToFailed? && Holds(held, a.m.token)
            case Released =>
              a.Moved? && a.m.move.ToDeleted? && Holds(held, a.m.token) && held.value.kind.Delete? && Step(s, a).computer.None?
            case Deleted => false
  {}

  // ----- when a forced stop gets through -------------------------------------------------------------------

  /** A plain forced stop of an existing, unreleased machine. */
  predicate ForcedStop(s: State, q: ClaimRequest) {
    q.kind.Stop? && q.force && !q.recovery && q.expected.None? && s.computer.Some? && !Over(s.lease.status)
  }

  /**
   A forced stop succeeds exactly when nobody holds the intent, or the caller does, or another holder's
   intent is unexpired and is not named, or has run out and is named; a delete intent always refuses it.
   */
  lemma ForcedStopExactly(s: State, q: ClaimRequest)
    requires ForcedStop(s, q)
    ensures ClaimMaintenance(s, q).1 <==>
            match s.lease.intent
            case None => q.reconcile == ""
            case Some(i) =>
              && !i.kind.Delete?
              && (i.token == q.token
                  || (q.reconcile == "" && (i.token == "" || i.expiresAt > q.now))
                  || (q.reconcile != "" && q.reconcile == i.token && i.expiresAt <= q.now))
  {}

  /** The surprising case: the same forced stop that takes over a live intent is refused once that intent has run out. */
  lemma ForcedStopFailsOnceExpired(token: string, other: string, expiresAt: nat)
    requires other != "" && token != other && expiresAt > 0
    ensures var s := State(Lease(Running, None, Some(Intent(Wake, other, expiresAt)), map[], None, None), Some(Computer(true, None, 0)));
            var q := ClaimRequest(Stop, token, expiresAt - 1, expiresAt + 60000, true, 0, false, false, "", false, None);
            ClaimMaintenance(s, q).1 && !ClaimMaintenance(s, q.(now := expiresAt)).1
  {}

  // ----- allocation ------------------------------------------------------------------------------------------

  /** One allocation: the recipe and the time of the first request never change, and every success reports that time. */
  lemma {:induction false} AllocationIsFixed(s: State, actions: seq<Action>, token: string, recipe: string, now: nat)
    requires s.lease.recipe.Some? && s.lease.requestedAt.Some?
    ensures var s' := Run(s, actions);
            && s'.lease.recipe == s.lease.recipe && s'.lease.requestedAt == s.lease.requestedAt
            && var at := PrepareAllocation(s', token, recipe, now).1;
               at.Some? ==> Some(recipe) == s.lease.recipe && at == s.lease.requestedAt
    decreases |actions|
  {
    if actions != [] {
      AllocationIsFixed(Step(s, actions[0]), actions[1..], token, recipe, now);
    }
  }
}
