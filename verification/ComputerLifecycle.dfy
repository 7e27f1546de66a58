/**
 The maintenance and activity protocol of one computer and its lease (convex/agents/connectedAgents.ts):
 an expiring, tokened maintenance intent, the lifecycle transitions its holder may make, and the
 activity sessions that must not run beside it. Every operation gives the next state and whether it succeeded.
 */
module ComputerLifecycle {
  import opened Common

  const MAX_ACTIVITY: nat := 64
  const MAX_ACTIVITY_MS: nat := 11 * 60000

  datatype Status = Reserved | Provisioning | Running | Paused | Stopping | CleanupFailed | Released | Deleted

  datatype Kind = Provision | Wake | Stop | Idle | Delete

  datatype Intent = Intent(kind: Kind, token: string, expiresAt: nat)

  /** `recipe` and `requestedAt` are set by the first allocation request. */
  datatype Lease = Lease(
    status: Status,
    reference: Option<string>,
    intent: Option<Intent>,
    activity: map<string, nat>,
    recipe: Option<string>,
    requestedAt: Option<nat>)

  datatype Computer = Computer(ready: bool, reference: Option<string>, lastActiveAt: nat)

  datatype State = State(lease: Lease, computer: Option<Computer>)

  predicate Over(s: Status) {
    s.Released? || s.Deleted?
  }

  /** The kinds that take the machine down. */
  predicate Halts(k: Kind) {
    k.Stop? || k.Idle? || k.Delete?
  }

  function Live(activity: map<string, nat>, now: nat): map<string, nat> {
    map t | t in activity && activity[t] > now :: activity[t]
  }

  // ----- claiming the intent ------------------------------------------------------------------------

  /** `owned` is whether an owner was named, `busy` whether one of the owner's runs is still going. */
  datatype ClaimRequest = ClaimRequest(
    kind: Kind,
    token: string,
    now: nat,
    expiresAt: nat,
    force: bool,
    idleBefore: nat,
    owned: bool,
    busy: bool,
    reconcile: string,
    recovery: bool,
    expected: Option<Option<string>>)

  predicate Allowed(k: Kind, s: Status) {
    match k
    case Provision => s.Reserved? || s.Provisioning? || s.CleanupFailed?
    case Wake => s.Paused? || s.Reserved? || s.Provisioning? || s.Running?
    case _ => !Over(s)
  }

  predicate Holds(intent: Option<Intent>, token: string) {
    intent.Some? && intent.value.token == token
  }

  /** Another holder's intent that has not run out; an empty token counts as no holder. */
  predicate ActiveOther(intent: Option<Intent>, token: string, now: nat) {
    intent.Some? && intent.value.token != "" && intent.value.token != token && intent.value.expiresAt > now
  }

  predicate ExpiredOther(intent: Option<Intent>, token: string, now: nat) {
    intent.Some? && intent.value.token != "" && intent.value.token != token && intent.value.expiresAt <= now
  }

  predicate HeldForDelete(intent: Option<Intent>) {
    intent.Some? && intent.value.kind.Delete?
  }

  predicate MayPreempt(intent: Option<Intent>, q: ClaimRequest) {
    q.force && (q.kind.Stop? || q.kind.Delete?) && !HeldForDelete(intent)
  }

  /** A named takeover needs the named token to be in place and run out. */
  predicate ReconcileFits(l: Lease, q: ClaimRequest) {
    q.reconcile == "" || Holds(l.intent, q.token)
    || (Holds(l.intent, q.reconcile) && l.intent.value.expiresAt <= q.now)
  }

  predicate IdleFits(s: State, q: ClaimRequest)
    requires s.computer.Some?
  {
    s.lease.status.Running? && s.computer.value.ready && s.computer.value.lastActiveAt <= q.idleBefore && q.owned
    && Live(s.lease.activity, q.now) == map[] && !q.busy
  }

  predicate CanClaim(s: State, q: ClaimRequest) {
    var l := s.lease;
    && !Over(l.status)
    && s.computer.Some?
    && (q.expected.Some? ==> s.computer.value.reference == q.expected.value && l.reference == q.expected.value)
    && Allowed(q.kind, l.status)
    && (q.recovery ==> q.kind.Stop? && !q.force && q.reconcile != "")
    && ReconcileFits(l, q)
    && (q.reconcile != "" && q.kind.Stop? && !q.force ==> Live(l.activity, q.now) == map[])
    && (ActiveOther(l.intent, q.token, q.now) ==> MayPreempt(l.intent, q))
    && (ExpiredOther(l.intent, q.token, q.now) ==> q.reconcile == l.intent.value.token)
    && (HeldForDelete(l.intent) ==> q.kind.Delete?)
    && (q.kind.Idle? ==> IdleFits(s, q))
  }

  function ClaimMaintenance(s: State, q: ClaimRequest): (State, bool) {
    if !CanClaim(s, q) then (s, false)
    else
      (s.(lease := s.lease.(status := if Halts(q.kind) then Stopping else s.lease.status,
                            intent := Some(Intent(q.kind, q.token, q.expiresAt)),
                            activity := if q.force then map[] else Live(s.lease.activity, q.now))),
       true)
  }

  // ----- transitions -----------------------------------------------------------------------------------

  datatype Move = ToWakeArmed | ToSessionArmed | ToReady | ToPaused | ToDeleted | ToFailed | ToCancelled

  datatype MoveRequest = MoveRequest(
    token: string,
    move: Move,
    expected: Option<string>,
    now: nat,
    activityToken: Option<string>,
    activityUser: Option<string>,
    activityExpiresAt: Option<nat>)

  predicate ActivityGiven(q: MoveRequest) {
    q.activityToken.Some? || q.activityUser.Some? || q.activityExpiresAt.Some?
  }

  predicate ActivityComplete(q: MoveRequest) {
    GetOr(q.activityToken, "") != "" && GetOr(q.activityUser, "") != "" && q.activityExpiresAt.Some? && q.activityExpiresAt.value > q.now
  }

  predicate CanMove(s: State, q: MoveRequest) {
    && s.computer.Some? && s.lease.reference == q.expected && s.computer.value.reference == q.expected
    && Holds(s.lease.intent, q.token)
    && !Over(s.lease.status)
    && var k, t := s.lease.intent.value.kind, s.lease.status;
       match q.move
       case ToWakeArmed => k.Wake? && (t.Paused? || t.Running? || t.Reserved? || t.Provisioning?)
       case ToSessionArmed => k.Provision? && (t.Reserved? || t.Provisioning? || t.CleanupFailed?)
       case ToReady =>
         && !t.Stopping? && (k.Provision? || k.Wake?) && (ActivityGiven(q) ==> ActivityComplete(q))
         && (ActivityGiven(q) ==> |Live(s.lease.activity, q.now)| < MAX_ACTIVITY)
       case ToCancelled => !t.Stopping? && (k.Provision? || k.Wake?)
       case ToFailed => true
       case ToDeleted => k.Delete?
       case ToPaused => Halts(k)
  }

  function Transition(s: State, q: MoveRequest): (State, bool) {
    if !CanMove(s, q) then (s, false)
    else
      var l, c := s.lease, s.computer.value;
      (match q.move
       case ToWakeArmed => s.(lease := l.(status := Reserved))
       case ToSessionArmed => s.(lease := l.(status := Provisioning))
       case ToReady =>
         var live := Live(l.activity, q.now);
         State(l.(status := Running, intent := None,
                  activity := if ActivityGiven(q) then live[q.activityToken.value := q.activityExpiresAt.value] else live),
               Some(c.(ready := true, lastActiveAt := q.now)))
       case ToCancelled => s.(lease := l.(intent := None))
       case ToFailed => s.(lease := l.(status := CleanupFailed))
       case ToDeleted => State(l.(status := Released, intent := None), None)
       case ToPaused => State(l.(status := Paused, intent := None), Some(c.(ready := false))),
       true)
  }

  function ReleaseMaintenance(s: State, token: string): (State, bool) {
    if !Holds(s.lease.intent, token) then (s, false) else (s.(lease := s.lease.(intent := None)), true)
  }

  // ----- activity ---------------------------------------------------------------------------------------

  predicate CanStartActivity(s: State, now: nat, expiresAt: nat) {
    var l := s.lease;
    && l.status.Running? && now < expiresAt && expiresAt - now <= MAX_ACTIVITY_MS
    && (l.intent.Some? ==> l.intent.value.token == "")
    && s.computer.Some? && s.computer.value.ready && l.reference.Some? && s.computer.value.reference == l.reference
    && |Live(l.activity, now)| < MAX_ACTIVITY
  }

  function ClaimActivity(s: State, token: string, now: nat, expiresAt: nat): (State, bool) {
    if !CanStartActivity(s, now, expiresAt) then (s, false)
    else (s.(lease := s.lease.(activity := Live(s.lease.activity, now)[token := expiresAt])), true)
  }

  function ReleaseActivity(s: State, token: string): (State, bool) {
    if token !in s.lease.activity then (s, false)
    else (s.(lease := s.lease.(activity := s.lease.activity - {token})), true)
  }

  /** The time of the first request; none when refused. */
  function PrepareAllocation(s: State, token: string, recipe: string, now: nat): (State, Option<nat>) {
    var l := s.lease;
    if !(Holds(l.intent, token) && l.intent.value.kind.Provision? && Allowed(Provision, l.status))
       || (l.recipe.Some? && l.recipe.value != recipe) then (s, None)
    else
      var at := GetOr(l.requestedAt, now);
      (s.(lease := l.(status := Provisioning, recipe := Some(recipe), requestedAt := Some(at))), Some(at))
  }

  /** Billing takes the machine down whoever holds the intent. */
  function StopLease(s: State): State {
    if s.lease.status.Released? || s.lease.status.CleanupFailed? then s else s.(lease := s.lease.(status := Stopping))
  }

  // ----- the mutations as they run ------------------------------------------------------------------------

  class Machine {
    var lease: Lease
    var computer: Option<Computer>

    function Now(): State
      reads this
    {
      State(lease, computer)
    }

    constructor (reference: Option<string>)
      ensures Now() == State(Lease(Reserved, reference, None, map[], None, None), Some(Computer(false, reference, 0)))
    {
      lease := Lease(Reserved, reference, None, map[], None, None);
      computer := Some(Computer(false, reference, 0));
    }

    method ClaimIntent(q: ClaimRequest) returns (ok: bool)
      modifies this
      ensures (Now(), ok) == ClaimMaintenance(old(Now()), q)
    {
      if Over(lease.status) || computer.None? {
        return false;
      }
      if q.expected.Some? && (computer.value.reference != q.expected.value || lease.reference != q.expected.value) {
        return false;
      }
      if !Allowed(q.kind, lease.status) {
        return false;
      }
      if q.recovery && (!q.kind.Stop? || q.force || q.reconcile == "") {
        return false;
      }
      var current := lease.intent;
      if !ReconcileFits(lease, q) {
        return false;
      }
      var live := Live(lease.activity, q.now);
      if q.reconcile != "" && q.kind.Stop? && !q.force && live != map[] {
        return false;
      }
      var active := ActiveOther(current, q.token, q.now);
      if active && !MayPreempt(current, q) {
        return false;
      }
      if ExpiredOther(current, q.token, q.now) && current.value.token != q.reconcile {
        return false;
      }
      if HeldForDelete(current) && !q.kind.Delete? {
        return false;
      }
      if q.kind.Idle? && !IdleFits(Now(), q) {
        return false;
      }
      if Halts(q.kind) {
        lease := lease.(status := Stopping);
      }
      lease := lease.(intent := Some(Intent(q.kind, q.token, q.expiresAt)), activity := if q.force then map[] else live);
      return true;
    }

    method Advance(q: MoveRequest) returns (ok: bool)
      modifies this
      ensures (Now(), ok) == Transition(old(Now()), q)
    {
      if !CanMove(Now(), q) {
        return false;
      }
      match q.move {
        case ToWakeArmed => lease := lease.(status := Reserved);
        case ToSessionArmed => lease := lease.(status := Provisioning);
        case ToReady =>
          var live := Live(lease.activity, q.now);
          if ActivityGiven(q) {
            live := live[q.activityToken.value := q.activityExpiresAt.value];
          }
          lease := lease.(status := Running, intent := None, activity := live);
          computer := Some(computer.value.(ready := true, lastActiveAt := q.now));
        case ToCancelled => lease := lease.(intent := None);
        case ToFailed => lease := lease.(status := CleanupFailed);
        case ToDeleted =>
          lease := lease.(status := Released, intent := None);
          computer := None;
        case ToPaused =>
          lease := lease.(status := Paused, intent := None);
          computer := Some(computer.value.(ready := false));
      }
      return true;
    }

    method ReleaseIntent(token: string) returns (ok: bool)
      modifies this`lease
      ensures (Now(), ok) == ReleaseMaintenance(old(Now()), token)
    {
      ok := Holds(lease.intent, token);
      if ok {
        lease := lease.(intent := None);
      }
    }

    method StartActivity(token: string, now: nat, expiresAt: nat) returns (ok: bool)
      modifies this`lease
      ensures (Now(), ok) == ClaimActivity(old(Now()), token, now, expiresAt)
    {
      ok := CanStartActivity(Now(), now, expiresAt);
      if ok {
        lease := lease.(activity := Live(lease.activity, now)[token := expiresAt]);
      }
    }

    method EndActivity(token: string) returns (ok: bool)
      modifies this`lease
      ensures (Now(), ok) == ReleaseActivity(old(Now()), token)
    {
      ok := token in lease.activity;
      if ok {
        lease := lease.(activity := lease.activity - {token});
      }
    }

    method Allocate(token: string, recipe: string, now: nat) returns (at: Option<nat>)
      modifies this`lease
      ensures (Now(), at) == PrepareAllocation(old(Now()), token, recipe, now)
    {
      if !(Holds(lease.intent, token) && lease.intent.value.kind.Provision? && Allowed(Provision, lease.status)) {
        return None;
      }
      if lease.recipe.Some? && lease.recipe.value != recipe {
        return None;
      }
      at := Some(GetOr(lease.requestedAt, now));
      lease := lease.(status := Provisioning, recipe := Some(recipe), requestedAt := at);
    }

    method StopForBilling()
      modifies this`lease
      ensures Now() == StopLease(old(Now()))
    {
      if !(lease.status.Released? || lease.status.CleanupFailed?) {
        lease := lease.(status := Stopping);
      }
    }
  }
}
