/**
 The life of an activity session: when one starts, how long it stays, what its presence refuses, and
 exactly which claims and steps get past it.
 */
module ComputerActivity {
  import opened Common
  import opened ComputerLifecycle
  import opened ComputerFencing

  /** Sessions that have not run out. */
  function Unexpired(activity: map<string, nat>, now: nat): set<string> {
    set t | t in activity && now < activity[t]
  }

  lemma LiveIsUnexpired(activity: map<string, nat>, now: nat)
    ensures Live(activity, now).Keys == Unexpired(activity, now) && |Live(activity, now)| == |Unexpired(activity, now)|
  {
    KeysCount(Live(activity, now));
  }

  /**
   A session starts exactly when it lasts at most eleven minutes, the machine runs, is ready and is the one
   the lease refers to, nobody holds a maintenance intent and fewer than 64 sessions go on.
   */
  lemma StartsExactly(s: State, t: string, now: nat, expiresAt: nat)
    ensures ClaimActivity(s, t, now, expiresAt).1 <==>
              && now < expiresAt <= now + 660000
              && s.lease.status == Running && s.computer.Some? && s.computer.value.ready
              && s.lease.reference.Some? && s.computer.value.reference == s.lease.reference
              && (s.lease.intent.None? || s.lease.intent.value.token == "")
              && |Unexpired(s.lease.activity, now)| < 64
  {
    LiveIsUnexpired(s.lease.activity, now);
    hide Live;
  }

  predicate Lasts(s: State, t: string, expiresAt: nat) {
    t in s.lease.activity && s.lease.activity[t] == expiresAt
  }

  /** A step that ends the session: its own end, a claim that is forced, or any pruning after it ran out. */
  predicate Ends(s: State, a: Action, t: string, expiresAt: nat) {
    match a
    case End(x) => x == t
    case Claim(q) => ClaimMaintenance(s, q).1 && (q.force || expiresAt <= q.now)
    case Moved(m) => Transition(s, m).1 && m.move.ToReady? && expiresAt <= m.now && m.activityToken != Some(t)
    case Begin(x, now, until) => ClaimActivity(s, x, now, until).1 && expiresAt <= now && x != t
    case _ => false
  }

  /** A step that gives the session a new end. */
  predicate Renews(s: State, a: Action, t: string) {
    match a
    case Moved(m) => Transition(s, m).1 && m.move.ToReady? && m.activityToken == Some(t)
    case Begin(x, now, until) => ClaimActivity(s, x, now, until).1 && x == t
    case _ => false
  }

  /** Each step ends a session, renews it or leaves it exactly as it is. */
  lemma SessionMovesOnlySo(s: State, a: Action, t: string, expiresAt: nat)
    requires Lasts(s, t, expiresAt)
    ensures Ends(s, a, t, expiresAt) ==> t !in Step(s, a).lease.activity
    ensures Renews(s, a, t) ==> Lasts(Step(s, a), t, if a.Begin? then a.expiresAt else GetOr(a.m.activityExpiresAt, 0))
    ensures !Ends(s, a, t, expiresAt) && !Renews(s, a, t) ==> Lasts(Step(s, a), t, expiresAt)
  {}

  /** A new session is there with its end, and every other session that has not run out is still there. */
  lemma StartRecords(s: State, t: string, now: nat, expiresAt: nat)
    requires ClaimActivity(s, t, now, expiresAt).1
    ensures var s' := ClaimActivity(s, t, now, expiresAt).0;
            && Lasts(s', t, expiresAt) && s'.computer == s.computer && s' == s.(lease := s.lease.(activity := s'.lease.activity))
            && (forall x :: x != t ==> (x in s'.lease.activity <==> x in Unexpired(s.lease.activity, now)))
            && (forall x :: x != t && x in s'.lease.activity ==> s'.lease.activity[x] == s.lease.activity[x])
  {}

  /** Ending one session leaves every other one, and all the rest of the machine, as it was. */
  lemma EndLeavesOthers(s: State, t: string)
    ensures var (s', ok) := ReleaseActivity(s, t);
            && (ok <==> t in s.lease.activity) && t !in s'.lease.activity
            && s' == s.(lease := s.lease.(activity := s'.lease.activity))
            && (forall x :: x != t ==> (x in s'.lease.activity <==> x in s.lease.activity))
            && (forall x :: x in s'.lease.activity ==> s'.lease.activity[x] == s.lease.activity[x])
  {}

  ghost predicate Undisturbed(s: State, actions: seq<Action>, t: string, expiresAt: nat)
    decreases |actions|
  {
    actions == [] ||
    (!Ends(s, actions[0], t, expiresAt) && !Renews(s, actions[0], t) && Undisturbed(Step(s, actions[0]), actions[1..], t, expiresAt))
  }

  lemma {:induction false} SessionStays(s: State, actions: seq<Action>, t: string, expiresAt: nat)
    requires Lasts(s, t, expiresAt) && Undisturbed(s, actions, t, expiresAt)
    ensures Lasts(Run(s, actions), t, expiresAt)
    decreases |actions|
  {
    hide Step, Ends, Renews, Lasts;
    if actions != [] {
      SessionMovesOnlySo(s, actions[0], t, expiresAt);
      SessionStays(Step(s, actions[0]), actions[1..], t, expiresAt);
    }
  }

  /** A session that has not run out refuses every idle claim and every named stop that is not forced. */
  lemma SessionRefuses(s: State, t: string, expiresAt: nat, q: ClaimRequest)
    requires Lasts(s, t, expiresAt) && q.now < expiresAt
    requires q.kind.Idle? || (q.kind.Stop? && q.reconcile != "" && !q.force)
    ensures ClaimMaintenance(s, q) == (s, false)
  {
    assert t in Live(s.lease.activity, q.now);
  }

  /**
   A started session protects its machine. In every later run in which it is not ended, renewed, cleared by
   a forced claim or pruned after its time, it is there with its end, and until that end every idle claim
   and every named stop that is not forced is refused.
   */
  lemma StartedSessionProtects(s: State, t: string, now: nat, expiresAt: nat, actions: seq<Action>, q: ClaimRequest)
    requires ClaimActivity(s, t, now, expiresAt).1
    requires Undisturbed(ClaimActivity(s, t, now, expiresAt).0, actions, t, expiresAt)
    ensures var s' := Run(ClaimActivity(s, t, now, expiresAt).0, actions);
            && Lasts(s', t, expiresAt)
            && (q.now < expiresAt && (q.kind.Idle? || (q.kind.Stop? && q.reconcile != "" && !q.force)) ==> !ClaimMaintenance(s', q).1)
  {
    hide Step, Ends, Renews, CanClaim, CanStartActivity;
    var s1 := ClaimActivity(s, t, now, expiresAt).0;
    StartRecords(s, t, now, expiresAt);
    SessionStays(s1, actions, t, expiresAt);
    if q.now < expiresAt && (q.kind.Idle? || (q.kind.Stop? && q.reconcile != "" && !q.force)) {
      SessionRefuses(Run(s1, actions), t, expiresAt, q);
    }
  }

  /** The caller may take the intent as it stands. */
  predicate TakesIntent(intent: Option<Intent>, q: ClaimRequest) {
    match intent
    case None => q.reconcile == ""
    case Some(i) =>
      && (i.kind == Delete ==> q.kind == Delete)
      && if i.token == q.token then true
         else if i.token == "" then q.reconcile == ""
         else if q.now < i.expiresAt then q.reconcile == "" && q.force && i.kind != Delete && (q.kind == Stop || q.kind == Delete)
         else q.reconcile == i.token
  }

  /**
   A maintenance claim succeeds exactly when the lease is in a status its kind starts from, the caller sees
   the current machine and may take the intent, and no session stands against it.
   */
  lemma ClaimsExactly(s: State, q: ClaimRequest)
    ensures var l := s.lease;
            ClaimMaintenance(s, q).1 <==>
              && s.computer.Some? && (q.expected.None? || (s.computer.value.reference == q.expected.value == l.reference))
              && (match q.kind
                  case Provision => l.status == Reserved || l.status == Provisioning || l.status == CleanupFailed
                  case Wake => l.status == Paused || l.status == Reserved || l.status == Provisioning || l.status == Running
                  case Idle => l.status == Running
                  case _ => l.status != Released && l.status != Deleted)
              && TakesIntent(l.intent, q)
              && (q.recovery ==> q.kind == Stop && !q.force && q.reconcile != "")
              && (q.kind == Idle || (q.kind == Stop && q.reconcile != "" && !q.force) ==> Unexpired(l.activity, q.now) == {})
              && (q.kind == Idle ==> s.computer.value.ready && s.computer.value.lastActiveAt <= q.idleBefore && q.owned && !q.busy)
  {
    LiveIsUnexpired(s.lease.activity, q.now);
    hide Live;
    assert Live(s.lease.activity, q.now) == map[] <==> Live(s.lease.activity, q.now).Keys == {};
  }

  /** A machine that is being stopped is never put back to work: it ends up paused, released or with a failed cleanup. */
  lemma StoppingIsNotRevived(s: State, a: Action)
    requires s.lease.status == Stopping && Step(s, a).lease.status != Stopping
    ensures var status := Step(s, a).lease.status; status == Paused || status == Released || status == CleanupFailed
    ensures a.Moved? && s.lease.intent.Some? && a.m.token == s.lease.intent.value.token
  {}

  /**
   What a successful transition leaves: it saw the machine both rows refer to, arming and failing keep the
   intent for the next one, and every other one ends it with the machine ready, paused, gone or as it was.
   */
  lemma MoveTakesEffect(s: State, m: MoveRequest)
    requires Transition(s, m).1
    ensures s.computer.Some? && s.computer.value.reference == m.expected && s.lease.reference == m.expected
    ensures var s' := Transition(s, m).0;
            && (m.move == ToWakeArmed || m.move == ToSessionArmed || m.move == ToFailed ==>
                  s'.lease.intent == s.lease.intent && s'.computer == s.computer
                  && s'.lease.status == (if m.move == ToFailed then CleanupFailed else if m.move == ToWakeArmed then Reserved else Provisioning))
            && (m.move == ToCancelled ==> s' == s.(lease := s.lease.(intent := None)))
            && (m.move == ToReady || m.move == ToPaused ==>
                  s'.lease.intent.None? && s'.lease.status == (if m.move == ToReady then Running else Paused)
                  && s'.computer.Some? && s'.computer.value.ready == (m.move == ToReady)
                  && s'.computer.value.lastActiveAt == (if m.move == ToReady then m.now else s.computer.value.lastActiveAt))
            && (m.move == ToDeleted ==> s'.lease.intent.None? && s'.lease.status == Released && s'.computer.None?)
  {}

  /**
   A transition succeeds exactly when the intent's holder names the machine both rows refer to and the lease
   and the intent stand where the move starts; what is being stopped can only be paused, deleted or failed.
   */
  lemma MovesExactly(s: State, m: MoveRequest)
    ensures var l := s.lease;
            Transition(s, m).1 <==>
              && s.computer.Some? && s.computer.value.reference == m.expected && l.reference == m.expected
              && l.intent.Some? && l.intent.value.token == m.token && l.status != Released && l.status != Deleted
              && var kind := l.intent.value.kind;
                 match m.move
                 case ToWakeArmed => kind == Wake && l.status != Stopping && l.status != CleanupFailed
                 case ToSessionArmed => kind == Provision && (l.status == Reserved || l.status == Provisioning || l.status == CleanupFailed)
                 case ToReady =>
                   && (kind == Provision || kind == Wake) && l.status != Stopping
                   && ((m.activityToken.None? && m.activityUser.None? && m.activityExpiresAt.None?)
                       || (m.activityToken.Some? && m.activityToken.value != "" && m.activityUser.Some? && m.activityUser.value != ""
                           && m.activityExpiresAt.Some? && m.now < m.activityExpiresAt.value && |Unexpired(l.activity, m.now)| < 64))
                 case ToCancelled => (kind == Provision || kind == Wake) && l.status != Stopping
                 case ToPaused => kind == Stop || kind == Idle || kind == Delete
                 case ToDeleted => kind == Delete
                 case ToFailed => true
  {
    LiveIsUnexpired(s.lease.activity, m.now);
    hide Live;
  }

  /** A release ends the intent of its token, and nothing else. */
  lemma ReleaseEndsIntent(s: State, token: string)
    ensures var (s', ok) := ReleaseMaintenance(s, token);
            && (ok <==> s.lease.intent.Some? && s.lease.intent.value.token == token)
            && s' == if ok then s.(lease := s.lease.(intent := None)) else s
  {}

  /** Billing stops every machine that is neither released nor failed, whoever holds it, and leaves the rest of the lease alone. */
  lemma BillingStops(s: State)
    ensures var s' := StopLease(s);
            && s' == s.(lease := s.lease.(status := s'.lease.status))
            && (s.lease.status != Released && s.lease.status != CleanupFailed ==> s'.lease.status == Stopping)
            && (s.lease.status == Released || s.lease.status == CleanupFailed ==> s' == s)
  {}

  /** An allocation is granted exactly to the holder of a provisioning intent for the recipe the lease already has, if any; it fixes the recipe and the time. */
  lemma AllocatesExactly(s: State, token: string, recipe: string, now: nat)
    ensures var ((s', at), l) := (PrepareAllocation(s, token, recipe, now), s.lease);
            && (at.Some? <==> && l.intent.Some? && l.intent.value.token == token && l.intent.value.kind == Provision
                              && (l.status == Reserved || l.status == Provisioning || l.status == CleanupFailed)
                              && (l.recipe.None? || l.recipe == Some(recipe)))
            && (at.None? ==> s' == s)
            && (at.Some? ==> s'.lease.status == Provisioning && s'.lease.recipe == Some(recipe) && s'.lease.requestedAt == at
                             && (l.requestedAt.Some? ==> at == l.requestedAt) && (l.requestedAt.None? ==> at == Some(now))
                             && s'.computer == s.computer && s'.lease.intent == l.intent && s'.lease.activity == l.activity)
  {}
}
