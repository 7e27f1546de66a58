/**
 When the sandbox meter applies a debit, told from the fields of the request, the lease and the payer's
 account, and what the account checks come to over any run: an unpaid account takes no new hold, and an
 inactive one pays for nothing beyond what it already holds.
 */
module MeteringGuards {
  import opened Common
  import opened Metering
  import opened Reservations
  import opened MeteringLedger
  import opened WalletLedger

  // ----- one debit --------------------------------------------------------------------------------

  function NextHold(l: Lease, m: Request): int {
    match m.hold
    case None => l.hold
    case Some(h) => h
  }

  /** The lease can be metered at this version, and no amount is negative or too large. */
  predicate Addressed(w: World, m: Request) {
    && m.lease < |w.leases|
    && var l := w.leases[m.lease];
       && l.workspaceId == m.workspaceId && l.meterVersion == m.expected
       && l.status != Released && l.status != Deleted
       && 0 <= l.hold <= MAX_SAFE && 0 <= NextHold(l, m) <= MAX_SAFE
       && m.floor >= 0 && (m.charge.Some? ==> 0 <= m.charge.value <= MAX_SAFE)
  }

  /** A hold is only ever changed for the payer and the provider reference it was taken for. */
  predicate SameHolder(l: Lease, m: Request, p: Payer) {
    l.hold == 0 ||
    (l.heldPayer.Some? && m.reference == l.reference
     && var h := l.heldPayer.value;
        h.account == p.account && h.user == p.user && h.subjectKind == p.subjectKind && h.subjectId == p.subjectId)
  }

  /** Nothing to pay and nothing held, before or after. */
  predicate Idle(l: Lease, m: Request) {
    m.charge.None? && l.hold == 0 && NextHold(l, m) == 0
  }

  /** The debit ends the runtime it pays for: the provider confirmed the stop, or nothing is charged. */
  predicate EndsRuntime(l: Lease, m: Request) {
    NextHold(l, m) == 0 && (m.evidence == Some(true) || (m.evidence.None? && m.charge.None?))
  }

  /** The debit is paid from the hold it gives up. */
  predicate PaidFromHold(l: Lease, m: Request) {
    0 < l.hold && NextHold(l, m) == 0 && GetOr(m.charge, 0) <= l.hold
  }

  /** A workspace account may pay: its plan, its standing, its funds and the two outside budgets allow it. */
  predicate AccountPays(w: World, l: Lease, m: Request, p: Payer) {
    && p.account != "" && p.workspaceId == l.workspaceId && p.account in w.accounts
    && var account, charge, hold := w.accounts[p.account], GetOr(m.charge, 0), NextHold(l, m);
       && account.workspaceScope && account.workspaceId == l.workspaceId && account.wallet.Some?
       && (account.paid || EndsRuntime(l, m))
       && (account.active || PaidFromHold(l, m))
       && var b := account.wallet.value;
          && l.hold <= b.reserved
          && charge + hold + m.floor
             <= (if b.unlimited then MAX_SAFE else Max(0, b.included + b.grant + b.purchased - b.used - (b.reserved - l.hold)))
          && (Idle(l, m) ||
              (m.limits.Within? && (hold > 0 ==> m.preview)
               && b.topUpBalance >= 0 && charge <= Max(0, b.included + b.grant - b.allowanceUsed) + b.topUpBalance))
  }

  /**
   A debit is applied exactly when the lease is metered at this version, a hold stays with its payer, and
   a payer can pay: a person's own account for nothing at all, a workspace when its account may.
   */
  lemma AppliedExactly(w: World, m: Request)
    ensures Meter(w, m).1.Applied? <==>
              && Addressed(w, m)
              && var l := w.leases[m.lease];
                 match m.payer
                 case None => Idle(l, m)
                 case Some(p) => SameHolder(l, m, p) && if p.workspaceScope then AccountPays(w, l, m, p) else Idle(l, m) && m.floor == 0
  {}

  /** A debit that a workspace pays for without a paid plan, or with an account that is not active. */
  lemma RestrictedDebit(w: World, m: Request, a: string)
    requires a in w.accounts && (!w.accounts[a].paid || !w.accounts[a].active)
    requires Meter(w, m).1.Applied? && m.payer.Some? && m.payer.value.workspaceScope && m.payer.value.account == a
    ensures var w' := Meter(w, m).0;
            && m.lease < |w'.leases| && w'.leases[m.lease].hold == 0
            && (!w.accounts[a].paid && m.charge.Some? ==> m.evidence == Some(true))
            && (!w.accounts[a].active ==> GetOr(m.charge, 0) <= w.leases[m.lease].hold)
  {
    AppliedExactly(w, m);
    AppliedCommits(w, m);
  }

  /**
   The provider evidence of an addressed debit survives whether it is applied or refused, and is lost only
   with a throw; the provider reference moves only with an applied debit.
   */
  lemma EvidenceIsKept(w: World, m: Request)
    requires Addressed(w, m)
    ensures var (w', r) := Meter(w, m);
            && |w'.leases| == |w.leases|
            && (forall i :: 0 <= i < |w.leases| && i != m.lease ==> w'.leases[i] == w.leases[i])
            && var (l, l') := (w.leases[m.lease], w'.leases[m.lease]);
               && (m.evidence.Some? && !r.Thrown? ==> l'.evidence == m.evidence)
               && (m.evidence.None? || r.Thrown? ==> l'.evidence == l.evidence)
               && l'.reference == (if r.Applied? && m.reference.Some? then m.reference else l.reference)
  {
    hide Finalize, Allocates, Available, DecideWallet;
    if Meter(w, m).1.Applied? {
      AppliedCommits(w, m);
    }
  }

  // ----- runs -------------------------------------------------------------------------------------

  /** No step of the run puts the account on a paid plan. */
  ghost predicate StaysUnpaid(actions: seq<Action>, a: string) {
    forall k :: 0 <= k < |actions| && actions[k].SetPlan? && actions[k].account == a ==> !actions[k].paid
  }

  ghost predicate StaysInactive(actions: seq<Action>, a: string) {
    forall k :: 0 <= k < |actions| && actions[k].SetPlan? && actions[k].account == a ==> !actions[k].active
  }

  /** What is held against the account is held as before, or no more. */
  ghost predicate NoNewHold(leases: seq<Lease>, leases': seq<Lease>, a: string) {
    && |leases| <= |leases'|
    && (forall i :: 0 <= i < |leases| ==> HeldOn(leases'[i], a) == 0 || HeldOn(leases'[i], a) == HeldOn(leases[i], a))
    && (forall i :: |leases| <= i < |leases'| ==> HeldOn(leases'[i], a) == 0)
  }

  /** Only a debit changes what leases hold or what operations charged, and only a plan change the standing. */
  lemma OtherSteps(w: World, act: Action, a: string)
    requires !act.Debit?
    ensures var w' := Step(w, act);
            && NoNewHold(w.leases, w'.leases, a) && w'.operations == w.operations
            && Held(w'.leases, a) == Held(w.leases, a)
            && (a in w.accounts ==> a in w'.accounts)
            && (a in w.accounts && !(act.SetPlan? && act.account == a) ==>
                  w'.accounts[a].paid == w.accounts[a].paid && w'.accounts[a].active == w.accounts[a].active)
  {
    hide Reserve, Start, Suspend, FinalizeReservation, ReleaseReservation, ReconcileReservation, Correct, ChargeDirect, Held, Trimmed;
    var w' := Step(w, act);
    if act.AddLease? {
      HeldAppend(w.leases, w'.leases[|w.leases|], a);
    } else if act.SetStatus? {
      HeldSame(w.leases, w'.leases, a);
    } else if !act.SetPlan? && !act.Open? && !act.TopUp? {
      ReservationSteps(w, act, a);
    }
  }

  /** The other users of a wallet change only wallets, reservations and usage. */
  lemma ReservationSteps(w: World, act: Action, a: string)
    requires !act.Debit? && !act.AddLease? && !act.SetStatus? && !act.SetPlan? && !act.Open? && !act.TopUp?
    ensures var w' := Step(w, act);
            && w'.leases == w.leases && w'.operations == w.operations
            && (a in w.accounts ==> a in w'.accounts && w'.accounts[a].paid == w.accounts[a].paid && w'.accounts[a].active == w.accounts[a].active)
  {
    hide Finalize, Release, Refund, Allocates, Raise, Available, Unspent;
  }

  lemma HeldAppend(leases: seq<Lease>, l: Lease, a: string)
    ensures Held(leases + [l], a) == Held(leases, a) + HeldOn(l, a)
  {
    assert (leases + [l])[..|leases|] == leases;
  }

  lemma DebitStep(w: World, m: Request, a: string)
    requires a in w.accounts && (!w.accounts[a].paid || !w.accounts[a].active)
    ensures var w' := Meter(w, m).0;
            && NoNewHold(w.leases, w'.leases, a)
            && a in w'.accounts && w'.accounts[a].paid == w.accounts[a].paid && w'.accounts[a].active == w.accounts[a].active
            && (!w.accounts[a].active ==>
                  Charged(w'.operations, a) + Held(w'.leases, a) <= Charged(w.operations, a) + Held(w.leases, a))
  {
    var w' := Meter(w, m).0;
    if !Meter(w, m).1.Applied? {
      RefusedKeepsMoney(w, m);
      hide Meter, Held;
      HeldSame(w.leases, w'.leases, a);
    } else {
      AppliedCommits(w, m);
      var l := w.leases[m.lease];
      if UsesLedger(l, m) {
        LedgerChecks(w, m);
        LedgerWrites(w, m);
        LedgerMoves(w, m, a);
        if m.payer.value.account == a {
          RestrictedDebit(w, m, a);
        }
        hide Meter, Held, Charged, Finalize, Available, Allocates, Commit;
      } else {
        FreeDebit(w, m);
        hide Meter, Held, Charged;
        HeldUpdate(w.leases, m.lease, Metered(l, m), a);
      }
    }
  }

  /** One step of a run in which the account stays without a plan, or stays inactive. */
  lemma RestrictedStep(w: World, act: Action, a: string)
    requires a in w.accounts && (!w.accounts[a].paid || !w.accounts[a].active)
    ensures var w' := Step(w, act);
            && NoNewHold(w.leases, w'.leases, a) && a in w'.accounts
            && (if act.SetPlan? && act.account == a
                then w'.accounts[a].paid == act.paid && w'.accounts[a].active == act.active
                else w'.accounts[a].paid == w.accounts[a].paid && w'.accounts[a].active == w.accounts[a].active)
            && (!w.accounts[a].active ==>
                  Charged(w'.operations, a) + Held(w'.leases, a) <= Charged(w.operations, a) + Held(w.leases, a))
  {
    hide Meter, Held, Charged, Reserve, Start, Suspend, FinalizeReservation, ReleaseReservation, ReconcileReservation, Correct, ChargeDirect;
    if act.Debit? {
      DebitStep(w, act.m, a);
    } else {
      OtherSteps(w, act, a);
    }
  }

  /**
   While a workspace account stays without a paid plan, no lease takes a hold against it, in any run: a
   hold that is there stays as it is or is given back.
   */
  lemma {:induction false} UnpaidTakesNoHold(w: World, actions: seq<Action>, a: string)
    requires a in w.accounts && !w.accounts[a].paid && StaysUnpaid(actions, a)
    ensures NoNewHold(w.leases, Run(w, actions).leases, a)
    decreases |actions|
  {
    hide Meter, Step, Held, Charged;
    if actions != [] {
      var w1 := Step(w, actions[0]);
      RestrictedStep(w, actions[0], a);
      UnpaidTakesNoHold(w1, actions[1..], a);
    }
  }

  /**
   While a workspace account stays inactive, metering charges it for nothing but what was already held:
   what it was charged and what is held against it never grow together, and no lease takes a new hold.
   */
  lemma {:induction false} InactivePaysFromHolds(w: World, actions: seq<Action>, a: string)
    requires a in w.accounts && !w.accounts[a].active && StaysInactive(actions, a)
    ensures var w' := Run(w, actions);
            && NoNewHold(w.leases, w'.leases, a)
            && Charged(w'.operations, a) + Held(w'.leases, a) <= Charged(w.operations, a) + Held(w.leases, a)
    decreases |actions|
  {
    hide Meter, Step, Held, Charged;
    if actions != [] {
      RestrictedStep(w, actions[0], a);
      InactivePaysFromHolds(Step(w, actions[0]), actions[1..], a);
    }
  }
}
