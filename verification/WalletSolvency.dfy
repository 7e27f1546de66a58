/** When a wallet can be overdrawn, and when the settlement of a reservation fails. */
module WalletSolvency {
  import opened Common
  import opened Metering
  import opened Reservations
  import opened MeteringLedger
  import opened WalletLedger

  ghost predicate SolventAt(w: World, account: string) {
    HasWallet(w, account) ==> Solvent(w.accounts[account].wallet.value)
  }

  /** What a step charges an account that was not held for it before. */
  ghost function Unheld(w: World, a: Action, account: string): int
    requires HasWallet(w, account)
  {
    var b := w.accounts[account].wallet.value;
    match a
    case Record(id, micros) => if id == account then Min(micros, Unspent(b)) else 0
    case CorrectCost(k, actual, samePeriod, limit) =>
      if k < |w.reservations| && w.reservations[k].account == account && w.reservations[k].state.Settled? && !w.reservations[k].state.corrected && samePeriod
      then Raise(b, actual - w.reservations[k].state.charged, limit) else 0
    case _ => 0
  }

  /** The step charges a budgeted wallet more than what is neither used nor reserved. */
  ghost predicate Overdraws(w: World, a: Action, account: string) {
    HasWallet(w, account) && !w.accounts[account].wallet.value.unlimited
    && Unheld(w, a, account) > Available(w.accounts[account].wallet.value, 0)
  }

  // ----- one step -------------------------------------------------------------------------------------

  /** What is unspent always fits the allocation. */
  lemma UnspentAllocates(b: Wallet, actual: int)
    requires Consistent(b) && 0 <= actual <= Unspent(b)
    ensures Allocates(b, actual)
  {}

  lemma ExtraChargeSolvent(b: Wallet, canceled: bool, charge: int)
    requires Consistent(b) && Solvent(b) && charge >= 0 && b.reserved >= 0
    ensures Solvent(Finalize(b, canceled, charge, 0, 0)) <==> b.unlimited || charge <= Available(b, 0)
  {}

  lemma OpenSolvent(w: World, a: Action, account: string)
    requires SolventAt(w, account) && (a.Open? || a.TopUp?)
    ensures SolventAt(Step(w, a), account) && !Overdraws(w, a, account)
  {}

  lemma PlanSolvent(w: World, id: string, active: bool, paid: bool, canceled: bool, account: string)
    requires SolventAt(w, account)
    ensures SolventAt(Step(w, SetPlan(id, active, paid, canceled)), account) && !Overdraws(w, SetPlan(id, active, paid, canceled), account)
  {}

  lemma ReserveSolvent(w: World, id: string, workspaceId: string, micros: nat, allowed: bool, account: string)
    requires SolventAt(w, account)
    ensures SolventAt(Reserve(w, id, workspaceId, micros, allowed), account)
    ensures !Overdraws(w, TakeHold(id, workspaceId, micros, allowed), account)
  {}

  lemma RecordSolvent(w: World, id: string, micros: nat, account: string)
    requires Inv(w) && SolventAt(w, account)
    ensures SolventAt(ChargeDirect(w, id, micros), account) <==> !Overdraws(w, Record(id, micros), account)
  {
    hide Inv, Finalize, Consistent, Solvent, Allocates;
    if id == account && HasWallet(w, account) {
      var b := w.accounts[account].wallet.value;
      InvBalances(w, account);
      ReservedNonNegative(w, account);
      UnspentAllocates(b, Min(micros, Unspent(b)));
      ExtraChargeSolvent(b, w.accounts[account].canceled, Min(micros, Unspent(b)));
    }
  }

  lemma CorrectSolvent(w: World, k: nat, actual: nat, samePeriod: bool, limit: nat, account: string)
    requires Inv(w) && SolventAt(w, account)
    ensures SolventAt(Correct(w, k, actual, samePeriod, limit), account) <==> !Overdraws(w, CorrectCost(k, actual, samePeriod, limit), account)
  {
    hide Inv, Finalize, Consistent, Solvent, Allocates, Refund;
    if HasWallet(w, account) && k < |w.reservations| && w.reservations[k].account == account && w.reservations[k].state.Settled? && !w.reservations[k].state.corrected {
      var r := w.reservations[k];
      var b := w.accounts[account].wallet.value;
      var difference := if samePeriod then actual - r.state.charged else 0;
      InvBalances(w, account);
      WalletCovers(w, k);
      ReservationSound(w, k);
      if difference > 0 {
        UnspentAllocates(b, Raise(b, difference, limit));
        ExtraChargeSolvent(b, w.accounts[account].canceled, Raise(b, difference, limit));
      } else if difference < 0 {
        RefundIsExact(b, w.accounts[account].canceled, 0 - difference);
      }
    }
  }

  lemma ReleaseIsSolvent(b: Wallet, canceled: bool, released: int)
    requires Solvent(b) && 0 <= released <= b.reserved
    ensures Solvent(Release(b, canceled, released))
  {}

  lemma SettledWithinHold(b: Wallet, canceled: bool, actual: int, micros: int)
    requires Solvent(b) && 0 <= actual <= micros <= b.reserved
    ensures Solvent(Finalize(b, canceled, actual, micros, 0))
  {}

  lemma SettleSolvent(w: World, k: nat, actual: nat, account: string)
    requires Inv(w) && SolventAt(w, account) && OnLedger(w, k) && actual <= w.reservations[k].micros
    requires w.reservations[k].state.Pending? || w.reservations[k].state.Reconcile?
    ensures SolventAt(Settle(w, k, actual), account)
  {
    hide Inv, Finalize, Consistent, Solvent, Allocates;
    var r := w.reservations[k];
    WalletCovers(w, k);
    if account == r.account {
      SettledWithinHold(w.accounts[account].wallet.value, w.accounts[account].canceled, actual, r.micros);
    }
  }

  lemma GiveBackSolvent(w: World, k: nat, reconciled: bool, account: string)
    requires Inv(w) && SolventAt(w, account) && OnLedger(w, k)
    requires w.reservations[k].state.Pending? || w.reservations[k].state.Reconcile?
    ensures SolventAt(GiveBack(w, k, reconciled), account)
  {
    hide Inv, Release, Consistent, Solvent;
    var r := w.reservations[k];
    WalletCovers(w, k);
    ReservationSound(w, k);
    if account == r.account {
      ReleaseIsSolvent(w.accounts[account].wallet.value, w.accounts[account].canceled, r.micros);
    }
  }

  lemma HoldStepSolvent(w: World, a: Action, account: string)
    requires Inv(w) && SolventAt(w, account) && (a.BeginWork? || a.SuspendHold? || a.SettleHold? || a.ReleaseHold? || a.ReconcileHold?)
    ensures SolventAt(Step(w, a), account) && !Overdraws(w, a, account)
  {
    hide Inv, Solvent, Settle, GiveBack, Meter, Available;
    if OnLedger(w, a.k) && (w.reservations[a.k].state.Pending? || w.reservations[a.k].state.Reconcile?) {
      GiveBackSolvent(w, a.k, a.ReconcileHold?, account);
      if a.SettleHold? && a.actual <= w.reservations[a.k].micros {
        SettleSolvent(w, a.k, a.actual, account);
      } else if a.ReconcileHold? && a.cost.Some? && a.cost.value <= w.reservations[a.k].micros {
        SettleSolvent(w, a.k, a.cost.value, account);
      }
    }
    AvailableIsNatural(w, account);
  }

  lemma AvailableIsNatural(w: World, account: string)
    ensures HasWallet(w, account) ==> Available(w.accounts[account].wallet.value, 0) >= 0
  {}

  /** From a solvent wallet a step leads to a solvent one exactly unless it overdraws it. */
  lemma StepSolventExactly(w: World, a: Action, account: string)
    requires Inv(w) && SolventAt(w, account)
    ensures SolventAt(Step(w, a), account) <==> !Overdraws(w, a, account)
  {
    hide Inv, Finalize, Trimmed, Solvent, Consistent;
    match a
    case Debit(m) => DebitKeepsDifference(w, m, account);
    case Record(id, micros) => RecordSolvent(w, id, micros, account);
    case CorrectCost(k, actual, samePeriod, limit) => CorrectSolvent(w, k, actual, samePeriod, limit, account);
    case TakeHold(id, workspaceId, micros, allowed) => ReserveSolvent(w, id, workspaceId, micros, allowed, account);
    case SetPlan(id, active, paid, canceled) => PlanSolvent(w, id, active, paid, canceled, account);
    case Open(_, _, _, _, _) => OpenSolvent(w, a, account);
    case TopUp(_, _) => OpenSolvent(w, a, account);
    case SetStatus(_, _) =>
    case AddLease(_) =>
    case _ => HoldStepSolvent(w, a, account);
  }

  // ----- runs -----------------------------------------------------------------------------------------

  ghost predicate AlwaysSolvent(w: World, actions: seq<Action>, account: string)
    decreases |actions|
  {
    SolventAt(w, account) && (actions == [] || AlwaysSolvent(Step(w, actions[0]), actions[1..], account))
  }

  ghost predicate NeverOverdrawn(w: World, actions: seq<Action>, account: string)
    decreases |actions|
  {
    actions == [] || (!Overdraws(w, actions[0], account) && NeverOverdrawn(Step(w, actions[0]), actions[1..], account))
  }

  /**
   A budgeted wallet never commits more than it was given, in any run of all its users, exactly when no
   charge that was not held for goes beyond what is neither used nor reserved.
   */
  lemma {:induction false} SolventThroughoutExactly(w: World, actions: seq<Action>, account: string)
    requires Inv(w) && SolventAt(w, account)
    ensures AlwaysSolvent(w, actions, account) <==> NeverOverdrawn(w, actions, account)
    decreases |actions|
  {
    hide Inv, Step, SolventAt, Overdraws;
    if actions != [] {
      StepKeepsInv(w, actions[0]);
      StepSolventExactly(w, actions[0], account);
      if SolventAt(Step(w, actions[0]), account) {
        SolventThroughoutExactly(Step(w, actions[0]), actions[1..], account);
      }
    }
  }

  /** The settlement of a reservation fails exactly when its cost exceeds what the wallet has unspent. */
  lemma SettlementFailsExactly(w: World, k: nat, actual: nat)
    requires Inv(w) && k < |w.reservations| && (w.reservations[k].state.Pending? || w.reservations[k].state.Reconcile?)
    requires HasWallet(w, w.reservations[k].account) && actual <= w.reservations[k].micros
    ensures var b := w.accounts[w.reservations[k].account].wallet.value;
            && (FinalizeReservation(w, k, actual) == w <==> actual > Unspent(b))
            && (!b.unlimited && Solvent(b) ==> actual <= Unspent(b))
  {
    var id := w.reservations[k].account;
    InvBalances(w, id);
    WalletCovers(w, k);
    hide Finalize;
    assert w.reservations[k := w.reservations[k].(state := Settled(actual, false), started := true)][k] != w.reservations[k];
  }

  // ----- a run in which recorded usage eats a hold ------------------------------------------------------

  const EATEN: seq<Action> := [Open("acct", "ws", false, 10, 0), TakeHold("acct", "ws", 10, true), Record("acct", 5), SettleHold(0, 10)]

  /** The one wallet of that run, with ten micros of included credit. */
  ghost predicate TenWallet(w: World, used: int, reserved: int) {
    && HasWallet(w, "acct") && w.accounts["acct"].workspaceScope && w.accounts["acct"].workspaceId == "ws" && !w.accounts["acct"].canceled
    && var b := w.accounts["acct"].wallet.value;
       && !b.unlimited && b.included == 10 && b.grant == 0 && b.purchased == 0 && b.topUpBalance == 0
       && b.used == used && b.allowanceUsed == used && b.reserved == reserved
  }

  lemma TenHeld(w: World)
    requires TenWallet(w, 0, 0) && w.reservations == []
    ensures var w' := Step(w, EATEN[1]); TenWallet(w', 0, 10) && w'.reservations == [Reservation("acct", 10, Pending, false)]
  {}

  lemma FiveEaten(w: World)
    requires TenWallet(w, 0, 10)
    ensures var w' := Step(w, EATEN[2]); TenWallet(w', 5, 10) && w'.reservations == w.reservations
  {}

  lemma SettlementThrows(w: World)
    requires TenWallet(w, 5, 10) && w.reservations == [Reservation("acct", 10, Pending, false)]
    ensures Step(w, EATEN[3]) == w
  {}

  /** Usage that is recorded after the fact eats a reservation: the wallet is overdrawn and the settlement fails. */
  lemma RecordedUsageEatsHold()
    ensures var w := Run(EMPTY, EATEN);
            && HasWallet(w, "acct") && !SolventAt(w, "acct")
            && w.reservations == [Reservation("acct", 10, Pending, false)]
            && w.accounts["acct"].wallet.value.used == 5 && w.accounts["acct"].wallet.value.reserved == 10
  {
    var w1 := Step(EMPTY, EATEN[0]);
    var w2 := Step(w1, EATEN[1]);
    var w3 := Step(w2, EATEN[2]);
    assert TenWallet(w1, 0, 0) && w1.reservations == [];
    TenHeld(w1);
    FiveEaten(w2);
    SettlementThrows(w3);
    hide Step;
    RunOne(EMPTY, EATEN, 0);
    RunOne(w1, EATEN, 1);
    RunOne(w2, EATEN, 2);
    RunOne(w3, EATEN, 3);
    assert EATEN[0..] == EATEN && EATEN[4..] == [];
  }

  // ----- what the trim of a canceled plan takes ---------------------------------------------------------

  /**
   After the trim of a canceled plan, a wallet can spend the top-up that is not reserved, less what its
   allowance was charged beyond the grant. So it takes unspent purchased credit exactly when there is such
   a top-up and the included credit was used before.
   */
  lemma TrimTakesCreditExactly(b: Wallet)
    requires Consistent(b) && Solvent(b) && !b.unlimited && b.included >= 0
    ensures var left := Available(b.(included := Trimmed(b, true, b.used, b.reserved)), 0);
            && left == Max(0, b.topUpBalance - b.reserved + b.grant - b.allowanceUsed)
            && (left < b.topUpBalance - b.reserved <==> b.topUpBalance > b.reserved && b.allowanceUsed > b.grant)
  {
    var x := b.used + b.reserved - b.grant - b.purchased;
    assert x == b.allowanceUsed - b.topUpBalance + b.reserved - b.grant;
    assert x <= b.included;
  }

  const CANCELED: seq<Action> := [Open("acct", "ws", false, 20, 0), TopUp("acct", 5), Record("acct", 10), SetPlan("acct", true, false, true)]

  /** The wallet of that run. */
  ghost predicate PlanWallet(w: World, included: int, purchased: int, used: int) {
    && HasWallet(w, "acct") && !w.accounts["acct"].canceled
    && var b := w.accounts["acct"].wallet.value;
       && !b.unlimited && b.included == included && b.grant == 0 && b.purchased == purchased && b.topUpBalance == purchased
       && b.used == used && b.allowanceUsed == used && b.reserved == 0
  }

  lemma ToppedUp(w: World)
    requires PlanWallet(w, 20, 0, 0)
    ensures PlanWallet(Step(w, CANCELED[1]), 20, 5, 0)
  {}

  lemma TenRecorded(w: World)
    requires PlanWallet(w, 20, 5, 0)
    ensures PlanWallet(Step(w, CANCELED[2]), 20, 5, 10)
  {}

  lemma PlanCanceled(w: World)
    requires PlanWallet(w, 20, 5, 10)
    ensures var w' := Step(w, CANCELED[3]);
            HasWallet(w', "acct") && w'.accounts["acct"].wallet.value.topUpBalance == 5 && Available(w'.accounts["acct"].wallet.value, 0) == 0
  {}

  /** A run from the empty world in which a cancellation leaves a top-up of 5 with nothing to spend. */
  lemma CancellationTakesTopUp()
    ensures var w := Run(EMPTY, CANCELED);
            HasWallet(w, "acct") && w.accounts["acct"].wallet.value.topUpBalance == 5 && Available(w.accounts["acct"].wallet.value, 0) == 0
  {
    var w1 := Step(EMPTY, CANCELED[0]);
    var w2 := Step(w1, CANCELED[1]);
    var w3 := Step(w2, CANCELED[2]);
    assert PlanWallet(w1, 20, 0, 0);
    ToppedUp(w1);
    TenRecorded(w2);
    PlanCanceled(w3);
    hide Step;
    RunOne(EMPTY, CANCELED, 0);
    RunOne(w1, CANCELED, 1);
    RunOne(w2, CANCELED, 2);
    RunOne(w3, CANCELED, 3);
    assert CANCELED[0..] == CANCELED && CANCELED[4..] == [];
  }
}
