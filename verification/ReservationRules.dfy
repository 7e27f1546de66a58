/**
 The life of a budget reservation: when one is taken, that begun work is never simply given back, that
 nothing beyond the reserved amount is charged, and what a correction or a refund comes to.
 */
module ReservationRules {
  import opened Common
  import opened Metering
  import opened Reservations
  import opened MeteringLedger
  import opened WalletLedger

  /** A reservation is taken exactly on the workspace's own account, with every outside leave and enough free credit. */
  lemma ReservesExactly(w: World, account: string, workspaceId: string, micros: nat, allowed: bool)
    ensures var w' := Reserve(w, account, workspaceId, micros, allowed);
            var free := && account in w.accounts && w.accounts[account].workspaceScope && w.accounts[account].workspaceId == workspaceId
                        && w.accounts[account].wallet.Some? && allowed
                        && var b := w.accounts[account].wallet.value;
                           micros <= (if b.unlimited then MAX_SAFE else Max(0, b.included + b.grant + b.purchased - b.used - b.reserved));
            && (free <==> w'.reservations == w.reservations + [Reservation(account, micros, Pending, false)])
            && (!free ==> w' == w)
            && (free ==> HasWallet(w', account)
                         && w'.accounts[account].wallet.value.reserved == w.accounts[account].wallet.value.reserved + micros
                         && w'.accounts[account].wallet.value.used == w.accounts[account].wallet.value.used)
  {
    if Reserve(w, account, workspaceId, micros, allowed) == w {
      assert |w.reservations| < |w.reservations + [Reservation(account, micros, Pending, false)]|;
    }
  }

  predicate Settles(a: Action, k: nat, charged: int) {
    a.SettleHold? && a.k == k && a.actual == charged
  }

  predicate Reconciles(a: Action, k: nat, charged: int) {
    a.ReconcileHold? && a.k == k && a.cost.Some? && a.cost.value == charged
  }

  /** Given back and settled reservations are over; a waiting one goes back only by a reconciliation. */
  predicate Follows(r: Reservation, r': Reservation, a: Action, k: nat) {
    && r'.account == r.account && r'.micros == r.micros && (r.started ==> r'.started)
    && match r.state
       case Pending =>
         || (r'.state == Pending && (r'.started ==> r.started || a == BeginWork(k)))
         || (r'.state == Reconcile && r'.started && (a == SuspendHold(k) || (a.ReleaseHold? && a.k == k && (a.worked || r.started)) || (a.SettleHold? && a.k == k && a.actual > r.micros)))
         || (r'.state == GivenBack && !r.started && a == ReleaseHold(k, false))
         || (r'.state.Settled? && r'.started && !r'.state.corrected && Settles(a, k, r'.state.charged) && r'.state.charged <= r.micros)
       case Reconcile =>
         || (r'.state == Reconcile)
         || (r'.state == GivenBack && a == ReconcileHold(k, None))
         || (r'.state.Settled? && !r'.state.corrected && r'.state.charged <= r.micros
             && (Reconciles(a, k, r'.state.charged) || Settles(a, k, r'.state.charged)))
       case Settled(charged, corrected) =>
         r'.state == r.state || (!corrected && r'.state.Settled? && r'.state.corrected && a.CorrectCost? && a.k == k)
       case GivenBack => r'.state == GivenBack
  }

  /**
   A reservation moves only so: work that began is remembered, and begun work is never given back but by a
   reconciliation that found no cost; it is settled for at most what was reserved, and corrected at most once.
   */
  lemma ReservationMovesOnlySo(w: World, a: Action, k: nat)
    requires k < |w.reservations|
    ensures var w' := Step(w, a); k < |w'.reservations| && Follows(w.reservations[k], w'.reservations[k], a, k)
  {
    hide Meter, Reserve, Start, Suspend, FinalizeReservation, ReleaseReservation, ReconcileReservation, Correct, ChargeDirect;
    match a
    case Debit(m) => DebitKeepsReservations(w, m);
    case BeginWork(_) => BeginMoves(w, a, k);
    case SuspendHold(_) => BeginMoves(w, a, k);
    case SettleHold(_, _) => SettleMoves(w, a, k);
    case ReleaseHold(_, _) => ReleaseMoves(w, a, k);
    case ReconcileHold(_, _) => ReconcileMoves(w, a, k);
    case CorrectCost(_, _, _, _) => CorrectMoves(w, a, k);
    case TakeHold(id, workspaceId, micros, allowed) => OthersKeepReservations(w, a, k);
    case Record(_, _) => OthersKeepReservations(w, a, k);
    case _ =>
  }

  lemma BeginMoves(w: World, a: Action, k: nat)
    requires k < |w.reservations| && (a.BeginWork? || a.SuspendHold?)
    ensures var w' := Step(w, a); k < |w'.reservations| && Follows(w.reservations[k], w'.reservations[k], a, k)
  {}

  lemma SettleMoves(w: World, a: Action, k: nat)
    requires k < |w.reservations| && a.SettleHold?
    ensures var w' := Step(w, a); k < |w'.reservations| && Follows(w.reservations[k], w'.reservations[k], a, k)
  {
    hide Finalize, Allocates;
  }

  lemma ReleaseMoves(w: World, a: Action, k: nat)
    requires k < |w.reservations| && a.ReleaseHold?
    ensures var w' := Step(w, a); k < |w'.reservations| && Follows(w.reservations[k], w'.reservations[k], a, k)
  {
    hide Release;
  }

  lemma ReconcileMoves(w: World, a: Action, k: nat)
    requires k < |w.reservations| && a.ReconcileHold?
    ensures var w' := Step(w, a); k < |w'.reservations| && Follows(w.reservations[k], w'.reservations[k], a, k)
  {
    hide Finalize, Allocates, Release;
  }

  lemma CorrectMoves(w: World, a: Action, k: nat)
    requires k < |w.reservations| && a.CorrectCost?
    ensures var w' := Step(w, a); k < |w'.reservations| && Follows(w.reservations[k], w'.reservations[k], a, k)
  {
    hide Finalize, Allocates, Refund, Raise;
  }

  lemma OthersKeepReservations(w: World, a: Action, k: nat)
    requires k < |w.reservations| && (a.TakeHold? || a.Record?)
    ensures var w' := Step(w, a); k < |w'.reservations| && w'.reservations[k] == w.reservations[k]
  {
    hide Finalize, Allocates, Available, Unspent;
  }

  lemma DebitKeepsReservations(w: World, m: Request)
    ensures Meter(w, m).0.reservations == w.reservations
  {
    hide Finalize, Decide, Admit;
    if Meter(w, m).1.Applied? {
      AppliedCommits(w, m);
    }
  }

  /**
   What a pending reservation with its wallet comes to: beginning work marks it, suspending it or settling it
   beyond its amount leaves it to reconciliation, and a release gives it back only if no work began.
   */
  lemma PendingComesTo(w: World, k: nat, worked: bool, actual: nat)
    requires k < |w.reservations| && HasWallet(w, w.reservations[k].account) && w.reservations[k].state == Pending
    ensures var r := w.reservations[k];
            && Step(w, BeginWork(k)) == w.(reservations := w.reservations[k := r.(started := true)])
            && Step(w, SuspendHold(k)) == w.(reservations := w.reservations[k := r.(state := Reconcile, started := true)])
            && (actual > r.micros ==> Step(w, SettleHold(k, actual)) == Step(w, SuspendHold(k)))
            && (worked || r.started ==> Step(w, ReleaseHold(k, worked)) == Step(w, SuspendHold(k)))
            && (!worked && !r.started ==> Step(w, ReleaseHold(k, worked)).reservations == w.reservations[k := r.(state := GivenBack)])
  {
    hide Finalize, Release, Allocates;
  }

  /** Begun work is suspended by a release, never given back: only its reconciliation can do that. */
  lemma {:induction false} BegunWorkIsNotGivenBack(w: World, actions: seq<Action>, k: nat)
    requires k < |w.reservations| && w.reservations[k].started && !w.reservations[k].state.GivenBack?
    requires forall n :: 0 <= n < |actions| ==> actions[n] != ReconcileHold(k, None)
    ensures var w' := Run(w, actions); k < |w'.reservations| && w'.reservations[k].started && !w'.reservations[k].state.GivenBack?
    decreases |actions|
  {
    hide Step;
    if actions != [] {
      ReservationMovesOnlySo(w, actions[0], k);
      BegunWorkIsNotGivenBack(Step(w, actions[0]), actions[1..], k);
    }
  }

  /** What is left to charge when the allowance is used up first. */
  function Left(b: Wallet): int {
    Max(0, b.included + b.grant - b.allowanceUsed) + Max(0, b.topUpBalance)
  }

  /**
   A correction replaces the charge by the exact cost within the billing period, once: downwards in full, and
   upwards as far as the spend limit allows and the wallet has anything that is not reserved.
   */
  lemma CorrectsExactly(w: World, k: nat, actual: nat, samePeriod: bool, limit: nat)
    requires k < |w.reservations| && HasWallet(w, w.reservations[k].account) && w.reservations[k].state.Settled? && !w.reservations[k].state.corrected
    requires Step(w, CorrectCost(k, actual, samePeriod, limit)) != w
    ensures var (r, r') := (w.reservations[k], Step(w, CorrectCost(k, actual, samePeriod, limit)).reservations[k]);
            var b := w.accounts[r.account].wallet.value;
            && k < |Step(w, CorrectCost(k, actual, samePeriod, limit)).reservations|
            && r'.state.Settled? && r'.state.corrected
            && (!samePeriod ==> r'.state.charged == r.state.charged)
            && (samePeriod && actual <= r.state.charged ==> r'.state.charged == actual)
            && (samePeriod && actual > r.state.charged ==>
                  r'.state.charged == r.state.charged + Max(0, Min(actual - r.state.charged, Min(limit, Left(b) - b.reserved))))
  {
    hide Finalize, Refund, Allocates;
  }

  /** A refund restores the allowance first and the top-up with the rest, and the spent amount falls by all of it. */
  lemma RefundsExactly(b: Wallet, canceled: bool, refund: nat)
    requires refund <= b.used && b.allowanceUsed >= 0
    ensures var b' := Refund(b, canceled, refund);
            && b'.used == b.used - refund && b'.reserved == b.reserved
            && (refund <= b.allowanceUsed ==> b'.allowanceUsed == b.allowanceUsed - refund && b'.topUpBalance == b.topUpBalance)
            && (refund > b.allowanceUsed ==> b'.allowanceUsed == 0 && b'.topUpBalance == b.topUpBalance + (refund - b.allowanceUsed))
  {}
}
