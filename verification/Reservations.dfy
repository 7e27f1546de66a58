/**
 The other users of a workspace wallet (convex/platform/usage.ts): budget reservations, which are settled,
 given back, held for reconciliation and corrected once, and usage that is charged after the fact.
 */
module Reservations {
  import opened Common
  import opened Metering

  function SetWallet(w: World, account: string, b: Wallet): World
    requires HasWallet(w, account)
  {
    w.(accounts := w.accounts[account := w.accounts[account].(wallet := Some(b))])
  }

  /** What the wallet has left to spend, reserved or not. */
  function Unspent(b: Wallet): int {
    Max(0, b.included + b.grant - b.allowanceUsed) + Max(0, b.topUpBalance)
  }

  function Release(b: Wallet, canceled: bool, released: int): Wallet {
    var reserved := Max(0, b.reserved - released);
    b.(included := Trimmed(b, canceled, b.used, reserved), reserved := reserved, version := b.version + 1)
  }

  /** Allowance is charged first, so it is restored first. */
  function Refund(b: Wallet, canceled: bool, refund: int): Wallet {
    var allowance, used := Min(refund, b.allowanceUsed), Max(0, b.used - refund);
    b.(included := Trimmed(b, canceled, used, b.reserved), allowanceUsed := b.allowanceUsed - allowance,
       topUpBalance := b.topUpBalance + refund - allowance, used := used, version := b.version + 1)
  }

  function Mark(w: World, k: nat, r: Reservation): World
    requires k < |w.reservations|
  {
    w.(reservations := w.reservations[k := r])
  }

  /** `allowed` is the answer of execution access, spend limit and preview budget. */
  function Reserve(w: World, account: string, workspaceId: string, micros: nat, allowed: bool): World {
    if account !in w.accounts || !w.accounts[account].workspaceScope || w.accounts[account].workspaceId != workspaceId then w
    else if !HasWallet(w, account) || !allowed then w
    else
      var b := w.accounts[account].wallet.value;
      if Available(b, 0) < micros then w
      else
        SetWallet(w, account, b.(reserved := b.reserved + micros, version := b.version + 1))
        .(reservations := w.reservations + [Reservation(account, micros, Pending, false)])
  }

  /** The reservation with its wallet; every operation on it reads both first. */
  predicate OnLedger(w: World, k: nat) {
    k < |w.reservations| && HasWallet(w, w.reservations[k].account)
  }

  function Start(w: World, k: nat): World {
    if OnLedger(w, k) && w.reservations[k].state.Pending? then Mark(w, k, w.reservations[k].(started := true)) else w
  }

  function Suspend(w: World, k: nat): World {
    if OnLedger(w, k) && w.reservations[k].state.Pending? then Mark(w, k, w.reservations[k].(state := Reconcile, started := true)) else w
  }

  /** The ledger writes of a settlement; a throw leaves everything as it was. */
  function Settle(w: World, k: nat, actual: nat): World
    requires OnLedger(w, k)
  {
    var r := w.reservations[k];
    var account := w.accounts[r.account];
    var b := account.wallet.value;
    if !Allocates(b, actual) then w
    else
      Mark(SetWallet(w, r.account, Finalize(b, account.canceled, actual, r.micros, 0)), k, r.(state := Settled(actual, false), started := true))
  }

  /** The hold goes back; an empty one touches the wallet only in a reconciliation. */
  function GiveBack(w: World, k: nat, reconciled: bool): World
    requires OnLedger(w, k)
  {
    var r := w.reservations[k];
    var account := w.accounts[r.account];
    var w1 := if r.micros > 0 || reconciled then SetWallet(w, r.account, Release(account.wallet.value, account.canceled, r.micros)) else w;
    Mark(w1, k, r.(state := GivenBack))
  }

  /** More than was reserved is never charged: such a settlement waits for reconciliation. */
  function FinalizeReservation(w: World, k: nat, actual: nat): World {
    if !OnLedger(w, k) || !(w.reservations[k].state.Pending? || w.reservations[k].state.Reconcile?) then w
    else if actual > w.reservations[k].micros then Mark(w, k, w.reservations[k].(state := Reconcile, started := true))
    else Settle(w, k, actual)
  }

  /** A release, by the caller or by expiry, gives the hold back only if no provider work began. */
  function ReleaseReservation(w: World, k: nat, worked: bool): World {
    if !OnLedger(w, k) || !w.reservations[k].state.Pending? then w
    else if worked || w.reservations[k].started then Mark(w, k, w.reservations[k].(state := Reconcile, started := true))
    else GiveBack(w, k, false)
  }

  /** Reconciliation with evidence: an actual cost, or none. */
  function ReconcileReservation(w: World, k: nat, actual: Option<nat>): World {
    if !OnLedger(w, k) || !w.reservations[k].state.Reconcile? then w
    else
      match actual
      case None => GiveBack(w, k, true)
      case Some(cost) => if cost > w.reservations[k].micros then w else Settle(w, k, cost)
  }

  /** What a correction charges on top: no more than the spend limit allows and the wallet has free. */
  function Raise(b: Wallet, difference: int, limit: nat): int {
    Max(0, Min(difference, Min(limit, Unspent(b) - b.reserved)))
  }

  /** The exact cost replaces the settled one, once, and only within the billing period. */
  function Correct(w: World, k: nat, actual: nat, samePeriod: bool, limit: nat): World {
    if !OnLedger(w, k) || !w.reservations[k].state.Settled? || w.reservations[k].state.corrected then w
    else
      var r := w.reservations[k];
      var account := w.accounts[r.account];
      var b := account.wallet.value;
      var difference := if samePeriod then actual - r.state.charged else 0;
      var raise := Raise(b, difference, limit);
      if difference > 0 && raise > 0 then
        if !Allocates(b, raise) then w
        else Mark(SetWallet(w, r.account, Finalize(b, account.canceled, raise, 0, 0)), k, r.(state := Settled(r.state.charged + raise, true)))
      else if difference < 0 then
        Mark(SetWallet(w, r.account, Refund(b, account.canceled, 0 - difference)), k, r.(state := Settled(actual, true)))
      else Mark(w, k, r.(state := Settled(r.state.charged, true)))
  }

  /** Usage without a reservation is charged as far as the wallet has anything unspent, reserved or not. */
  function ChargeDirect(w: World, account: string, micros: nat): World {
    if !HasWallet(w, account) then w
    else
      var b := w.accounts[account].wallet.value;
      var charge := Min(micros, Unspent(b));
      var w1 := if charge > 0 && Allocates(b, charge) then SetWallet(w, account, Finalize(b, w.accounts[account].canceled, charge, 0, 0)) else w;
      if charge > 0 && !Allocates(b, charge) then w else w1.(usage := w.usage + [Usage(account, charge)])
  }
}
