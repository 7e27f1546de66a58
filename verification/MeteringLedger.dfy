/**
 What one debit of the sandbox meter does in any world: it moves a wallet and the leases together, keeps
 the wallet consistent and solvent, and when the ledger's allocation check can fail.
 */
module MeteringLedger {
  import opened Common
  import opened Metering

  // ----- sums ---------------------------------------------------------------------------------------

  function HeldOn(l: Lease, account: string): int {
    if l.hold > 0 && l.heldPayer.Some? && l.heldPayer.value.account == account then l.hold else 0
  }

  /** What the leases hold against an account. */
  function Held(leases: seq<Lease>, account: string): int
    decreases |leases|
  {
    if leases == [] then 0 else Held(leases[..|leases| - 1], account) + HeldOn(leases[|leases| - 1], account)
  }

  lemma {:induction false} HeldUpdate(leases: seq<Lease>, i: nat, l: Lease, account: string)
    requires i < |leases|
    ensures Held(leases[i := l], account) == Held(leases, account) - HeldOn(leases[i], account) + HeldOn(l, account)
    decreases |leases|
  {
    var n := |leases| - 1;
    if i == n {
      assert leases[i := l][..n] == leases[..n];
    } else {
      assert leases[i := l][..n] == leases[..n][i := l];
      HeldUpdate(leases[..n], i, l, account);
    }
  }

  lemma {:induction false} HeldSame(a: seq<Lease>, b: seq<Lease>, account: string)
    requires |a| == |b| && forall i :: 0 <= i < |a| ==> HeldOn(a[i], account) == HeldOn(b[i], account)
    ensures Held(a, account) == Held(b, account)
    decreases |a|
  {
    if a != [] {
      HeldSame(a[..|a| - 1], b[..|a| - 1], account);
    }
  }

  /** What the recorded operations charged an account. */
  function Charged(operations: seq<Operation>, account: string): int
    decreases |operations|
  {
    if operations == [] then 0
    else
      var last := operations[|operations| - 1];
      Charged(operations[..|operations| - 1], account) + if last.account == account then last.charge else 0
  }

  lemma ChargedAppend(operations: seq<Operation>, op: Operation, a: string)
    ensures Charged(operations + [op], a) == Charged(operations, a) + if op.account == a then op.charge else 0
  {
    assert (operations + [op])[..|operations|] == operations;
  }

  // ----- wallets --------------------------------------------------------------------------------------

  /** The used amount splits into allowance and spent top-up. */
  predicate Consistent(b: Wallet) {
    b.used == b.allowanceUsed + b.purchased - b.topUpBalance && b.topUpBalance >= 0
  }

  /** A budgeted wallet never commits more than it has. */
  predicate Solvent(b: Wallet) {
    !b.unlimited ==> b.used + b.reserved <= b.included + b.grant + b.purchased
  }

  ghost predicate FreshVersions(w: World) {
    && (forall k :: 0 <= k < |w.operations| ==>
          w.operations[k].lease < |w.leases| && w.operations[k].version <= w.leases[w.operations[k].lease].meterVersion)
    && (forall k, n :: 0 <= k < n < |w.operations| && w.operations[k].lease == w.operations[n].lease ==>
          w.operations[k].version < w.operations[n].version)
  }

  // ----- one debit ------------------------------------------------------------------------------------

  /** What a debit that goes through the ledger has established. */
  lemma LedgerChecks(w: World, m: Request)
    requires Meter(w, m).1.Applied? && UsesLedger(w.leases[m.lease], m)
    ensures var l, id := w.leases[m.lease], m.payer.value.account;
            && Meter(w, m).0 == Commit(w, m.lease, m) && HasWallet(w, id)
            && var b := w.accounts[id].wallet.value;
            && 0 <= l.hold <= b.reserved && HoldAsked(l, m) >= 0 && ChargeOf(m) >= 0
            && ChargeOf(m) + HoldAsked(l, m) + m.floor <= Available(b, l.hold) && m.floor >= 0
            && Allocates(b, ChargeOf(m))
            && (l.hold > 0 ==> l.heldPayer.Some? && l.heldPayer.value.account == id)
  {}

  /** A debit that skips the ledger had no hold, takes none and charges nothing. */
  lemma FreeDebit(w: World, m: Request)
    requires Meter(w, m).1.Applied? && !UsesLedger(w.leases[m.lease], m)
    ensures var l := w.leases[m.lease];
            l.hold == 0 && HoldAsked(l, m) == 0 && m.charge.None? && Meter(w, m).0 == Commit(w, m.lease, m)
  {}

  /** The ledger moves the hold and adds the charge exactly: its clamp never fires. */
  lemma FinalizeIsExact(b: Wallet, canceled: bool, actual: int, released: int, reserve: int)
    requires 0 <= released <= b.reserved && actual >= 0
    ensures var b' := Finalize(b, canceled, actual, released, reserve);
            && b'.reserved == b.reserved - released + reserve && b'.used == b.used + actual
            && (Consistent(b) && Allocates(b, actual) ==> Consistent(b'))
            && (Solvent(b) && actual + reserve <= Available(b, released) ==> Solvent(b'))
  {}

  lemma AppliedCommits(w: World, m: Request)
    requires Meter(w, m).1.Applied?
    ensures m.lease < |w.leases| && Meter(w, m).1 == Applied(w.leases[m.lease].meterVersion + 1)
    ensures w.leases[m.lease].meterVersion == m.expected
    ensures UsesLedger(w.leases[m.lease], m) ==> HasWallet(w, m.payer.value.account)
    ensures Meter(w, m).0 == Commit(w, m.lease, m)
  {}

  /** A debit that is not applied moves no money, no hold and no version; at most it keeps the provider evidence. */
  lemma RefusedKeepsMoney(w: World, m: Request)
    requires !Meter(w, m).1.Applied?
    ensures var w' := Meter(w, m).0;
            && w'.accounts == w.accounts && w'.operations == w.operations && |w'.leases| == |w.leases|
            && (forall i :: 0 <= i < |w.leases| ==>
                  w'.leases[i] == w.leases[i] || (i == m.lease && w'.leases[i] == w.leases[i].(evidence := m.evidence)))
            && (Meter(w, m).1.Thrown? ==> w' == w)
  {}

  lemma DebitKeepsVersions(w: World, m: Request)
    requires FreshVersions(w)
    ensures FreshVersions(Meter(w, m).0)
  {
    hide Decide, Admit;
    var r := Meter(w, m);
    if r.1.Applied? {
      var w' := r.0;
      assert w' == Commit(w, m.lease, m) by { AppliedCommits(w, m); }
    } else {
      RefusedKeepsMoney(w, m);
    }
  }

  /**
   In any world whatever, a debit moves a wallet and the leases together: what the wallet has reserved
   beyond the leases' holds, and used beyond the recorded charges, stays as it was, and a consistent or
   solvent wallet stays so.
   */
  lemma DebitKeepsDifference(w: World, m: Request, a: string)
    ensures var w' := Meter(w, m).0;
            && (HasWallet(w', a) <==> HasWallet(w, a))
            && (HasWallet(w, a) ==>
                  var (b, b') := (w.accounts[a].wallet.value, w'.accounts[a].wallet.value);
                  && b'.reserved - Held(w'.leases, a) == b.reserved - Held(w.leases, a)
                  && b'.used - Charged(w'.operations, a) == b.used - Charged(w.operations, a)
                  && (Consistent(b) ==> Consistent(b')) && (Solvent(b) ==> Solvent(b')))
            && (!HasWallet(w, a) ==> Held(w'.leases, a) == Held(w.leases, a) && Charged(w'.operations, a) == Charged(w.operations, a))
  {
    var r := Meter(w, m);
    if !r.1.Applied? {
      RefusedKeepsMoney(w, m);
      assert forall i :: 0 <= i < |w.leases| ==> HeldOn(r.0.leases[i], a) == HeldOn(w.leases[i], a);
      HeldSame(w.leases, r.0.leases, a);
    } else {
      AppliedCommits(w, m);
      if UsesLedger(w.leases[m.lease], m) {
        LedgerKeepsDifference(w, m, a);
      } else {
        FreeDebit(w, m);
        HeldUpdate(w.leases, m.lease, Metered(w.leases[m.lease], m), a);
      }
    }
  }

  /** What the ledger writes for a debit. */
  lemma LedgerWrites(w: World, m: Request)
    requires Meter(w, m).1.Applied? && UsesLedger(w.leases[m.lease], m)
    ensures var l, id, w' := w.leases[m.lease], m.payer.value.account, Meter(w, m).0;
            && HasWallet(w, id) && w'.leases == w.leases[m.lease := Metered(l, m)]
            && (var b := w.accounts[id].wallet.value;
                && w'.accounts == w.accounts[id := w.accounts[id].(wallet := Some(
                     Finalize(b, w.accounts[id].canceled, ChargeOf(m), l.hold, HoldAsked(l, m))))]
                && 0 <= l.hold <= b.reserved && HoldAsked(l, m) >= 0 && ChargeOf(m) >= 0
                && ChargeOf(m) + HoldAsked(l, m) <= Available(b, l.hold) && Allocates(b, ChargeOf(m)))
            && w'.operations == w.operations + (if m.charge.Some? then [Operation(m.lease, l.meterVersion + 1, id, ChargeOf(m))] else [])
  {
    LedgerChecks(w, m);
    AppliedCommits(w, m);
    hide Meter, Finalize, Allocates, Available;
  }

  lemma LedgerMoves(w: World, m: Request, a: string)
    requires Meter(w, m).1.Applied? && UsesLedger(w.leases[m.lease], m)
    ensures var (w', l, mine) := (Meter(w, m).0, w.leases[m.lease], a == m.payer.value.account);
            && Held(w'.leases, a) == Held(w.leases, a) + (if mine then HoldAsked(l, m) - l.hold else 0)
            && Charged(w'.operations, a) == Charged(w.operations, a) + (if mine then ChargeOf(m) else 0)
  {
    LedgerChecks(w, m);
    LedgerWrites(w, m);
    hide Meter, Held, Charged, Finalize, Allocates, Available;
    var i, id := m.lease, m.payer.value.account;
    var l := w.leases[i];
    HeldUpdate(w.leases, i, Metered(l, m), a);
    ChargedAppend(w.operations, Operation(i, l.meterVersion + 1, id, ChargeOf(m)), a);
    assert w.operations + [] == w.operations;
  }

  lemma LedgerKeepsDifference(w: World, m: Request, a: string)
    requires Meter(w, m).1.Applied? && UsesLedger(w.leases[m.lease], m)
    ensures var w' := Meter(w, m).0;
            && (HasWallet(w', a) <==> HasWallet(w, a))
            && (HasWallet(w, a) ==>
                  var (b, b') := (w.accounts[a].wallet.value, w'.accounts[a].wallet.value);
                  && b'.reserved - Held(w'.leases, a) == b.reserved - Held(w.leases, a)
                  && b'.used - Charged(w'.operations, a) == b.used - Charged(w.operations, a)
                  && (Consistent(b) ==> Consistent(b')) && (Solvent(b) ==> Solvent(b')))
            && (!HasWallet(w, a) ==> Held(w'.leases, a) == Held(w.leases, a) && Charged(w'.operations, a) == Charged(w.operations, a))
  {
    LedgerWrites(w, m);
    LedgerMoves(w, m, a);
    hide Meter, Consistent, Solvent, Finalize, Allocates, Available, Held, Charged, UsesLedger;
    var l, id := w.leases[m.lease], m.payer.value.account;
    FinalizeIsExact(w.accounts[id].wallet.value, w.accounts[id].canceled, ChargeOf(m), l.hold, HoldAsked(l, m));
  }

  /**
   The ledger's allocation check cannot fail for a funded budgeted wallet: the budget check before it is
   at least as strict, also after a canceled plan's credit was trimmed. For an unlimited wallet it fails
   exactly when the part of the charge beyond the allowance exceeds the top-up that is left.
   */
  lemma AllocationFailsExactly(w: World, m: Request)
    requires Admit(w, m).None? && m.payer.Some? && m.payer.value.workspaceScope && HasWallet(w, m.payer.value.account)
    requires w.leases[m.lease].hold >= 0 && Consistent(w.accounts[m.payer.value.account].wallet.value)
    requires Touches(w.leases[m.lease], m)
    requires var r := DecideWallet(w, w.leases[m.lease], m, m.payer.value); r.Applied? || r == Thrown(AllocationInvalid)
    ensures var b := w.accounts[m.payer.value.account].wallet.value;
            DecideWallet(w, w.leases[m.lease], m, m.payer.value) == Thrown(AllocationInvalid)
            <==> b.unlimited && ChargeOf(m) - Max(0, b.included + b.grant - b.allowanceUsed) > b.topUpBalance
  {}

  const LENDER: Payer := Payer(true, "acct", "ws", "ada", None, None)
  const UNLIMITED: Account := Account(true, "ws", true, true, false, Some(Wallet(true, 0, 0, 0, 0, 0, 0, 0, 0)))
  const ONE_MICRO: Request := Request(0, "ws", 0, Some(LENDER), Some(1), None, 0, None, None, true, Within)

  /** An unlimited workspace with no allowance cannot pay for any machine time at all. */
  lemma UnlimitedCannotSettle()
    ensures var w := World([Lease("ws", Running, 0, 0, None, None, None)], map["acct" := UNLIMITED], [], [], []);
            Meter(w, ONE_MICRO) == (w, Thrown(AllocationInvalid))
  {
    var w := World([Lease("ws", Running, 0, 0, None, None, None)], map["acct" := UNLIMITED], [], [], []);
    var l := w.leases[0];
    assert Admit(w, ONE_MICRO).None?;
    assert AccountFits(w, l, LENDER);
    assert DecideWallet(w, l, ONE_MICRO, LENDER) == Thrown(AllocationInvalid);
  }
}
