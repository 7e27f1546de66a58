/**
 The sandbox meter (meterSandboxLeaseDebitByServer in convex/agents/connectedAgents.ts) with the
 ledger it writes through (finalizeWorkspaceLedger in convex/platform/usage.ts and
 canceledPlanCreditPatch in convex/billing/accountModel.ts). A debit moves a hold between a lease and
 a wallet and charges what ran. Amounts are whole micros.
 */
module Metering {
  import opened Common

  const MAX_SAFE: int := 0x1F_FFFF_FFFF_FFFF

  datatype Status = Reserved | Provisioning | Running | Paused | Stopping | CleanupFailed | Released | Deleted

  datatype Payer = Payer(
    workspaceScope: bool,
    account: string,
    workspaceId: string,
    user: string,
    subjectKind: Option<string>,
    subjectId: Option<string>)

  /** Leases are known by their position; `hold` is what the lease holds against its payer's wallet. */
  datatype Lease = Lease(
    workspaceId: string,
    status: Status,
    meterVersion: nat,
    hold: int,
    heldPayer: Option<Payer>,
    reference: Option<string>,
    evidence: Option<bool>)

  datatype Wallet = Wallet(
    unlimited: bool,
    included: int,
    grant: int,
    purchased: int,
    used: int,
    reserved: int,
    allowanceUsed: int,
    topUpBalance: int,
    version: nat)

  /** `canceled` is a canceled subscription on the free plan at no amount. */
  datatype Account = Account(workspaceScope: bool, workspaceId: string, active: bool, paid: bool, canceled: bool, wallet: Option<Wallet>)

  datatype Operation = Operation(lease: nat, version: nat, account: string, charge: int)

  /** What a budget reservation has come to; `corrected` is set once its cost was replaced by the exact one. */
  datatype ReservationState = Pending | Reconcile | Settled(charged: int, corrected: bool) | GivenBack

  /** Known by its position; `started` is whether the provider began to work on it. */
  datatype Reservation = Reservation(account: string, micros: int, state: ReservationState, started: bool)

  /** Usage that was charged after the fact, without a reservation. */
  datatype Usage = Usage(account: string, charge: int)

  datatype World = World(
    leases: seq<Lease>,
    accounts: map<string, Account>,
    operations: seq<Operation>,
    reservations: seq<Reservation>,
    usage: seq<Usage>)

  predicate HasWallet(w: World, account: string) {
    account in w.accounts && w.accounts[account].wallet.Some?
  }

  datatype LimitAnswer = Within | Short | Mismatch

  /**
   `charge` is present when there is something to pay, `hold` when it is to change, `evidence` is
   whether the provider confirmed the stop. `preview` and `limits` are the answers of the preview budget
   and of the spend limits.
   */
  datatype Request = Request(
    lease: nat,
    workspaceId: string,
    expected: int,
    payer: Option<Payer>,
    charge: Option<int>,
    hold: Option<int>,
    floor: int,
    evidence: Option<bool>,
    reference: Option<string>,
    preview: bool,
    limits: LimitAnswer)

  datatype Reason = LeaseMissing | NotMeterable | Conflict | PaidPlanRequired | NoBudget

  datatype Error = AmountInvalid | HoldInvalid | IdentityChanged | AccountMismatch | BalanceMissing | HoldMismatch | LimitMismatch | AllocationInvalid

  /** A throw undoes the whole mutation; a refusal keeps the provider evidence. */
  datatype Result = Applied(version: nat) | Refused(reason: Reason) | Thrown(error: Error)

  predicate Meterable(s: Status) {
    !s.Released? && !s.Deleted?
  }

  predicate Safe(x: int) {
    0 <= x <= MAX_SAFE
  }

  function ChargeOf(m: Request): int {
    GetOr(m.charge, 0)
  }

  function HoldAsked(l: Lease, m: Request): int {
    GetOr(m.hold, l.hold)
  }

  predicate AmountsValid(m: Request) {
    m.floor >= 0 && GetOr(m.hold, 0) >= 0 && Safe(ChargeOf(m))
  }

  /** Whether the ledger is involved at all. */
  predicate Touches(l: Lease, m: Request) {
    m.charge.Some? || HoldAsked(l, m) > 0 || l.hold > 0
  }

  predicate SamePayer(a: Payer, b: Payer) {
    a.account == b.account && a.user == b.user && a.subjectKind == b.subjectKind && a.subjectId == b.subjectId
  }

  // ----- the ledger ----------------------------------------------------------------------------------

  function AllowanceCharge(w: Wallet, actual: int): int {
    Min(actual, Max(0, w.included + w.grant - w.allowanceUsed))
  }

  function TopUpCharge(w: Wallet, actual: int): int {
    Max(0, actual - AllowanceCharge(w, actual))
  }

  predicate Allocates(w: Wallet, actual: int) {
    TopUpCharge(w, actual) <= w.topUpBalance
  }

  /** What a canceled plan keeps of its included credit: spent credit and live holds only. */
  function Trimmed(w: Wallet, canceled: bool, used: int, reserved: int): int {
    if canceled then Min(w.included, Max(0, used + reserved - w.grant - w.purchased)) else w.included
  }

  function Finalize(w: Wallet, canceled: bool, actual: int, released: int, reserve: int): Wallet {
    var reserved := Max(0, w.reserved - released) + reserve;
    var used := w.used + actual;
    w.(included := Trimmed(w, canceled, used, reserved),
       allowanceUsed := w.allowanceUsed + AllowanceCharge(w, actual),
       topUpBalance := w.topUpBalance - TopUpCharge(w, actual),
       reserved := reserved, used := used, version := w.version + 1)
  }

  // ----- the debit -----------------------------------------------------------------------------------

  function Available(w: Wallet, previous: int): int {
    if w.unlimited then MAX_SAFE
    else Max(0, w.included + w.grant + w.purchased - w.used - w.reserved + previous)
  }

  /** Without a paid plan only confirmed-stopped usage may be settled, or a hold released. */
  predicate SettlesWithoutRuntime(l: Lease, m: Request) {
    HoldAsked(l, m) == 0 && (if m.evidence.Some? then m.evidence.value else m.charge.None?)
  }

  predicate SettlingHeld(l: Lease, m: Request) {
    l.hold > 0 && HoldAsked(l, m) == 0 && ChargeOf(m) <= l.hold
  }

  predicate AccountFits(w: World, l: Lease, p: Payer) {
    && p.workspaceId == l.workspaceId && p.account != "" && p.account in w.accounts
    && w.accounts[p.account].workspaceScope && w.accounts[p.account].workspaceId == p.workspaceId
  }

  /** The checks against the payer's wallet, in order. */
  function DecideWallet(w: World, l: Lease, m: Request, p: Payer): Result {
    if !AccountFits(w, l, p) then Thrown(AccountMismatch)
    else
      var account, hold := w.accounts[p.account], HoldAsked(l, m);
      if !account.paid && !SettlesWithoutRuntime(l, m) then Refused(PaidPlanRequired)
      else if account.wallet.None? then Thrown(BalanceMissing)
      else
        var wallet := account.wallet.value;
        if l.hold > wallet.reserved then Thrown(HoldMismatch)
        else if (!account.active && !SettlingHeld(l, m)) || ChargeOf(m) + hold + m.floor > Available(wallet, l.hold) then Refused(NoBudget)
        else if !Touches(l, m) then Applied(l.meterVersion + 1)
        else if (hold > 0 && !m.preview) || m.limits.Short? then Refused(NoBudget)
        else if m.limits.Mismatch? then Thrown(LimitMismatch)
        else if !Allocates(wallet, ChargeOf(m)) then Thrown(AllocationInvalid)
        else Applied(l.meterVersion + 1)
  }

  function Decide(w: World, l: Lease, m: Request): Result {
    match m.payer
    case None => if Touches(l, m) then Refused(NoBudget) else Applied(l.meterVersion + 1)
    case Some(p) =>
      if l.hold > 0 && (l.heldPayer.None? || !SamePayer(l.heldPayer.value, p) || m.reference != l.reference) then Thrown(IdentityChanged)
      else if p.workspaceScope then DecideWallet(w, l, m, p)
      else if Touches(l, m) || m.floor > 0 then Refused(NoBudget)
      else Applied(l.meterVersion + 1)
  }

  function WithEvidence(w: World, i: nat, m: Request): World
    requires i < |w.leases|
  {
    if m.evidence.None? then w else w.(leases := w.leases[i := w.leases[i].(evidence := m.evidence)])
  }

  predicate UsesLedger(l: Lease, m: Request) {
    m.payer.Some? && m.payer.value.workspaceScope && Touches(l, m)
  }

  function Metered(l: Lease, m: Request): Lease {
    l.(hold := HoldAsked(l, m),
       meterVersion := l.meterVersion + 1,
       evidence := if m.evidence.Some? then m.evidence else l.evidence,
       reference := if m.reference.Some? then m.reference else l.reference,
       heldPayer := if !UsesLedger(l, m) then l.heldPayer else if HoldAsked(l, m) > 0 then m.payer else None)
  }

  function Commit(w: World, i: nat, m: Request): World
    requires i < |w.leases|
    requires UsesLedger(w.leases[i], m) ==> m.payer.value.account in w.accounts && w.accounts[m.payer.value.account].wallet.Some?
  {
    var l := w.leases[i];
    var leases := w.leases[i := Metered(l, m)];
    if !UsesLedger(l, m) then w.(leases := leases)
    else
      var id := m.payer.value.account;
      var account := w.accounts[id];
      var wallet := Finalize(account.wallet.value, account.canceled, ChargeOf(m), l.hold, HoldAsked(l, m));
      w.(leases := leases, accounts := w.accounts[id := account.(wallet := Some(wallet))],
         operations := w.operations + if m.charge.Some? then [Operation(i, l.meterVersion + 1, id, ChargeOf(m))] else [])
  }

  /** The checks before anything is written; none when all pass. */
  function Admit(w: World, m: Request): Option<Result> {
    if m.lease >= |w.leases| || w.leases[m.lease].workspaceId != m.workspaceId then Some(Refused(LeaseMissing))
    else
      var l := w.leases[m.lease];
      if !Meterable(l.status) then Some(Refused(NotMeterable))
      else if l.meterVersion != m.expected then Some(Refused(Conflict))
      else if !AmountsValid(m) then Some(Thrown(AmountInvalid))
      else if !Safe(l.hold) || !Safe(HoldAsked(l, m)) then Some(Thrown(HoldInvalid))
      else None
  }

  function Meter(w: World, m: Request): (World, Result) {
    match Admit(w, m)
    case Some(r) => (w, r)
    case None =>
      match Decide(w, w.leases[m.lease], m)
      case Thrown(e) => (w, Thrown(e))
      case Refused(r) => (WithEvidence(w, m.lease, m), Refused(r))
      case Applied(v) => (Commit(w, m.lease, m), Applied(v))
  }

  // ----- the mutation as it runs -----------------------------------------------------------------------

  class Table {
    var leases: seq<Lease>
    var accounts: map<string, Account>
    var operations: seq<Operation>
    var reservations: seq<Reservation>
    var usage: seq<Usage>

    function State(): World
      reads this
    {
      World(leases, accounts, operations, reservations, usage)
    }

    constructor ()
      ensures State() == World([], map[], [], [], [])
    {
      leases, accounts, operations, reservations, usage := [], map[], [], [], [];
    }

    method FinalizeLedger(id: string, actual: int, released: int, reserve: int) returns (ok: bool)
      requires id in accounts && accounts[id].wallet.Some?
      modifies this`accounts
      ensures ok <==> Allocates(old(accounts)[id].wallet.value, actual)
      ensures ok ==> accounts == old(accounts)[id := old(accounts)[id].(wallet := Some(
                                   Finalize(old(accounts)[id].wallet.value, old(accounts)[id].canceled, actual, released, reserve)))]
      ensures !ok ==> accounts == old(accounts)
    {
      var account := accounts[id];
      var w := account.wallet.value;
      var allowanceRemaining := Max(0, w.included + w.grant - w.allowanceUsed);
      var allowanceCharge := Min(actual, allowanceRemaining);
      var topUpCharge := Max(0, actual - allowanceCharge);
      if topUpCharge > w.topUpBalance {
        return false;
      }
      var reserved := Max(0, w.reserved - released) + reserve;
      var used := w.used + actual;
      var included := w.included;
      if account.canceled {
        included := Min(w.included, Max(0, used + reserved - w.grant - w.purchased));
      }
      var next := w.(included := included, allowanceUsed := w.allowanceUsed + allowanceCharge, topUpBalance := w.topUpBalance - topUpCharge,
                     reserved := reserved, used := used, version := w.version + 1);
      accounts := accounts[id := account.(wallet := Some(next))];
      return true;
    }

    /** The wallet part of a debit; false in `ok` when the answer ends the mutation. */
    method DebitWallet(l: Lease, m: Request, p: Payer) returns (r: Result)
      requires m.lease < |leases| && m.payer == Some(p) && p.workspaceScope
      modifies this`accounts, this`operations
      ensures r == DecideWallet(old(State()), l, m, p)
      ensures !r.Applied? || !Touches(l, m) ==> accounts == old(accounts) && operations == old(operations)
      ensures r.Applied? && Touches(l, m) ==>
                p.account in old(accounts) && old(accounts)[p.account].wallet.Some?
                && (var account := old(accounts)[p.account];
                    accounts == old(accounts)[p.account := account.(wallet := Some(
                                  Finalize(account.wallet.value, account.canceled, ChargeOf(m), l.hold, HoldAsked(l, m))))])
                && operations == old(operations) + if m.charge.Some? then [Operation(m.lease, l.meterVersion + 1, p.account, ChargeOf(m))] else []
    {
      if !AccountFits(State(), l, p) {
        return Thrown(AccountMismatch);
      }
      var account, hold := accounts[p.account], HoldAsked(l, m);
      if !account.paid && !SettlesWithoutRuntime(l, m) {
        return Refused(PaidPlanRequired);
      }
      if account.wallet.None? {
        return Thrown(BalanceMissing);
      }
      var wallet := account.wallet.value;
      if l.hold > wallet.reserved {
        return Thrown(HoldMismatch);
      }
      if (!account.active && !SettlingHeld(l, m)) || ChargeOf(m) + hold + m.floor > Available(wallet, l.hold) {
        return Refused(NoBudget);
      }
      if Touches(l, m) {
        if (hold > 0 && !m.preview) || m.limits.Short? {
          return Refused(NoBudget);
        }
        if m.limits.Mismatch? {
          return Thrown(LimitMismatch);
        }
        var ok := FinalizeLedger(p.account, ChargeOf(m), l.hold, hold);
        if !ok {
          return Thrown(AllocationInvalid);
        }
        if m.charge.Some? {
          operations := operations + [Operation(m.lease, l.meterVersion + 1, p.account, ChargeOf(m))];
        }
      }
      return Applied(l.meterVersion + 1);
    }

    method MeterDebit(m: Request) returns (r: Result)
      modifies this
      ensures (State(), r) == Meter(old(State()), m)
    {
      hide DecideWallet;
      var early := Admit(State(), m);
      if early.Some? {
        return early.value;
      }
      var i, l, before := m.lease, leases[m.lease], leases;
      if m.evidence.Some? {
        leases := leases[i := l.(evidence := m.evidence)];
      }
      ghost var w := World(before, accounts, operations, reservations, usage);
      if m.payer.None? {
        if Touches(l, m) {
          return Refused(NoBudget);
        }
      } else {
        var p := m.payer.value;
        if l.hold > 0 && (l.heldPayer.None? || !SamePayer(l.heldPayer.value, p) || m.reference != l.reference) {
          leases := before;
          return Thrown(IdentityChanged);
        }
        if p.workspaceScope {
          WalletIgnoresLeases(State(), w, l, m, p);
          r := DebitWallet(l, m, p);
          if r.Thrown? {
            leases := before;
            return;
          }
          if r.Refused? {
            return;
          }
          AppliedMeans(w, l, m, p);
        } else if Touches(l, m) || m.floor > 0 {
          return Refused(NoBudget);
        }
      }
      leases := leases[i := Metered(l, m)];
      assert leases == before[i := Metered(l, m)];
      assert Decide(w, l, m) == Applied(l.meterVersion + 1);
      assert State() == Commit(w, i, m);
      return Applied(l.meterVersion + 1);
    }
  }

  lemma AppliedMeans(w: World, l: Lease, m: Request, p: Payer)
    requires DecideWallet(w, l, m, p).Applied?
    ensures DecideWallet(w, l, m, p) == Applied(l.meterVersion + 1)
    ensures AccountFits(w, l, p) && (Touches(l, m) ==> w.accounts[p.account].wallet.Some?)
  {}

  lemma WalletIgnoresLeases(w: World, w': World, l: Lease, m: Request, p: Payer)
    requires w.accounts == w'.accounts
    ensures DecideWallet(w, l, m, p) == DecideWallet(w', l, m, p)
  {}
}
