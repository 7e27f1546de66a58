/**
 What metering and the other users of a wallet keep over any run: holds and charges are conserved between
 leases, reservations and wallets, a meter version charges once, and when a hold comes back.
 */
module WalletLedger {
  import opened Common
  import opened Metering
  import opened Reservations
  import opened MeteringLedger

  datatype Action =
    | Debit(m: Request)
    | AddLease(workspaceId: string)
    | SetStatus(lease: nat, status: Status)
    | Open(account: string, workspaceId: string, unlimited: bool, included: nat, grant: nat)
    | SetPlan(account: string, active: bool, paid: bool, canceled: bool)
    | TopUp(account: string, micros: nat)
    | TakeHold(account: string, workspaceId: string, micros: nat, allowed: bool)
    | BeginWork(k: nat)
    | SuspendHold(k: nat)
    | SettleHold(k: nat, actual: nat)
    | ReleaseHold(k: nat, worked: bool)
    | ReconcileHold(k: nat, cost: Option<nat>)
    | CorrectCost(k: nat, actual: nat, samePeriod: bool, limit: nat)
    | Record(account: string, micros: nat)

  /** A top-up raises what was purchased and what is left of it together. */
  function Funded(w: Wallet, micros: nat): Wallet {
    w.(purchased := w.purchased + micros, topUpBalance := w.topUpBalance + micros, version := w.version + 1)
  }

  /** A cancellation trims the included credit to what is spent or held. */
  function Planned(account: Account, active: bool, paid: bool, canceled: bool): Account {
    var kept := match account.wallet
                case None => None
                case Some(b) => Some(b.(included := Trimmed(b, canceled, b.used, b.reserved), version := b.version + if canceled then 1 else 0));
    account.(active := active, paid := paid, canceled := canceled, wallet := kept)
  }

  function Step(w: World, a: Action): World {
    match a
    case Debit(m) => Meter(w, m).0
    case AddLease(workspaceId) => w.(leases := w.leases + [Lease(workspaceId, Reserved, 0, 0, None, None, None)])
    case SetStatus(i, s) => if i < |w.leases| then w.(leases := w.leases[i := w.leases[i].(status := s)]) else w
    case Open(id, workspaceId, unlimited, included, grant) =>
      if id in w.accounts then w
      else w.(accounts := w.accounts[id := Account(true, workspaceId, true, true, false, Some(Wallet(unlimited, included, grant, 0, 0, 0, 0, 0, 0)))])
    case SetPlan(id, active, paid, canceled) =>
      if id !in w.accounts then w
      else w.(accounts := w.accounts[id := Planned(w.accounts[id], active, paid, canceled)])
    case TopUp(id, micros) =>
      if id !in w.accounts || w.accounts[id].wallet.None? then w
      else w.(accounts := w.accounts[id := w.accounts[id].(wallet := Some(Funded(w.accounts[id].wallet.value, micros)))])
    case TakeHold(id, workspaceId, micros, allowed) => Reserve(w, id, workspaceId, micros, allowed)
    case BeginWork(k) => Start(w, k)
    case SuspendHold(k) => Suspend(w, k)
    case SettleHold(k, actual) => FinalizeReservation(w, k, actual)
    case ReleaseHold(k, worked) => ReleaseReservation(w, k, worked)
    case ReconcileHold(k, cost) => ReconcileReservation(w, k, cost)
    case CorrectCost(k, actual, samePeriod, limit) => Correct(w, k, actual, samePeriod, limit)
    case Record(id, micros) => ChargeDirect(w, id, micros)
  }

  function Run(w: World, actions: seq<Action>): World
    decreases |actions|
  {
    if actions == [] then w else Run(Step(w, actions[0]), actions[1..])
  }

  const EMPTY: World := World([], map[], [], [], [])

  // ----- sums ---------------------------------------------------------------------------------------

  function OpenFor(account: string): Reservation -> int {
    (r: Reservation) => if r.account == account && (r.state.Pending? || r.state.Reconcile?) then r.micros else 0
  }

  function SettledFor(account: string): Reservation -> int {
    (r: Reservation) => if r.account == account && r.state.Settled? then r.state.charged else 0
  }

  function Sum(rs: seq<Reservation>, f: Reservation -> int): int
    decreases |rs|
  {
    if rs == [] then 0 else Sum(rs[..|rs| - 1], f) + f(rs[|rs| - 1])
  }

  lemma {:induction false} SumUpdate(rs: seq<Reservation>, k: nat, r: Reservation, f: Reservation -> int)
    requires k < |rs|
    ensures Sum(rs[k := r], f) == Sum(rs, f) - f(rs[k]) + f(r)
    decreases |rs|
  {
    var n := |rs| - 1;
    if k == n {
      assert rs[k := r][..n] == rs[..n];
    } else {
      assert rs[k := r][..n] == rs[..n][k := r];
      SumUpdate(rs[..n], k, r, f);
    }
  }

  lemma SumAppend(rs: seq<Reservation>, r: Reservation, f: Reservation -> int)
    ensures Sum(rs + [r], f) == Sum(rs, f) + f(r)
  {
    assert (rs + [r])[..|rs|] == rs;
  }

  lemma {:induction false} SumSame(a: seq<Reservation>, b: seq<Reservation>, f: Reservation -> int)
    requires |a| == |b| && forall k :: 0 <= k < |a| ==> f(a[k]) == f(b[k])
    ensures Sum(a, f) == Sum(b, f)
    decreases |a|
  {
    if a != [] {
      SumSame(a[..|a| - 1], b[..|b| - 1], f);
    }
  }

  lemma {:induction false} SumAtLeast(rs: seq<Reservation>, f: Reservation -> int)
    requires forall k :: 0 <= k < |rs| ==> f(rs[k]) >= 0
    ensures Sum(rs, f) >= 0 && forall k :: 0 <= k < |rs| ==> Sum(rs, f) >= f(rs[k])
    decreases |rs|
  {
    if rs != [] {
      SumAtLeast(rs[..|rs| - 1], f);
    }
  }

  /** What was charged without a hold. */
  function Recorded(usage: seq<Usage>, account: string): int
    decreases |usage|
  {
    if usage == [] then 0
    else
      var last := usage[|usage| - 1];
      Recorded(usage[..|usage| - 1], account) + if last.account == account then last.charge else 0
  }

  lemma RecordedAppend(usage: seq<Usage>, u: Usage, account: string)
    ensures Recorded(usage + [u], account) == Recorded(usage, account) + if u.account == account then u.charge else 0
  {
    assert (usage + [u])[..|usage|] == usage;
  }

  /** What leases and open reservations hold against an account. */
  function Reserving(w: World, account: string): int {
    Held(w.leases, account) + Sum(w.reservations, OpenFor(account))
  }

  /** What metering, settled reservations and recorded usage charged an account. */
  function Spent(w: World, account: string): int {
    Charged(w.operations, account) + Sum(w.reservations, SettledFor(account)) + Recorded(w.usage, account)
  }

  // ----- invariant -----------------------------------------------------------------------------------

  /** A hold always stands against the wallet of a payer that fits the lease. */
  ghost predicate Backed(w: World, l: Lease) {
    Safe(l.hold) && (l.hold > 0 ==> l.heldPayer.Some? && l.heldPayer.value.workspaceScope && AccountFits(w, l, l.heldPayer.value)
                                    && HasWallet(w, l.heldPayer.value.account))
  }

  /** Reserved is what is held; used is what was charged. */
  ghost predicate Balanced(w: World, account: string) {
    HasWallet(w, account) ==>
      var b := w.accounts[account].wallet.value;
      b.reserved == Reserving(w, account) && b.used == Spent(w, account) && Consistent(b)
  }

  predicate Sound(r: Reservation) {
    r.micros >= 0 && (r.state.Settled? ==> r.state.charged >= 0)
  }

  /** No amount on record is negative. */
  ghost predicate NoDebts(w: World) {
    && (forall k :: 0 <= k < |w.operations| ==> w.operations[k].charge >= 0)
    && (forall k :: 0 <= k < |w.usage| ==> w.usage[k].charge >= 0)
    && (forall k :: 0 <= k < |w.reservations| ==> Sound(w.reservations[k]))
  }

  ghost predicate Inv(w: World) {
    && (forall i :: 0 <= i < |w.leases| ==> Backed(w, w.leases[i]))
    && (forall a :: Balanced(w, a))
    && FreshVersions(w)
    && NoDebts(w)
    && (forall a :: !HasWallet(w, a) ==> Reserving(w, a) == 0 && Spent(w, a) == 0)
  }

  lemma InvBalances(w: World, a: string)
    requires Inv(w)
    ensures Balanced(w, a) && (!HasWallet(w, a) ==> Reserving(w, a) == 0 && Spent(w, a) == 0)
  {}

  lemma InvIsSound(w: World)
    requires Inv(w)
    ensures NoDebts(w)
  {}

  lemma ReservationSound(w: World, k: nat)
    requires Inv(w) && k < |w.reservations|
    ensures Sound(w.reservations[k])
  {}

  // ----- debits, leases and accounts -----------------------------------------------------------------

  lemma DebitKeepsInv(w: World, m: Request)
    requires Inv(w)
    ensures Inv(Meter(w, m).0)
  {
    var w' := Meter(w, m).0;
    DebitKeepsVersions(w, m);
    DebitKeepsBacking(w, m);
    hide Meter, FreshVersions, Held, Charged, Backed, Consistent;
    forall a
      ensures Balanced(w', a)
      ensures !HasWallet(w', a) ==> Reserving(w', a) == 0 && Spent(w', a) == 0
    {
      InvBalances(w, a);
      DebitKeepsDifference(w, m, a);
    }
  }

  lemma DebitKeepsBacking(w: World, m: Request)
    requires Inv(w)
    ensures var w' := Meter(w, m).0;
            && w'.reservations == w.reservations && w'.usage == w.usage && NoDebts(w')
            && forall i :: 0 <= i < |w'.leases| ==> Backed(w', w'.leases[i])
  {
    var w' := Meter(w, m).0;
    hide FreshVersions, Held, Charged, Sum, Recorded, Balanced;
    if Meter(w, m).1.Applied? {
      AppliedCommits(w, m);
      if UsesLedger(w.leases[m.lease], m) {
        LedgerChecks(w, m);
        PayerFits(w, m);
      } else {
        FreeDebit(w, m);
      }
    } else {
      RefusedKeepsMoney(w, m);
    }
    hide Meter, Finalize;
    forall i | 0 <= i < |w'.leases|
      ensures Backed(w', w'.leases[i])
    {
      assert Backed(w, w.leases[i]);
    }
  }

  lemma PayerFits(w: World, m: Request)
    requires Meter(w, m).1.Applied? && UsesLedger(w.leases[m.lease], m)
    ensures AccountFits(w, w.leases[m.lease], m.payer.value) && Safe(HoldAsked(w.leases[m.lease], m))
  {}

  lemma BackingStays(w: World, w': World)
    requires (forall i :: 0 <= i < |w.leases| ==> Backed(w, w.leases[i])) && |w'.leases| == |w.leases|
    requires forall i :: 0 <= i < |w.leases| ==>
               w'.leases[i].hold == w.leases[i].hold && w'.leases[i].heldPayer == w.leases[i].heldPayer && w'.leases[i].workspaceId == w.leases[i].workspaceId
    requires forall a :: a in w.accounts ==> a in w'.accounts && w'.accounts[a].workspaceScope == w.accounts[a].workspaceScope
                                             && w'.accounts[a].workspaceId == w.accounts[a].workspaceId
                                             && (w.accounts[a].wallet.Some? ==> w'.accounts[a].wallet.Some?)
    ensures forall i :: 0 <= i < |w'.leases| ==> Backed(w', w'.leases[i])
  {
    forall i | 0 <= i < |w'.leases|
      ensures Backed(w', w'.leases[i])
    {
      assert Backed(w, w.leases[i]);
    }
  }

  lemma VersionsStay(w: World, w': World)
    requires FreshVersions(w) && w'.operations == w.operations && |w'.leases| >= |w.leases|
    requires forall i :: 0 <= i < |w.leases| ==> w'.leases[i].meterVersion == w.leases[i].meterVersion
    ensures FreshVersions(w')
  {}

  /** A change that touches no wallet, no record and no hold. */
  lemma SameMoneyKeepsInv(w: World, w': World)
    requires Inv(w) && w'.operations == w.operations && w'.usage == w.usage && |w'.leases| == |w.leases| && w'.accounts == w.accounts
    requires |w'.reservations| == |w.reservations|
    requires forall i :: 0 <= i < |w.leases| ==>
               w'.leases[i].hold == w.leases[i].hold && w'.leases[i].heldPayer == w.leases[i].heldPayer
               && w'.leases[i].workspaceId == w.leases[i].workspaceId && w'.leases[i].meterVersion == w.leases[i].meterVersion
    requires forall k, a :: 0 <= k < |w.reservations| ==>
               OpenFor(a)(w'.reservations[k]) == OpenFor(a)(w.reservations[k]) && SettledFor(a)(w'.reservations[k]) == SettledFor(a)(w.reservations[k])
    requires NoDebts(w')
    ensures Inv(w')
  {
    hide FreshVersions, NoDebts;
    forall a
      ensures Reserving(w', a) == Reserving(w, a) && Spent(w', a) == Spent(w, a) && Balanced(w', a)
    {
      assert forall i :: 0 <= i < |w.leases| ==> HeldOn(w.leases[i], a) == HeldOn(w'.leases[i], a);
      HeldSame(w.leases, w'.leases, a);
      SumSame(w.reservations, w'.reservations, OpenFor(a));
      SumSame(w.reservations, w'.reservations, SettledFor(a));
      InvBalances(w, a);
    }
    BackingStays(w, w');
    VersionsStay(w, w');
  }

  lemma NewLeaseKeepsInv(w: World, l: Lease)
    requires Inv(w) && l.hold == 0
    ensures Inv(w.(leases := w.leases + [l]))
  {
    var w' := w.(leases := w.leases + [l]);
    assert w'.leases[..|w.leases|] == w.leases;
    forall a
      ensures Reserving(w', a) == Reserving(w, a) && Spent(w', a) == Spent(w, a)
      ensures Balanced(w', a)
    {
      InvBalances(w, a);
    }
    hide Held, Charged, Sum, Recorded, Balanced, FreshVersions;
    VersionsStay(w, w');
    forall i | 0 <= i < |w'.leases|
      ensures Backed(w', w'.leases[i])
    {
      assert i < |w.leases| ==> Backed(w, w.leases[i]);
    }
  }

  /** A new wallet with nothing against it. */
  lemma OpenKeepsInv(w: World, id: string, account: Account)
    requires Inv(w) && id !in w.accounts && account.wallet.Some?
    requires var b := account.wallet.value; b.used == 0 && b.reserved == 0 && Consistent(b)
    ensures Inv(w.(accounts := w.accounts[id := account]))
  {
    hide Held, Charged, Sum, Recorded, FreshVersions, Consistent;
    var w' := w.(accounts := w.accounts[id := account]);
    forall a
      ensures Balanced(w', a) && (!HasWallet(w', a) ==> Reserving(w', a) == 0 && Spent(w', a) == 0)
    {
      InvBalances(w, a);
    }
    BackingStays(w, w');
    VersionsStay(w, w');
  }

  lemma PlanKeepsInv(w: World, id: string, account: Account)
    requires Inv(w) && id in w.accounts
    requires account.workspaceScope == w.accounts[id].workspaceScope && account.workspaceId == w.accounts[id].workspaceId
    requires account.wallet.Some? <==> w.accounts[id].wallet.Some?
    requires account.wallet.Some? ==>
               var (b, b') := (w.accounts[id].wallet.value, account.wallet.value);
               b'.used == b.used && b'.reserved == b.reserved && (Consistent(b) ==> Consistent(b'))
    ensures Inv(w.(accounts := w.accounts[id := account]))
  {
    hide Held, Charged, Sum, Recorded, FreshVersions, Consistent;
    var w' := w.(accounts := w.accounts[id := account]);
    forall a
      ensures Balanced(w', a) && (!HasWallet(w', a) ==> Reserving(w', a) == 0 && Spent(w', a) == 0)
    {
      InvBalances(w, a);
    }
    BackingStays(w, w');
    VersionsStay(w, w');
  }

  // ----- reservations ---------------------------------------------------------------------------------

  /** What a step does to one wallet and to the sums against it. */
  ghost predicate Shifts(w: World, w': World, id: string, held: int, spent: int) {
    && HasWallet(w, id) && HasWallet(w', id) && w'.leases == w.leases && w'.operations == w.operations
    && w'.accounts == w.accounts[id := w.accounts[id].(wallet := w'.accounts[id].wallet)]
    && (var (b, b') := (w.accounts[id].wallet.value, w'.accounts[id].wallet.value);
        b'.reserved == b.reserved + held && b'.used == b.used + spent && Consistent(b'))
    && (forall a :: Reserving(w', a) == Reserving(w, a) + if a == id then held else 0)
    && (forall a :: Spent(w', a) == Spent(w, a) + if a == id then spent else 0)
    && NoDebts(w')
  }

  lemma ShiftKeepsInv(w: World, w': World, id: string, held: int, spent: int)
    requires Inv(w) && Shifts(w, w', id, held, spent)
    ensures Inv(w')
  {
    hide Reserving, Spent, Consistent, FreshVersions, NoDebts;
    forall a
      ensures Balanced(w', a) && (!HasWallet(w', a) ==> Reserving(w', a) == 0 && Spent(w', a) == 0)
    {
      InvBalances(w, a);
    }
    BackingStays(w, w');
    assert FreshVersions(w') by { VersionsStay(w, w'); }
  }

  /** One reservation is replaced, with the same account. */
  lemma MarkSums(w: World, w': World, k: nat, r: Reservation, a: string)
    requires k < |w.reservations| && r.account == w.reservations[k].account
    requires w'.reservations == w.reservations[k := r] && w'.leases == w.leases && w'.operations == w.operations && w'.usage == w.usage
    ensures Reserving(w', a) == Reserving(w, a) + OpenFor(a)(r) - OpenFor(a)(w.reservations[k])
    ensures Spent(w', a) == Spent(w, a) + SettledFor(a)(r) - SettledFor(a)(w.reservations[k])
  {
    SumUpdate(w.reservations, k, r, OpenFor(a));
    SumUpdate(w.reservations, k, r, SettledFor(a));
  }

  lemma {:induction false} HeldNonNegative(leases: seq<Lease>, a: string)
    ensures Held(leases, a) >= 0
    decreases |leases|
  {
    if leases != [] {
      HeldNonNegative(leases[..|leases| - 1], a);
    }
  }

  lemma {:induction false} ChargedNonNegative(operations: seq<Operation>, a: string)
    requires forall k :: 0 <= k < |operations| ==> operations[k].charge >= 0
    ensures Charged(operations, a) >= 0
    decreases |operations|
  {
    if operations != [] {
      ChargedNonNegative(operations[..|operations| - 1], a);
    }
  }

  lemma {:induction false} RecordedNonNegative(usage: seq<Usage>, a: string)
    requires forall k :: 0 <= k < |usage| ==> usage[k].charge >= 0
    ensures Recorded(usage, a) >= 0
    decreases |usage|
  {
    if usage != [] {
      RecordedNonNegative(usage[..|usage| - 1], a);
    }
  }

  lemma NonNegative(w: World, a: string)
    requires Inv(w)
    ensures Held(w.leases, a) >= 0 && Charged(w.operations, a) >= 0 && Recorded(w.usage, a) >= 0
  {
    assert forall i :: 0 <= i < |w.leases| ==> Backed(w, w.leases[i]);
    HeldNonNegative(w.leases, a);
    ChargedNonNegative(w.operations, a);
    RecordedNonNegative(w.usage, a);
  }

  lemma ReservedNonNegative(w: World, a: string)
    requires Inv(w) && HasWallet(w, a)
    ensures w.accounts[a].wallet.value.reserved >= 0
  {
    InvBalances(w, a);
    NonNegative(w, a);
    SumAtLeast(w.reservations, OpenFor(a));
  }

  /** A wallet has at least reserved what one open reservation holds, and used what one settled reservation cost. */
  lemma WalletCovers(w: World, k: nat)
    requires Inv(w) && k < |w.reservations| && HasWallet(w, w.reservations[k].account)
    ensures var (r, b) := (w.reservations[k], w.accounts[w.reservations[k].account].wallet.value);
            b.reserved >= 0 && b.reserved >= OpenFor(r.account)(r) && b.used >= SettledFor(r.account)(r)
  {
    var a := w.reservations[k].account;
    InvBalances(w, a);
    SumAtLeast(w.reservations, OpenFor(a));
    SumAtLeast(w.reservations, SettledFor(a));
    NonNegative(w, a);
  }

  lemma ReserveKeepsInv(w: World, id: string, workspaceId: string, micros: nat, allowed: bool)
    requires Inv(w)
    ensures Inv(Reserve(w, id, workspaceId, micros, allowed))
  {
    var w' := Reserve(w, id, workspaceId, micros, allowed);
    if w' != w {
      InvBalances(w, id);
      InvIsSound(w);
      hide Inv, Reserving, Spent, Consistent;
      forall a
        ensures Reserving(w', a) == Reserving(w, a) + (if a == id then micros else 0) && Spent(w', a) == Spent(w, a)
      {
        ReservedSums(w, w', id, micros, a);
      }
      ShiftKeepsInv(w, w', id, micros, 0);
    }
  }

  lemma ReservedSums(w: World, w': World, id: string, micros: nat, a: string)
    requires w'.leases == w.leases && w'.operations == w.operations && w'.usage == w.usage
    requires w'.reservations == w.reservations + [Reservation(id, micros, Pending, false)]
    ensures Reserving(w', a) == Reserving(w, a) + (if a == id then micros else 0) && Spent(w', a) == Spent(w, a)
  {
    hide Held, Charged, Sum, Recorded;
    SumAppend(w.reservations, Reservation(id, micros, Pending, false), OpenFor(a));
    SumAppend(w.reservations, Reservation(id, micros, Pending, false), SettledFor(a));
  }

  /** A reservation changes and its wallet with it. */
  lemma MarkedKeepsInv(w: World, k: nat, r: Reservation, b': Wallet)
    requires Inv(w) && k < |w.reservations| && r.account == w.reservations[k].account && Sound(r) && HasWallet(w, r.account)
    requires var b := w.accounts[r.account].wallet.value;
             && b'.reserved - b.reserved == OpenFor(r.account)(r) - OpenFor(r.account)(w.reservations[k])
             && b'.used - b.used == SettledFor(r.account)(r) - SettledFor(r.account)(w.reservations[k])
             && (Consistent(b) ==> Consistent(b'))
    ensures Inv(Mark(SetWallet(w, r.account, b'), k, r))
  {
    var w', id := Mark(SetWallet(w, r.account, b'), k, r), r.account;
    var b := w.accounts[id].wallet.value;
    InvBalances(w, id);
    hide Reserving, Spent, FreshVersions, Backed;
    forall a
      ensures Reserving(w', a) == Reserving(w, a) + (if a == id then b'.reserved - b.reserved else 0)
      ensures Spent(w', a) == Spent(w, a) + (if a == id then b'.used - b.used else 0)
    {
      MarkSums(w, w', k, r, a);
    }
    ShiftKeepsInv(w, w', id, b'.reserved - b.reserved, b'.used - b.used);
  }

  lemma SettleKeepsInv(w: World, k: nat, actual: nat)
    requires Inv(w) && OnLedger(w, k) && (w.reservations[k].state.Pending? || w.reservations[k].state.Reconcile?)
    ensures Inv(Settle(w, k, actual))
  {
    hide Inv, Finalize, Allocates, Consistent;
    var r := w.reservations[k];
    if Allocates(w.accounts[r.account].wallet.value, actual) {
      var b := w.accounts[r.account].wallet.value;
      WalletCovers(w, k);
      ReservationSound(w, k);
      FinalizeIsExact(b, w.accounts[r.account].canceled, actual, r.micros, 0);
      MarkedKeepsInv(w, k, r.(state := Settled(actual, false), started := true), Finalize(b, w.accounts[r.account].canceled, actual, r.micros, 0));
    }
  }

  lemma GiveBackKeepsInv(w: World, k: nat, reconciled: bool)
    requires Inv(w) && OnLedger(w, k) && (w.reservations[k].state.Pending? || w.reservations[k].state.Reconcile?)
    ensures Inv(GiveBack(w, k, reconciled))
  {
    hide Inv;
    var r := w.reservations[k];
    var b := w.accounts[r.account].wallet.value;
    WalletCovers(w, k);
    ReservationSound(w, k);
    var b' := if r.micros > 0 || reconciled then Release(b, w.accounts[r.account].canceled, r.micros) else b;
    assert w.accounts[r.account := w.accounts[r.account].(wallet := Some(b))] == w.accounts;
    MarkedKeepsInv(w, k, r.(state := GivenBack), b');
  }

  /** Marks that move no money. */
  lemma QuietMarkKeepsInv(w: World, k: nat, r: Reservation)
    requires Inv(w) && k < |w.reservations| && r.account == w.reservations[k].account && r.micros == w.reservations[k].micros
    requires (w.reservations[k].state.Pending? || w.reservations[k].state.Reconcile?) && (r.state.Pending? || r.state.Reconcile?)
    ensures Inv(Mark(w, k, r))
  {
    SameMoneyKeepsInv(w, Mark(w, k, r));
  }

  lemma RefundIsExact(b: Wallet, canceled: bool, refund: int)
    requires 0 <= refund <= b.used
    ensures var b' := Refund(b, canceled, refund);
            && b'.used == b.used - refund && b'.reserved == b.reserved
            && (Consistent(b) ==> Consistent(b')) && (Solvent(b) ==> Solvent(b'))
  {}

  lemma CorrectKeepsInv(w: World, k: nat, actual: nat, samePeriod: bool, limit: nat)
    requires Inv(w)
    ensures Inv(Correct(w, k, actual, samePeriod, limit))
  {
    hide Inv, Finalize, Refund, Allocates, Consistent, Solvent, Raise;
    if k < |w.reservations| && w.reservations[k].state.Settled? && !w.reservations[k].state.corrected && HasWallet(w, w.reservations[k].account) {
      var r := w.reservations[k];
      var account := w.accounts[r.account];
      var b := account.wallet.value;
      var difference := if samePeriod then actual - r.state.charged else 0;
      WalletCovers(w, k);
      ReservationSound(w, k);
      if difference > 0 && Raise(b, difference, limit) > 0 {
        FinalizeIsExact(b, account.canceled, Raise(b, difference, limit), 0, 0);
        if Allocates(b, Raise(b, difference, limit)) {
          MarkedKeepsInv(w, k, r.(state := Settled(r.state.charged + Raise(b, difference, limit), true)),
                         Finalize(b, account.canceled, Raise(b, difference, limit), 0, 0));
        }
      } else if difference < 0 {
        RefundIsExact(b, account.canceled, 0 - difference);
        MarkedKeepsInv(w, k, r.(state := Settled(actual, true)), Refund(b, account.canceled, 0 - difference));
      } else {
        assert w.accounts[r.account := w.accounts[r.account].(wallet := Some(b))] == w.accounts;
        MarkedKeepsInv(w, k, r.(state := Settled(r.state.charged, true)), b);
      }
    }
  }

  lemma RecordKeepsInv(w: World, id: string, micros: nat)
    requires Inv(w)
    ensures Inv(ChargeDirect(w, id, micros))
  {
    hide Inv, Finalize, Allocates, Consistent;
    if HasWallet(w, id) {
      var b := w.accounts[id].wallet.value;
      var charge := Min(micros, Unspent(b));
      InvBalances(w, id);
      ReservedNonNegative(w, id);
      FinalizeIsExact(b, w.accounts[id].canceled, charge, 0, 0);
      assert w.accounts[id := w.accounts[id].(wallet := Some(b))] == w.accounts;
      if charge == 0 {
        RecordedKeepsInv(w, id, b, 0);
      } else if Allocates(b, charge) {
        RecordedKeepsInv(w, id, Finalize(b, w.accounts[id].canceled, charge, 0, 0), charge);
      }
    }
  }

  lemma RecordedKeepsInv(w: World, id: string, b': Wallet, charge: nat)
    requires Inv(w) && HasWallet(w, id)
    requires var b := w.accounts[id].wallet.value; b'.reserved == b.reserved && b'.used == b.used + charge && (Consistent(b) ==> Consistent(b'))
    ensures Inv(SetWallet(w, id, b').(usage := w.usage + [Usage(id, charge)]))
  {
    var w' := SetWallet(w, id, b').(usage := w.usage + [Usage(id, charge)]);
    InvBalances(w, id);
    InvIsSound(w);
    hide Inv, Reserving, Spent, Consistent;
    forall a
      ensures Reserving(w', a) == Reserving(w, a) && Spent(w', a) == Spent(w, a) + (if a == id then charge else 0)
    {
      RecordedSums(w, w', id, charge, a);
    }
    ShiftKeepsInv(w, w', id, 0, charge);
  }

  lemma RecordedSums(w: World, w': World, id: string, charge: nat, a: string)
    requires w'.leases == w.leases && w'.reservations == w.reservations && w'.operations == w.operations
    requires w'.usage == w.usage + [Usage(id, charge)]
    ensures Reserving(w', a) == Reserving(w, a) && Spent(w', a) == Spent(w, a) + (if a == id then charge else 0)
  {
    hide Held, Charged, Sum, Recorded;
    RecordedAppend(w.usage, Usage(id, charge), a);
  }

  // ----- runs -----------------------------------------------------------------------------------------

  lemma HoldStepKeepsInv(w: World, a: Action)
    requires Inv(w) && (a.BeginWork? || a.SuspendHold? || a.SettleHold? || a.ReleaseHold? || a.ReconcileHold?)
    ensures Inv(Step(w, a))
  {
    hide Inv, Settle, GiveBack;
    if OnLedger(w, a.k) && (w.reservations[a.k].state.Pending? || w.reservations[a.k].state.Reconcile?) {
      var r := w.reservations[a.k];
      if r.state.Pending? {
        QuietMarkKeepsInv(w, a.k, r.(started := true));
      }
      QuietMarkKeepsInv(w, a.k, r.(state := Reconcile, started := true));
      GiveBackKeepsInv(w, a.k, a.ReconcileHold?);
      if a.SettleHold? {
        SettleKeepsInv(w, a.k, a.actual);
      } else if a.ReconcileHold? && a.cost.Some? {
        SettleKeepsInv(w, a.k, a.cost.value);
      }
    }
  }

  lemma StepKeepsInv(w: World, a: Action)
    requires Inv(w)
    ensures Inv(Step(w, a))
  {
    hide Inv;
    match a
    case Debit(m) => DebitKeepsInv(w, m);
    case SetStatus(_, _) =>
      InvIsSound(w);
      SameMoneyKeepsInv(w, Step(w, a));
    case SetPlan(id, active, paid, canceled) =>
      if id in w.accounts {
        PlanKeepsInv(w, id, Planned(w.accounts[id], active, paid, canceled));
      }
    case AddLease(workspaceId) => NewLeaseKeepsInv(w, Lease(workspaceId, Reserved, 0, 0, None, None, None));
    case Open(id, _, _, _, _) =>
      if id !in w.accounts {
        OpenKeepsInv(w, id, Step(w, a).accounts[id]);
      }
    case TopUp(id, micros) =>
      if HasWallet(w, id) {
        PlanKeepsInv(w, id, Step(w, a).accounts[id]);
      }
    case TakeHold(id, workspaceId, micros, allowed) => ReserveKeepsInv(w, id, workspaceId, micros, allowed);
    case Record(id, micros) => RecordKeepsInv(w, id, micros);
    case CorrectCost(k, actual, samePeriod, limit) => CorrectKeepsInv(w, k, actual, samePeriod, limit);
    case _ => HoldStepKeepsInv(w, a);
  }

  lemma {:induction false} RunKeepsInv(w: World, actions: seq<Action>)
    requires Inv(w)
    ensures Inv(Run(w, actions))
    decreases |actions|
  {
    hide Inv, Step;
    if actions != [] {
      StepKeepsInv(w, actions[0]);
      RunKeepsInv(Step(w, actions[0]), actions[1..]);
    }
  }

  lemma EmptyInv()
    ensures Inv(EMPTY)
  {}

  /**
   Wallet conservation in any run of metering and all other users of the wallet: what it has reserved is
   exactly what leases and open reservations hold against it, and what it has used is exactly what
   metering, settled and corrected reservations and recorded usage charged.
   */
  lemma WalletsBalanceAlways(actions: seq<Action>, account: string)
    requires HasWallet(Run(EMPTY, actions), account)
    ensures var w := Run(EMPTY, actions);
            var b := w.accounts[account].wallet.value;
            && b.reserved == Held(w.leases, account) + Sum(w.reservations, OpenFor(account))
            && b.used == Charged(w.operations, account) + Sum(w.reservations, SettledFor(account)) + Recorded(w.usage, account)
            && b.used == b.allowanceUsed + b.purchased - b.topUpBalance && b.topUpBalance >= 0
  {
    hide Step, Run, Inv;
    assert Inv(EMPTY) by { EmptyInv(); }
    RunKeepsInv(EMPTY, actions);
    InvBalances(Run(EMPTY, actions), account);
  }

  lemma RunOne(w: World, actions: seq<Action>, i: nat)
    requires i < |actions|
    ensures Run(w, actions[i..]) == Run(Step(w, actions[i]), actions[i + 1..])
  {
    assert actions[i..][1..] == actions[i + 1..];
  }

  // ----- one version, one charge ----------------------------------------------------------------------

  /** How many debits of a run were applied for this lease at this expected version. */
  function AppliedAt(w: World, actions: seq<Action>, lease: nat, version: int): nat
    decreases |actions|
  {
    if actions == [] then 0
    else
      (if actions[0].Debit? && actions[0].m.lease == lease && actions[0].m.expected == version && Meter(w, actions[0].m).1.Applied? then 1 else 0)
      + AppliedAt(Step(w, actions[0]), actions[1..], lease, version)
  }

  lemma VersionsOnlyGrow(w: World, a: Action, i: nat)
    requires i < |w.leases|
    ensures |Step(w, a).leases| >= |w.leases| && Step(w, a).leases[i].meterVersion >= w.leases[i].meterVersion
    ensures a.Debit? && a.m.lease == i && Meter(w, a.m).1.Applied? ==>
              w.leases[i].meterVersion == a.m.expected && Step(w, a).leases[i].meterVersion == a.m.expected + 1
  {
    if a.Debit? {
      if Meter(w, a.m).1.Applied? {
        AppliedCommits(w, a.m);
      } else {
        RefusedKeepsMoney(w, a.m);
      }
    }
  }

  /** Whatever retries race, a debit for one expected version of a lease is applied at most once. */
  lemma {:induction false} VersionChargesOnce(w: World, actions: seq<Action>, lease: nat, version: int)
    ensures AppliedAt(w, actions, lease, version) <= 1
    ensures lease < |w.leases| && w.leases[lease].meterVersion > version ==> AppliedAt(w, actions, lease, version) == 0
    decreases |actions|
  {
    hide Meter, Step;
    if actions != [] {
      var a := actions[0];
      VersionChargesOnce(Step(w, a), actions[1..], lease, version);
      if lease < |w.leases| {
        VersionsOnlyGrow(w, a, lease);
      } else if a.Debit? && a.m.lease == lease {
        assert !Meter(w, a.m).1.Applied? by { MissingLease(w, a.m); }
      }
    }
  }

  lemma MissingLease(w: World, m: Request)
    requires m.lease >= |w.leases|
    ensures Meter(w, m) == (w, Refused(LeaseMissing))
  {}

  // ----- a hold left on a released lease --------------------------------------------------------------

  ghost predicate GivesHoldBack(w: World, i: nat, m: Request) {
    m.lease == i && Meter(w, m).1.Applied? && i < |Meter(w, m).0.leases| && Meter(w, m).0.leases[i].hold == 0
  }

  /** Some debit gives the hold of a lease back exactly while the lease is neither released nor deleted. */
  lemma HoldComesBackExactly(w: World, i: nat)
    requires Inv(w) && i < |w.leases| && w.leases[i].hold > 0
    ensures (exists m :: GivesHoldBack(w, i, m)) <==> Meterable(w.leases[i].status)
  {
    var l := w.leases[i];
    if Meterable(l.status) {
      var m := Request(i, l.workspaceId, l.meterVersion, l.heldPayer, None, Some(0), 0, None, l.reference, true, Within);
      assert Backed(w, l);
      HoldIsReserved(w, i);
      SettlingPasses(w, i, m);
      assert GivesHoldBack(w, i, m);
    } else {
      forall m
        ensures !GivesHoldBack(w, i, m)
      {
        assert m.lease == i ==> !Meter(w, m).1.Applied?;
      }
    }
  }

  lemma SettlingPasses(w: World, i: nat, m: Request)
    requires i < |w.leases| && Backed(w, w.leases[i]) && w.leases[i].hold > 0 && Meterable(w.leases[i].status)
    requires var l := w.leases[i]; m == Request(i, l.workspaceId, l.meterVersion, l.heldPayer, None, Some(0), 0, None, l.reference, true, Within)
    requires var b := w.accounts[w.leases[i].heldPayer.value.account].wallet.value; w.leases[i].hold <= b.reserved && b.topUpBalance >= 0
    ensures Meter(w, m) == (Commit(w, i, m), Applied(w.leases[i].meterVersion + 1)) && Commit(w, i, m).leases[i].hold == 0
  {}

  lemma {:induction false} HeldAtLeast(leases: seq<Lease>, i: nat, account: string)
    requires i < |leases|
    ensures Held(leases, account) >= HeldOn(leases[i], account)
    decreases |leases|
  {
    HeldNonNegative(leases[..|leases| - 1], account);
    if i < |leases| - 1 {
      HeldAtLeast(leases[..|leases| - 1], i, account);
    }
  }

  /** The wallet of the payer still has the hold reserved. */
  lemma HoldIsReserved(w: World, i: nat)
    requires Inv(w) && i < |w.leases| && w.leases[i].hold > 0
    ensures var a := w.leases[i].heldPayer.value.account;
            HasWallet(w, a) && w.accounts[a].wallet.value.reserved >= w.leases[i].hold && w.accounts[a].wallet.value.topUpBalance >= 0
  {
    assert Backed(w, w.leases[i]);
    var a := w.leases[i].heldPayer.value.account;
    InvBalances(w, a);
    HeldAtLeast(w.leases, i, a);
    SumAtLeast(w.reservations, OpenFor(a));
  }

  const STRANDED: seq<Action> :=
    [Open("acct", "ws", false, 10, 0), AddLease("ws"),
     Debit(Request(0, "ws", 0, Some(LENDER), None, Some(5), 0, None, None, true, Within)), SetStatus(0, Released)]

  lemma StrandedDebit(w: World)
    requires w.leases == [Lease("ws", Reserved, 0, 0, None, None, None)]
    requires w.accounts == map["acct" := Account(true, "ws", true, true, false, Some(Wallet(false, 10, 0, 0, 0, 0, 0, 0, 0)))]
    ensures var w' := Step(w, STRANDED[2]);
            && |w'.leases| == 1 && w'.leases[0].hold == 5 && w'.accounts.Keys == {"acct"}
            && w'.accounts["acct"].wallet.Some? && w'.accounts["acct"].wallet.value.reserved == 5
  {
    var m := STRANDED[2].m;
    assert Admit(w, m) == None;
    assert Decide(w, w.leases[0], m) == Applied(1);
  }

  /** A run from the empty world in which a lease is released with a hold on it. */
  lemma ReleasedWithHold()
    ensures var w := Run(EMPTY, STRANDED);
            && |w.leases| == 1 && w.leases[0].status == Released && w.leases[0].hold == 5
            && HasWallet(w, "acct") && w.accounts["acct"].wallet.value.reserved == 5
  {
    var w1 := Step(EMPTY, STRANDED[0]);
    var w2 := Step(w1, STRANDED[1]);
    StrandedDebit(w2);
    var w3 := Step(w2, STRANDED[2]);
    var w4 := Step(w3, STRANDED[3]);
    hide Step;
    RunOne(EMPTY, STRANDED, 0);
    RunOne(w1, STRANDED, 1);
    RunOne(w2, STRANDED, 2);
    RunOne(w3, STRANDED, 3);
    assert STRANDED[0..] == STRANDED && STRANDED[4..] == [];
  }

  lemma StrandedStep(w: World, a: Action, i: nat)
    requires i < |w.leases| && !Meterable(w.leases[i].status)
    requires a.SetStatus? && a.lease == i ==> !Meterable(a.status)
    ensures var w' := Step(w, a);
            i < |w'.leases| && !Meterable(w'.leases[i].status)
            && w'.leases[i].hold == w.leases[i].hold && w'.leases[i].heldPayer == w.leases[i].heldPayer
  {
    if a.Debit? {
      if Meter(w, a.m).1.Applied? {
        AppliedCommits(w, a.m);
      } else {
        RefusedKeepsMoney(w, a.m);
      }
    }
  }

  /** Metering gives a hold back only while the lease is meterable: a hold on a released lease stays reserved. */
  lemma {:induction false} StrandedHold(w: World, actions: seq<Action>, i: nat)
    requires Inv(w) && i < |w.leases| && !Meterable(w.leases[i].status) && w.leases[i].hold > 0
    requires forall k :: 0 <= k < |actions| && actions[k].SetStatus? && actions[k].lease == i ==> !Meterable(actions[k].status)
    ensures var w' := Run(w, actions);
            && i < |w'.leases| && w'.leases[i].hold == w.leases[i].hold && w'.leases[i].heldPayer == w.leases[i].heldPayer
            && HasWallet(w', w.leases[i].heldPayer.value.account)
            && w'.accounts[w.leases[i].heldPayer.value.account].wallet.value.reserved >= w.leases[i].hold
    decreases |actions|
  {
    hide Inv, Step;
    if actions == [] {
      HoldIsReserved(w, i);
    } else {
      StepKeepsInv(w, actions[0]);
      StrandedStep(w, actions[0], i);
      StrandedHold(Step(w, actions[0]), actions[1..], i);
    }
  }
}
