/**
 Settlement of automatic top-ups (convex/billing/autoTopUpSettlement.ts). A webhook or the reconcile
 job reports how a payment ended; the mutation either creates the top-up row for a known claim or
 settles a pending row, and credits the wallet in the same step. Optional ids are absent or non-empty.
 */
module TopUp {
  import opened Common

  const MICROS_PER_CENT: int := 10000
  const MAX_SAFE: int := 0x1F_FFFF_FFFF_FFFF

  datatype Status = Pending | Succeeded | Failed | Canceled | Refunded

  datatype Ending = Paid | Unpaid | Dropped

  /** A row of budgetTopUps. */
  datatype Row = Row(
    account: Option<string>,
    workspace: Option<string>,
    user: string,
    customer: Option<string>,
    payment: Option<string>,
    key: Option<string>,
    cents: int,
    auto: bool,
    status: Status)

  datatype ClaimState = Waiting | PaymentFailed | ClaimPaid

  /** A row of billingAutoTopUpIntents: one authorised charge. */
  datatype Claim = Claim(
    account: string,
    key: string,
    workspace: string,
    actor: string,
    customer: string,
    cents: int,
    payment: Option<string>,
    state: ClaimState)

  /** `plan` is whether the plan is paid and active. */
  datatype Account = Account(workspaceScope: bool, workspace: string, active: bool, plan: bool)

  datatype Balance = Balance(purchased: int, left: int, version: nat)

  datatype World = World(rows: seq<Row>, claims: seq<Claim>, accounts: map<string, Account>, balances: map<string, Balance>)

  datatype Request = Request(
    payment: string,
    ending: Ending,
    account: Option<string>,
    key: Option<string>,
    workspace: Option<string>,
    user: Option<string>,
    customer: Option<string>,
    cents: Option<int>,
    usd: bool)

  datatype Answer = Answer(settled: bool, granted: bool)

  const NOTHING: Answer := Answer(false, false)

  predicate Truthy(o: Option<string>) {
    o.Some? && o.value != ""
  }

  function StatusOf(e: Ending): Status {
    match e
    case Paid => Succeeded
    case Unpaid => Failed
    case Dropped => Canceled
  }

  function ClaimStateOf(e: Ending): ClaimState {
    if e.Paid? then ClaimPaid else PaymentFailed
  }

  // ----- index lookups -----------------------------------------------------------------------------

  function FindPayment(rows: seq<Row>, payment: string, from: nat): Option<nat>
    decreases |rows| - from
  {
    if from >= |rows| then None else if rows[from].payment == Some(payment) then Some(from) else FindPayment(rows, payment, from + 1)
  }

  function FindClaim(claims: seq<Claim>, account: string, key: string, from: nat): Option<nat>
    decreases |claims| - from
  {
    if from >= |claims| then None
    else if claims[from].account == account && claims[from].key == key then Some(from)
    else FindClaim(claims, account, key, from + 1)
  }

  lemma {:induction false} FindPaymentFinds(rows: seq<Row>, payment: string, from: nat)
    ensures var f := FindPayment(rows, payment, from);
            && (f.Some? ==> from <= f.value < |rows| && rows[f.value].payment == Some(payment))
            && (f.None? ==> forall i :: from <= i < |rows| ==> rows[i].payment != Some(payment))
    decreases |rows| - from
  {
    if from < |rows| && rows[from].payment != Some(payment) {
      FindPaymentFinds(rows, payment, from + 1);
    }
  }

  lemma {:induction false} FindClaimFinds(claims: seq<Claim>, account: string, key: string, from: nat)
    ensures var f := FindClaim(claims, account, key, from);
            && (f.Some? ==> from <= f.value < |claims| && claims[f.value].account == account && claims[f.value].key == key)
            && (f.None? ==> forall i :: from <= i < |claims| ==> !(claims[i].account == account && claims[i].key == key))
    decreases |claims| - from
  {
    if from < |claims| && !(claims[from].account == account && claims[from].key == key) {
      FindClaimFinds(claims, account, key, from + 1);
    }
  }

  // ----- settlement -----------------------------------------------------------------------------------

  function BalanceOf(w: World, account: string): Balance {
    if account in w.balances then w.balances[account] else Balance(0, 0, 0)
  }

  function Credit(w: World, account: string, cents: int): World {
    var b := BalanceOf(w, account);
    w.(balances := w.balances[account := Balance(b.purchased + cents * MICROS_PER_CENT, b.left + cents * MICROS_PER_CENT, b.version + 1)])
  }

  predicate Billable(w: World, account: string, workspace: Option<string>) {
    && account in w.accounts
    && w.accounts[account].workspaceScope && Some(w.accounts[account].workspace) == workspace
    && w.accounts[account].active && w.accounts[account].plan
  }

  /** The call names everything needed to create the row itself. */
  predicate Complete(q: Request) {
    && Truthy(q.account) && Truthy(q.key) && Truthy(q.workspace) && Truthy(q.user) && Truthy(q.customer)
    && q.cents.Some? && -MAX_SAFE <= q.cents.value <= MAX_SAFE
  }

  predicate ClaimFits(w: World, c: Claim, q: Request) {
    && Some(c.workspace) == q.workspace && Some(c.actor) == q.user && Some(c.customer) == q.customer && Some(c.cents) == q.cents
    && (Truthy(c.payment) ==> c.payment == Some(q.payment))
    && q.usd
    && Billable(w, c.account, Some(c.workspace))
  }

  /** No row knows the payment yet: create it from the claim. */
  function SettleNew(w: World, q: Request): (World, Answer)
    requires Complete(q)
  {
    var found := FindClaim(w.claims, q.account.value, q.key.value, 0);
    FindClaimFinds(w.claims, q.account.value, q.key.value, 0);
    if found.None? || !ClaimFits(w, w.claims[found.value], q) then (w, NOTHING)
    else
      var c := w.claims[found.value];
      var row := Row(Some(c.account), Some(c.workspace), c.actor, Some(c.customer), Some(q.payment), Some(c.key), c.cents, true, StatusOf(q.ending));
      var w1 := w.(rows := w.rows + [row],
                   claims := w.claims[found.value := c.(state := ClaimStateOf(q.ending), payment := Some(q.payment))]);
      if q.ending.Paid? then (Credit(w1, c.account, c.cents), Answer(true, true)) else (w1, Answer(true, false))
  }

  predicate RowFits(r: Row, q: Request) {
    && r.status.Pending? && r.auto && Truthy(r.account)
    && q.account == r.account && q.key == r.key && (r.workspace.Some? ==> q.workspace == r.workspace)
    && q.user == Some(r.user) && q.customer == r.customer && q.cents == Some(r.cents) && q.usd
  }

  /** The claim a row with a key belongs to. */
  function ClaimOf(w: World, r: Row): (f: Option<nat>)
    ensures f.Some? ==> f.value < |w.claims|
  {
    if !Truthy(r.key) || r.account.None? then None
    else
      FindClaimFinds(w.claims, r.account.value, r.key.value, 0);
      FindClaim(w.claims, r.account.value, r.key.value, 0)
  }

  predicate ClaimAgrees(w: World, r: Row, q: Request) {
    || (r.key.None? && q.key.None?)
    || (ClaimOf(w, r).Some?
        && var c := w.claims[ClaimOf(w, r).value];
           Some(c.workspace) == r.workspace && c.actor == r.user && Some(c.customer) == r.customer && c.cents == r.cents
           && c.payment == Some(q.payment))
  }

  /** The payment has a row already: only one still waiting changes. */
  function SettleRow(w: World, i: nat, q: Request): (World, Answer)
    requires i < |w.rows|
  {
    var r := w.rows[i];
    if !RowFits(r, q) || !Billable(w, r.account.value, q.workspace) || !ClaimAgrees(w, r, q) then (w, NOTHING)
    else
      var rows := w.rows[i := r.(status := StatusOf(q.ending))];
      var claims := match ClaimOf(w, r)
                    case None => w.claims
                    case Some(k) => w.claims[k := w.claims[k].(state := ClaimStateOf(q.ending))];
      var w1 := w.(rows := rows, claims := claims);
      if q.ending.Paid? then (Credit(w1, r.account.value, r.cents), Answer(true, true)) else (w1, Answer(true, false))
  }

  function Settle(w: World, q: Request): (World, Answer) {
    match FindPayment(w.rows, q.payment, 0)
    case Some(i) =>
      FindPaymentFinds(w.rows, q.payment, 0);
      SettleRow(w, i, q)
    case None => if Complete(q) then SettleNew(w, q) else (w, NOTHING)
  }

  // ----- where claims and pending rows come from -----------------------------------------------------------

  /** A new authorised charge; its key is new for the account. */
  function OpenClaim(w: World, c: Claim): World {
    if FindClaim(w.claims, c.account, c.key, 0).Some? then w
    else w.(claims := w.claims + [c.(payment := None, state := Waiting)])
  }

  predicate KnownKey(rows: seq<Row>, key: string) {
    exists i :: 0 <= i < |rows| && rows[i].key == Some(key)
  }

  /** The charge was made and has not cleared: the first record of this payment, and of this key if it has one. */
  function RecordPending(w: World, account: string, row: Row, payment: string): World {
    var r := row.(account := Some(account), payment := Some(payment), status := Pending);
    if FindPayment(w.rows, payment, 0).Some? || (Truthy(r.key) && KnownKey(w.rows, r.key.value)) then w
    else if !Truthy(r.key) then w.(rows := w.rows + [r.(key := None)])
    else
      match FindClaim(w.claims, account, r.key.value, 0)
      case None => w
      case Some(k) =>
        FindClaimFinds(w.claims, account, r.key.value, 0);
        if w.claims[k].cents != r.cents then w
        else w.(rows := w.rows + [r], claims := w.claims[k := w.claims[k].(state := if w.claims[k].state.ClaimPaid? then ClaimPaid else Waiting,
                                                                               payment := Some(payment))])
  }

  // ----- the mutation as it runs ---------------------------------------------------------------------------

  class Table {
    var rows: seq<Row>
    var claims: seq<Claim>
    var accounts: map<string, Account>
    var balances: map<string, Balance>

    function State(): World
      reads this
    {
      World(rows, claims, accounts, balances)
    }

    constructor (accounts: map<string, Account>)
      ensures State() == World([], [], accounts, map[])
    {
      rows, claims, balances := [], [], map[];
      this.accounts := accounts;
    }

    method Grant(account: string, cents: int)
      modifies this`balances
      ensures State() == Credit(old(State()), account, cents)
    {
      if account !in balances {
        balances := balances[account := Balance(0, 0, 0)];
      }
      var b := balances[account];
      var micros := cents * MICROS_PER_CENT;
      balances := balances[account := Balance(b.purchased + micros, b.left + micros, b.version + 1)];
    }

    method SettlePending(q: Request) returns (a: Answer)
      modifies this
      ensures (State(), a) == Settle(old(State()), q)
    {
      var found := FindPayment(rows, q.payment, 0);
      FindPaymentFinds(rows, q.payment, 0);
      if found.None? {
        if !Complete(q) {
          return NOTHING;
        }
        var k := FindClaim(claims, q.account.value, q.key.value, 0);
        FindClaimFinds(claims, q.account.value, q.key.value, 0);
        if k.None? || !ClaimFits(State(), claims[k.value], q) {
          return NOTHING;
        }
        var c := claims[k.value];
        rows := rows + [Row(Some(c.account), Some(c.workspace), c.actor, Some(c.customer), Some(q.payment), Some(c.key), c.cents, true, StatusOf(q.ending))];
        claims := claims[k.value := c.(state := ClaimStateOf(q.ending), payment := Some(q.payment))];
        if q.ending.Paid? {
          Grant(c.account, c.cents);
        }
        return Answer(true, q.ending.Paid?);
      }
      var i, r := found.value, rows[found.value];
      if !RowFits(r, q) || !Billable(State(), r.account.value, q.workspace) || !ClaimAgrees(State(), r, q) {
        return NOTHING;
      }
      var k := ClaimOf(State(), r);
      rows := rows[i := r.(status := StatusOf(q.ending))];
      if k.Some? {
        claims := claims[k.value := claims[k.value].(state := ClaimStateOf(q.ending))];
      }
      if q.ending.Paid? {
        Grant(r.account.value, r.cents);
      }
      return Answer(true, q.ending.Paid?);
    }
  }
}
