/** Exactly-once credit of automatic top-ups over any run of webhook and reconcile calls. */
module TopUpOnce {
  import opened Common
  import opened TopUp

  datatype Action =
    | SettleCall(q: Request)
    | Authorise(c: Claim)
    | Charge(account: string, row: Row, payment: string)
    | SetAccount(id: string, info: Account)

  function Step(w: World, a: Action): World {
    match a
    case SettleCall(q) => Settle(w, q).0
    case Authorise(c) => OpenClaim(w, c)
    case Charge(account, row, payment) => RecordPending(w, account, row, payment)
    case SetAccount(id, info) => w.(accounts := w.accounts[id := info])
  }

  function Run(w: World, actions: seq<Action>): World
    decreases |actions|
  {
    if actions == [] then w else Run(Step(w, actions[0]), actions[1..])
  }

  /** Payment provider ids are never empty. */
  predicate Named(a: Action) {
    (a.SettleCall? ==> a.q.payment != "") && (a.Charge? ==> a.payment != "")
  }

  const EMPTY: World := World([], [], map[], map[])

  // ----- invariant -----------------------------------------------------------------------------------------

  ghost predicate OneRowPerPayment(rows: seq<Row>) {
    forall i, j :: 0 <= i < j < |rows| ==> rows[i].payment.Some? && rows[j].payment.Some? && rows[i].payment != rows[j].payment
  }

  ghost predicate OneClaimPerKey(claims: seq<Claim>) {
    forall i, j :: 0 <= i < j < |claims| ==> !(claims[i].account == claims[j].account && claims[i].key == claims[j].key)
  }

  predicate Owns(c: Claim, r: Row) {
    r.account == Some(c.account) && r.key == Some(c.key)
  }

  ghost predicate HasRow(rows: seq<Row>, c: Claim) {
    exists i :: 0 <= i < |rows| && Owns(c, rows[i])
  }

  ghost predicate HasClaim(claims: seq<Claim>, r: Row) {
    exists k :: 0 <= k < |claims| && Owns(claims[k], r)
  }

  predicate HasPayment(payment: Option<string>) {
    payment.Some? && payment.value != ""
  }

  /** A row with a key and its claim name the same payment. */
  ghost predicate Paired(rows: seq<Row>, claims: seq<Claim>) {
    && (forall i, k :: 0 <= i < |rows| && 0 <= k < |claims| && Owns(claims[k], rows[i]) ==> claims[k].payment == rows[i].payment)
    && (forall i :: 0 <= i < |rows| ==> HasPayment(rows[i].payment) && (rows[i].key.Some? ==> HasClaim(claims, rows[i])))
    && (forall k :: 0 <= k < |claims| && claims[k].payment.Some? ==> HasRow(rows, claims[k]))
  }

  lemma PairedPayment(rows: seq<Row>, claims: seq<Claim>, i: nat, k: nat)
    requires Paired(rows, claims) && i < |rows| && k < |claims|
    ensures HasPayment(rows[i].payment) && (Owns(claims[k], rows[i]) ==> claims[k].payment == rows[i].payment)
  {}

  /** What the succeeded rows of an account add up to, in cents. */
  function Succeededs(rows: seq<Row>, account: string): int
    decreases |rows|
  {
    if rows == [] then 0
    else
      var r := rows[|rows| - 1];
      Succeededs(rows[..|rows| - 1], account) + if r.account == Some(account) && r.status.Succeeded? then r.cents else 0
  }

  lemma {:induction false} SucceededsUpdate(rows: seq<Row>, i: nat, r: Row, account: string)
    requires i < |rows| && r.account == rows[i].account && r.cents == rows[i].cents && !rows[i].status.Succeeded?
    ensures Succeededs(rows[i := r], account) == Succeededs(rows, account) + if r.account == Some(account) && r.status.Succeeded? then r.cents else 0
    decreases |rows|
  {
    var n := |rows| - 1;
    if i == n {
      assert rows[i := r][..n] == rows[..n];
    } else {
      assert rows[i := r][..n] == rows[..n][i := r];
      SucceededsUpdate(rows[..n], i, r, account);
    }
  }

  lemma SucceededsAppend(rows: seq<Row>, r: Row, account: string)
    ensures Succeededs(rows + [r], account) == Succeededs(rows, account) + if r.account == Some(account) && r.status.Succeeded? then r.cents else 0
  {
    assert (rows + [r])[..|rows|] == rows;
  }

  /** Purchased credit is what the succeeded rows add up to. */
  ghost predicate Funded(w: World) {
    forall a :: BalanceOf(w, a).purchased == MICROS_PER_CENT * Succeededs(w.rows, a)
  }

  ghost predicate Inv(w: World) {
    OneRowPerPayment(w.rows) && OneClaimPerKey(w.claims) && Paired(w.rows, w.claims) && Funded(w)
  }

  // ----- steps ---------------------------------------------------------------------------------------------------

  lemma HasRowStays(rows: seq<Row>, rows': seq<Row>, c: Claim, c': Claim)
    requires HasRow(rows, c) && |rows| <= |rows'| && c'.account == c.account && c'.key == c.key
    requires forall i :: 0 <= i < |rows| ==> rows'[i].account == rows[i].account && rows'[i].key == rows[i].key
    ensures HasRow(rows', c')
  {
    var i :| 0 <= i < |rows| && Owns(c, rows[i]);
    assert Owns(c', rows'[i]);
  }

  lemma HasClaimStays(claims: seq<Claim>, claims': seq<Claim>, r: Row, r': Row)
    requires HasClaim(claims, r) && |claims| <= |claims'| && r'.account == r.account && r'.key == r.key
    requires forall k :: 0 <= k < |claims| ==> claims'[k].account == claims[k].account && claims'[k].key == claims[k].key
    ensures HasClaim(claims', r')
  {
    var k :| 0 <= k < |claims| && Owns(claims[k], r);
    assert Owns(claims'[k], r');
  }

  /** A row created for a claim that had none: the claim takes its payment. */
  lemma NewPairKeepsPairing(rows: seq<Row>, claims: seq<Claim>, k: nat, r: Row, c: Claim)
    requires OneRowPerPayment(rows) && OneClaimPerKey(claims) && Paired(rows, claims)
    requires k < |claims| && Owns(claims[k], r) && c == claims[k].(state := c.state, payment := r.payment)
    requires HasPayment(r.payment) && forall i :: 0 <= i < |rows| ==> rows[i].payment != r.payment
    requires !HasRow(rows, claims[k])
    ensures OneRowPerPayment(rows + [r]) && OneClaimPerKey(claims[k := c]) && Paired(rows + [r], claims[k := c])
  {
    var rows', claims' := rows + [r], claims[k := c];
    assert Owns(c, rows'[|rows|]) && Owns(claims'[k], r);
    assert forall i :: 0 <= i < |rows| ==> !Owns(claims[k], rows[i]);
    hide HasRow, HasClaim;
    forall m | 0 <= m < |claims'| && claims'[m].payment.Some?
      ensures HasRow(rows', claims'[m])
    {
      if m == k {
        assert HasRow(rows', c) by { RowHere(rows', |rows|, c); }
      } else {
        HasRowStays(rows, rows', claims[m], claims'[m]);
      }
    }
    forall i | 0 <= i < |rows'| && rows'[i].key.Some?
      ensures HasClaim(claims', rows'[i])
    {
      if i == |rows| {
        ClaimHere(claims', k, r);
      } else {
        HasClaimStays(claims, claims', rows[i], rows'[i]);
      }
    }
  }

  lemma RowHere(rows: seq<Row>, i: nat, c: Claim)
    requires i < |rows| && Owns(c, rows[i])
    ensures HasRow(rows, c)
  {}

  lemma ClaimHere(claims: seq<Claim>, k: nat, r: Row)
    requires k < |claims| && Owns(claims[k], r)
    ensures HasClaim(claims, r)
  {}

  /** A claim whose payment is open, or has no row, owns no row. */
  lemma RowlessClaim(rows: seq<Row>, claims: seq<Claim>, k: nat, payment: string)
    requires Paired(rows, claims) && k < |claims| && (Truthy(claims[k].payment) ==> claims[k].payment == Some(payment))
    requires forall i :: 0 <= i < |rows| ==> rows[i].payment != Some(payment)
    ensures !HasRow(rows, claims[k])
  {
    hide Paired;
    forall i | 0 <= i < |rows|
      ensures !Owns(claims[k], rows[i])
    {
      PairedPayment(rows, claims, i, k);
    }
  }

  lemma NewRowKeepsFunds(w: World, w': World, r: Row)
    requires Funded(w) && w'.rows == w.rows + [r] && r.account.Some?
    requires w'.balances == if r.status.Succeeded? then Credit(w, r.account.value, r.cents).balances else w.balances
    ensures Funded(w')
  {
    forall a
      ensures BalanceOf(w', a).purchased == MICROS_PER_CENT * Succeededs(w'.rows, a)
    {
      SucceededsAppend(w.rows, r, a);
      assert BalanceOf(w, a).purchased == MICROS_PER_CENT * Succeededs(w.rows, a);
    }
  }

  lemma SettledRowKeepsFunds(w: World, w': World, i: nat, r: Row)
    requires Funded(w) && i < |w.rows| && w'.rows == w.rows[i := r] && w.rows[i].status.Pending? && r.account.Some?
    requires r == w.rows[i].(status := r.status)
    requires w'.balances == if r.status.Succeeded? then Credit(w, r.account.value, r.cents).balances else w.balances
    ensures Funded(w')
  {
    forall a
      ensures BalanceOf(w', a).purchased == MICROS_PER_CENT * Succeededs(w'.rows, a)
    {
      SucceededsUpdate(w.rows, i, r, a);
      assert BalanceOf(w, a).purchased == MICROS_PER_CENT * Succeededs(w.rows, a);
    }
  }

  lemma SettleNewKeepsInv(w: World, q: Request)
    requires Inv(w) && q.payment != "" && Complete(q) && FindPayment(w.rows, q.payment, 0).None?
    ensures Inv(SettleNew(w, q).0)
  {
    hide Funded, Paired, OneRowPerPayment, OneClaimPerKey, Billable, FindPayment, FindClaim;
    FindPaymentFinds(w.rows, q.payment, 0);
    FindClaimFinds(w.claims, q.account.value, q.key.value, 0);
    var found := FindClaim(w.claims, q.account.value, q.key.value, 0);
    if found.Some? && ClaimFits(w, w.claims[found.value], q) {
      var k, w' := found.value, SettleNew(w, q).0;
      var r := w'.rows[|w.rows|];
      RowlessClaim(w.rows, w.claims, k, q.payment);
      NewPairKeepsPairing(w.rows, w.claims, k, r, w'.claims[k]);
      NewRowKeepsFunds(w, w', r);
    }
  }

  lemma StatusKeepsPairing(rows: seq<Row>, claims: seq<Claim>, rows': seq<Row>, claims': seq<Claim>)
    requires OneRowPerPayment(rows) && OneClaimPerKey(claims) && Paired(rows, claims)
    requires |rows'| == |rows| && forall i :: 0 <= i < |rows| ==> rows'[i] == rows[i].(status := rows'[i].status)
    requires |claims'| == |claims| && forall k :: 0 <= k < |claims| ==> claims'[k] == claims[k].(state := claims'[k].state)
    ensures OneRowPerPayment(rows') && OneClaimPerKey(claims') && Paired(rows', claims')
  {
    hide HasRow, HasClaim;
    forall k | 0 <= k < |claims'| && claims'[k].payment.Some?
      ensures HasRow(rows', claims'[k])
    {
      HasRowStays(rows, rows', claims[k], claims'[k]);
    }
    forall i | 0 <= i < |rows'| && rows'[i].key.Some?
      ensures HasClaim(claims', rows'[i])
    {
      HasClaimStays(claims, claims', rows[i], rows'[i]);
    }
    forall i, k | 0 <= i < |rows'| && 0 <= k < |claims'| && Owns(claims'[k], rows'[i])
      ensures claims'[k].payment == rows'[i].payment
    {
      PairedPayment(rows, claims, i, k);
    }
  }

  lemma SettleRowKeepsInv(w: World, i: nat, q: Request)
    requires Inv(w) && i < |w.rows|
    ensures Inv(SettleRow(w, i, q).0)
  {
    hide Funded, Paired, OneRowPerPayment, OneClaimPerKey, Billable, ClaimAgrees, FindClaim;
    var w', r := SettleRow(w, i, q).0, w.rows[i];
    if RowFits(r, q) && Billable(w, r.account.value, q.workspace) && ClaimAgrees(w, r, q) {
      StatusKeepsPairing(w.rows, w.claims, w'.rows, w'.claims);
      SettledRowKeepsFunds(w, w', i, w'.rows[i]);
    }
  }

  lemma OpenClaimKeepsInv(w: World, c: Claim)
    requires Inv(w)
    ensures Inv(OpenClaim(w, c))
  {
    hide Succeededs, FindClaim, HasRow;
    FindClaimFinds(w.claims, c.account, c.key, 0);
    var w' := OpenClaim(w, c);
    if FindClaim(w.claims, c.account, c.key, 0).None? {
      var n := |w.claims|;
      forall i | 0 <= i < |w.rows| && w.rows[i].key.Some?
        ensures HasClaim(w'.claims, w.rows[i])
        ensures !Owns(w'.claims[n], w.rows[i])
      {
        HasClaimStays(w.claims, w'.claims, w.rows[i], w.rows[i]);
        var k :| 0 <= k < n && Owns(w.claims[k], w.rows[i]);
      }
      hide HasClaim;
      assert OneClaimPerKey(w'.claims);
      assert Paired(w.rows, w'.claims);
      assert forall a :: BalanceOf(w', a) == BalanceOf(w, a);
    }
  }

  lemma RecordKeepsInv(w: World, account: string, row: Row, payment: string)
    requires Inv(w) && payment != ""
    ensures Inv(RecordPending(w, account, row, payment))
  {
    hide Funded, Paired, OneRowPerPayment, OneClaimPerKey, FindPayment, FindClaim;
    FindPaymentFinds(w.rows, payment, 0);
    var w' := RecordPending(w, account, row, payment);
    if |w'.rows| > |w.rows| {
      var r := w'.rows[|w.rows|];
      if Truthy(row.key) {
        FindClaimFinds(w.claims, account, row.key.value, 0);
        var k := FindClaim(w.claims, account, row.key.value, 0).value;
        assert forall i :: 0 <= i < |w.rows| ==> w.rows[i].key != row.key;
        assert !HasRow(w.rows, w.claims[k]);
        NewPairKeepsPairing(w.rows, w.claims, k, r, w'.claims[k]);
      } else {
        UnkeyedKeepsPairing(w.rows, w.claims, r);
      }
      NewRowKeepsFunds(w, w', r);
    }
  }

  lemma UnkeyedKeepsPairing(rows: seq<Row>, claims: seq<Claim>, r: Row)
    requires OneRowPerPayment(rows) && Paired(rows, claims)
    requires r.key.None? && HasPayment(r.payment) && forall i :: 0 <= i < |rows| ==> rows[i].payment != r.payment
    ensures OneRowPerPayment(rows + [r]) && Paired(rows + [r], claims)
  {
    hide HasRow, HasClaim;
    forall k | 0 <= k < |claims| && claims[k].payment.Some?
      ensures HasRow(rows + [r], claims[k])
    {
      HasRowStays(rows, rows + [r], claims[k], claims[k]);
    }
  }

  lemma StepKeepsInv(w: World, a: Action)
    requires Inv(w) && Named(a)
    ensures Inv(Step(w, a))
  {
    match a
    case SettleCall(q) =>
      FindPaymentFinds(w.rows, q.payment, 0);
      var found := FindPayment(w.rows, q.payment, 0);
      if found.Some? {
        SettleRowKeepsInv(w, found.value, q);
      } else if Complete(q) {
        SettleNewKeepsInv(w, q);
      }
    case Authorise(c) => OpenClaimKeepsInv(w, c);
    case Charge(account, row, payment) => RecordKeepsInv(w, account, row, payment);
    case SetAccount(_, _) => assert forall x :: BalanceOf(Step(w, a), x) == BalanceOf(w, x);
  }

  lemma {:induction false} RunKeepsInv(w: World, actions: seq<Action>)
    requires Inv(w) && forall k :: 0 <= k < |actions| ==> Named(actions[k])
    ensures Inv(Run(w, actions))
    decreases |actions|
  {
    hide Inv, Step, Named;
    if actions != [] {
      assert Named(actions[0]);
      StepKeepsInv(w, actions[0]);
      RunKeepsInv(Step(w, actions[0]), actions[1..]);
    }
  }

  // ----- main results ----------------------------------------------------------------------------------------------

  /**
   Exactly-once credit, over any run: what an account has purchased is exactly its succeeded rows, a
   payment has at most one row, and so has a claim, whatever payments were reported for it.
   */
  lemma CreditedExactlyOnce(actions: seq<Action>, account: string, i: nat, j: nat)
    requires forall k :: 0 <= k < |actions| ==> Named(actions[k])
    ensures var w := Run(EMPTY, actions);
            && BalanceOf(w, account).purchased == MICROS_PER_CENT * Succeededs(w.rows, account)
            && (i < j < |w.rows| ==>
                  && w.rows[i].payment != w.rows[j].payment
                  && (w.rows[i].key.Some? ==> !(w.rows[i].account == w.rows[j].account && w.rows[i].key == w.rows[j].key)))
  {
    RunKeepsInv(EMPTY, actions);
    var w := Run(EMPTY, actions);
    if i < j < |w.rows| {
      OneRowPerKey(w, i, j);
    }
  }

  lemma OneRowPerKey(w: World, i: nat, j: nat)
    requires Inv(w) && i < j < |w.rows|
    ensures w.rows[i].key.Some? ==> !(w.rows[i].account == w.rows[j].account && w.rows[i].key == w.rows[j].key)
  {
    if w.rows[i].key.Some? {
      assert HasClaim(w.claims, w.rows[i]);
      hide Paired;
      var k :| 0 <= k < |w.claims| && Owns(w.claims[k], w.rows[i]);
      PairedPayment(w.rows, w.claims, i, k);
      PairedPayment(w.rows, w.claims, j, k);
    }
  }

  /** A row that is no longer pending never changes again. */
  lemma {:induction false} SettledRowsNeverChange(w: World, actions: seq<Action>, i: nat)
    requires i < |w.rows| && !w.rows[i].status.Pending?
    ensures var w' := Run(w, actions); i < |w'.rows| && w'.rows[i] == w.rows[i]
    decreases |actions|
  {
    if actions != [] {
      var a := actions[0];
      if a.SettleCall? {
        FindPaymentFinds(w.rows, a.q.payment, 0);
      }
      SettledRowsNeverChange(Step(w, a), actions[1..], i);
    }
  }

  /** Once a call has settled its payment, every later call for that payment is refused and changes nothing. */
  lemma ReplayIsRefused(w: World, q: Request, actions: seq<Action>, again: Request)
    requires Inv(w) && q.payment != "" && Settle(w, q).1.settled && again.payment == q.payment
    requires forall k :: 0 <= k < |actions| ==> Named(actions[k])
    ensures var w' := Run(Settle(w, q).0, actions); Settle(w', again) == (w', NOTHING)
  {
    var w1 := Settle(w, q).0;
    var i := SettledPosition(w, q);
    assert w1 == Step(w, SettleCall(q));
    StepKeepsInv(w, SettleCall(q));
    hide Settle, Step;
    SettledRowsNeverChange(w1, actions, i);
    RunKeepsInv(w1, actions);
    NonPendingRefuses(Run(w1, actions), i, again);
  }

  lemma SettledPosition(w: World, q: Request) returns (i: nat)
    requires Settle(w, q).1.settled
    ensures var w1 := Settle(w, q).0; i < |w1.rows| && w1.rows[i].payment == Some(q.payment) && !w1.rows[i].status.Pending?
  {
    FindPaymentFinds(w.rows, q.payment, 0);
    var found := FindPayment(w.rows, q.payment, 0);
    i := if found.Some? then found.value else |w.rows|;
  }

  lemma NonPendingRefuses(w: World, i: nat, q: Request)
    requires Inv(w) && i < |w.rows| && w.rows[i].payment == Some(q.payment) && !w.rows[i].status.Pending?
    ensures Settle(w, q) == (w, NOTHING)
  {
    FindPaymentFinds(w.rows, q.payment, 0);
    var f := FindPayment(w.rows, q.payment, 0).value;
    assert f == i;
  }

  /** The charge the account's owner authorised, as the payment reports it. */
  predicate Authorised(c: Claim, q: Request) {
    Some(c.account) == q.account && Some(c.key) == q.key && Some(c.workspace) == q.workspace && Some(c.actor) == q.user
    && Some(c.customer) == q.customer && Some(c.cents) == q.cents
  }

  /**
   A credit is what was authorised: it goes to the reported account, a billable workspace, for exactly
   the reported cents in dollars, and when the call names a key there is a claim that agrees in every field.
   */
  lemma CreditIsAuthorised(w: World, q: Request, other: string)
    requires Inv(w) && Settle(w, q).1.granted
    ensures q.ending.Paid? && q.usd && q.account.Some? && q.cents.Some? && Billable(w, q.account.value, q.workspace)
    ensures BalanceOf(Settle(w, q).0, q.account.value).purchased == BalanceOf(w, q.account.value).purchased + MICROS_PER_CENT * q.cents.value
    ensures BalanceOf(Settle(w, q).0, q.account.value).left == BalanceOf(w, q.account.value).left + MICROS_PER_CENT * q.cents.value
    ensures Some(other) != q.account ==> BalanceOf(Settle(w, q).0, other) == BalanceOf(w, other)
    ensures Truthy(q.key) ==> exists k :: 0 <= k < |w.claims| && Authorised(w.claims[k], q)
  {
    hide Inv;
    FindPaymentFinds(w.rows, q.payment, 0);
    var found := FindPayment(w.rows, q.payment, 0);
    if found.Some? {
      var r := w.rows[found.value];
      if Truthy(r.key) {
        FindClaimFinds(w.claims, r.account.value, r.key.value, 0);
        assert Authorised(w.claims[ClaimOf(w, r).value], q);
      }
    } else {
      FindClaimFinds(w.claims, q.account.value, q.key.value, 0);
      assert Authorised(w.claims[FindClaim(w.claims, q.account.value, q.key.value, 0).value], q);
    }
  }

  // ----- when a report is settled ------------------------------------------------------------------------------------

  /** A workspace account on an active paid plan, of the workspace the call names. */
  predicate Pays(w: World, account: string, workspace: Option<string>) {
    && account in w.accounts
    && var a := w.accounts[account];
       a.workspaceScope && a.active && a.plan && workspace == Some(a.workspace)
  }

  /** The charge a keyed row was made for names the same payment and agrees in every field. */
  ghost predicate Vouched(w: World, r: Row, payment: string) {
    exists k :: 0 <= k < |w.claims|
      && Owns(w.claims[k], r) && r.workspace == Some(w.claims[k].workspace) && r.user == w.claims[k].actor
      && r.customer == Some(w.claims[k].customer) && r.cents == w.claims[k].cents && w.claims[k].payment == Some(payment)
  }

  /** A pending automatic row that the report matches in every field. */
  ghost predicate MatchesRow(w: World, q: Request, i: nat) {
    && i < |w.rows|
    && var r := w.rows[i];
       && r.payment == Some(q.payment) && r.status == Pending && r.auto
       && r.account.Some? && r.account.value != "" && q.account == r.account && q.key == r.key
       && (r.workspace.Some? ==> q.workspace == r.workspace)
       && q.user == Some(r.user) && q.customer == r.customer && q.cents == Some(r.cents) && q.usd
       && Pays(w, r.account.value, q.workspace)
       && (r.key.None? || (r.key.value != "" && Vouched(w, r, q.payment)))
  }

  /** An authorised charge that the report matches in every field, and for which no payment is known yet. */
  ghost predicate MatchesClaim(w: World, q: Request, k: nat) {
    && k < |w.claims| && (forall i :: 0 <= i < |w.rows| ==> w.rows[i].payment != Some(q.payment))
    && var c := w.claims[k];
       && Authorised(c, q) && q.usd && -MAX_SAFE <= c.cents <= MAX_SAFE
       && c.account != "" && c.key != "" && c.workspace != "" && c.actor != "" && c.customer != ""
       && (c.payment.None? || c.payment.value == "" || c.payment.value == q.payment)
       && Pays(w, c.account, q.workspace)
  }

  lemma FoundClaim(w: World, account: string, key: string, k: nat)
    requires OneClaimPerKey(w.claims) && k < |w.claims| && w.claims[k].account == account && w.claims[k].key == key
    ensures FindClaim(w.claims, account, key, 0) == Some(k)
  {
    FindClaimFinds(w.claims, account, key, 0);
  }

  lemma RowSettlesExactly(w: World, q: Request, i: nat)
    requires OneClaimPerKey(w.claims) && i < |w.rows| && w.rows[i].payment == Some(q.payment)
    ensures SettleRow(w, i, q).1.settled <==> MatchesRow(w, q, i)
  {
    var r := w.rows[i];
    if r.account.Some? && r.key.Some? {
      FindClaimFinds(w.claims, r.account.value, r.key.value, 0);
      if Vouched(w, r, q.payment) {
        var k :| 0 <= k < |w.claims| && Owns(w.claims[k], r) && r.workspace == Some(w.claims[k].workspace) && r.user == w.claims[k].actor
                 && r.customer == Some(w.claims[k].customer) && r.cents == w.claims[k].cents && w.claims[k].payment == Some(q.payment);
        FoundClaim(w, r.account.value, r.key.value, k);
      }
    }
  }

  lemma ClaimSettlesExactly(w: World, q: Request)
    requires OneClaimPerKey(w.claims) && FindPayment(w.rows, q.payment, 0).None?
    ensures Settle(w, q).1.settled <==> exists k :: MatchesClaim(w, q, k)
  {
    FindPaymentFinds(w.rows, q.payment, 0);
    if Complete(q) {
      FindClaimFinds(w.claims, q.account.value, q.key.value, 0);
      var found := FindClaim(w.claims, q.account.value, q.key.value, 0);
      if found.Some? && ClaimFits(w, w.claims[found.value], q) {
        assert MatchesClaim(w, q, found.value);
      }
    }
    if k :| MatchesClaim(w, q, k) {
      FoundClaim(w, q.account.value, q.key.value, k);
    }
  }

  /**
   A report settles its payment exactly when it matches, in every field and on a paying account, the pending
   row of the payment or an authorised charge without one; and it credits exactly when it is also paid.
   */
  lemma SettlesExactly(w: World, q: Request)
    requires Inv(w)
    ensures Settle(w, q).1.settled <==> (exists i :: MatchesRow(w, q, i)) || (exists k :: MatchesClaim(w, q, k))
    ensures Settle(w, q).1.granted <==> Settle(w, q).1.settled && q.ending == Paid
  {
    FindPaymentFinds(w.rows, q.payment, 0);
    var found := FindPayment(w.rows, q.payment, 0);
    assert OneRowPerPayment(w.rows) && OneClaimPerKey(w.claims);
    hide Inv, FindPayment, SettleRow, SettleNew, OneClaimPerKey;
    if found.Some? {
      RowSettlesExactly(w, q, found.value);
      assert forall i :: MatchesRow(w, q, i) ==> i == found.value;
    } else {
      ClaimSettlesExactly(w, q);
    }
    assert Settle(w, q).1.granted <==> Settle(w, q).1.settled && q.ending == Paid by { GrantIsPaid(w, q); }
  }

  lemma GrantIsPaid(w: World, q: Request)
    ensures Settle(w, q).1.granted <==> Settle(w, q).1.settled && q.ending == Paid
  {
    hide FindPayment, FindClaim;
  }

  /** A matching paid report turns the pending row into a succeeded one and credits its account, and no other, with its cents. */
  lemma PaidReportCredits(w: World, q: Request, i: nat)
    requires Inv(w) && MatchesRow(w, q, i) && q.ending == Paid
    ensures var (w', a) := Settle(w, q);
            && a == Answer(true, true)
            && w'.rows == w.rows[i := w.rows[i].(status := Succeeded)] && w'.accounts == w.accounts
            && var id := w.rows[i].account.value;
               && BalanceOf(w', id).purchased == BalanceOf(w, id).purchased + w.rows[i].cents * 10000
               && BalanceOf(w', id).left == BalanceOf(w, id).left + w.rows[i].cents * 10000
               && forall other :: other != id ==> BalanceOf(w', other) == BalanceOf(w, other)
  {
    FindPaymentFinds(w.rows, q.payment, 0);
    var found := FindPayment(w.rows, q.payment, 0);
    assert OneRowPerPayment(w.rows) && OneClaimPerKey(w.claims);
    hide Inv, FindPayment, OneClaimPerKey, MatchesRow, Pays, Billable, ClaimAgrees, RowFits, ClaimOf;
    assert found == Some(i) by { OnlyRow(w, q, i); }
    RowSettlesExactly(w, q, i);
  }

  lemma OnlyRow(w: World, q: Request, i: nat)
    requires OneRowPerPayment(w.rows) && MatchesRow(w, q, i)
    ensures FindPayment(w.rows, q.payment, 0) == Some(i)
  {
    FindPaymentFinds(w.rows, q.payment, 0);
  }

  /** How a payment ends a row and its claim. */
  predicate Ends(ending: Ending, row: Status, claim: ClaimState) {
    match ending
    case Paid => row == Succeeded && claim == ClaimPaid
    case Unpaid => row == Failed && claim == PaymentFailed
    case Dropped => row == Canceled && claim == PaymentFailed
  }

  /** The claim of a settled row ends with it; every other claim and row stays, and without payment so does every balance. */
  lemma RowSettlementEnds(w: World, q: Request, i: nat)
    requires Inv(w) && MatchesRow(w, q, i)
    ensures var w' := Settle(w, q).0;
            && |w'.rows| == |w.rows| && |w'.claims| == |w.claims|
            && (forall j :: 0 <= j < |w.rows| && j != i ==> w'.rows[j] == w.rows[j])
            && w'.rows[i] == w.rows[i].(status := w'.rows[i].status)
            && (exists claim :: Ends(q.ending, w'.rows[i].status, claim))
            && (forall k :: 0 <= k < |w.claims| ==>
                  if Owns(w.claims[k], w.rows[i])
                  then w'.claims[k] == w.claims[k].(state := w'.claims[k].state) && Ends(q.ending, w'.rows[i].status, w'.claims[k].state)
                  else w'.claims[k] == w.claims[k])
            && (q.ending != Paid ==> w'.balances == w.balances)
  {
    assert OneRowPerPayment(w.rows) && OneClaimPerKey(w.claims);
    OnlyRow(w, q, i);
    RowSettlesExactly(w, q, i);
    var r := w.rows[i];
    if r.key.Some? {
      FindClaimFinds(w.claims, r.account.value, r.key.value, 0);
    }
    hide Inv, FindPayment, FindClaim, Billable;
    var claim := ClaimStateOf(q.ending);
    assert Ends(q.ending, StatusOf(q.ending), claim);
  }

  /** A charge that is reported before it was recorded becomes a row of its own, and its claim ends with it. */
  lemma ClaimSettlementEnds(w: World, q: Request, k: nat)
    requires Inv(w) && MatchesClaim(w, q, k)
    ensures var (w', c) := (Settle(w, q).0, w.claims[k]);
            && |w'.rows| == |w.rows| + 1 && w'.rows[..|w.rows|] == w.rows && |w'.claims| == |w.claims|
            && (var r := w'.rows[|w.rows|];
                && r.account == Some(c.account) && r.key == Some(c.key) && r.workspace == Some(c.workspace) && r.user == c.actor
                && r.customer == Some(c.customer) && r.cents == c.cents && r.payment == Some(q.payment) && r.auto
                && w'.claims[k] == c.(state := w'.claims[k].state, payment := Some(q.payment)) && Ends(q.ending, r.status, w'.claims[k].state))
            && (forall j :: 0 <= j < |w.claims| && j != k ==> w'.claims[j] == w.claims[j])
            && (q.ending != Paid ==> w'.balances == w.balances)
  {
    assert OneClaimPerKey(w.claims);
    FindPaymentFinds(w.rows, q.payment, 0);
    FoundClaim(w, q.account.value, q.key.value, k);
    hide Inv, FindPayment, FindClaim;
  }

  /** The payment has no row yet, and a keyed charge is the first of its key and is made for its claim's cents. */
  ghost predicate Recordable(w: World, account: string, row: Row, payment: string) {
    && (forall i :: 0 <= i < |w.rows| ==> w.rows[i].payment != Some(payment))
    && (!Truthy(row.key) ||
        ((forall i :: 0 <= i < |w.rows| ==> w.rows[i].key != row.key)
         && exists k :: 0 <= k < |w.claims| && w.claims[k].account == account && w.claims[k].key == row.key.value && w.claims[k].cents == row.cents))
  }

  /** A charge is recorded exactly when it can be, as one pending row; its claim takes the payment and waits, unless it was paid already. */
  lemma RecordsExactly(w: World, account: string, row: Row, payment: string)
    requires OneClaimPerKey(w.claims)
    ensures var w' := RecordPending(w, account, row, payment);
            && (w' != w <==> Recordable(w, account, row, payment))
            && (Recordable(w, account, row, payment) ==>
                  && |w'.rows| == |w.rows| + 1 && w'.rows[..|w.rows|] == w.rows && w'.balances == w.balances && |w'.claims| == |w.claims|
                  && w'.rows[|w.rows|] == row.(account := Some(account), payment := Some(payment), status := Pending,
                                               key := if Truthy(row.key) then row.key else None)
                  && forall k :: 0 <= k < |w.claims| ==>
                       w'.claims[k] == if Truthy(row.key) && w.claims[k].account == account && w.claims[k].key == row.key.value
                                       then w.claims[k].(state := if w.claims[k].state == ClaimPaid then ClaimPaid else Waiting, payment := Some(payment))
                                       else w.claims[k])
  {
    FindPaymentFinds(w.rows, payment, 0);
    if Truthy(row.key) {
      FindClaimFinds(w.claims, account, row.key.value, 0);
    }
    hide FindPayment, FindClaim;
  }

  // ----- an empty payment id ------------------------------------------------------------------------------------------

  /**
   Why `Named` is needed, and exactly when: after a claim was credited for one payment, the same call for
   another payment credits it again if and only if the first payment's id was empty, because an empty id
   on a claim counts as none.
   */
  lemma CreditedAgainExactly(w: World, q: Request, other: string)
    requires Inv(w) && Settle(w, q).1.granted && FindPayment(w.rows, q.payment, 0).None?
    requires other != q.payment && FindPayment(w.rows, other, 0).None?
    ensures Settle(Settle(w, q).0, q.(payment := other)).1.granted <==> q.payment == ""
  {
    assert OneClaimPerKey(w.claims);
    hide Inv, OneClaimPerKey;
    var w', again := Settle(w, q).0, q.(payment := other);
    var k := FindClaim(w.claims, q.account.value, q.key.value, 0).value;
    FindClaimFinds(w.claims, q.account.value, q.key.value, 0);
    FindClaimFinds(w'.claims, q.account.value, q.key.value, 0);
    FindPaymentFinds(w.rows, other, 0);
    FindPaymentFinds(w'.rows, other, 0);
    assert w'.claims[k].account == q.account.value && w'.claims[k].key == q.key.value;
    var k' := FindClaim(w'.claims, q.account.value, q.key.value, 0).value;
    assert k' == k by { SameClaim(w, w', q, k, k'); }
    assert FindPayment(w'.rows, other, 0).None?;
    assert Complete(again) && w'.claims[k].payment == Some(q.payment);
  }

  lemma SameClaim(w: World, w': World, q: Request, k: nat, k': nat)
    requires OneClaimPerKey(w.claims) && |w'.claims| == |w.claims| && k < |w.claims| && k' < |w.claims|
    requires q.account.Some? && q.key.Some?
    requires w.claims[k].account == q.account.value && w.claims[k].key == q.key.value
    requires w'.claims[k'].account == q.account.value && w'.claims[k'].key == q.key.value
    requires forall i :: 0 <= i < |w.claims| ==> w'.claims[i].account == w.claims[i].account && w'.claims[i].key == w.claims[i].key
    ensures k' == k
  {}

  const WEBHOOK: Request := Request("", Paid, Some("acct"), Some("k"), Some("ws"), Some("ada"), Some("cus"), Some(100), true)

  const TWICE: seq<Action> :=
    [SetAccount("acct", Account(true, "ws", true, true)),
     Authorise(Claim("acct", "k", "ws", "ada", "cus", 100, None, Waiting)),
     SettleCall(WEBHOOK), SettleCall(WEBHOOK.(payment := "p"))]

  lemma RunOne(w: World, actions: seq<Action>, i: nat)
    requires i < |actions|
    ensures Run(w, actions[i..]) == Run(Step(w, actions[i]), actions[i + 1..])
  {
    assert actions[i..][1..] == actions[i + 1..];
  }

  /** The one claim of that run, paid for by this payment or not yet. */
  predicate OneClaim(w: World, payment: Option<string>) {
    && w.accounts == map["acct" := Account(true, "ws", true, true)]
    && |w.claims| == 1 && w.claims[0].account == "acct" && w.claims[0].key == "k" && w.claims[0].workspace == "ws"
    && w.claims[0].actor == "ada" && w.claims[0].customer == "cus" && w.claims[0].cents == 100 && w.claims[0].payment == payment
  }

  lemma CreditsOnceMore(w: World, q: Request)
    requires OneClaim(w, None) || OneClaim(w, Some(""))
    requires q == WEBHOOK.(payment := q.payment) && forall i :: 0 <= i < |w.rows| ==> w.rows[i].payment != Some(q.payment)
    ensures var w' := Settle(w, q).0;
            && OneClaim(w', Some(q.payment)) && |w'.rows| == |w.rows| + 1 && w'.rows[..|w.rows|] == w.rows
            && w'.rows[|w.rows|].payment == Some(q.payment)
            && BalanceOf(w', "acct").purchased == BalanceOf(w, "acct").purchased + 100 * MICROS_PER_CENT
  {
    FindPaymentFinds(w.rows, q.payment, 0);
    FindClaimFinds(w.claims, "acct", "k", 0);
  }

  /** A run from the empty state in which one authorised charge of a dollar is credited twice. */
  lemma CreditedTwice()
    ensures BalanceOf(Run(EMPTY, TWICE), "acct").purchased == 2 * 100 * MICROS_PER_CENT
  {
    var w1 := Step(EMPTY, TWICE[0]);
    var w2 := Step(w1, TWICE[1]);
    assert OneClaim(w2, None) && w2.rows == [] && BalanceOf(w2, "acct").purchased == 0;
    CreditsOnceMore(w2, WEBHOOK);
    var w3 := Step(w2, TWICE[2]);
    CreditsOnceMore(w3, WEBHOOK.(payment := "p"));
    var w4 := Step(w3, TWICE[3]);
    hide Step, Settle;
    RunOne(EMPTY, TWICE, 0);
    RunOne(w1, TWICE, 1);
    RunOne(w2, TWICE, 2);
    RunOne(w3, TWICE, 3);
    assert TWICE[0..] == TWICE && TWICE[4..] == [];
  }
}
