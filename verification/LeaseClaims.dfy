/**
 The meter claim queue over sandbox leases (claimSandboxLeasesByServer and
 finishSandboxLeaseClaimByServer in convex/agents/connectedAgents.ts). A lease is due at the latest
 of three times, but the index sorts by one of them only, so a claim repairs the rows it meets.
 */
module LeaseClaims {
  import opened Common

  const HOLDOFF_MS: nat := 2 * 60000
  const MAX_BATCH: nat := 20

  /** Leases are known by their position. */
  datatype Lease = Lease(
    status: string,
    nextMeterAt: Option<nat>,
    cleanupAfter: Option<nat>,
    claimUntil: Option<nat>,
    claimToken: Option<string>,
    urgent: bool,
    updatedAt: nat)

  datatype Request = Request(statuses: seq<string>, now: nat, limit: int, token: string, until: nat)

  function At(o: Option<nat>): nat {
    GetOr(o, 0)
  }

  function Due(l: Lease): nat {
    Max(At(l.nextMeterAt), Max(At(l.cleanupAfter), At(l.claimUntil)))
  }

  function Batch(limit: int): nat {
    Max(1, Min(MAX_BATCH, limit))
  }

  // ----- reading candidates ------------------------------------------------------------------------

  function WithStatus(rows: seq<Lease>, s: string): set<nat> {
    set i: nat | i < |rows| && rows[i].status == s
  }

  /** A missing meter time sorts first. */
  function MeterKey(rows: seq<Lease>): nat -> int {
    (i: nat) => if i < |rows| && rows[i].nextMeterAt.Some? then rows[i].nextMeterAt.value else -1
  }

  ghost function Group(rows: seq<Lease>, s: string, limit: nat): seq<nat> {
    InOrder(Page(WithStatus(rows, s), MeterKey(rows), limit), MeterKey(rows))
  }

  ghost function Groups(rows: seq<Lease>, statuses: seq<string>, limit: nat): seq<nat>
    decreases |statuses|
  {
    if statuses == [] then [] else Groups(rows, statuses[..|statuses| - 1], limit) + Group(rows, statuses[|statuses| - 1], limit)
  }

  function SortKey(rows: seq<Lease>, i: nat): (int, int) {
    if i < |rows| then (At(rows[i].nextMeterAt), rows[i].updatedAt) else (0, 0)
  }

  predicate Later(rows: seq<Lease>, a: nat, b: nat) {
    var (x, y) := (SortKey(rows, a), SortKey(rows, b));
    x.0 > y.0 || (x.0 == y.0 && x.1 > y.1)
  }

  /** Stable: a row goes after every row that is not later than it. */
  function Insert(rows: seq<Lease>, order: seq<nat>, x: nat): seq<nat>
    decreases |order|
  {
    if order == [] then [x]
    else
      var last := order[|order| - 1];
      if Later(rows, last, x) then Insert(rows, order[..|order| - 1], x) + [last] else order + [x]
  }

  function Arrange(rows: seq<Lease>, items: seq<nat>): seq<nat>
    decreases |items|
  {
    if items == [] then [] else Insert(rows, Arrange(rows, items[..|items| - 1]), items[|items| - 1])
  }

  ghost function Candidates(rows: seq<Lease>, q: Request): seq<nat> {
    Arrange(rows, Groups(rows, q.statuses, Batch(q.limit)))
  }

  // ----- the claim -------------------------------------------------------------------------------------

  predicate NeedsRepair(l: Lease, now: nat) {
    Due(l) > now && At(l.nextMeterAt) < Due(l)
  }

  /** The eligible rows, first ones first, each once, up to the batch size. */
  function Pick(rows: seq<Lease>, candidates: seq<nat>, now: nat, limit: nat): seq<nat>
    decreases |candidates|
  {
    if candidates == [] then []
    else
      var picked, x := Pick(rows, candidates[..|candidates| - 1], now, limit), candidates[|candidates| - 1];
      if x < |rows| && Due(rows[x]) <= now && x !in picked && |picked| < limit then picked + [x] else picked
  }

  function Repaired(l: Lease, now: nat): Lease {
    l.(nextMeterAt := Some(Due(l)), updatedAt := now)
  }

  function Taken(l: Lease, q: Request): Lease {
    l.(nextMeterAt := Some(q.now + HOLDOFF_MS), claimToken := Some(q.token), claimUntil := Some(q.until), updatedAt := q.now)
  }

  function After(rows: seq<Lease>, candidates: seq<nat>, claimed: seq<nat>, q: Request): seq<Lease> {
    seq(|rows|, i requires 0 <= i < |rows| =>
      if i in claimed then Taken(rows[i], q)
      else if i in candidates && NeedsRepair(rows[i], q.now) then Repaired(rows[i], q.now)
      else rows[i])
  }

  ghost function Claim(rows: seq<Lease>, q: Request): (seq<Lease>, seq<nat>) {
    var candidates := Candidates(rows, q);
    var claimed := Pick(rows, candidates, q.now, Batch(q.limit));
    (After(rows, candidates, claimed, q), claimed)
  }

  /** Whether some candidate row had its index time repaired. */
  predicate Deferred(rows: seq<Lease>, candidates: seq<nat>, now: nat) {
    exists k :: 0 <= k < |candidates| && candidates[k] < |rows| && NeedsRepair(rows[candidates[k]], now)
  }

  predicate Over(l: Lease) {
    l.status == "released" || l.status == "deleted"
  }

  /** Only the holder of the current claim token may set the next meter time. */
  function Finish(rows: seq<Lease>, i: nat, token: string, now: nat, next: nat, cleanupAfter: Option<Option<nat>>): (seq<Lease>, bool) {
    if i >= |rows| || rows[i].claimToken != Some(token) || Over(rows[i]) then (rows, false)
    else
      (rows[i := rows[i].(nextMeterAt := Some(if rows[i].urgent then Min(next, now) else next),
                          claimToken := None, claimUntil := None,
                          cleanupAfter := GetOr(cleanupAfter, rows[i].cleanupAfter), updatedAt := now)],
       true)
  }

  // ----- candidates are the group pages ------------------------------------------------------------------

  lemma {:induction false} InsertMembers(rows: seq<Lease>, order: seq<nat>, x: nat)
    ensures forall i :: i in Insert(rows, order, x) <==> i == x || i in order
    decreases |order|
  {
    if order != [] {
      assert order == order[..|order| - 1] + [order[|order| - 1]];
      InsertMembers(rows, order[..|order| - 1], x);
    }
  }

  lemma {:induction false} ArrangeMembers(rows: seq<Lease>, items: seq<nat>)
    ensures forall i :: i in Arrange(rows, items) <==> i in items
    decreases |items|
  {
    if items != [] {
      assert items == items[..|items| - 1] + [items[|items| - 1]];
      ArrangeMembers(rows, items[..|items| - 1]);
      InsertMembers(rows, Arrange(rows, items[..|items| - 1]), items[|items| - 1]);
    }
  }

  ghost predicate Sorted(rows: seq<Lease>, order: seq<nat>) {
    forall a, b :: 0 <= a < b < |order| ==> !Later(rows, order[a], order[b])
  }

  lemma {:induction false} InsertSorted(rows: seq<Lease>, order: seq<nat>, x: nat)
    requires Sorted(rows, order)
    ensures Sorted(rows, Insert(rows, order, x))
    decreases |order|
  {
    if order != [] {
      var last, front := order[|order| - 1], order[..|order| - 1];
      assert order == front + [last];
      if Later(rows, last, x) {
        InsertSorted(rows, front, x);
        InsertMembers(rows, front, x);
        var order' := Insert(rows, front, x);
        forall a | 0 <= a < |order'|
          ensures !Later(rows, order'[a], last)
        {
          assert order'[a] in order';
          if order'[a] != x {
            var b :| 0 <= b < |front| && front[b] == order'[a];
            assert !Later(rows, order[b], order[|order| - 1]);
          }
        }
      } else {
        forall a | 0 <= a < |order|
          ensures !Later(rows, order[a], x)
        {
          assert order[a] in order;
          assert a < |order| - 1 ==> !Later(rows, order[a], last);
        }
      }
    }
  }

  lemma {:induction false} ArrangeSorted(rows: seq<Lease>, items: seq<nat>)
    ensures Sorted(rows, Arrange(rows, items))
    decreases |items|
  {
    if items != [] {
      assert items == items[..|items| - 1] + [items[|items| - 1]];
      ArrangeSorted(rows, items[..|items| - 1]);
      ArrangeMembers(rows, items[..|items| - 1]);
      InsertSorted(rows, Arrange(rows, items[..|items| - 1]), items[|items| - 1]);
    }
  }

  ghost predicate Paged(rows: seq<Lease>, statuses: seq<string>, limit: nat, i: nat) {
    exists k :: 0 <= k < |statuses| && i in Page(WithStatus(rows, statuses[k]), MeterKey(rows), limit)
  }

  lemma {:induction false} GroupsMembers(rows: seq<Lease>, statuses: seq<string>, limit: nat, i: nat)
    ensures i in Groups(rows, statuses, limit) <==> Paged(rows, statuses, limit, i)
    decreases |statuses|
  {
    hide Page, InOrder;
    if statuses != [] {
      var front, last := statuses[..|statuses| - 1], statuses[|statuses| - 1];
      GroupsMembers(rows, front, limit, i);
      InOrderMembers(Page(WithStatus(rows, last), MeterKey(rows), limit), MeterKey(rows));
      if Paged(rows, front, limit, i) {
        var k :| 0 <= k < |front| && i in Page(WithStatus(rows, front[k]), MeterKey(rows), limit);
        assert statuses[k] == front[k];
      }
      if Paged(rows, statuses, limit, i) {
        var k :| 0 <= k < |statuses| && i in Page(WithStatus(rows, statuses[k]), MeterKey(rows), limit);
        assert k < |front| ==> statuses[k] == front[k];
      }
      assert i in Groups(rows, statuses, limit) <==> i in Groups(rows, front, limit) || i in Group(rows, last, limit);
    }
  }

  lemma CandidatesShape(rows: seq<Lease>, q: Request)
    ensures forall i :: i in Candidates(rows, q) <==> Paged(rows, q.statuses, Batch(q.limit), i)
    ensures forall i :: i in Candidates(rows, q) ==> i < |rows| && rows[i].status in q.statuses
    ensures Sorted(rows, Candidates(rows, q))
  {
    var limit := Batch(q.limit);
    forall i: nat
      ensures i in Groups(rows, q.statuses, limit) <==> Paged(rows, q.statuses, limit, i)
    {
      GroupsMembers(rows, q.statuses, limit, i);
    }
    ArrangeMembers(rows, Groups(rows, q.statuses, limit));
    ArrangeSorted(rows, Groups(rows, q.statuses, limit));
  }

  lemma {:induction false} PickShape(rows: seq<Lease>, candidates: seq<nat>, now: nat, limit: nat)
    ensures var p := Pick(rows, candidates, now, limit);
            && |p| <= limit
            && (forall k :: 0 <= k < |p| ==> p[k] in candidates && p[k] < |rows| && Due(rows[p[k]]) <= now)
            && (forall a, b :: 0 <= a < b < |p| ==> p[a] != p[b])
            && (|p| < limit ==> forall i :: i in candidates && i < |rows| && Due(rows[i]) <= now ==> i in p)
    decreases |candidates|
  {
    if candidates != [] {
      PickShape(rows, candidates[..|candidates| - 1], now, limit);
      assert candidates == candidates[..|candidates| - 1] + [candidates[|candidates| - 1]];
    }
  }

  // ----- one claim ----------------------------------------------------------------------------------------

  /**
   A claim takes due leases only, at most a batch of them and each once, and leaves the due time and
   the token of every other lease as it was, however many index times it repairs.
   */
  lemma ClaimIsExact(rows: seq<Lease>, q: Request)
    ensures var (rows', claimed) := Claim(rows, q);
            && |rows'| == |rows| && |claimed| <= Batch(q.limit)
            && Distinct(claimed)
            && (forall i :: i in claimed ==> i < |rows| && Due(rows[i]) <= q.now && rows[i].status in q.statuses && Due(rows'[i]) > q.now)
            && (forall i :: 0 <= i < |rows| && i !in claimed ==>
                  Due(rows'[i]) == Due(rows[i]) && rows'[i].claimToken == rows[i].claimToken && rows'[i].claimUntil == rows[i].claimUntil)
            && (forall i :: 0 <= i < |rows| ==> rows'[i].status == rows[i].status && rows'[i].cleanupAfter == rows[i].cleanupAfter)
  {
    CandidatesShape(rows, q);
    PickShape(rows, Candidates(rows, q), q.now, Batch(q.limit));
  }

  /** What the index still shows as possibly due. */
  function Showing(rows: seq<Lease>, statuses: seq<string>, now: nat): set<nat> {
    set i: nat | i < |rows| && rows[i].status in statuses && At(rows[i].nextMeterAt) <= now
  }

  /** The claimed rows and the repaired ones leave the index window; nothing enters it. */
  lemma ShowingShrinks(rows: seq<Lease>, q: Request)
    ensures var rows' := Claim(rows, q).0;
            && Showing(rows', q.statuses, q.now) <= Showing(rows, q.statuses, q.now)
            && forall i :: 0 <= i < |rows| && (i in Claim(rows, q).1 || (i in Candidates(rows, q) && Due(rows[i]) > q.now)) ==>
                 i !in Showing(rows', q.statuses, q.now)
  {
    CandidatesShape(rows, q);
    PickShape(rows, Candidates(rows, q), q.now, Batch(q.limit));
  }

  /** Some row the index shows as possibly due is a candidate. */
  lemma HeadIsCandidate(rows: seq<Lease>, q: Request) returns (h: nat)
    requires Showing(rows, q.statuses, q.now) != {}
    ensures h in Candidates(rows, q) && h in Showing(rows, q.statuses, q.now)
  {
    var i :| i in Showing(rows, q.statuses, q.now);
    var s, key := WithStatus(rows, rows[i].status), MeterKey(rows);
    assert i in s;
    h := First(s, key);
    assert Below(s, key, h) == {} by {
      assert forall k :: k in s && k != h ==> Before(key, h, k);
    }
    CandidatesShape(rows, q);
    var k :| 0 <= k < |q.statuses| && q.statuses[k] == rows[i].status;
    assert h in Page(WithStatus(rows, q.statuses[k]), key, Batch(q.limit));
    assert h == i || Before(key, h, i);
  }

  /** Progress: with the clock fixed, a claim shrinks the part of the index that still looks due. */
  lemma ClaimProgresses(rows: seq<Lease>, q: Request)
    requires Showing(rows, q.statuses, q.now) != {}
    ensures |Showing(Claim(rows, q).0, q.statuses, q.now)| < |Showing(rows, q.statuses, q.now)|
  {
    var (rows', claimed) := Claim(rows, q);
    var before, after := Showing(rows, q.statuses, q.now), Showing(rows', q.statuses, q.now);
    ShowingShrinks(rows, q);
    var h := HeadIsCandidate(rows, q);
    PickShape(rows, Candidates(rows, q), q.now, Batch(q.limit));
    var gone: nat :| gone in before && gone !in after by {
      if Due(rows[h]) > q.now {
        assert h in before && h !in after;
      } else {
        assert claimed != [];
        var c := claimed[0];
        CandidatesShape(rows, q);
        assert c in claimed && c in before && c !in after;
      }
    }
    SubsetCardinality(after, before - {gone});
  }

  // ----- repeated claims -------------------------------------------------------------------------------------

  ghost function ClaimTimes(rows: seq<Lease>, q: Request, n: nat): (seq<Lease>, seq<nat>)
    decreases n
  {
    if n == 0 then (rows, [])
    else
      var (rows1, claimed) := Claim(rows, q);
      var (rows2, rest) := ClaimTimes(rows1, q, n - 1);
      (rows2, claimed + rest)
  }

  ghost predicate DueNow(rows: seq<Lease>, q: Request, i: nat) {
    i < |rows| && rows[i].status in q.statuses && Due(rows[i]) <= q.now
  }

  lemma {:induction false} ClaimTimesTakesDue(rows: seq<Lease>, q: Request, n: nat)
    ensures forall i :: i in ClaimTimes(rows, q, n).1 ==> DueNow(rows, q, i)
    ensures Distinct(ClaimTimes(rows, q, n).1)
    decreases n
  {
    hide Claim, Due;
    if n > 0 {
      var rows1, first := Claim(rows, q).0, Claim(rows, q).1;
      ClaimTimesTakesDue(rows1, q, n - 1);
      var rest := ClaimTimes(rows1, q, n - 1).1;
      forall i: nat
        ensures i in first ==> DueNow(rows, q, i)
        ensures DueNow(rows1, q, i) ==> DueNow(rows, q, i) && i !in first
      {
        ClaimKeepsDue(rows, q, i);
      }
      assert Distinct(first) by { ClaimIsExact(rows, q); }
      assert forall x :: x in first + rest <==> x in first || x in rest;
      DistinctJoin(first, rest);
    }
  }

  ghost predicate Distinct(s: seq<nat>) {
    forall a, b :: 0 <= a < b < |s| ==> s[a] != s[b]
  }

  lemma DistinctJoin(a: seq<nat>, b: seq<nat>)
    requires Distinct(a) && Distinct(b) && forall x :: x in b ==> x !in a
    ensures Distinct(a + b)
  {
    forall x, y | 0 <= x < y < |a + b|
      ensures (a + b)[x] != (a + b)[y]
    {
      if x < |a| <= y {
        assert b[y - |a|] in b && a[x] in a;
      }
    }
  }

  lemma ClaimKeepsDue(rows: seq<Lease>, q: Request, i: nat)
    ensures i in Claim(rows, q).1 ==> DueNow(rows, q, i) && !DueNow(Claim(rows, q).0, q, i)
    ensures i !in Claim(rows, q).1 ==> (DueNow(Claim(rows, q).0, q, i) <==> DueNow(rows, q, i))
  {
    ClaimIsExact(rows, q);
  }

  /**
   Nothing is lost: with the clock fixed, as many claims as the index shows rows take every due lease
   exactly once and no other, although each reads only the first rows of every status.
   */
  lemma {:induction false} EveryDueLeaseIsClaimed(rows: seq<Lease>, q: Request, n: nat)
    requires |Showing(rows, q.statuses, q.now)| <= n
    ensures Distinct(ClaimTimes(rows, q, n).1)
    ensures forall i :: i in ClaimTimes(rows, q, n).1 <==> DueNow(rows, q, i)
    decreases n
  {
    hide Claim, Distinct;
    ClaimTimesTakesDue(rows, q, n);
    forall i | DueNow(rows, q, i)
      ensures i in ClaimTimes(rows, q, n).1
    {
      assert i in Showing(rows, q.statuses, q.now);
      ClaimProgresses(rows, q);
      ClaimKeepsDue(rows, q, i);
      EveryDueLeaseIsClaimed(Claim(rows, q).0, q, n - 1);
    }
  }

  // ----- the token ----------------------------------------------------------------------------------------------

  datatype Action =
    | ClaimBatch(q: Request)
    | FinishOne(lease: nat, token: string, now: nat, next: nat, cleanupAfter: Option<Option<nat>>)

  ghost function Step(rows: seq<Lease>, a: Action): seq<Lease> {
    match a
    case ClaimBatch(q) => Claim(rows, q).0
    case FinishOne(i, token, now, next, cleanupAfter) => Finish(rows, i, token, now, next, cleanupAfter).0
  }

  ghost function Run(rows: seq<Lease>, actions: seq<Action>): seq<Lease>
    decreases |actions|
  {
    if actions == [] then rows else Run(Step(rows, actions[0]), actions[1..])
  }

  /** The action of these that claimed the lease last, with no finish since; none if there is no such. */
  ghost function Holder(rows: seq<Lease>, actions: seq<Action>, i: nat, holder: Option<string>): Option<string>
    decreases |actions|
  {
    if actions == [] then holder
    else
      var h := match actions[0]
               case ClaimBatch(q) => if i in Claim(rows, q).1 then Some(q.token) else holder
               case FinishOne(k, token, now, next, c) => if k == i && Finish(rows, k, token, now, next, c).1 then None else holder;
      Holder(Step(rows, actions[0]), actions[1..], i, h)
  }

  /**
   Fencing: in any run the stored token is the one of the latest claim of that lease that has not been
   finished, so a finish by an overtaken worker is refused and changes nothing.
   */
  lemma {:induction false} OnlyLatestClaimFinishes(rows: seq<Lease>, actions: seq<Action>, i: nat, token: string, now: nat, next: nat, c: Option<Option<nat>>)
    requires i < |rows|
    ensures var rows' := Run(rows, actions);
            && |rows'| == |rows|
            && rows'[i].claimToken == Holder(rows, actions, i, rows[i].claimToken)
            && (Some(token) != Holder(rows, actions, i, rows[i].claimToken) ==> Finish(rows', i, token, now, next, c) == (rows', false))
    decreases |actions|
  {
    if actions != [] {
      match actions[0] {
        case ClaimBatch(q) => ClaimIsExact(rows, q);
        case FinishOne(_, _, _, _, _) =>
      }
      OnlyLatestClaimFinishes(Step(rows, actions[0]), actions[1..], i, token, now, next, c);
    }
  }

  // ----- earliest first -------------------------------------------------------------------------------------------

  /** Earlier meter time, or the same and not changed later; a missing time counts as the earliest. */
  predicate NotAfter(rows: seq<Lease>, a: nat, b: nat) {
    && a < |rows| && b < |rows|
    && (At(rows[a].nextMeterAt) < At(rows[b].nextMeterAt)
        || (At(rows[a].nextMeterAt) == At(rows[b].nextMeterAt) && rows[a].updatedAt <= rows[b].updatedAt))
  }

  ghost predicate InTime(rows: seq<Lease>, order: seq<nat>) {
    forall a, b :: 0 <= a < b < |order| ==> NotAfter(rows, order[a], order[b])
  }

  lemma {:induction false} PickInTime(rows: seq<Lease>, candidates: seq<nat>, now: nat, limit: nat)
    requires InTime(rows, candidates)
    ensures var p := Pick(rows, candidates, now, limit);
            && InTime(rows, p)
            && forall i, x :: i in p && x in candidates && x < |rows| && Due(rows[x]) <= now && x !in p ==> NotAfter(rows, i, x)
    decreases |candidates|
  {
    if candidates != [] {
      var front, last := candidates[..|candidates| - 1], candidates[|candidates| - 1];
      assert candidates == front + [last];
      PickInTime(rows, front, now, limit);
      PickShape(rows, front, now, limit);
      var p := Pick(rows, front, now, limit);
      forall i | i in p
        ensures NotAfter(rows, i, last)
      {
        var k :| 0 <= k < |front| && front[k] == i;
        assert NotAfter(rows, candidates[k], candidates[|candidates| - 1]);
      }
    }
  }

  /** A claim takes the earliest of the due rows it read, in order, and leaves one only when the batch is full. */
  lemma ClaimsEarliestFirst(rows: seq<Lease>, q: Request)
    ensures var claimed := Claim(rows, q).1;
            && InTime(rows, claimed)
            && forall i, x :: i in claimed && x in Candidates(rows, q) && x < |rows| && Due(rows[x]) <= q.now && x !in claimed ==>
                 NotAfter(rows, i, x) && |claimed| == Batch(q.limit)
  {
    CandidatesShape(rows, q);
    assert InTime(rows, Candidates(rows, q)) by { SortedIsInTime(rows, Candidates(rows, q)); }
    PickInTime(rows, Candidates(rows, q), q.now, Batch(q.limit));
    PickShape(rows, Candidates(rows, q), q.now, Batch(q.limit));
  }

  lemma SortedIsInTime(rows: seq<Lease>, order: seq<nat>)
    requires Sorted(rows, order) && forall i :: i in order ==> i < |rows|
    ensures InTime(rows, order)
  {
    forall a, b | 0 <= a < b < |order|
      ensures NotAfter(rows, order[a], order[b])
    {
      assert order[a] in order && order[b] in order && !Later(rows, order[a], order[b]);
    }
  }

  // ----- when a lease comes back -------------------------------------------------------------------------------

  /** Not up for a claim before `t`. */
  predicate RestsUntil(l: Lease, t: nat) {
    At(l.nextMeterAt) >= t || At(l.cleanupAfter) >= t || At(l.claimUntil) >= t
  }

  /** A claimed lease is out of reach for two minutes, and until the end of the claim. */
  lemma ClaimedRests(rows: seq<Lease>, q: Request, i: nat)
    requires i in Claim(rows, q).1
    ensures i < |rows| && RestsUntil(Claim(rows, q).0[i], q.now + 120000) && RestsUntil(Claim(rows, q).0[i], q.until)
  {
    CandidatesShape(rows, q);
    PickShape(rows, Candidates(rows, q), q.now, Batch(q.limit));
  }

  /**
   A finish succeeds exactly for the holder of the claim on a lease that is neither released nor deleted.
   It ends the claim, and the lease is next due at the given time, or at once when its machine is being
   taken down; a cleanup time changes only when one is given.
   */
  lemma FinishExactly(rows: seq<Lease>, i: nat, token: string, now: nat, next: nat, c: Option<Option<nat>>)
    ensures var (rows', ok) := Finish(rows, i, token, now, next, c);
            && (ok <==> i < |rows| && rows[i].claimToken == Some(token) && rows[i].status != "released" && rows[i].status != "deleted")
            && (!ok ==> rows' == rows)
            && (ok ==>
                  && |rows'| == |rows| && (forall k :: 0 <= k < |rows| && k != i ==> rows'[k] == rows[k])
                  && rows'[i].claimToken.None? && rows'[i].claimUntil.None? && rows'[i].status == rows[i].status
                  && (c.None? ==> rows'[i].cleanupAfter == rows[i].cleanupAfter) && (c.Some? ==> rows'[i].cleanupAfter == c.value)
                  && (!rows[i].urgent ==> rows'[i].nextMeterAt == Some(next))
                  && (rows[i].urgent ==> At(rows'[i].nextMeterAt) <= now && At(rows'[i].nextMeterAt) <= next)
                  && (rows[i].urgent && next > now ==> rows'[i].nextMeterAt == Some(now)))
  {}

  /** A machine that is being taken down is claimed again at once, whatever next time its worker asked for. */
  lemma UrgentIsClaimedAtOnce(rows: seq<Lease>, i: nat, token: string, now: nat, next: nat, c: Option<Option<nat>>, q: Request, n: nat)
    requires Finish(rows, i, token, now, next, c).1 && rows[i].urgent
    requires now <= q.now && rows[i].status in q.statuses && At(Finish(rows, i, token, now, next, c).0[i].cleanupAfter) <= q.now
    requires |Showing(Finish(rows, i, token, now, next, c).0, q.statuses, q.now)| <= n
    ensures i in ClaimTimes(Finish(rows, i, token, now, next, c).0, q, n).1
  {
    hide ClaimTimes;
    EveryDueLeaseIsClaimed(Finish(rows, i, token, now, next, c).0, q, n);
    assert DueNow(Finish(rows, i, token, now, next, c).0, q, i);
  }

  ghost predicate ClaimsBefore(actions: seq<Action>, t: nat) {
    forall k :: 0 <= k < |actions| && actions[k].ClaimBatch? ==> actions[k].q.now < t
  }

  /** Any other lease is left alone until its next time: no claim before it, in any run, takes it. */
  lemma {:induction false} FinishedRests(rows: seq<Lease>, actions: seq<Action>, i: nat, t: nat)
    requires i < |rows| && rows[i].claimToken.None? && RestsUntil(rows[i], t) && ClaimsBefore(actions, t)
    ensures var rows' := Run(rows, actions);
            i < |rows'| && rows'[i].claimToken.None? && RestsUntil(rows'[i], t) && rows'[i].cleanupAfter == rows[i].cleanupAfter
    decreases |actions|
  {
    if actions != [] {
      match actions[0] {
        case ClaimBatch(q) => ClaimIsExact(rows, q);
        case FinishOne(_, _, _, _, _) =>
      }
      assert Due(Step(rows, actions[0])[i]) == Due(rows[i]);
      FinishedRests(Step(rows, actions[0]), actions[1..], i, t);
    }
  }

  function AfterRepair(rows: seq<Lease>, candidates: seq<nat>, now: nat): seq<Lease> {
    seq(|rows|, i requires 0 <= i < |rows| => if i in candidates && NeedsRepair(rows[i], now) then Repaired(rows[i], now) else rows[i])
  }

  lemma RepairOne(rows: seq<Lease>, candidates: seq<nat>, k: nat, now: nat)
    requires k < |candidates| && candidates[k] < |rows|
    ensures var x, before := candidates[k], AfterRepair(rows, candidates[..k], now);
            AfterRepair(rows, candidates[..k + 1], now)
            == if NeedsRepair(rows[x], now) then before[x := Repaired(rows[x], now)] else before
  {
    assert candidates[..k + 1] == candidates[..k] + [candidates[k]];
  }

  lemma PickOne(rows: seq<Lease>, candidates: seq<nat>, k: nat, now: nat, limit: nat)
    requires k < |candidates| && candidates[k] < |rows|
    ensures var (x, before) := (candidates[k], Pick(rows, candidates[..k], now, limit));
            Pick(rows, candidates[..k + 1], now, limit)
            == if Due(rows[x]) <= now && x !in before && |before| < limit then before + [x] else before
  {
    assert candidates[..k + 1][..k] == candidates[..k];
  }

  lemma NothingSorted(rows: seq<Lease>, now: nat, limit: nat)
    ensures AfterRepair(rows, [], now) == rows && Pick(rows, [], now, limit) == [] && !Deferred(rows, [], now)
  {}

  // ----- the mutations as they run --------------------------------------------------------------------------------

  class Table {
    var leases: seq<Lease>

    constructor ()
      ensures leases == []
    {
      leases := [];
    }

    method ReadCandidates(q: Request) returns (candidates: seq<nat>)
      ensures candidates == Candidates(leases, q)
    {
      var limit := Batch(q.limit);
      var flat: seq<nat> := [];
      for k := 0 to |q.statuses|
        invariant flat == Groups(leases, q.statuses[..k], limit)
      {
        var group := ReadInOrder(Page(WithStatus(leases, q.statuses[k]), MeterKey(leases), limit), MeterKey(leases));
        assert q.statuses[..k + 1][..k] == q.statuses[..k];
        flat := flat + group;
      }
      assert q.statuses[..|q.statuses|] == q.statuses;
      candidates := Arrange(leases, flat);
    }

    /** First loop: repair the index time of rows that only look due, collect those that are. */
    method SortOut(candidates: seq<nat>, now: nat, limit: nat) returns (claimed: seq<nat>, deferred: bool)
      requires forall i :: i in candidates ==> i < |leases|
      modifies this
      ensures leases == AfterRepair(old(leases), candidates, now)
      ensures claimed == Pick(old(leases), candidates, now, limit)
      ensures deferred <==> Deferred(old(leases), candidates, now)
    {
      var rows := leases;
      claimed, deferred := [], false;
      NothingSorted(rows, now, limit);
      hide AfterRepair, Pick, Deferred;
      assert candidates[..0] == [];
      for k := 0 to |candidates|
        invariant |leases| == |rows| && leases == AfterRepair(rows, candidates[..k], now)
        invariant claimed == Pick(rows, candidates[..k], now, limit)
        invariant deferred <==> Deferred(rows, candidates[..k], now)
      {
        var x := candidates[k];
        assert x in candidates;
        DeferredGrows(rows, candidates, k, now);
        PickOne(rows, candidates, k, now, limit);
        RepairOne(rows, candidates, k, now);
        var row := rows[x];
        if Due(row) > now {
          if At(row.nextMeterAt) < Due(row) {
            leases := leases[x := Repaired(row, now)];
            deferred := true;
          }
        } else if x !in claimed && |claimed| < limit {
          claimed := claimed + [x];
        }
      }
      assert candidates[..|candidates|] == candidates;
    }

    /** The claim: sort the candidates out, then take the batch. */
    method ClaimLeases(q: Request) returns (claimed: seq<nat>, deferred: bool)
      modifies this
      ensures (leases, claimed) == Claim(old(leases), q)
      ensures deferred <==> Deferred(old(leases), Candidates(old(leases), q), q.now)
    {
      hide Candidates, Pick, Deferred;
      ghost var rows := leases;
      var candidates := ReadCandidates(q);
      CandidatesShape(leases, q);
      claimed, deferred := SortOut(candidates, q.now, Batch(q.limit));
      PickShape(rows, candidates, q.now, Batch(q.limit));
      for k := 0 to |claimed|
        invariant |leases| == |rows|
        invariant forall i :: 0 <= i < |rows| ==>
                    leases[i] == if i in claimed[..k] then Taken(rows[i], q) else AfterRepair(rows, candidates, q.now)[i]
      {
        var x := claimed[k];
        assert claimed[..k + 1] == claimed[..k] + [x];
        assert leases[x] == rows[x];
        leases := leases[x := Taken(leases[x], q)];
      }
      assert claimed[..|claimed|] == claimed;
      assert leases == After(rows, candidates, claimed, q);
    }

    method FinishClaim(i: nat, token: string, now: nat, next: nat, cleanupAfter: Option<Option<nat>>) returns (ok: bool)
      modifies this
      ensures (leases, ok) == Finish(old(leases), i, token, now, next, cleanupAfter)
    {
      if i >= |leases| || leases[i].claimToken != Some(token) || Over(leases[i]) {
        return false;
      }
      var at := if leases[i].urgent then Min(next, now) else next;
      leases := leases[i := leases[i].(nextMeterAt := Some(at), claimToken := None, claimUntil := None,
                                       cleanupAfter := GetOr(cleanupAfter, leases[i].cleanupAfter), updatedAt := now)];
      return true;
    }
  }

  lemma DeferredGrows(rows: seq<Lease>, candidates: seq<nat>, k: nat, now: nat)
    requires k < |candidates| && candidates[k] < |rows|
    ensures Deferred(rows, candidates[..k + 1], now) <==> Deferred(rows, candidates[..k], now) || NeedsRepair(rows[candidates[k]], now)
  {
    var more, less := candidates[..k + 1], candidates[..k];
    if Deferred(rows, less, now) {
      var j :| 0 <= j < |less| && less[j] < |rows| && NeedsRepair(rows[less[j]], now);
      assert more[j] == less[j];
    }
    if NeedsRepair(rows[candidates[k]], now) {
      assert more[k] == candidates[k];
    }
    if Deferred(rows, more, now) {
      var j :| 0 <= j < |more| && more[j] < |rows| && NeedsRepair(rows[more[j]], now);
      assert j < k ==> less[j] == more[j];
    }
  }
}
