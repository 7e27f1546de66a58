/**
 When a scheduler tick leaves work behind. Each user's candidates are followed alone, on the desk the tick
 starts from: which of them would be paused by the plan policy, which are busy, and so which would queue a
 run. From that the rounds of the tick can be told in advance.
 */
module SchedulerIdle {
  import opened Common
  import opened Scheduler
  import opened SchedulerTick

  // ----- one user's lane, alone -----------------------------------------------------------------------

  /** The automation rows after the first `p` candidates of a lane were taken. */
  function RowsAfter(t0: Tick, i: nat, p: nat, e: Env): (rows: seq<Automation>)
    requires InRange(t0) && i < |t0.lanes| && p <= |t0.lanes[i].queue|
    ensures |rows| == |t0.desk.automations| && forall b :: 0 <= b < |rows| ==> rows[b].user == t0.desk.automations[b].user
  {
    if p == 0 then t0.desk.automations
    else
      var rows, c := RowsAfter(t0, i, p - 1, e), t0.lanes[i].queue[p - 1];
      if e.violates(rows, c.id) then rows[c.id := rows[c.id].(enabled := false, nextRunAt := None)]
      else rows[c.id := rows[c.id].(nextRunAt := Some(e.next(c.id, Max(e.asOf, c.scheduledFor))))]
  }

  /** The candidate would queue a run: the policy lets it, and no earlier run of it blocks on the starting desk. */
  predicate Queues(t0: Tick, i: nat, p: nat, e: Env)
    requires InRange(t0) && i < |t0.lanes| && p < |t0.lanes[i].queue|
  {
    var c := t0.lanes[i].queue[p];
    !e.violates(RowsAfter(t0, i, p, e), c.id) && !(c.policy.SkipBusy? && Busy(t0.desk, c.id, e.clock).1)
  }

  /** How many of the first `p` candidates would queue a run. */
  function Goods(t0: Tick, i: nat, p: nat, e: Env): nat
    requires InRange(t0) && i < |t0.lanes| && p <= |t0.lanes[i].queue|
  {
    if p == 0 then 0 else Goods(t0, i, p - 1, e) + if Queues(t0, i, p - 1, e) then 1 else 0
  }

  /** The user still takes part after `p` candidates. */
  predicate CanGo(t0: Tick, i: nat, p: nat, e: Env)
    requires InRange(t0) && i < |t0.lanes|
  {
    p < |t0.lanes[i].queue| && Goods(t0, i, p, e) < USER_CAP
  }

  /** Candidates taken from a lane in `r` rounds. */
  function Taken(t0: Tick, i: nat, r: nat, e: Env): (p: nat)
    requires InRange(t0) && i < |t0.lanes|
    ensures p <= r && p <= |t0.lanes[i].queue|
  {
    if r == 0 then 0
    else
      var p := Taken(t0, i, r - 1, e);
      if CanGo(t0, i, p, e) then p + 1 else p
  }

  /** Runs queued by the first `n` lanes, of which the first `k` had `r + 1` rounds and the others `r`. */
  function Total(t0: Tick, r: nat, k: nat, n: nat, e: Env): nat
    requires InRange(t0) && n <= |t0.lanes|
  {
    if n == 0 then 0
    else Total(t0, r, k, n - 1, e) + Goods(t0, n - 1, Taken(t0, n - 1, if n - 1 < k then r + 1 else r, e), e)
  }

  /** Runs queued in `r` rounds. */
  function QueuedBy(t0: Tick, r: nat, e: Env): nat
    requires InRange(t0)
  {
    Total(t0, r, 0, |t0.lanes|, e)
  }

  /** Every user who still takes part in round `r` has a candidate there that queues nothing. */
  ghost predicate IdleAt(t0: Tick, r: nat, e: Env)
    requires InRange(t0)
  {
    forall i :: 0 <= i < |t0.lanes| && CanGo(t0, i, r, e) ==> !Queues(t0, i, r, e)
  }

  /** The plan policy looks at the rows of the automation's own user. */
  ghost predicate OwnRows(e: Env) {
    forall rows: seq<Automation>, rows': seq<Automation>, a ::
      SameForUser(rows, rows', a) ==> e.violates(rows, a) == e.violates(rows', a)
  }

  ghost predicate SameForUser(rows: seq<Automation>, rows': seq<Automation>, a: nat) {
    && |rows| == |rows'| && a < |rows|
    && forall b :: 0 <= b < |rows| ==> rows'[b].user == rows[b].user && (rows[b].user == rows[a].user ==> rows'[b] == rows[b])
  }

  lemma {:induction false} GoodsGrow(t0: Tick, i: nat, p: nat, q: nat, e: Env)
    requires InRange(t0) && i < |t0.lanes| && p <= q <= |t0.lanes[i].queue|
    ensures Goods(t0, i, p, e) <= Goods(t0, i, q, e)
    decreases q
  {
    hide Queues, RowsAfter;
    if p < q {
      GoodsGrow(t0, i, p, q - 1, e);
    }
  }

  /** Whoever can still go has had a turn in every round. */
  lemma {:induction false} TakenAll(t0: Tick, i: nat, r: nat, e: Env)
    requires InRange(t0) && i < |t0.lanes|
    ensures CanGo(t0, i, r, e) ==> Taken(t0, i, r, e) == r
    ensures CanGo(t0, i, Taken(t0, i, r, e), e) ==> Taken(t0, i, r, e) == r
    decreases r
  {
    hide Queues, RowsAfter, Goods;
    if r > 0 {
      TakenAll(t0, i, r - 1, e);
      if CanGo(t0, i, r, e) {
        GoodsGrow(t0, i, r - 1, r, e);
      }
    }
  }

  lemma {:induction false} TakenGrows(t0: Tick, i: nat, r: nat, s: nat, e: Env)
    requires InRange(t0) && i < |t0.lanes| && r <= s
    ensures Taken(t0, i, r, e) <= Taken(t0, i, s, e)
    decreases s
  {
    hide Queues, RowsAfter, Goods;
    if r < s {
      TakenGrows(t0, i, r, s - 1, e);
    }
  }

  lemma {:induction false} TotalGrows(t0: Tick, r: nat, k: nat, s: nat, m: nat, n: nat, e: Env)
    requires InRange(t0) && n <= |t0.lanes| && (r < s || (r == s && k <= m))
    ensures Total(t0, r, k, n, e) <= Total(t0, s, m, n, e)
    decreases n
  {
    hide Goods, Taken;
    if n > 0 {
      TotalGrows(t0, r, k, s, m, n - 1, e);
      var (x, y) := (if n - 1 < k then r + 1 else r, if n - 1 < m then s + 1 else s);
      TakenGrows(t0, n - 1, x, y, e);
      GoodsGrow(t0, n - 1, Taken(t0, n - 1, x, e), Taken(t0, n - 1, y, e), e);
    }
  }

  /** All lanes done with round `r`. */
  lemma {:induction false} TotalTurns(t0: Tick, r: nat, n: nat, k: nat, e: Env)
    requires InRange(t0) && n <= k && n <= |t0.lanes|
    ensures Total(t0, r, k, n, e) == Total(t0, r + 1, 0, n, e)
    decreases n
  {
    hide Goods, Taken;
    if n > 0 {
      TotalTurns(t0, r, n - 1, k, e);
    }
  }

  /** One more lane has its turn. */
  lemma {:induction false} TotalStep(t0: Tick, r: nat, k: nat, n: nat, e: Env)
    requires InRange(t0) && n <= |t0.lanes| && k < |t0.lanes|
    ensures Total(t0, r, k + 1, n, e) == Total(t0, r, k, n, e)
            + if k < n then Goods(t0, k, Taken(t0, k, r + 1, e), e) - Goods(t0, k, Taken(t0, k, r, e), e) else 0
    decreases n
  {
    hide Goods, Taken;
    if n > 0 {
      TotalStep(t0, r, k, n - 1, e);
    }
  }

  // ----- the tick follows the lanes -----------------------------------------------------------------------

  lemma {:induction false} FirstRunFrame(runs: seq<AutomationRun>, runs': seq<AutomationRun>, a: nat, s: Status, from: nat)
    requires |runs| <= |runs'|
    requires forall x :: 0 <= x < |runs| ==> if runs[x].automation == a then runs'[x] == runs[x] else runs'[x].automation != a
    requires forall x :: |runs| <= x < |runs'| ==> runs'[x].automation != a
    ensures FirstRun(runs', a, s, from) == FirstRun(runs, a, s, from)
    decreases |runs'| - from
  {
    if from < |runs'| {
      FirstRunFrame(runs, runs', a, s, from + 1);
    }
  }

  /** Whether an automation is busy depends on its own runs. */
  lemma BusyFrame(d: Desk, d': Desk, a: nat, now: nat)
    requires |d.runs| <= |d'.runs|
    requires forall x :: 0 <= x < |d.runs| ==> if d.runs[x].automation == a then d'.runs[x] == d.runs[x] else d'.runs[x].automation != a
    requires forall x :: |d.runs| <= x < |d'.runs| ==> d'.runs[x].automation != a
    ensures Busy(d', a, now).1 == Busy(d, a, now).1
  {
    FirstRunFrame(d.runs, d'.runs, a, Queued, 0);
    var queued := FirstRun(d.runs, a, Queued, 0);
    FirstRunFinds(d.runs, a, Queued, 0);
    var d1 := if queued.Some? then Expire(d, queued.value, now) else d;
    var d1' := if queued.Some? then Expire(d', queued.value, now) else d';
    FirstRunFrame(d1.runs, d1'.runs, a, Running, 0);
    FirstRunFinds(d1.runs, a, Running, 0);
  }

  /** Serving one automation leaves the runs of the others as they are. */
  lemma ServeKeepsBusy(d: Desk, c: Candidate, user: nat, e: Env, a: nat)
    requires c.id < |d.automations| && a != c.id
    ensures Busy(Serve(d, c, user, e).0, a, e.clock).1 == Busy(d, a, e.clock).1
  {
    hide Serve, Busy;
    ServeShape(d, c, user, e);
    var d' := Serve(d, c, user, e).0;
    var n := |d.runs|;
    forall x | 0 <= x < n
      ensures if d.runs[x].automation == a then d'.runs[x] == d.runs[x] else d'.runs[x].automation != a
    {
      assert d'.runs[..n][x] == d'.runs[x];
    }
    BusyFrame(d, d', a, e.clock);
  }

  ghost predicate DistinctUsers(t: Tick) {
    forall i, j :: 0 <= i < j < |t.lanes| ==> t.lanes[i].user != t.lanes[j].user
  }

  function Turn(r: nat, k: nat, i: nat): nat {
    if i < k then r + 1 else r
  }

  /** After `r` rounds and the first `k` users of the next, lane `i` is where it would be alone. */
  ghost predicate OnPlan(t0: Tick, t: Tick, r: nat, i: nat, e: Env)
    requires InRange(t0) && i < |t0.lanes| && |t.lanes| == |t0.lanes|
  {
    var (lane, p) := (t0.lanes[i], Taken(t0, i, r, e));
    && t.lanes[i] == lane.(queue := lane.queue[p..])
    && Claimed(t, lane.user) == Goods(t0, i, p, e)
    && |t.desk.automations| == |t0.desk.automations|
    && forall b :: 0 <= b < |t.desk.automations| ==>
         && t.desk.automations[b].user == t0.desk.automations[b].user
         && (t.desk.automations[b].user == lane.user ==> t.desk.automations[b] == RowsAfter(t0, i, p, e)[b])
  }

  ghost predicate InTurn(t0: Tick, t: Tick, r: nat, k: nat, i: nat, e: Env)
    requires InRange(t0) && i < |t0.lanes| && |t.lanes| == |t0.lanes|
  {
    OnPlan(t0, t, Turn(r, k, i), i, e)
  }

  ghost predicate BusyAsBefore(t0: Tick, t: Tick, e: Env) {
    forall a :: Waits(t, a) ==> Busy(t.desk, a, e.clock).1 == Busy(t0.desk, a, e.clock).1
  }

  ghost predicate Plan(t0: Tick, t: Tick, r: nat, k: nat, e: Env)
    requires InRange(t0)
  {
    && InRange(t) && Fresh(t) && |t.lanes| == |t0.lanes| && DistinctUsers(t0)
    && (forall i :: 0 <= i < |t0.lanes| ==> InTurn(t0, t, r, k, i, e))
    && BusyAsBefore(t0, t, e)
    && |t.runIds| == Total(t0, r, k, |t0.lanes|, e)
  }

  /** A user who can go is served exactly as alone. */
  lemma ServesAsAlone(t0: Tick, t: Tick, r: nat, k: nat, e: Env)
    requires InRange(t0) && Plan(t0, t, r, k, e) && k < |t0.lanes| && OwnRows(e)
    ensures var p := Taken(t0, k, r, e);
            && (Eligible(t, k) <==> CanGo(t0, k, p, e))
            && (CanGo(t0, k, p, e) ==>
                  var (c, user) := (t0.lanes[k].queue[p], t0.lanes[k].user);
                  && t.lanes[k].queue[0] == c && Matches(t.desk, user, c) && Waits(t, c.id)
                  && (e.violates(t.desk.automations, c.id) <==> e.violates(RowsAfter(t0, k, p, e), c.id))
                  && (Serve(t.desk, c, user, e).1 <==> Queues(t0, k, p, e)))
  {
    hide RowsAfter, Goods, Busy;
    assert InTurn(t0, t, r, k, k, e);
    var p := Taken(t0, k, r, e);
    if CanGo(t0, k, p, e) {
      var c := t0.lanes[k].queue[p];
      assert t.lanes[k].queue[0] == c;
      assert Matches(t.desk, t.lanes[k].user, t.lanes[k].queue[0]);
      assert Waits(t, c.id);
      assert SameForUser(t.desk.automations, RowsAfter(t0, k, p, e), c.id);
    }
  }

  /** The rows and runs after the visit. */
  lemma ServedRows(d: Desk, c: Candidate, user: nat, e: Env)
    requires c.id < |d.automations|
    ensures var (d', queued) := Serve(d, c, user, e);
            && |d'.automations| == |d.automations|
            && d'.automations == d.automations[c.id :=
                 if e.violates(d.automations, c.id) then d.automations[c.id].(enabled := false, nextRunAt := None)
                 else d.automations[c.id].(nextRunAt := Some(e.next(c.id, Max(e.asOf, c.scheduledFor))))]
  {
    BusyOnlyExpires(d, c.id, e.clock);
    hide Busy;
  }

  lemma VisitKeepsBusy(t0: Tick, t: Tick, k: nat, e: Env)
    requires k < |t.lanes| && InRange(t) && Fresh(t) && BusyAsBefore(t0, t, e)
    ensures BusyAsBefore(t0, Visit(t, k, e), e)
  {
    hide Serve, Busy;
    if Eligible(t, k) {
      var c, user, t' := t.lanes[k].queue[0], t.lanes[k].user, Visit(t, k, e);
      forall a | Waits(t', a)
        ensures Busy(t'.desk, a, e.clock).1 == Busy(t0.desk, a, e.clock).1
      {
        assert Waits(Pop(t, k), a) by {
          assert t'.lanes == Pop(t, k).lanes;
        }
        PopWaits(t, k, a);
        ServeKeepsBusy(t.desk, c, user, e, a);
      }
    }
  }

  /** The lane that is visited moves on by one. */
  lemma VisitedOnPlan(t0: Tick, t: Tick, r: nat, k: nat, e: Env)
    requires InRange(t0) && Plan(t0, t, r, k, e) && k < |t0.lanes| && OwnRows(e)
    ensures |Visit(t, k, e).lanes| == |t0.lanes| && OnPlan(t0, Visit(t, k, e), r + 1, k, e)
  {
    hide Busy, Serve, Queues, OwnRows;
    ServesAsAlone(t0, t, r, k, e);
    assert InTurn(t0, t, r, k, k, e);
    var p := Taken(t0, k, r, e);
    if CanGo(t0, k, p, e) {
      var c, user := t0.lanes[k].queue[p], t0.lanes[k].user;
      ServedRows(t.desk, c, user, e);
      assert t0.lanes[k].queue[p..][1..] == t0.lanes[k].queue[p + 1..];
    }
  }

  /** The other lanes stay where they are. */
  lemma OthersOnPlan(t0: Tick, t: Tick, r: nat, k: nat, i: nat, e: Env)
    requires InRange(t0) && Plan(t0, t, r, k, e) && k < |t0.lanes| && i < |t0.lanes| && i != k && OwnRows(e)
    ensures |Visit(t, k, e).lanes| == |t0.lanes| && OnPlan(t0, Visit(t, k, e), Turn(r, k, i), i, e)
  {
    hide Busy, Serve, Queues, OwnRows, Goods, RowsAfter, Taken;
    ServesAsAlone(t0, t, r, k, e);
    assert InTurn(t0, t, r, k, i, e);
    assert t0.lanes[i].user != t0.lanes[k].user;
    assert InTurn(t0, t, r, k, k, e);
    if Eligible(t, k) {
      ServedRows(t.desk, t.lanes[k].queue[0], t0.lanes[k].user, e);
    }
  }

  /** The visit queues a run exactly if it would alone. */
  lemma VisitCounts(t0: Tick, t: Tick, r: nat, k: nat, e: Env)
    requires InRange(t0) && Plan(t0, t, r, k, e) && k < |t0.lanes| && OwnRows(e)
    ensures |Visit(t, k, e).runIds| - |t.runIds| == Goods(t0, k, Taken(t0, k, r + 1, e), e) - Goods(t0, k, Taken(t0, k, r, e), e)
  {
    hide Busy, Serve, Queues, OwnRows, RowsAfter, Total, BusyAsBefore, Fresh, OnPlan;
    ServesAsAlone(t0, t, r, k, e);
    assert t.lanes[k].user == t0.lanes[k].user by {
      assert InTurn(t0, t, r, k, k, e);
      SameUser(t0, t, r, k, e);
    }
  }

  lemma SameUser(t0: Tick, t: Tick, r: nat, k: nat, e: Env)
    requires InRange(t0) && k < |t0.lanes| && |t.lanes| == |t0.lanes| && OnPlan(t0, t, r, k, e)
    ensures t.lanes[k].user == t0.lanes[k].user
  {}

  lemma VisitKeepsPlan(t0: Tick, t: Tick, r: nat, k: nat, e: Env)
    requires InRange(t0) && Plan(t0, t, r, k, e) && k < |t0.lanes| && OwnRows(e)
    ensures Plan(t0, Visit(t, k, e), r, k + 1, e)
  {
    hide OnPlan, Fresh, BusyAsBefore, Total, Goods, Taken, Visit, OwnRows;
    VisitShape(t, k, e);
    VisitKeepsFresh(t, k, e);
    VisitKeepsBusy(t0, t, k, e);
    VisitedOnPlan(t0, t, r, k, e);
    VisitCounts(t0, t, r, k, e);
    TotalStep(t0, r, k, |t0.lanes|, e);
    var t', k' := Visit(t, k, e), k + 1;
    forall i | 0 <= i < |t0.lanes|
      ensures InTurn(t0, t', r, k', i, e)
    {
      if i != k {
        OthersOnPlan(t0, t, r, k, i, e);
      }
    }
  }

  // ----- rounds -----------------------------------------------------------------------------------------------

  lemma {:induction false} RoundKeepsPlan(t0: Tick, t: Tick, r: nat, k: nat, e: Env)
    requires InRange(t0) && Plan(t0, t, r, k, e) && k <= |t0.lanes| && OwnRows(e) && |t.runIds| < e.limit
    ensures var t' := Round(t, k, e);
            && (|t'.runIds| < e.limit ==> Plan(t0, t', r + 1, 0, e))
            && (|t'.runIds| >= e.limit ==> QueuedBy(t0, r + 1, e) >= e.limit)
    decreases |t0.lanes| - k
  {
    hide OnPlan, Fresh, BusyAsBefore, Visit, Total;
    var n := |t0.lanes|;
    if k < n {
      VisitKeepsPlan(t0, t, r, k, e);
      var t1 := Visit(t, k, e);
      if |t1.runIds| < e.limit {
        RoundKeepsPlan(t0, t1, r, k + 1, e);
      } else {
        assert Round(t1, k + 1, e) == t1;
        TotalTurns(t0, r, n, n, e);
        TotalGrows(t0, r, k + 1, r, n, n, e);
      }
    } else {
      TotalTurns(t0, r, n, n, e);
      var r' := r + 1;
      forall i | 0 <= i < n
        ensures InTurn(t0, t, r', 0, i, e)
      {
        assert InTurn(t0, t, r, k, i, e);
      }
    }
  }

  lemma PlanExhausts(t0: Tick, t: Tick, r: nat, k: nat, e: Env)
    requires InRange(t0) && Plan(t0, t, r, k, e)
    ensures Plan(t0, t.(exhausted := true), r, k, e)
  {
    var t1 := t.(exhausted := true);
    assert forall i :: 0 <= i < |t0.lanes| && InTurn(t0, t, r, k, i, e) ==> InTurn(t0, t1, r, k, i, e);
    assert forall a :: Waits(t1, a) ==> Waits(t, a);
  }

  /** A lane adds a run in round `r` exactly when its user takes part and the candidate there queues one. */
  lemma LaneAdds(t0: Tick, i: nat, r: nat, e: Env)
    requires InRange(t0) && i < |t0.lanes|
    ensures var (before, after) := (Goods(t0, i, Taken(t0, i, r, e), e), Goods(t0, i, Taken(t0, i, r + 1, e), e));
            before <= after && (before == after <==> (CanGo(t0, i, r, e) ==> !Queues(t0, i, r, e)))
  {
    hide Queues, RowsAfter;
    TakenAll(t0, i, r, e);
  }

  /** A round queues nothing exactly when it is idle on the starting desk. */
  lemma {:induction false} IdleAddsNothing(t0: Tick, r: nat, n: nat, e: Env)
    requires InRange(t0) && n <= |t0.lanes|
    ensures Total(t0, r, 0, n, e) <= Total(t0, r + 1, 0, n, e)
    ensures Total(t0, r, 0, n, e) == Total(t0, r + 1, 0, n, e)
            <==> forall i :: 0 <= i < n && CanGo(t0, i, r, e) ==> !Queues(t0, i, r, e)
    decreases n
  {
    hide Queues, RowsAfter, Taken, Goods;
    if n > 0 {
      IdleAddsNothing(t0, r, n - 1, e);
      LaneAdds(t0, n - 1, r, e);
    }
  }

  /** How the rounds end: with the first idle one, or with the batch full before any idle one. */
  lemma {:induction false} RoundsEnd(t0: Tick, t: Tick, r: nat, e: Env) returns (last: nat)
    requires InRange(t0) && Plan(t0, t, r, 0, e) && OwnRows(e) && |t.runIds| < e.limit && !t.exhausted
    ensures var t' := Rounds(t, e);
            && r <= last && (forall q :: r <= q < last ==> !IdleAt(t0, q, e))
            && (if |t'.runIds| < e.limit
                then IdleAt(t0, last, e) && Plan(t0, t', last + 1, 0, e) && QueuedBy(t0, last, e) < e.limit
                else !IdleAt(t0, last, e) && QueuedBy(t0, last + 1, e) >= e.limit)
    decreases e.limit - |t.runIds|
  {
    hide OnPlan, Fresh, BusyAsBefore, Total, Visit, OwnRows, Queues, CanGo, DistinctUsers;
    var t1 := t.(exhausted := true);
    PlanExhausts(t0, t, r, 0, e);
    RoundKeepsPlan(t0, t1, r, 0, e);
    IdleAddsNothing(t0, r, |t0.lanes|, e);
    var t2 := Round(t1, 0, e);
    assert t2.exhausted <==> |t2.runIds| == |t.runIds|;
    last := r;
    if |t2.runIds| < e.limit && !t2.exhausted {
      last := RoundsEnd(t0, t2, r + 1, e);
    }
  }

  /** The tick leaves lane `i` work that its user could still have had, at round `r`. */
  ghost predicate Strands(t0: Tick, i: nat, r: nat, e: Env)
    requires InRange(t0) && i < |t0.lanes|
  {
    QueuedBy(t0, r, e) < e.limit && IdleAt(t0, r, e) && CanGo(t0, i, r, e) && |t0.lanes[i].queue| > r + 1
  }

  lemma StartPlan(d: Desk, e: Env)
    ensures InRange(Start(d, e)) && Plan(Start(d, e), Start(d, e), 0, 0, e)
  {
    StartIsFresh(d, e);
    StartDesk(d, e);
    hide Start;
    NothingYet(Start(d, e), |Start(d, e).lanes|, e);
  }

  lemma {:induction false} NothingYet(t0: Tick, n: nat, e: Env)
    requires InRange(t0) && n <= |t0.lanes|
    ensures Total(t0, 0, 0, n, e) == 0
    decreases n
  {
    if n > 0 {
      NothingYet(t0, n - 1, e);
    }
  }

  lemma ClaimIsRounds(d: Desk, e: Env)
    ensures InRange(Start(d, e)) && |Start(d, e).runIds| <= e.limit && ClaimDueRuns(d, e) == Rounds(Start(d, e), e)
  {
    StartIsFresh(d, e);
  }

  /** After the first idle round a user is left with work exactly if that round or a later idle one strands them. */
  lemma EndedIdle(t0: Tick, t: Tick, last: nat, i: nat, e: Env)
    requires InRange(t0) && Plan(t0, t, last + 1, 0, e) && i < |t0.lanes|
    requires IdleAt(t0, last, e) && QueuedBy(t0, last, e) < e.limit && forall q :: 0 <= q < last ==> !IdleAt(t0, q, e)
    ensures Eligible(t, i) <==> exists r: nat :: Strands(t0, i, r, e)
  {
    hide Queues, Total, Fresh, BusyAsBefore;
    assert InTurn(t0, t, last + 1, 0, i, e);
    TakenAll(t0, i, last + 1, e);
    if Eligible(t, i) {
      GoodsGrow(t0, i, last, last + 1, e);
      assert Strands(t0, i, last, e);
    }
    if exists r: nat :: Strands(t0, i, r, e) {
      var r: nat :| Strands(t0, i, r, e);
      assert r >= last;
      GoodsGrow(t0, i, last, r, e);
      assert CanGo(t0, i, last, e);
    }
  }

  /**
   When work is left behind, told from the desk the tick starts with: the batch does not fill and a user
   under the cap still has candidates exactly if, in some round before the batch is full, the candidate of
   every user who still takes part is paused or busy, and this user's lane is longer than that.
   */
  lemma LeftBehindExactly(d: Desk, e: Env, i: nat)
    requires OwnRows(e) && i < |Start(d, e).lanes|
    ensures InRange(Start(d, e)) && |ClaimDueRuns(d, e).lanes| == |Start(d, e).lanes|
    ensures |ClaimDueRuns(d, e).runIds| < e.limit && Eligible(ClaimDueRuns(d, e), i) <==> exists r: nat :: Strands(Start(d, e), i, r, e)
  {
    LanesStay(d, e);
    StartPlan(d, e);
    StartDesk(d, e);
    var t0, t := Start(d, e), ClaimDueRuns(d, e);
    hide Start, ClaimDueRuns, Plan, OwnRows, Queues, CanGo, Total, Rounds, Eligible;
    if e.limit > 0 {
      ClaimIsRounds(d, e);
      var last := RoundsEnd(t0, t0, 0, e);
      if |t.runIds| < e.limit {
        EndedIdle(t0, t, last, i, e);
      } else {
        forall r
          ensures !Strands(t0, i, r, e)
        {
          if IdleAt(t0, r, e) {
            TotalGrows(t0, last + 1, 0, r, 0, |t0.lanes|, e);
          }
        }
      }
    }
  }
}
