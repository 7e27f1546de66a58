/**
 What one scheduler tick guarantees: the batch and per-user limits, one service per automation,
 fairness between users, and when it stops with work left.
 */
module SchedulerTick {
  import opened Common
  import opened Scheduler

  // ----- one visit ---------------------------------------------------------------------------

  /** Only the automation's own waiting or running runs may have failed. */
  ghost predicate OnlyExpired(d: Desk, d': Desk, a: nat) {
    && d'.automations == d.automations && |d'.runs| == |d.runs|
    && forall i :: 0 <= i < |d.runs| ==>
         d'.runs[i] == d.runs[i]
         || (d.runs[i].automation == a && Active(d.runs[i])
             && d'.runs[i].status == Failed && d'.runs[i] == d.runs[i].(status := Failed, updatedAt := d'.runs[i].updatedAt))
  }

  lemma BusyOnlyExpires(d: Desk, a: nat, now: nat)
    ensures OnlyExpired(d, Busy(d, a, now).0, a)
  {
    FirstRunFinds(d.runs, a, Queued, 0);
    var queued := FirstRun(d.runs, a, Queued, 0);
    var d1 := if queued.Some? then Expire(d, queued.value, now) else d;
    FirstRunFinds(d1.runs, a, Running, 0);
  }

  /** How a service changes the desk: one automation row, one run appended at most, stale runs failed. */
  ghost predicate Served(d: Desk, d': Desk, c: Candidate, user: nat, queued: bool) {
    && |d'.automations| == |d.automations|
    && (forall a :: 0 <= a < |d.automations| && a != c.id ==> d'.automations[a] == d.automations[a])
    && |d.runs| <= |d'.runs| <= |d.runs| + 1
    && OnlyExpired(d, Desk(d.automations, d'.runs[..|d.runs|]), c.id)
    && (|d'.runs| > |d.runs| ==>
          var r := d'.runs[|d.runs|];
          r.automation == c.id && r.user == user && r.scheduledFor == c.scheduledFor && r.status == (if queued then Queued else Skipped))
    && (queued ==> |d'.runs| > |d.runs|)
  }

  lemma ServeShape(d: Desk, c: Candidate, user: nat, e: Env)
    requires c.id < |d.automations|
    ensures Served(d, Serve(d, c, user, e).0, c, user, Serve(d, c, user, e).1)
  {
    hide Busy;
    BusyOnlyExpires(d, c.id, e.clock);
    var d' := Serve(d, c, user, e).0;
    if e.violates(d.automations, c.id) {
      assert d'.runs[..|d.runs|] == d.runs;
    } else {
      var d1 := if c.policy.SkipBusy? then Busy(d, c.id, e.clock).0 else d;
      assert d'.runs[..|d.runs|] == d1.runs;
    }
  }

  function Attempts(t0: Tick, t: Tick, i: nat): int
    requires i < |t0.lanes| && i < |t.lanes|
  {
    |t0.lanes[i].queue| - |t.lanes[i].queue|
  }

  function CountUser(runs: seq<AutomationRun>, ids: seq<nat>, user: nat): nat
    decreases |ids|
  {
    if ids == [] then 0
    else
      var last := ids[|ids| - 1];
      CountUser(runs, ids[..|ids| - 1], user) + if last < |runs| && runs[last].user == user then 1 else 0
  }

  lemma {:induction false} CountUserFrame(runs: seq<AutomationRun>, runs': seq<AutomationRun>, ids: seq<nat>, user: nat)
    requires forall k :: 0 <= k < |ids| ==> ids[k] < |runs| <= |runs'| && runs'[ids[k]].user == runs[ids[k]].user
    ensures CountUser(runs', ids, user) == CountUser(runs, ids, user)
    decreases |ids|
  {
    if ids != [] {
      var front := ids[..|ids| - 1];
      forall k | 0 <= k < |front|
        ensures front[k] < |runs| <= |runs'| && runs'[front[k]].user == runs[front[k]].user
      {
        assert front[k] == ids[k];
      }
      assert ids[|ids| - 1] < |runs|;
      CountUserFrame(runs, runs', ids[..|ids| - 1], user);
    }
  }

  // ----- what stays true through the tick -------------------------------------------------------

  /** The lanes are what is left of the starting lanes. */
  ghost predicate Remaining(t0: Tick, t: Tick) {
    && |t.lanes| == |t0.lanes|
    && forall i :: 0 <= i < |t.lanes| ==>
         && t.lanes[i].user == t0.lanes[i].user && |t.lanes[i].queue| <= |t0.lanes[i].queue|
         && t.lanes[i].queue == t0.lanes[i].queue[Attempts(t0, t, i)..]
  }

  /** The per-user counts are true, and capped. */
  ghost predicate Capped(t: Tick) {
    && (forall k :: 0 <= k < |t.runIds| ==> t.runIds[k] < |t.desk.runs|)
    && forall u :: Claimed(t, u) == CountUser(t.desk.runs, t.runIds, u) <= USER_CAP
  }

  /** The reported runs are exactly the queued new ones, in order and once each. */
  ghost predicate Listed(t0: Tick, t: Tick) {
    && |t0.desk.runs| <= |t.desk.runs|
    && (forall k :: 0 <= k < |t.runIds| ==> |t0.desk.runs| <= t.runIds[k] < |t.desk.runs| && t.desk.runs[t.runIds[k]].status.Queued?)
    && (forall k, l :: 0 <= k < l < |t.runIds| ==> t.runIds[k] < t.runIds[l])
    && (forall x :: |t0.desk.runs| <= x < |t.desk.runs| && t.desk.runs[x].status.Queued? ==> x in t.runIds)
  }

  ghost predicate Waits(t: Tick, a: nat) {
    exists i, p :: 0 <= i < |t.lanes| && 0 <= p < |t.lanes[i].queue| && t.lanes[i].queue[p].id == a
  }

  /** Each automation was served at most once, at its own due time, and one that still waits not at all. */
  ghost predicate ServedOnce(t0: Tick, t: Tick) {
    && |t.desk.automations| == |t0.desk.automations|
    && |t0.desk.runs| <= |t.desk.runs|
    && (forall x :: |t0.desk.runs| <= x < |t.desk.runs| ==>
          var r := t.desk.runs[x];
          && r.automation < |t0.desk.automations| && Waits(t0, r.automation) && !Waits(t, r.automation)
          && t0.desk.automations[r.automation].nextRunAt == Some(r.scheduledFor)
          && t0.desk.automations[r.automation].user == r.user)
    && (forall x, y :: |t0.desk.runs| <= x < y < |t.desk.runs| ==> t.desk.runs[x].automation != t.desk.runs[y].automation)
    && (forall a :: 0 <= a < |t0.desk.automations| && (!Waits(t0, a) || Waits(t, a)) ==> t.desk.automations[a] == t0.desk.automations[a])
  }

  ghost predicate Good(t0: Tick, t: Tick) {
    InRange(t) && Fresh(t) && Remaining(t0, t) && Capped(t) && Listed(t0, t) && ServedOnce(t0, t)
  }

  lemma VisitKeepsFresh(t: Tick, k: nat, e: Env)
    requires k < |t.lanes| && InRange(t) && Fresh(t)
    ensures Fresh(Visit(t, k, e))
  {
    hide Serve;
    if Eligible(t, k) {
      var c := t.lanes[k].queue[0];
      ServeShape(t.desk, c, t.lanes[k].user, e);
      var t' := Visit(t, k, e);
      forall i, p | 0 <= i < |t'.lanes| && 0 <= p < |t'.lanes[i].queue|
        ensures Matches(t'.desk, t'.lanes[i].user, t'.lanes[i].queue[p])
      {
        var q := if i == k then p + 1 else p;
        assert t'.lanes[i].queue[p] == t.lanes[i].queue[q];
        assert Matches(t.desk, t.lanes[i].user, t.lanes[i].queue[q]);
        assert t.lanes[i].queue[q].id == t.lanes[k].queue[0].id ==> i == k && q == 0;
      }
      forall i, p, j, q | 0 <= i < |t'.lanes| && 0 <= p < |t'.lanes[i].queue| && 0 <= j < |t'.lanes| && 0 <= q < |t'.lanes[j].queue|
                          && t'.lanes[i].queue[p].id == t'.lanes[j].queue[q].id
        ensures i == j && p == q
      {
        var p1, q1 := if i == k then p + 1 else p, if j == k then q + 1 else q;
        assert t.lanes[i].queue[p1] == t'.lanes[i].queue[p] && t.lanes[j].queue[q1] == t'.lanes[j].queue[q];
      }
    }
  }

  lemma VisitKeepsRemaining(t0: Tick, t: Tick, k: nat, e: Env)
    requires k < |t.lanes| && InRange(t) && Remaining(t0, t)
    ensures Remaining(t0, Visit(t, k, e))
  {
    hide Serve;
    if Eligible(t, k) {
      assert Pop(t, k).lanes[k].queue == t0.lanes[k].queue[Attempts(t0, t, k) + 1..];
    }
  }

  lemma VisitKeepsCapped(t: Tick, k: nat, e: Env)
    requires k < |t.lanes| && InRange(t) && Capped(t)
    ensures Capped(Visit(t, k, e))
  {
    hide Serve;
    if Eligible(t, k) {
      ServeShape(t.desk, t.lanes[k].queue[0], t.lanes[k].user, e);
      var t', n := Visit(t, k, e), |t.desk.runs|;
      forall x | 0 <= x < n
        ensures t'.desk.runs[x].user == t.desk.runs[x].user
      {
        assert t'.desk.runs[..n][x] == t'.desk.runs[x];
      }
      forall u
        ensures Claimed(t', u) == CountUser(t'.desk.runs, t'.runIds, u) <= USER_CAP
      {
        CountUserFrame(t.desk.runs, t'.desk.runs, t.runIds, u);
        if |t'.runIds| > |t.runIds| {
          assert t'.runIds[..|t.runIds|] == t.runIds;
        }
      }
    }
  }

  lemma HeadInRange(t: Tick, k: nat)
    requires InRange(t) && k < |t.lanes| && t.lanes[k].queue != []
    ensures t.lanes[k].queue[0].id < |t.desk.automations|
  {}

  /** A visit leaves the tick's own earlier runs alone. */
  lemma NewRunsStay(t0: Tick, t: Tick, k: nat, e: Env)
    requires k < |t.lanes| && InRange(t) && ServedOnce(t0, t)
    ensures var t' := Visit(t, k, e);
            && |t.desk.runs| <= |t'.desk.runs|
            && forall x :: |t0.desk.runs| <= x < |t.desk.runs| ==> t'.desk.runs[x] == t.desk.runs[x]
  {
    hide Serve;
    if Eligible(t, k) {
      ServeShape(t.desk, t.lanes[k].queue[0], t.lanes[k].user, e);
      var t', n := Visit(t, k, e), |t.desk.runs|;
      assert Waits(t, t.lanes[k].queue[0].id);
      forall x | |t0.desk.runs| <= x < n
        ensures t'.desk.runs[x] == t.desk.runs[x]
      {
        assert t'.desk.runs[..n][x] == t'.desk.runs[x];
      }
    }
  }

  /** What a visit appends to the runs it also lists, if it queued one. */
  lemma VisitLists(t: Tick, k: nat, e: Env)
    requires k < |t.lanes| && InRange(t)
    ensures var t' := Visit(t, k, e);
            && |t.desk.runs| <= |t'.desk.runs| <= |t.desk.runs| + 1
            && ((t'.runIds == t.runIds && (|t'.desk.runs| > |t.desk.runs| ==> !t'.desk.runs[|t.desk.runs|].status.Queued?))
                || (t'.runIds == t.runIds + [|t.desk.runs|] && |t'.desk.runs| > |t.desk.runs| && t'.desk.runs[|t.desk.runs|].status.Queued?))
  {
    hide Serve, InRange;
    if Eligible(t, k) {
      HeadInRange(t, k);
      ServeShape(t.desk, t.lanes[k].queue[0], t.lanes[k].user, e);
    }
  }

  lemma VisitKeepsListed(t0: Tick, t: Tick, k: nat, e: Env)
    requires k < |t.lanes| && InRange(t) && Listed(t0, t) && ServedOnce(t0, t)
    ensures Listed(t0, Visit(t, k, e))
  {
    NewRunsStay(t0, t, k, e);
    VisitLists(t, k, e);
    hide Visit, ServedOnce, InRange;
    var t' := Visit(t, k, e);
    forall x | |t0.desk.runs| <= x < |t'.desk.runs| && t'.desk.runs[x].status.Queued?
      ensures x in t'.runIds
    {
      if x < |t.desk.runs| {
        assert x in t.runIds;
      }
    }
  }

  lemma PopWaits(t: Tick, k: nat, a: nat)
    requires k < |t.lanes| && t.lanes[k].queue != [] && Fresh(t)
    ensures Waits(Pop(t, k), a) <==> Waits(t, a) && a != t.lanes[k].queue[0].id
  {
    var t' := Pop(t, k);
    if Waits(t', a) {
      var i, p :| 0 <= i < |t'.lanes| && 0 <= p < |t'.lanes[i].queue| && t'.lanes[i].queue[p].id == a;
      var q := if i == k then p + 1 else p;
      assert t.lanes[i].queue[q] == t'.lanes[i].queue[p];
    }
    if Waits(t, a) && a != t.lanes[k].queue[0].id {
      var i, p :| 0 <= i < |t.lanes| && 0 <= p < |t.lanes[i].queue| && t.lanes[i].queue[p].id == a;
      assert t'.lanes[i].queue[if i == k then p - 1 else p].id == a;
    }
  }

  lemma VisitKeepsServedOnce(t0: Tick, t: Tick, k: nat, e: Env)
    requires k < |t.lanes| && InRange(t) && Fresh(t) && Remaining(t0, t) && ServedOnce(t0, t)
    ensures ServedOnce(t0, Visit(t, k, e))
  {
    hide Serve;
    if Eligible(t, k) {
      var c, user := t.lanes[k].queue[0], t.lanes[k].user;
      ServeShape(t.desk, c, user, e);
      var t', mid := Visit(t, k, e), Pop(t, k);
      var n0, n := |t0.desk.runs|, |t.desk.runs|;
      forall a: nat
        ensures Waits(t', a) <==> Waits(t, a) && a != c.id
      {
        PopWaits(t, k, a);
        assert Waits(t', a) <==> Waits(mid, a) by {
          assert t'.lanes == mid.lanes;
        }
      }
      assert Matches(t.desk, user, c);
      assert Waits(t, c.id);
      assert t0.lanes[k].queue[Attempts(t0, t, k)] == c;
      assert Waits(t0, c.id);
      NewRunsStay(t0, t, k, e);
    }
  }

  lemma VisitIsGood(t0: Tick, t: Tick, k: nat, e: Env)
    requires k < |t.lanes| && Good(t0, t)
    ensures Good(t0, Visit(t, k, e))
  {
    hide Visit, Fresh, Remaining, Capped, Listed, ServedOnce;
    VisitShape(t, k, e);
    VisitKeepsFresh(t, k, e);
    VisitKeepsRemaining(t0, t, k, e);
    VisitKeepsCapped(t, k, e);
    VisitKeepsListed(t0, t, k, e);
    VisitKeepsServedOnce(t0, t, k, e);
  }

  // ----- turns ------------------------------------------------------------------------------------

  /** After `r` full rounds and the first `k` users of the next: nobody had more turns, and whoever could still go had them all. */
  ghost predicate Turns(t0: Tick, t: Tick, r: nat, k: nat)
    requires |t.lanes| == |t0.lanes|
  {
    forall i :: 0 <= i < |t.lanes| ==>
      && Attempts(t0, t, i) <= r + (if i < k then 1 else 0)
      && (Eligible(t, i) ==> Attempts(t0, t, i) == r + (if i < k then 1 else 0))
  }

  lemma VisitTakesTurn(t0: Tick, t: Tick, r: nat, k: nat, e: Env)
    requires k < |t.lanes| == |t0.lanes| && InRange(t) && Turns(t0, t, r, k)
    ensures |Visit(t, k, e).lanes| == |t0.lanes| && Turns(t0, Visit(t, k, e), r, k + 1)
  {
    hide Serve;
    var t' := Visit(t, k, e);
    forall i | 0 <= i < |t'.lanes|
      ensures Attempts(t0, t', i) <= r + (if i < k + 1 then 1 else 0)
      ensures Eligible(t', i) ==> Attempts(t0, t', i) == r + (if i < k + 1 then 1 else 0)
    {
      assert Eligible(t', i) ==> Eligible(t, i);
    }
  }

  lemma {:induction false} RoundIsGood(t0: Tick, t: Tick, r: nat, k: nat, e: Env)
    requires Good(t0, t) && k <= |t.lanes| && Turns(t0, t, r, k)
    ensures var t' := Round(t, k, e);
            && Good(t0, t')
            && (|t'.runIds| < e.limit ==> Turns(t0, t', r + 1, 0))
            && (|t'.runIds| >= e.limit ==> exists k' :: k <= k' <= |t.lanes| && Turns(t0, t', r, k'))
    decreases |t.lanes| - k
  {
    hide Visit, Fresh, Capped, Listed, ServedOnce;
    if k < |t.lanes| && |t.runIds| < e.limit {
      VisitIsGood(t0, t, k, e);
      VisitTakesTurn(t0, t, r, k, e);
      VisitShape(t, k, e);
      RoundIsGood(t0, Visit(t, k, e), r, k + 1, e);
    }
  }

  lemma {:induction false} RoundsAreGood(t0: Tick, t: Tick, r: nat, e: Env)
    requires Good(t0, t) && |t.runIds| <= e.limit
    requires |t.runIds| < e.limit ==> Turns(t0, t, r, 0)
    requires |t.runIds| == e.limit ==> exists k :: 0 <= k <= |t.lanes| && Turns(t0, t, r, k)
    ensures var t' := Rounds(t, e);
            && Good(t0, t') && |t'.runIds| <= e.limit
            && (|t'.runIds| < e.limit ==> t'.exhausted && exists r' :: Turns(t0, t', r', 0))
            && exists r', k' :: 0 <= k' <= |t'.lanes| && Turns(t0, t', r', k')
    decreases e.limit - |t.runIds|, !t.exhausted
  {
    hide Fresh, Capped, Listed, ServedOnce;
    if |t.runIds| < e.limit && !t.exhausted {
      var t1 := t.(exhausted := true);
      StartsAnew(t0, t);
      assert Turns(t0, t1, r, 0);
      RoundIsGood(t0, t1, r, 0, e);
      var t2 := Round(t1, 0, e);
      RoundsAreGood(t0, t2, if |t2.runIds| < e.limit then r + 1 else r, e);
    }
  }

  lemma StartsAnew(t0: Tick, t: Tick)
    requires Good(t0, t)
    ensures Good(t0, t.(exhausted := true))
  {
    var t1 := t.(exhausted := true);
    assert forall a :: Waits(t, a) <==> Waits(t1, a);
    assert forall u :: Claimed(t, u) == Claimed(t1, u);
  }

  // ----- main results ------------------------------------------------------------------------------

  lemma TickIsGood(d: Desk, e: Env)
    ensures InRange(Start(d, e)) && Good(Start(d, e), ClaimDueRuns(d, e)) && |ClaimDueRuns(d, e).runIds| <= e.limit
    ensures var t0, t := Start(d, e), ClaimDueRuns(d, e);
            && (|t.runIds| < e.limit ==> exists r :: Turns(t0, t, r, 0))
            && exists r, k :: 0 <= k <= |t.lanes| && Turns(t0, t, r, k)
  {
    hide Fresh, Start;
    StartIsFresh(d, e);
    var t0 := Start(d, e);
    assert t0.desk == d && t0.runIds == [] && t0.claimed == map[] by { StartDesk(d, e); }
    assert Turns(t0, t0, 0, 0);
    RoundsAreGood(t0, t0, 0, e);
  }

  lemma StartDesk(d: Desk, e: Env)
    ensures Start(d, e).desk == d && Start(d, e).runIds == [] && Start(d, e).claimed == map[] && !Start(d, e).exhausted
  {}

  /**
   A tick reports at most `limit` runs, at most five of one user; they are exactly the runs it queued.
   */
  lemma TickIsBounded(d: Desk, e: Env)
    ensures var t := ClaimDueRuns(d, e);
            && |t.runIds| <= e.limit && |d.runs| <= |t.desk.runs|
            && (forall u :: CountUser(t.desk.runs, t.runIds, u) <= USER_CAP)
            && (forall k, l :: 0 <= k < l < |t.runIds| ==> t.runIds[k] < t.runIds[l])
            && (forall x :: |d.runs| <= x < |t.desk.runs| ==> (x in t.runIds <==> t.desk.runs[x].status.Queued?))
            && (forall x :: x in t.runIds ==> |d.runs| <= x < |t.desk.runs|)
  {
    hide Start, ClaimDueRuns, Fresh, ServedOnce, Remaining, Turns;
    TickIsGood(d, e);
    StartDesk(d, e);
    var t := ClaimDueRuns(d, e);
    forall u
      ensures CountUser(t.desk.runs, t.runIds, u) <= USER_CAP
    {
      assert Claimed(t, u) <= USER_CAP;
    }
  }

  /**
   A tick adds at most one run per automation, for the due time the automation showed when the tick
   began, and touches no automation that was not due.
   */
  lemma TickServesOnce(d: Desk, e: Env)
    ensures var t := ClaimDueRuns(d, e);
            && |t.desk.automations| == |d.automations| && |d.runs| <= |t.desk.runs|
            && (forall x :: |d.runs| <= x < |t.desk.runs| ==>
                  var r := t.desk.runs[x];
                  r.automation < |d.automations| && r.automation in DueSet(d, e.asOf) && Usable(d, r.automation)
                  && d.automations[r.automation].nextRunAt == Some(r.scheduledFor) && d.automations[r.automation].user == r.user)
            && (forall x, y :: |d.runs| <= x < y < |t.desk.runs| ==> t.desk.runs[x].automation != t.desk.runs[y].automation)
            && (forall a :: 0 <= a < |d.automations| && !(a in DueSet(d, e.asOf) && Usable(d, a)) ==>
                  t.desk.automations[a] == d.automations[a])
  {
    hide Start, ClaimDueRuns, Fresh, Capped, Listed, Remaining, Turns, Waits, DueSet;
    TickIsGood(d, e);
    StartDesk(d, e);
    var t0 := Start(d, e);
    forall a: nat | a < |d.automations| && Waits(t0, a)
      ensures a in DueSet(d, e.asOf) && Usable(d, a)
    {
      WaitingIsDue(d, e, a);
    }
    assert t0.desk.automations == d.automations;
  }

  lemma WaitingIsDue(d: Desk, e: Env, a: nat)
    requires a < |d.automations| && Waits(Start(d, e), a)
    ensures a in DueSet(d, e.asOf) && Usable(d, a)
  {
    hide DueSet, DueKey, Page, InOrder, EarliestKey;
    var page, key := DuePage(d, e), DueKey(d);
    InOrderMembers(Page(DueSet(d, e.asOf), key, CandidateLimit(e.limit)), key);
    PageSize(DueSet(d, e.asOf), key, CandidateLimit(e.limit));
    var t0 := Start(d, e);
    var i, p :| 0 <= i < |t0.lanes| && 0 <= p < |t0.lanes[i].queue| && t0.lanes[i].queue[p].id == a;
    QueueIsUsable(d, page, t0.lanes[i].user, p);
  }

  lemma {:induction false} QueueIsUsable(d: Desk, page: seq<nat>, user: nat, p: nat)
    requires p < |QueueOf(d, page, user)|
    ensures QueueOf(d, page, user)[p].id in page && Usable(d, QueueOf(d, page, user)[p].id)
    decreases |page|
  {
    if page != [] && p < |QueueOf(d, page[..|page| - 1], user)| {
      QueueIsUsable(d, page[..|page| - 1], user, p);
    }
  }

  lemma LanesStay(d: Desk, e: Env)
    ensures |ClaimDueRuns(d, e).lanes| == |Start(d, e).lanes|
    ensures forall i :: 0 <= i < |Start(d, e).lanes| ==> ClaimDueRuns(d, e).lanes[i].user == Start(d, e).lanes[i].user
  {
    TickIsGood(d, e);
  }

  /**
   Fairness: a user who still has work and room under the cap had at least as many turns as anyone
   else, less one; and no fewer when the batch did not fill.
   */
  lemma TickIsFair(d: Desk, e: Env, i: nat, j: nat)
    requires i < |ClaimDueRuns(d, e).lanes| && j < |ClaimDueRuns(d, e).lanes| && Eligible(ClaimDueRuns(d, e), i)
    ensures |ClaimDueRuns(d, e).lanes| == |Start(d, e).lanes|
    ensures var t0, t := Start(d, e), ClaimDueRuns(d, e);
            && Attempts(t0, t, i) >= Attempts(t0, t, j) - 1
            && (|t.runIds| < e.limit ==> Attempts(t0, t, i) >= Attempts(t0, t, j))
  {
    hide Start, ClaimDueRuns, Good;
    LanesStay(d, e);
    TickIsGood(d, e);
  }

  // ----- stopping early ------------------------------------------------------------------------------

  /** In a round that queues nothing, every user who can go loses one candidate and nothing else changes for the users. */
  lemma {:induction false} IdleRound(t: Tick, k: nat, e: Env)
    requires InRange(t) && |t.runIds| < e.limit && |Round(t, k, e).runIds| == |t.runIds|
    ensures var t' := Round(t, k, e);
            && t'.runIds == t.runIds && t'.claimed == t.claimed
            && forall i :: 0 <= i < |t.lanes| ==>
                 t'.lanes[i] == if i >= k && Eligible(t, i) then t.lanes[i].(queue := t.lanes[i].queue[1..]) else t.lanes[i]
    decreases |t.lanes| - k
  {
    hide Serve, InRange;
    if k < |t.lanes| {
      VisitShape(t, k, e);
      IdleRound(Visit(t, k, e), k + 1, e);
    }
  }

  // A concrete tick: one user's busy automation hides their free one from the whole tick.

  const BUSY_FIRST: Desk := Desk(
    [Automation(0, true, Some(1), false, SkipBusy), Automation(0, true, Some(2), false, SkipBusy)],
    [AutomationRun(0, 0, Running, 0, 5, Some(5), 5)])

  lemma FreeWorkCanWait(e: Env)
    requires e.limit == 25 && e.asOf == 10 && e.clock == 10
    requires forall rows, a :: !e.violates(rows, a)
    ensures var t := ClaimDueRuns(BUSY_FIRST, e);
            && t.runIds == []
            && t.lanes == [Lane(0, [Candidate(1, 2, SkipBusy)])] && !Busy(t.desk, 1, e.clock).1
  {
    var d, t0 := BUSY_FIRST, Start(BUSY_FIRST, e);
    BusyFirstLanes(e);
    StartDesk(d, e);
    hide Start;
    var t1 := Visit(t0.(exhausted := true), 0, e);
    BusyFirstVisit(t0.(exhausted := true), e);
    assert Round(t0.(exhausted := true), 0, e) == Round(t1, 1, e) == t1;
    assert Rounds(t0, e) == Rounds(t1, e) == t1;
  }

  lemma BusyFirstVisit(t: Tick, e: Env)
    requires t == Tick(BUSY_FIRST, [Lane(0, [Candidate(0, 1, SkipBusy), Candidate(1, 2, SkipBusy)])], map[], [], true)
    requires e.clock == 10 && forall rows, a :: !e.violates(rows, a)
    ensures InRange(t)
    ensures var t' := Visit(t, 0, e);
            && t'.exhausted && t'.runIds == [] && t'.lanes == [Lane(0, [Candidate(1, 2, SkipBusy)])]
            && !Busy(t'.desk, 1, e.clock).1
  {
    var d := BUSY_FIRST;
    assert Busy(d, 0, 10) == (d, true) by {
      assert FirstRun(d.runs, 0, Queued, 0) == FirstRun(d.runs, 0, Queued, 1) == None;
      assert FirstRun(d.runs, 0, Running, 0) == Some(0);
    }
    var t' := Visit(t, 0, e);
    assert t'.lanes[0].queue == [Candidate(1, 2, SkipBusy)];
    FirstRunFinds(t'.desk.runs, 1, Queued, 0);
    FirstRunFinds(t'.desk.runs, 1, Running, 0);
  }

  lemma BusyFirstPage(e: Env)
    requires e.limit == 25 && e.asOf == 10
    ensures DuePage(BUSY_FIRST, e) == [0, 1]
  {
    hide Start, QueueOf, Users;
    var d, key := BUSY_FIRST, DueKey(BUSY_FIRST);
    var due := DueSet(d, 10);
    assert due == {0, 1};
    forall k | k in due
      ensures k in Page(due, key, 100)
    {
      SubsetCardinality(Below(due, key, k), due);
    }
    assert Page(due, key, 100) == due;
    InOrderMembers(due, key);
    InOrderSorted(due, key);
    var page := DuePage(d, e);
    assert page[0] in due && page[1] in due && Before(key, page[0], page[1]);
  }

  lemma BusyFirstLanes(e: Env)
    requires e.limit == 25 && e.asOf == 10
    ensures Start(BUSY_FIRST, e).lanes == [Lane(0, [Candidate(0, 1, SkipBusy), Candidate(1, 2, SkipBusy)])]
  {
    hide Page, InOrder;
    BusyFirstPage(e);
    var d, page := BUSY_FIRST, [0, 1];
    assert page[..1] == [0] && [0][..0] == [];
    assert QueueOf(d, [0], 0) == [Candidate(0, 1, SkipBusy)];
    assert QueueOf(d, page, 0) == [Candidate(0, 1, SkipBusy), Candidate(1, 2, SkipBusy)];
    assert Users(d, page) == {0} by {
      assert 0 in page;
    }
    InOrderMembers({0}, EarliestKey(d, page));
  }
}
