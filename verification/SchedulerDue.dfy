/** Which automations a tick may serve, in which order its users and their work come up, and how a run moves on between ticks. */
module SchedulerDue {
  import opened Common
  import opened Scheduler
  import opened SchedulerTick
  import Skip = SchedulerSkip

  /** The automation waits for its due time, and that has come. */
  predicate IsDue(d: Desk, a: nat, asOf: nat) {
    && a < |d.automations|
    && var row := d.automations[a];
       row.enabled && !row.deleted && row.nextRunAt.Some? && row.nextRunAt.value <= asOf
  }

  /** Every run a tick adds is of an automation that was enabled, not deleted and due when the tick began. */
  lemma OnlyDueAutomationsRun(d: Desk, e: Env, x: nat)
    requires |d.runs| <= x < |ClaimDueRuns(d, e).desk.runs|
    ensures var r := ClaimDueRuns(d, e).desk.runs[x];
            IsDue(d, r.automation, e.asOf) && d.automations[r.automation].nextRunAt == Some(r.scheduledFor) && r.scheduledFor <= e.asOf
  {
    hide ClaimDueRuns;
    TickServesOnce(d, e);
  }

  ghost predicate Listed(t: Tick, a: nat) {
    exists i, p :: 0 <= i < |t.lanes| && 0 <= p < |t.lanes[i].queue| && t.lanes[i].queue[p].id == a
  }

  lemma {:induction false} QueueLists(d: Desk, page: seq<nat>, user: nat, a: nat)
    requires a in page && Usable(d, a) && d.automations[a].user == user
    ensures exists p :: 0 <= p < |QueueOf(d, page, user)| && QueueOf(d, page, user)[p].id == a
    decreases |page|
  {
    var front, last := page[..|page| - 1], page[|page| - 1];
    assert page == front + [last];
    var rest, queue := QueueOf(d, front, user), QueueOf(d, page, user);
    if a in front {
      QueueLists(d, front, user, a);
      var p :| 0 <= p < |rest| && rest[p].id == a;
      assert queue[p].id == a;
    } else {
      assert queue[|queue| - 1].id == a;
    }
  }

  lemma PageOfDue(d: Desk, e: Env)
    ensures forall a :: a in DuePage(d, e) ==> a < |d.automations| && d.automations[a].enabled && (d.automations[a].nextRunAt.Some? ==> d.automations[a].nextRunAt.value <= e.asOf)
    ensures |DueSet(d, e.asOf)| < CandidateLimit(e.limit) ==> forall a :: IsDue(d, a, e.asOf) ==> a in DuePage(d, e)
  {
    var page := Page(DueSet(d, e.asOf), DueKey(d), CandidateLimit(e.limit));
    InOrderMembers(page, DueKey(d));
    PageSize(DueSet(d, e.asOf), DueKey(d), CandidateLimit(e.limit));
    if |DueSet(d, e.asOf)| < CandidateLimit(e.limit) {
      SubsetCardinality(page, DueSet(d, e.asOf));
    }
  }

  /** The users of a tick have only due work; when the index read is not cut short, they have all of it. */
  lemma LanesHoldTheDue(d: Desk, e: Env, a: nat)
    ensures Listed(Start(d, e), a) ==> IsDue(d, a, e.asOf)
    ensures IsDue(d, a, e.asOf) && |DueSet(d, e.asOf)| < Min(100, 4 * e.limit) ==> Listed(Start(d, e), a)
  {
    hide DueSet, Page, InOrder, DueKey, EarliestKey;
    var (t, page) := (Start(d, e), DuePage(d, e));
    PageOfDue(d, e);
    InOrderMembers(Users(d, page), EarliestKey(d, page));
    StartIsFresh(d, e);
    if Listed(t, a) {
      var i, p :| 0 <= i < |t.lanes| && 0 <= p < |t.lanes[i].queue| && t.lanes[i].queue[p].id == a;
      QueueShape(d, page, t.lanes[i].user);
      QueueIsUsable(d, page, t.lanes[i].user, p);
    }
    if a in page && IsDue(d, a, e.asOf) {
      var user := d.automations[a].user;
      assert user in Users(d, page);
      var users := InOrder(Users(d, page), EarliestKey(d, page));
      var i :| 0 <= i < |users| && users[i] == user;
      QueueLists(d, page, user, a);
      var p :| 0 <= p < |QueueOf(d, page, user)| && QueueOf(d, page, user)[p].id == a;
      assert t.lanes[i].queue[p].id == a;
    }
  }

  lemma {:induction false} QueueIsUsable(d: Desk, page: seq<nat>, user: nat, p: nat)
    requires p < |QueueOf(d, page, user)|
    ensures Usable(d, QueueOf(d, page, user)[p].id)
    decreases |page|
  {
    if p < |QueueOf(d, page[..|page| - 1], user)| {
      QueueIsUsable(d, page[..|page| - 1], user, p);
    }
  }

  lemma {:induction false} QueueInTime(d: Desk, page: seq<nat>, user: nat)
    requires DistinctPage(page) && forall a, b :: 0 <= a < b < |page| ==> Before(DueKey(d), page[a], page[b])
    ensures forall p, q :: 0 <= p < q < |QueueOf(d, page, user)| ==> QueueOf(d, page, user)[p].scheduledFor <= QueueOf(d, page, user)[q].scheduledFor
    decreases |page|
  {
    if page != [] {
      var front, last := page[..|page| - 1], page[|page| - 1];
      QueueInTime(d, front, user);
      QueueShape(d, front, user);
      var rest := QueueOf(d, front, user);
      if Usable(d, last) && d.automations[last].user == user {
        forall p | 0 <= p < |rest|
          ensures rest[p].scheduledFor <= d.automations[last].nextRunAt.value
        {
          var k :| 0 <= k < |front| && front[k] == rest[p].id;
          assert Before(DueKey(d), page[k], page[|page| - 1]);
        }
      }
    }
  }

  /** Each user's work comes up in the order of its due times, and the users in the order of their earliest one. */
  lemma LanesInOrder(d: Desk, e: Env)
    ensures var lanes := Start(d, e).lanes;
            && (forall i, p, q :: 0 <= i < |lanes| && 0 <= p < q < |lanes[i].queue| ==> lanes[i].queue[p].scheduledFor <= lanes[i].queue[q].scheduledFor)
            && (forall i, j :: 0 <= i < j < |lanes| && lanes[i].queue != [] && lanes[j].queue != [] ==>
                  lanes[i].queue[0].scheduledFor <= lanes[j].queue[0].scheduledFor)
  {
    hide DueSet, Page, InOrder, DueKey;
    var (page, due, key) := (DuePage(d, e), Page(DueSet(d, e.asOf), DueKey(d), CandidateLimit(e.limit)), DueKey(d));
    InOrderSorted(due, key);
    InOrderSorted(Users(d, page), EarliestKey(d, page));
    StartIsFresh(d, e);
    forall user: nat {
      QueueInTime(d, page, user);
    }
  }

  /** The limit a caller asks for counts within 1 and 100. */
  lemma LimitIsClamped(requested: int)
    ensures 1 <= Limit(requested) <= 100
    ensures 1 <= requested <= 100 ==> Limit(requested) == requested
    ensures requested < 1 ==> Limit(requested) == 1
    ensures requested > 100 ==> Limit(requested) == 100
  {}

  // ----- the status of a run ------------------------------------------------------------------------------

  /** A status step may take a run from one status to the other. */
  predicate MovesOn(a: Skip.Action, was: Status, to: Status) {
    match a
    case Started(_, _) => was == Queued && to == Running
    case Dropped(_, _) => was == Queued && to == Skipped
    case Finished(_, _) => to == Completed
    case Broke(_, _) => to == Failed
    case CancelRequest(_, _) => (was == Queued && to == Cancelled) || (was == Running && to == CancelRequested)
    case Settle(_, expected, settled, owns, _) =>
      && owns && to == settled && was == expected && was != to && (was == Queued || was == Running)
      && (to == Completed || to == Failed || to == Cancelled || to == Skipped) && (to == Completed ==> was == Running)
    case _ => false
  }

  predicate Names(a: Skip.Action, i: nat) {
    (a.Started? || a.Finished? || a.Broke? || a.Dropped? || a.CancelRequest? || a.Settle?) && a.run == i
  }

  /**
   Between ticks a run moves on exactly so: only by a step that names it, from queued to running, skipped,
   cancelled or an end, from running to a requested cancellation or an end; a settlement wins only from the status it expects.
   */
  lemma RunsMoveOnExactly(d: Desk, a: Skip.Action, now: nat, next: (nat, nat) -> nat, violates: (seq<Automation>, nat) -> bool, i: nat)
    requires !a.ClaimDue? && i < |d.runs|
    ensures var d' := Skip.StepAt(d, a, now, next, violates);
            && |d'.runs| == |d.runs|
            && var (r, r') := (d.runs[i], d'.runs[i]);
               && r' == r.(status := r'.status, startedAt := r'.startedAt, updatedAt := r'.updatedAt)
               && (r'.status != r.status ==> Names(a, i) && MovesOn(a, r.status, r'.status) && r'.updatedAt == now)
               && (r'.startedAt != r.startedAt ==> a.Started? && Names(a, i) && r.status == Queued && r'.startedAt == Some(now))
               && (forall to :: Names(a, i) && MovesOn(a, r.status, to) ==> r'.status == to)
  {}
}
