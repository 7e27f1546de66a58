/** The scheduler mutations as they run: automation and run rows updated in place, the round robin as nested loops. */
module SchedulerTable {
  import opened Common
  import opened Scheduler
  import opened SchedulerSkip
  import opened SchedulerTick

  lemma DealOne(d: Desk, page: seq<nat>, i: nat)
    requires i < |page|
    ensures Users(d, page[..i + 1]) == Users(d, page[..i]) + if Usable(d, page[i]) then {d.automations[page[i]].user} else {}
    ensures forall u :: QueueOf(d, page[..i + 1], u)
                        == QueueOf(d, page[..i], u) + if Usable(d, page[i]) && d.automations[page[i]].user == u
                                                      then [Candidate(page[i], d.automations[page[i]].nextRunAt.value, d.automations[page[i]].policy)] else []
    ensures forall u :: u !in Users(d, page[..i]) ==> QueueOf(d, page[..i], u) == []
  {
    var p, q := page[..i + 1], page[..i];
    assert p[..|p| - 1] == q && p == q + [page[i]];
    forall u | u !in Users(d, q)
      ensures QueueOf(d, q, u) == []
    {
      NoQueue(d, q, u);
    }
  }

  lemma {:induction false} NoQueue(d: Desk, page: seq<nat>, user: nat)
    requires user !in Users(d, page)
    ensures QueueOf(d, page, user) == []
    decreases |page|
  {
    if page != [] {
      assert Users(d, page[..|page| - 1]) <= Users(d, page);
      var a := page[|page| - 1];
      assert a in page;
      NoQueue(d, page[..|page| - 1], user);
    }
  }

  lemma ExhaustedInRange(t: Tick)
    requires InRange(t)
    ensures InRange(t.(exhausted := true))
  {}

  class Table {
    var automations: seq<Automation>
    var runs: seq<AutomationRun>

    function State(): Desk
      reads this
    {
      Desk(automations, runs)
    }

    constructor ()
      ensures State() == Desk([], [])
    {
      automations, runs := [], [];
    }

    /** The first run of an automation with a status, in creation order. */
    method FindRun(a: nat, s: Status) returns (r: Option<nat>)
      ensures r == FirstRun(runs, a, s, 0)
      ensures r.Some? ==> r.value < |runs|
    {
      var i := 0;
      while i < |runs|
        invariant i <= |runs| && FirstRun(runs, a, s, 0) == FirstRun(runs, a, s, i)
      {
        if runs[i].automation == a && runs[i].status == s {
          return Some(i);
        }
        i := i + 1;
      }
      return None;
    }

    method HasQueuedOrRunningRun(a: nat, now: nat) returns (busy: bool)
      modifies this`runs
      ensures (State(), busy) == Busy(old(State()), a, now)
    {
      var queued := FindRun(a, Queued);
      if queued.Some? {
        if now - runs[queued.value].createdAt <= STALE_RUN_MS {
          return true;
        }
        runs := runs[queued.value := runs[queued.value].(status := Failed, updatedAt := now)];
      }
      var running := FindRun(a, Running);
      if running.None? {
        return false;
      }
      if now - StartedAt(runs[running.value]) <= STALE_RUN_MS {
        return true;
      }
      runs := runs[running.value := runs[running.value].(status := Failed, updatedAt := now)];
      return false;
    }

    /** Disables, skips or queues one due automation. */
    method ServeNext(c: Candidate, user: nat, e: Env) returns (queued: bool)
      requires c.id < |automations|
      modifies this
      ensures (State(), queued) == Serve(old(State()), c, user, e)
    {
      if e.violates(automations, c.id) {
        automations := automations[c.id := automations[c.id].(enabled := false, nextRunAt := None)];
        return false;
      }
      var at := e.next(c.id, Max(e.asOf, c.scheduledFor));
      var busy := false;
      if c.policy.SkipBusy? {
        busy := HasQueuedOrRunningRun(c.id, e.clock);
      }
      runs := runs + [NewRun(c, user, if busy then Skipped else Queued, e.clock)];
      automations := automations[c.id := automations[c.id].(nextRunAt := Some(at))];
      return !busy;
    }

    /** Deals the page out into one queue per user. */
    method DealOut(page: seq<nat>) returns (queues: map<nat, seq<Candidate>>)
      ensures queues.Keys == Users(State(), page)
      ensures forall u :: u in queues ==> queues[u] == QueueOf(State(), page, u)
    {
      ghost var d := State();
      queues := map[];
      for i := 0 to |page|
        invariant queues.Keys == Users(d, page[..i])
        invariant forall u :: u in queues ==> queues[u] == QueueOf(d, page[..i], u)
      {
        var a := page[i];
        DealOne(d, page, i);
        if Usable(State(), a) {
          var row := automations[a];
          var queue := if row.user in queues then queues[row.user] else [];
          queues := queues[row.user := queue + [Candidate(a, row.nextRunAt.value, row.policy)]];
        }
      }
      assert page[..|page|] == page;
    }

    /** The starting queues, users in order. */
    method DueLanes(e: Env) returns (lanes: seq<Lane>)
      ensures lanes == Start(State(), e).lanes
    {
      hide Page, DueSet, DueKey, Users, QueueOf;
      var d := State();
      var page := ReadInOrder(Page(DueSet(d, e.asOf), DueKey(d), CandidateLimit(e.limit)), DueKey(d));
      var queues := DealOut(page);
      var order := ReadInOrder(queues.Keys, EarliestKey(d, page));
      InOrderMembers(queues.Keys, EarliestKey(d, page));
      lanes := seq(|order|, k requires 0 <= k < |order| => Lane(order[k], if order[k] in queues then queues[order[k]] else []));
    }

    /** One user's turn in a pass. */
    method TakeTurn(lanes0: seq<Lane>, claimed0: map<nat, nat>, runIds0: seq<nat>, exhausted0: bool, k: nat, e: Env)
      returns (lanes: seq<Lane>, claimed: map<nat, nat>, runIds: seq<nat>, exhausted: bool)
      requires InRange(Tick(State(), lanes0, claimed0, runIds0, exhausted0)) && k < |lanes0|
      modifies this
      ensures Tick(State(), lanes, claimed, runIds, exhausted) == Visit(Tick(old(State()), lanes0, claimed0, runIds0, exhausted0), k, e)
    {
      hide Serve, InRange;
      lanes, claimed, runIds, exhausted := lanes0, claimed0, runIds0, exhausted0;
      var user := lanes[k].user;
      var count := if user in claimed then claimed[user] else 0;
      if count < USER_CAP && lanes[k].queue != [] {
        var next := lanes[k].queue[0];
        HeadInRange(Tick(State(), lanes, claimed, runIds, exhausted), k);
        lanes := lanes[k := lanes[k].(queue := lanes[k].queue[1..])];
        ServeShape(State(), next, user, e);
        var queued := ServeNext(next, user, e);
        if queued {
          runIds, claimed, exhausted := runIds + [|runs| - 1], claimed[user := count + 1], false;
        }
      }
    }

    /** One pass over the users. */
    method OnePass(lanes0: seq<Lane>, claimed0: map<nat, nat>, runIds0: seq<nat>, e: Env)
      returns (lanes: seq<Lane>, claimed: map<nat, nat>, runIds: seq<nat>, exhausted: bool)
      requires InRange(Tick(State(), lanes0, claimed0, runIds0, true))
      modifies this
      ensures Tick(State(), lanes, claimed, runIds, exhausted) == Round(Tick(old(State()), lanes0, claimed0, runIds0, true), 0, e)
    {
      hide Visit, InRange;
      lanes, claimed, runIds, exhausted := lanes0, claimed0, runIds0, true;
      ghost var s := Tick(State(), lanes, claimed, runIds, exhausted);
      var k := 0;
      while k < |lanes| && |runIds| < e.limit
        invariant k <= |lanes| && InRange(Tick(State(), lanes, claimed, runIds, exhausted))
        invariant Round(Tick(State(), lanes, claimed, runIds, exhausted), k, e) == Round(s, 0, e)
      {
        VisitShape(Tick(State(), lanes, claimed, runIds, exhausted), k, e);
        lanes, claimed, runIds, exhausted := TakeTurn(lanes, claimed, runIds, exhausted, k, e);
        k := k + 1;
      }
    }

    /** One scheduler tick: passes over the users until the batch is full or a pass queues nothing. */
    method ClaimDue(e: Env) returns (runIds: seq<nat>)
      modifies this
      ensures State() == ClaimDueRuns(old(State()), e).desk && runIds == ClaimDueRuns(old(State()), e).runIds
    {
      hide Fresh, Start, Round, InRange;
      StartIsFresh(State(), e);
      StartDesk(State(), e);
      ghost var t0 := Start(State(), e);
      var lanes := DueLanes(e);
      var claimed: map<nat, nat>, exhausted := map[], false;
      runIds := [];
      while |runIds| < e.limit && !exhausted
        invariant |runIds| <= e.limit && InRange(Tick(State(), lanes, claimed, runIds, exhausted))
        invariant Rounds(Tick(State(), lanes, claimed, runIds, exhausted), e) == Rounds(t0, e)
        decreases e.limit - |runIds|, !exhausted
      {
        ghost var t := Tick(State(), lanes, claimed, runIds, exhausted);
        ExhaustedInRange(t);
        lanes, claimed, runIds, exhausted := OnePass(lanes, claimed, runIds, e);
        assert Tick(State(), lanes, claimed, runIds, exhausted) == Round(t.(exhausted := true), 0, e);
      }
    }

    method MarkRunStarted(i: nat, now: nat)
      modifies this`runs
      ensures State() == MarkStarted(old(State()), i, now)
    {
      if i < |runs| && runs[i].status.Queued? {
        runs := runs[i := runs[i].(status := Running, startedAt := Some(now), updatedAt := now)];
      }
    }

    method RequestRunCancellation(i: nat, now: nat)
      modifies this`runs
      ensures State() == RequestCancellation(old(State()), i, now)
    {
      if i < |runs| && Active(runs[i]) {
        runs := runs[i := runs[i].(status := if runs[i].status.Queued? then Cancelled else CancelRequested, updatedAt := now)];
      }
    }

    method SettleManualRun(i: nat, expected: Status, to: Status, owns: bool, now: nat) returns (ok: bool)
      modifies this`runs
      ensures (State(), ok) == SettleRun(old(State()), i, expected, to, owns, now)
    {
      if i >= |runs| || !owns {
        return false;
      }
      if runs[i].status == to {
        return true;
      }
      if runs[i].status != expected || !Active(runs[i]) || (to.Completed? && !runs[i].status.Running?) {
        return false;
      }
      runs := runs[i := runs[i].(status := to, updatedAt := now)];
      return true;
    }
  }
}
