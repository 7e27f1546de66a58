/**
 The host end of the command stream (packages/overlay-agent-host/src/process-host-command.ts and
 state.ts) composed with the server: messages may be lost, delayed, reordered and repeated, and a
 host may crash between moving its cursor and recording a result.
 */
module CommandHost {
  import opened Common
  import opened CommandQueue
  import opened CommandStream

  /** The command cursor and the sequence numbers whose result is recorded. */
  datatype Host = Host(cursor: nat, processed: set<nat>)

  datatype Reply = Replayed | Gap | Taken | Crashed

  /** Process command `s` when the poll answer attested that everything up to `floor` is resolved. */
  function Receive(h: Host, s: nat, floor: int, crash: bool): (Host, Reply)
    requires s >= 1
  {
    if s in h.processed then (h, Replayed)
    else
      var adopted := if h.cursor == 0 && s > 1 then s - 1 else h.cursor;
      var expected := adopted + 1;
      if s != expected && !(s > expected && s - 1 <= floor) then (Host(adopted, h.processed), Gap)
      else
        var resumed := if s != expected then s - 1 else adopted;
        if crash then (Host(resumed, h.processed), Crashed)
        else (Host(Max(resumed, s), h.processed + {s}), Taken)
  }

  /**
   Server and host, with the specification-only number at or below which the host took nothing because
   it adopted the numbering of the first command it saw.
   */
  datatype System = System(w: World, h: Host, base: nat)

  const START: System := System(EMPTY, Host(0, {}), 0)

  /** Everything the cursor has passed since the adopted number was processed here or is resolved at the server. */
  ghost predicate InSync(sys: System) {
    && sys.base <= sys.h.cursor <= |sys.w.rows|
    && (forall s :: s in sys.h.processed ==> sys.base < s <= sys.h.cursor)
    && (forall s :: sys.base < s <= sys.h.cursor ==> s in sys.h.processed || Resolved(sys.w.rows[s - 1]))
  }

  datatype Event = Server(a: Action) | Deliver(s: nat, floor: int, crash: bool)

  /** A message can carry any delivered command and any floor the server has reported so far. */
  ghost predicate Enabled(sys: System, e: Event) {
    e.Deliver? ==> 1 <= e.s <= |sys.w.rows| && e.s - 1 in sys.w.delivered && e.floor <= Floor(sys.w.rows)
  }

  ghost function Advance1(sys: System, e: Event, reduce: Reducer): System {
    if !Enabled(sys, e) then sys
    else
      match e
      case Server(a) => sys.(w := Step(sys.w, a, reduce))
      case Deliver(s, floor, crash) =>
        var adopts := sys.h.cursor == 0 && s > 1 && s !in sys.h.processed;
        System(sys.w, Receive(sys.h, s, floor, crash).0, if adopts then s - 1 else sys.base)
  }

  ghost function Play(sys: System, events: seq<Event>, reduce: Reducer): System
    decreases |events|
  {
    if events == [] then sys else Play(Advance1(sys, events[0], reduce), events[1..], reduce)
  }

  /** Server and host stay in sync, and the adopted number is chosen once. */
  lemma EventKeepsSync(sys: System, e: Event, reduce: Reducer)
    requires Inv(sys.w) && InSync(sys)
    ensures var sys' := Advance1(sys, e, reduce);
            Inv(sys'.w) && InSync(sys') && (sys.h.cursor > 0 ==> sys'.h.cursor > 0 && sys'.base == sys.base)
  {
    hide Floor, Step, Receive;
    if Enabled(sys, e) {
      match e
      case Server(a) =>
        StepKeepsInv(sys.w, a, reduce);
        GrowthKeepsSync(sys, Step(sys.w, a, reduce));
      case Deliver(s, floor, crash) =>
        DeliveryKeepsSync(sys, s, floor, crash, reduce);
    }
  }

  lemma GrowthKeepsSync(sys: System, w: World)
    requires InSync(sys) && Extends(sys.w, w)
    ensures InSync(sys.(w := w))
  {}

  lemma DeliveryKeepsSync(sys: System, s: nat, floor: int, crash: bool, reduce: Reducer)
    requires Dense(sys.w.rows) && InSync(sys) && Enabled(sys, Deliver(s, floor, crash))
    ensures var sys' := Advance1(sys, Deliver(s, floor, crash), reduce);
            sys'.w == sys.w && InSync(sys') && (sys.h.cursor > 0 ==> sys'.h.cursor > 0 && sys'.base == sys.base)
  {
    hide FirstWith, Step;
    FloorIsExact(sys.w.rows, Floor(sys.w.rows));
    hide Floor;
  }

  lemma {:induction false} PlayKeepsSync(sys: System, events: seq<Event>, reduce: Reducer)
    requires Inv(sys.w) && InSync(sys)
    ensures var sys' := Play(sys, events, reduce);
            Inv(sys'.w) && InSync(sys') && (sys.h.cursor > 0 ==> sys'.h.cursor > 0 && sys'.base == sys.base)
    decreases |events|
  {
    if events != [] {
      EventKeepsSync(sys, events[0], reduce);
      PlayKeepsSync(Advance1(sys, events[0], reduce), events[1..], reduce);
    }
  }

  /**
   In every reachable state of server and host, the lowest open command, delivered with the current
   floor, is answered as a sequence gap exactly when the host adopted a numbering above it.
   */
  lemma LowestOpenIsAGapExactly(events: seq<Event>, reduce: Reducer, crash: bool)
    requires Floor(Play(START, events, reduce).w.rows) < |Play(START, events, reduce).w.rows|
    ensures var sys := Play(START, events, reduce);
            var k := Floor(sys.w.rows);
            k >= 0 && (Receive(sys.h, k + 1, k, crash).1.Gap? <==> k + 1 <= sys.base)
  {
    PlayKeepsSync(START, events, reduce);
    var sys := Play(START, events, reduce);
    FloorIsExact(sys.w.rows, Floor(sys.w.rows));
  }

  /**
   The first command a fresh host takes decides: the lowest open command is refused right after it
   exactly when the floor of the server lies below the number the host adopts.
   */
  lemma AdoptionSkipsExactly(sys: System, s: nat, floor: int, crash: bool, reduce: Reducer, crash': bool)
    requires Inv(sys.w) && InSync(sys) && sys.h.cursor == 0 && Enabled(sys, Deliver(s, floor, crash))
    requires Floor(sys.w.rows) < |sys.w.rows|
    ensures var k := Floor(sys.w.rows);
            var sys' := Advance1(sys, Deliver(s, floor, crash), reduce);
            k >= 0 && (Receive(sys'.h, k + 1, k, crash').1.Gap? <==> k < s - 1)
  {
    EventKeepsSync(sys, Deliver(s, floor, crash), reduce);
    FloorIsExact(sys.w.rows, Floor(sys.w.rows));
  }

  /** What a host skipped by adopting a numbering it refuses for good, whatever happens later and whatever floor is reported. */
  lemma SkippedByAdoptionStaysAGap(before: seq<Event>, after: seq<Event>, reduce: Reducer, s: nat, floor: int, crash: bool)
    requires 1 <= s <= Play(START, before, reduce).base
    ensures var h := Play(Play(START, before, reduce), after, reduce).h;
            Receive(h, s, floor, crash) == (h, Gap)
  {
    PlayKeepsSync(START, before, reduce);
    PlayKeepsSync(Play(START, before, reduce), after, reduce);
  }

  /**
   Exactly when a host that already has a cursor refuses an open command under the current floor: the
   command was skipped by adoption, or it is not the next one and something below it is still open.
   */
  lemma GapExactly(sys: System, s: nat, crash: bool)
    requires Dense(sys.w.rows) && InSync(sys) && sys.h.cursor > 0
    requires 1 <= s <= |sys.w.rows| && !Resolved(sys.w.rows[s - 1]) && s !in sys.h.processed
    ensures Receive(sys.h, s, Floor(sys.w.rows), crash).1.Gap? <==>
            s <= sys.base || (s != sys.h.cursor + 1 && exists j :: 0 <= j < s - 1 && !Resolved(sys.w.rows[j]))
  {
    var k := Floor(sys.w.rows);
    FloorIsExact(sys.w.rows, k);
    if k < s - 1 {
      assert !Resolved(sys.w.rows[k]);
    }
  }

  /** A refusal for a gap leaves the command table and so the command itself as they were. */
  lemma GapReplyKeepsCommand(w: World, id: CommandId, now: nat, reduce: Reducer)
    ensures Acknowledge(w, id, SequenceGap, now, reduce).0.rows == w.rows
  {}

  // ----- two runs in which the host refuses -----------------------------------------------------

  /** With no run rows and nothing held or expired, the loop hands out every candidate. */
  lemma {:induction false} ScanTakesAll(w: World, candidates: seq<nat>, k: nat, limit: nat, now: nat, reduce: Reducer, acc: Batch)
    requires (forall a :: 0 <= a < |candidates| ==> candidates[a] < |w.rows|) && k <= |candidates|
    requires w.runs == map[] && |acc.claimable| + |candidates| - k <= limit
    ensures Scan(w, w.rows, w.runs, candidates, k, None, limit, true, now, reduce, acc)
            == (w, Batch(acc.claimable + candidates[k..], acc.neutralized))
    decreases |candidates| - k
  {
    if k < |candidates| {
      ScanTakesAll(w, candidates, k + 1, limit, now, reduce, Batch(acc.claimable + [candidates[k]], acc.neutralized));
      assert (acc.claimable + [candidates[k]]) + candidates[k + 1..] == acc.claimable + candidates[k..];
    } else {
      assert acc.claimable + candidates[k..] == acc.claimable;
    }
  }

  /** Such a poll claims exactly the pending rows, if they fit its limit. */
  lemma PollTakesPending(w: World, open: set<nat>, pending: seq<nat>, reduce: Reducer)
    requires w.runs == map[]
    requires forall i :: 0 <= i < |w.rows| ==> !Expired(w.rows[i], 0) && !w.rows[i].status.CoordinatorPending?
    requires open == set i: nat | i < |w.rows| && w.rows[i].status.Pending?
    requires pending == Ascending(open, |w.rows|) && |open| < 50 && |pending| <= 50
    ensures Step(w, PULL.a, reduce) == MarkClaimed(w, pending, 60000)
  {
    hide Scan, Page, Ascending, FirstWith, MarkClaimed;
    PageSize(open, (i: nat) => i, 50);
    SubsetCardinality(PendingPage(w.rows, 50), open);
    NoExpired(w.rows, 50);
    assert PendingPage(w.rows, 50) + ExpiredPage(w.rows, 0, 50) == open;
    NothingHeld(w.rows, 0);
    AscendingMembers(open, |w.rows|);
    assert forall a :: 0 <= a < |pending| ==> pending[a] in pending;
    ScanTakesAll(w, pending, 0, 50, 0, reduce, Batch([], {}));
    assert [] + pending[0..] == pending;
  }

  lemma NoExpired(rows: seq<Command>, limit: nat)
    requires forall i :: 0 <= i < |rows| ==> !Expired(rows[i], 0)
    ensures ExpiredPage(rows, 0, limit) == {}
  {}

  lemma {:induction false} NothingHeld(rows: seq<Command>, from: nat)
    requires forall i :: 0 <= i < |rows| ==> !rows[i].status.CoordinatorPending?
    ensures FirstWith(rows, CoordinatorPending, from) == None
    decreases |rows| - from
  {
    if from < |rows| {
      NothingHeld(rows, from + 1);
    }
  }

  /** Command `n` of run `run` as it is queued, or as a poll at time 0 claimed it. */
  function Fresh(n: nat, run: string, status: Status): Command {
    Command(Given(run), run, None, Observe, n, status, if status.Claimed? then Some(60000) else None)
  }

  function Send(run: string): Event {
    Server(Enqueue(Given(run), run, None, Observe, false))
  }

  const PULL: Event := Server(PollCommands(true, true, 0, 60000, 50))

  lemma PlayOne(sys: System, events: seq<Event>, i: nat, reduce: Reducer)
    requires i < |events|
    ensures Play(sys, events[i..], reduce) == Play(Advance1(sys, events[i], reduce), events[i + 1..], reduce)
    ensures i + 1 == |events| ==> Play(sys, events[i..], reduce) == Advance1(sys, events[i], reduce)
  {
    assert events[i..][1..] == events[i + 1..];
  }

  lemma SendAppends(w: World, h: Host, base: nat, run: string, reduce: Reducer)
    ensures Advance1(System(w, h, base), Send(run), reduce)
            == System(w.(rows := w.rows + [Fresh(Latest(w.rows) + 1, run, Pending)]), h, base)
  {}

  lemma PullClaims(w: World, w': World, h: Host, open: set<nat>, pending: seq<nat>, reduce: Reducer)
    requires w.runs == map[]
    requires forall i :: 0 <= i < |w.rows| ==> !Expired(w.rows[i], 0) && !w.rows[i].status.CoordinatorPending?
    requires open == set i: nat | i < |w.rows| && w.rows[i].status.Pending?
    requires pending == Ascending(open, |w.rows|) && |open| < 50 && |pending| <= 50
    requires w' == MarkClaimed(w, pending, 60000)
    ensures Advance1(System(w, h, 0), PULL, reduce) == System(w', h, 0)
  {
    hide Step, MarkClaimed, Ascending;
    PollTakesPending(w, open, pending, reduce);
  }

  const LOST_FIRST: seq<Event> := [Send("a"), PULL, Send("b"), PULL, Deliver(2, 0, false)]

  function Table(rows: seq<Command>, delivered: set<nat>): System {
    System(World(rows, map[], {}, delivered), Host(0, {}), 0)
  }

  lemma PullFirst(reduce: Reducer)
    ensures Advance1(Table([Fresh(1, "a", Pending)], {}), PULL, reduce) == Table([Fresh(1, "a", Claimed)], {0})
  {
    var w := Table([Fresh(1, "a", Pending)], {}).w;
    assert (set i: nat | i < |w.rows| && w.rows[i].status.Pending?) == {0};
    PullClaims(w, Table([Fresh(1, "a", Claimed)], {0}).w, Host(0, {}), {0}, [0], reduce);
  }

  lemma PullSecond(reduce: Reducer)
    ensures Advance1(Table([Fresh(1, "a", Claimed), Fresh(2, "b", Pending)], {0}), PULL, reduce)
            == Table([Fresh(1, "a", Claimed), Fresh(2, "b", Claimed)], {0, 1})
  {
    var w := Table([Fresh(1, "a", Claimed), Fresh(2, "b", Pending)], {0}).w;
    assert (set i: nat | i < |w.rows| && w.rows[i].status.Pending?) == {1};
    assert Ascending({1}, 1) == [];
    PullClaims(w, Table([Fresh(1, "a", Claimed), Fresh(2, "b", Claimed)], {0, 1}).w, Host(0, {}), {1}, [1], reduce);
  }

  lemma LostFirstRun(reduce: Reducer)
    ensures Play(START, LOST_FIRST, reduce)
            == System(World([Fresh(1, "a", Claimed), Fresh(2, "b", Claimed)], map[], {}, {0, 1}), Host(2, {2}), 1)
  {
    hide Step, Play, Floor, FirstWith;
    var h := Host(0, {});
    var s1 := Table([Fresh(1, "a", Pending)], {});
    var s2 := Table([Fresh(1, "a", Claimed)], {0});
    var s3 := Table([Fresh(1, "a", Claimed), Fresh(2, "b", Pending)], {0});
    var s4 := Table([Fresh(1, "a", Claimed), Fresh(2, "b", Claimed)], {0, 1});
    SendAppends(EMPTY, h, 0, "a", reduce);
    assert Advance1(START, LOST_FIRST[0], reduce) == s1;
    PlayOne(START, LOST_FIRST, 0, reduce);
    PullFirst(reduce);
    PlayOne(s1, LOST_FIRST, 1, reduce);
    SendAppends(s2.w, h, 0, "b", reduce);
    assert Advance1(s2, LOST_FIRST[2], reduce) == s3;
    PlayOne(s2, LOST_FIRST, 2, reduce);
    PullSecond(reduce);
    PlayOne(s3, LOST_FIRST, 3, reduce);
    FloorIsExact(s4.w.rows, 0);
    PlayOne(s4, LOST_FIRST, 4, reduce);
    assert LOST_FIRST[0..] == LOST_FIRST;
  }

  /**
   A run from the empty table in which a fresh host skips a command for good: the answer of the poll
   that claimed command 1 is lost, and command 2 is the first one the host sees.
   */
  lemma FreshHostSkipsACommand(reduce: Reducer, crash: bool)
    ensures var sys := Play(START, LOST_FIRST, reduce);
            && |sys.w.rows| == 2 && sys.w.rows[0].status.Claimed? && Floor(sys.w.rows) == 0
            && sys.base == 1 && Receive(sys.h, 1, 0, crash).1.Gap?
  {
    hide Play, Floor;
    LostFirstRun(reduce);
    FloorIsExact(Play(START, LOST_FIRST, reduce).w.rows, 0);
  }

  const LOST_ACK: seq<Event> := [Send("a"), Send("b"), Send("c"), PULL, Server(TerminalEvent("b")), Deliver(1, 0, false)]

  lemma ClaimThree(w: World, w': World)
    requires w == Table([Fresh(1, "a", Pending), Fresh(2, "b", Pending), Fresh(3, "c", Pending)], {}).w
    requires w' == Table([Fresh(1, "a", Claimed), Fresh(2, "b", Claimed), Fresh(3, "c", Claimed)], {0, 1, 2}).w
    ensures MarkClaimed(w, [0, 1, 2], 60000) == w'
    ensures (set i: nat | i < |w.rows| && w.rows[i].status.Pending?) == {0, 1, 2}
  {
    var m := MarkClaimed(w, [0, 1, 2], 60000);
    assert (set i | i in [0, 1, 2]) == {0, 1, 2};
    assert forall i :: 0 <= i < 3 ==> m.rows[i] == w'.rows[i];
    assert m.rows == w'.rows;
  }

  lemma PullThree(reduce: Reducer)
    ensures Advance1(Table([Fresh(1, "a", Pending), Fresh(2, "b", Pending), Fresh(3, "c", Pending)], {}), PULL, reduce)
            == Table([Fresh(1, "a", Claimed), Fresh(2, "b", Claimed), Fresh(3, "c", Claimed)], {0, 1, 2})
  {
    hide Advance1, MarkClaimed, Ascending;
    var w := Table([Fresh(1, "a", Pending), Fresh(2, "b", Pending), Fresh(3, "c", Pending)], {}).w;
    var w' := Table([Fresh(1, "a", Claimed), Fresh(2, "b", Claimed), Fresh(3, "c", Claimed)], {0, 1, 2}).w;
    ClaimThree(w, w');
    AscendingThree();
    assert forall i :: 0 <= i < |w.rows| ==> w.rows[i].status.Pending?;
    PullClaims(w, w', Host(0, {}), {0, 1, 2}, [0, 1, 2], reduce);
  }

  lemma LostAckRun(reduce: Reducer)
    ensures Play(START, LOST_ACK, reduce)
            == System(World([Fresh(1, "a", Claimed), Fresh(2, "b", Acknowledged), Fresh(3, "c", Claimed)], map[], {}, {0, 1, 2}),
                      Host(1, {1}), 0)
  {
    hide Step, Play, Floor, FirstWith;
    var h := Host(0, {});
    var s1 := Table([Fresh(1, "a", Pending)], {});
    var s2 := Table([Fresh(1, "a", Pending), Fresh(2, "b", Pending)], {});
    var s3 := Table([Fresh(1, "a", Pending), Fresh(2, "b", Pending), Fresh(3, "c", Pending)], {});
    var s4 := Table([Fresh(1, "a", Claimed), Fresh(2, "b", Claimed), Fresh(3, "c", Claimed)], {0, 1, 2});
    var s5 := Table([Fresh(1, "a", Claimed), Fresh(2, "b", Acknowledged), Fresh(3, "c", Claimed)], {0, 1, 2});
    SendAppends(EMPTY, h, 0, "a", reduce);
    assert Advance1(START, LOST_ACK[0], reduce) == s1;
    PlayOne(START, LOST_ACK, 0, reduce);
    SendAppends(s1.w, h, 0, "b", reduce);
    assert Advance1(s1, LOST_ACK[1], reduce) == s2;
    PlayOne(s1, LOST_ACK, 1, reduce);
    SendAppends(s2.w, h, 0, "c", reduce);
    assert Advance1(s2, LOST_ACK[2], reduce) == s3;
    PlayOne(s2, LOST_ACK, 2, reduce);
    PullThree(reduce);
    PlayOne(s3, LOST_ACK, 3, reduce);
    FinishMiddle(s4.w, s5.w, reduce);
    PlayOne(s4, LOST_ACK, 4, reduce);
    FloorIsExact(s5.w.rows, 0);
    PlayOne(s5, LOST_ACK, 5, reduce);
    assert LOST_ACK[0..] == LOST_ACK;
  }

  lemma AscendingThree()
    ensures Ascending({0, 1, 2}, 3) == [0, 1, 2]
  {
    assert Ascending({0, 1, 2}, 1) == [0];
    assert Ascending({0, 1, 2}, 2) == [0, 1];
  }

  lemma FinishMiddle(w: World, w': World, reduce: Reducer)
    requires w.rows == [Fresh(1, "a", Claimed), Fresh(2, "b", Claimed), Fresh(3, "c", Claimed)]
    requires w' == w.(rows := w.rows[1 := Fresh(2, "b", Acknowledged)])
    ensures Step(w, TerminalEvent("b"), reduce) == w'
  {
    assert (set j: nat | 0 <= j < 1 && w.rows[j].runId == "b") == {};
  }

  /**
   A run in which a host that skipped nothing refuses a command: the acknowledgement of command 1 is
   lost, and command 2 was resolved by the terminal event of its run before the host saw it.
   */
  lemma GapWhileAcknowledgementIsLost(reduce: Reducer, crash: bool)
    ensures var sys := Play(START, LOST_ACK, reduce);
            && |sys.w.rows| == 3 && !Resolved(sys.w.rows[2]) && Floor(sys.w.rows) == 0 && sys.base == 0
            && Receive(sys.h, 3, 0, crash) == (sys.h, Gap)
  {
    hide Play, Floor;
    LostAckRun(reduce);
    FloorIsExact(Play(START, LOST_ACK, reduce).w.rows, 0);
  }

  /** Processing the lowest open command and having the answer recorded raises the floor. */
  lemma RoundTripRaisesFloor(sys: System, now: nat, reduce: Reducer)
    requires Inv(sys.w) && InSync(sys) && sys.base <= Floor(sys.w.rows) < |sys.w.rows|
    requires Find(sys.w.rows, sys.w.rows[Floor(sys.w.rows)].id, 0) == Some(Floor(sys.w.rows))
    ensures var k := Floor(sys.w.rows);
            var (h', reply) := Receive(sys.h, k + 1, k, false);
            && (reply.Taken? || reply.Replayed?) && k + 1 in h'.processed
            && Floor(Acknowledge(sys.w, sys.w.rows[k].id, Accepted, now, reduce).0.rows) > k
  {
    var w, k := sys.w, Floor(sys.w.rows);
    FloorIsExact(w.rows, k);
    var w' := Acknowledge(w, w.rows[k].id, Accepted, now, reduce).0;
    AcknowledgeIsQuiet(w, w.rows[k].id, Accepted, now, reduce);
    QuietKeepsInv(w, w');
    FloorIsExact(w'.rows, Floor(w'.rows));
    var c := w.rows[k];
    if c.runId in w.runs && w.runs[c.runId].lifecycle.Some? {
      ApplyFactIsCalm(SetStatus(w, k, Acknowledged), c.runId, w.runs[c.runId].lifecycle.value, DecisionDelivered, now, reduce);
    }
    assert Resolved(w'.rows[k]);
  }

  // ----- the legacy retry, which reopens rows ---------------------------------------------------

  /** A retried legacy run puts its unacknowledged commands back to pending, cancelled ones included. */
  function Retry(w: World, runId: string): World {
    w.(rows := seq(|w.rows|, i requires 0 <= i < |w.rows| =>
      if InRunPage(w.rows, runId, i) && !w.rows[i].status.Acknowledged?
      then w.rows[i].(status := Pending, claimExpiresAt := None) else w.rows[i]))
  }

  /** The retry lowers the floor exactly when it reopens a cancelled command at or below it. */
  lemma RetryLowersFloorExactly(w: World, runId: string)
    requires Dense(w.rows)
    ensures Floor(Retry(w, runId).rows) < Floor(w.rows)
            <==> exists i :: 0 <= i < Floor(w.rows) <= |w.rows| && InRunPage(w.rows, runId, i) && w.rows[i].status.Cancelled?
  {
    var w' := Retry(w, runId);
    var (k, k') := (Floor(w.rows), Floor(w'.rows));
    FloorIsExact(w.rows, k);
    FloorIsExact(w'.rows, k');
    if k' < k {
      assert Resolved(w.rows[k']) && !Resolved(w'.rows[k']);
      assert InRunPage(w.rows, runId, k') && w.rows[k'].status.Cancelled?;
    } else {
      forall i | 0 <= i < k
        ensures !(InRunPage(w.rows, runId, i) && w.rows[i].status.Cancelled?)
      {
        assert Resolved(w'.rows[i]);
      }
    }
  }

  /** A run from the empty table: a command is queued, the environment is stopped, and the retry lowers the floor from 1 to 0. */
  lemma RetryLowersFloor(reduce: Reducer)
    ensures var w := CommandStream.Run(EMPTY, [Send("a").a, StopEnvironment(0)], reduce);
            Floor(w.rows) == 1 && Floor(Retry(w, "a").rows) == 0
  {
    hide Floor, FirstWith;
    var actions := [Send("a").a, StopEnvironment(0)];
    var w1 := World([Fresh(1, "a", Pending)], map[], {}, {});
    var row := Fresh(1, "a", Pending).(status := Cancelled, claimExpiresAt := Some(0));
    var w2 := World([row], map[], {}, {});
    assert Step(EMPTY, actions[0], reduce) == w1;
    assert Step(w1, actions[1], reduce) == w2;
    assert actions[1..] == [actions[1]] && actions[1..][1..] == [];
    assert CommandStream.Run(w1, actions[1..], reduce) == CommandStream.Run(w2, [], reduce) == w2;
    assert InRunPage(w2.rows, "a", 0);
    FloorIsExact(w2.rows, 1);
    FloorIsExact(Retry(w2, "a").rows, 0);
  }
}
