/**
 How long a replaced version is kept. Its ticket waits a day, but the object's own upload left a ticket of
 its own, which knows nothing of that day.
 */
module DriveRetention {
  import opened Common
  import opened Drive
  import opened DriveWrites
  import opened DriveObjects
  import T = DriveTree

  /** Bytes that no file points to, that were not given out, and that no ticket gives out before `until`. */
  ghost predicate Dormant(w: World, s: Source, until: nat) {
    && !s.Inline? && Known(w, s) && s !in w.handed
    && (forall i :: 0 <= i < |w.files| ==> w.files[i].source != s)
    && (forall t :: t in w.tickets && w.tickets[t].source == s ==> until <= w.tickets[t].nextAttemptAt)
    && (s.Object? && s.key in w.uploads ==> w.uploads[s.key].result.Some?)
  }

  lemma CleanKeepsDormant(w: World, t: nat, claim: string, now: nat, s: Source, until: nat)
    requires Dormant(w, s, until) && t in w.tickets && w.tickets[t].source != s
    ensures Dormant(CleanTicket(w, t, claim, now), s, until)
  {
    hide Referenced;
  }

  lemma {:induction false} CleanAllKeepsDormant(w: World, due: seq<nat>, claim: string, now: nat, s: Source, until: nat)
    requires Dormant(w, s, until) && now < until
    ensures Dormant(CleanTickets(w, due, claim, now), s, until)
    decreases |due|
  {
    hide CleanTicket;
    if due != [] {
      var t := due[0];
      if t in w.tickets && w.tickets[t].nextAttemptAt <= now {
        CleanKeepsDormant(w, t, claim, now, s, until);
        CleanAllKeepsDormant(CleanTicket(w, t, claim, now), due[1..], claim, now, s, until);
      } else {
        CleanAllKeepsDormant(w, due[1..], claim, now, s, until);
      }
    }
  }

  /** A commit publishes only the object of its own pending upload, and retires only what a file had. */
  lemma CommitKeepsDormant(w: World, q: CommitRequest, c: Caller, e: Env, now: nat, s: Source, until: nat)
    requires Dormant(w, s, until)
    ensures Dormant(Commit(w, q, c, e, now).0, s, until)
  {
    hide Commit, PlanCommit, Promote;
    CommitShape(w, q, c, e, now);
    var w' := Commit(w, q, c, e, now).0;
    if w' != w {
      var u := w.uploads[q.upload];
      var p := PlanCommit(w, u, q, c, e).value;
      if InPlace(u, p) {
        PromoteKeepsSources(w.files, Existing(u).value, NewRevision(w, u, now));
      }
    }
  }

  lemma IntentKeepsDormant(w: World, q: IntentRequest, c: Caller, e: Env, now: nat, s: Source, until: nat)
    requires Dormant(w, s, until) && Allocated(w)
    ensures Dormant(Intent(w, q, c, e, now).0, s, until)
  {
    IntentShape(w, q, c, e, now);
    hide Intent;
    var w' := Intent(w, q, c, e, now).0;
    if !FewerRows(w, w') {
      OpenedKeepsDormant(w, w', c.fence, e, s, until);
    }
  }

  lemma OpenedKeepsDormant(w: World, w': World, fence: string, e: Env, s: Source, until: nat)
    requires Dormant(w, s, until) && Allocated(w) && Opened(w, w', fence, e)
    ensures Dormant(w', s, until)
  {
    forall t | t in w'.tickets && w'.tickets[t].source == s
      ensures until <= w'.tickets[t].nextAttemptAt
    {
      assert t in w.tickets;
    }
  }

  lemma StepKeepsDormant(w: World, a: Action, e: Env, now: nat, s: Source, until: nat)
    requires Dormant(w, s, until) && Allocated(w) && now < until
    ensures Dormant(Step(w, a, e, now), s, until)
  {
    hide Intent, Commit, ApplyChange, CleanTickets, Referenced, Allocated;
    match a
    case OpenIntent(q, c) => IntentKeepsDormant(w, q, c, e, now, s, until);
    case CommitUpload(q, c) => CommitKeepsDormant(w, q, c, e, now, s, until);
    case ChangeMeta(q, c) => ChangeKeepsSources(w, q, c, e, now);
    case Clean(due, claim) => CleanAllKeepsDormant(w, due, claim, now, s, until);
    case _ =>
  }

  lemma {:induction false} RunKeepsDormant(c: Clocked, actions: seq<Timed>, e: Env, s: Source, until: nat)
    requires Inv(c.world, e, c.clock) && Dormant(c.world, s, until) && Run(c, actions, e).clock < until
    ensures Dormant(Run(c, actions, e).world, s, until)
    decreases |actions|
  {
    hide Step, Inv, Dormant, Allocated;
    if actions != [] {
      var now := Max(c.clock, actions[0].at);
      ClockGrows(Next(c, actions[0], e), actions[1..], e);
      LaterKeepsInv(c.world, e, c.clock, now);
      assert Allocated(c.world) by { InvAllocates(c.world, e, now); }
      StepKeepsInv(c.world, actions[0].action, e, now);
      StepKeepsDormant(c.world, actions[0].action, e, now, s, until);
      RunKeepsDormant(Next(c, actions[0], e), actions[1..], e, s, until);
    }
  }

  lemma InvAllocates(w: World, e: Env, now: nat)
    requires Inv(w, e, now)
    ensures Allocated(w)
  {}

  // ----- a replaced version ------------------------------------------------------------------------------

  /** What a replace in place leaves of the old version: its bytes, in nobody's file, with one more ticket that waits a day. */
  lemma ReplacedIsRetired(w: World, q: CommitRequest, c: Caller, e: Env, now: nat)
    requires Inv(w, e, now) && T.Replaces(w, q, c, e, now)
    ensures var (w', r) := (Commit(w, q, c, e, now).0, Commit(w, q, c, e, now).1);
            && r.Done? && r.value.file < |w.files|
            && var s := w.files[r.value.file].source;
               !s.Inline? ==>
                 && (forall i :: 0 <= i < |w'.files| ==> w'.files[i].source != s)
                 && w'.tickets.Keys == w.tickets.Keys + {w.nextTicket} && w.nextTicket !in w.tickets
                 && (forall t :: t in w.tickets ==> w'.tickets[t] == w.tickets[t])
                 && w'.tickets[w.nextTicket].source == s && w'.tickets[w.nextTicket].nextAttemptAt == r.value.revision + 86400000
                 && r.value.revision >= now && w'.handed == w.handed && s !in w.handed && Known(w', s)
                 && (s.Object? && s.key in w'.uploads ==> w'.uploads[s.key].result.Some?)
  {
    T.ReplacesExactly(w, q, c, e, now);
    hide Commit, PlanCommit, Promote, T.Replaces;
    CommitShape(w, q, c, e, now);
    var u := w.uploads[q.upload];
    PlannedExists(w, u, q, c, e);
    var f := u.op.file;
    PromoteKeepsSources(w.files, f, NewRevision(w, u, now));
    assert Reserved(w, q.upload, e, now);
    var s := w.files[f].source;
    if s.Object? {
      assert Reserved(w, s.key, e, now);
    }
  }

  /**
   A replaced version is kept for a day in every run exactly when no other ticket for its bytes comes due
   within that day. The ticket that its own upload left, due a day after that execution's deadline, does
   when the replace comes later than that deadline and before the ticket was cleaned up.
   */
  lemma ReplacedIsKeptExactly(w: World, q: CommitRequest, c: Caller, e: Env, now: nat)
    requires Inv(w, e, now) && T.Replaces(w, q, c, e, now)
    requires !w.files[w.uploads[q.upload].op.file].source.Inline?
    ensures var (w', r) := (Commit(w, q, c, e, now).0, Commit(w, q, c, e, now).1.value);
            var (s, until) := (w.files[w.uploads[q.upload].op.file].source, r.revision + 86400000);
            (forall actions :: Run(Clocked(w', now), actions, e).clock < until ==> s !in Run(Clocked(w', now), actions, e).world.handed)
            <==> (forall t :: t in w.tickets && w.tickets[t].source == s ==> until <= w.tickets[t].nextAttemptAt)
  {
    T.ReplacesExactly(w, q, c, e, now);
    ReplacedIsRetired(w, q, c, e, now);
    CommitKeepsInv(w, q, c, e, now);
    CommittedFile(w, q, c, e, now);
    hide Commit, T.Replaces, Inv, Run;
    var (w', r) := (Commit(w, q, c, e, now).0, Commit(w, q, c, e, now).1.value);
    var (s, until) := (w.files[w.uploads[q.upload].op.file].source, r.revision + 86400000);
    if forall t :: t in w.tickets && w.tickets[t].source == s ==> until <= w.tickets[t].nextAttemptAt {
      assert Dormant(w', s, until);
      forall actions | Run(Clocked(w', now), actions, e).clock < until
        ensures s !in Run(Clocked(w', now), actions, e).world.handed
      {
        RunKeepsDormant(Clocked(w', now), actions, e, s, until);
      }
    } else {
      var t :| t in w.tickets && w.tickets[t].source == s && w.tickets[t].nextAttemptAt < until;
      GoesWhenDue(w', t, now, e);
      var actions := [Timed(Clean([t], ""), w'.tickets[t].nextAttemptAt)];
      assert Run(Clocked(w', now), actions, e).clock < until && s in Run(Clocked(w', now), actions, e).world.handed;
    }
  }

  lemma CommittedFile(w: World, q: CommitRequest, c: Caller, e: Env, now: nat)
    requires T.Replaces(w, q, c, e, now)
    ensures Commit(w, q, c, e, now).1.Done? && Commit(w, q, c, e, now).1.value.file == w.uploads[q.upload].op.file
  {
    T.ReplacesExactly(w, q, c, e, now);
    hide Commit, PlanCommit, Promote, T.Replaces;
    CommitShape(w, q, c, e, now);
  }

  /** Bytes nobody points to go as soon as any ticket for them is cleaned up. */
  lemma GoesWhenDue(w: World, t: nat, clock: nat, e: Env)
    requires t in w.tickets && !w.tickets[t].source.Inline?
    requires forall i :: 0 <= i < |w.files| ==> w.files[i].source != w.tickets[t].source
    ensures var due := w.tickets[t].nextAttemptAt;
            var after := Run(Clocked(w, clock), [Timed(Clean([t], ""), due)], e);
            after.clock == Max(clock, due) && w.tickets[t].source in after.world.handed
  {
    var due := w.tickets[t].nextAttemptAt;
    var now := Max(clock, due);
    assert !Referenced(w.files, w.tickets[t].source);
    assert CleanTickets(w, [t], "", now) == CleanTicket(w, t, "", now) by {
      assert [t][1..] == [];
    }
  }

  // ----- a version that goes early -------------------------------------------------------------------------

  /** Two executions that may write: the first one is over at 30, the second at 90. */
  predicate Writers(a: Caller, b: Caller, e: Env) {
    && a.live && a.run == "r" && a.fence == "f" && e.deadline("f") == 30 && a.creates && a.space && a.actor == "ada"
    && b.live && b.run == "s" && b.fence == "g" && e.deadline("g") == 90 && b.edits(0) && b.space
    && e.safe("n")
  }

  const FIRST: Upload := Upload("r", "q", "f", CreateFile("n", None), "ada", "n", None, "x", 1, "t", 20, None)
  const SECOND: Upload := Upload("s", "q", "g", ReplaceFile(0, "n", 1), "ada", "n", None, "y", 1, "t", 60, None)
  const SHEET: File := File("ada", "n", None, false, OtherKind, 1, false, Object(1), 1, "x", None)

  /** The first execution creates a file, the second replaces it at 40, and the cleanup comes a day after 30. */
  function Early(a: Caller, b: Caller): seq<Timed> {
    [Timed(OpenIntent(IntentRequest("q", CreateFile("n", None), "x", 1, "t", 20, true), a), 1),
     Timed(CommitUpload(CommitRequest(1, "x", 1, None, true), a), 1),
     Timed(OpenIntent(IntentRequest("q", ReplaceFile(0, "n", 1), "y", 1, "t", 60, true), b), 40),
     Timed(CommitUpload(CommitRequest(3, "y", 1, None, true), b), 40),
     Timed(Clean([1], ""), 30 + DAY_MS)]
  }

  /** The ticket the first upload left for its object. */
  predicate OwnTicket(w: World) {
    1 in w.tickets && w.tickets[1].source == Object(1) && w.tickets[1].nextAttemptAt == 30 + DAY_MS
  }

  lemma OpenFirst(a: Caller, b: Caller, e: Env)
    requires Writers(a, b, e)
    ensures var w := Step(EMPTY, Early(a, b)[0].action, e, 1);
            w.files == [] && w.uploads == map[1 := FIRST] && w.nextKey == 2 && w.nextTicket == 2 && OwnTicket(w)
  {}

  lemma CommitFirst(w: World, a: Caller, b: Caller, e: Env)
    requires Writers(a, b, e) && w.files == [] && w.uploads == map[1 := FIRST] && OwnTicket(w)
    ensures var w' := Step(w, Early(a, b)[1].action, e, 1);
            && w'.files == [SHEET] && w'.uploads.Keys == {1} && w'.uploads[1].run == "r"
            && w'.nextKey == w.nextKey && w'.nextTicket == w.nextTicket && w'.tickets == w.tickets
  {
    assert !Taken(w.files, "n", None, None, e);
    assert PlanCommit(w, FIRST, CommitRequest(1, "x", 1, None, true), a, e) == Done(Plan("n", false));
  }

  lemma OpenSecond(w: World, a: Caller, b: Caller, e: Env)
    requires Writers(a, b, e) && w.files == [SHEET] && w.uploads.Keys == {1} && w.uploads[1].run == "r"
    requires w.nextKey == 2 && w.nextTicket == 2 && OwnTicket(w)
    ensures var w' := Step(w, Early(a, b)[2].action, e, 40);
            w'.files == [SHEET] && 3 in w'.uploads && w'.uploads[3] == SECOND && w'.nextTicket == 4 && OwnTicket(w')
  {
    assert AtPath(w.files, 0, "n");
    assert FindPrior(w.uploads, "s", "q", 0, 2) == FindPrior(w.uploads, "s", "q", 1, 2) == FindPrior(w.uploads, "s", "q", 2, 2);
  }

  lemma CommitSecond(w: World, a: Caller, b: Caller, e: Env)
    requires Writers(a, b, e) && w.files == [SHEET] && 3 in w.uploads && w.uploads[3] == SECOND && w.nextTicket == 4 && OwnTicket(w)
    ensures var w' := Step(w, Early(a, b)[3].action, e, 40);
            && |w'.files| == 1 && w'.files[0].source == Object(3) && w'.files[0].revision == 40 && OwnTicket(w')
  {
    assert AtPath(w.files, 0, "n");
    assert PlanCommit(w, SECOND, CommitRequest(3, "y", 1, None, true), b, e) == Done(Plan("n", false));
    PromoteShape(w.files, 0, 40);
  }

  /** The version that was replaced at 40 is given out for deletion before a day has passed. */
  lemma VersionGoesEarly(a: Caller, b: Caller, e: Env)
    requires Writers(a, b, e)
    ensures Run(Clocked(EMPTY, 0), Early(a, b)[..2], e).world.files == [SHEET]
    ensures var s := Run(Clocked(EMPTY, 0), Early(a, b)[..4], e); |s.world.files| == 1 && s.world.files[0].revision == 40
    ensures var s := Run(Clocked(EMPTY, 0), Early(a, b), e); s.clock < 40 + DAY_MS && SHEET.source in s.world.handed
  {
    hide Step;
    var r, s0 := Early(a, b), Clocked(EMPTY, 0);
    var s1 := Next(s0, r[0], e);
    var s2 := Next(s1, r[1], e);
    var s3 := Next(s2, r[2], e);
    var s4 := Next(s3, r[3], e);
    OpenFirst(a, b, e);
    CommitFirst(s1.world, a, b, e);
    OpenSecond(s2.world, a, b, e);
    CommitSecond(s3.world, a, b, e);
    GoesWhenDue(s4.world, 1, s4.clock, e);
    RunUpTo(s0, r, 0, e);
    RunUpTo(s0, r, 1, e);
    RunUpTo(s0, r, 2, e);
    RunUpTo(s0, r, 3, e);
    RunUpTo(s0, r, 4, e);
    assert r[..0] == [] && r[..5] == r;
    assert [r[4]][1..] == [];
  }
}
