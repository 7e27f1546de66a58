/** An object given out for deletion is not referenced by any file, and never will be. */
module DriveObjects {
  import opened Common
  import opened Drive
  import opened DriveWrites

  /** The key is spoken for: it was allocated. */
  predicate Known(w: World, s: Source) {
    match s
    case Inline => true
    case Object(k) => k < w.nextKey
    case Convex(k) => k < w.nextKey
  }

  ghost predicate Allocated(w: World) {
    && (forall i :: 0 <= i < |w.files| ==> Known(w, w.files[i].source))
    && (forall t :: t in w.tickets ==> t < w.nextTicket && Known(w, w.tickets[t].source) && !w.tickets[t].source.Inline?)
    && (forall k :: k in w.uploads ==> k < w.nextKey)
    && (forall s :: s in w.handed ==> Known(w, s) && !s.Inline?)
  }

  /** No two files share stored bytes, and none points to bytes that were given out for deletion. */
  ghost predicate Owned(w: World) {
    && (forall i, j :: 0 <= i < j < |w.files| && !w.files[i].source.Inline? ==> w.files[i].source != w.files[j].source)
    && (forall i :: 0 <= i < |w.files| ==> w.files[i].source !in w.handed)
  }

  function Release(fence: string, e: Env): nat {
    e.deadline(fence) + DAY_MS
  }

  /** The object a pending upload may still publish: nobody has it, and its cleanup waits until the execution is over for a day. */
  ghost predicate Reserved(w: World, k: nat, e: Env, clock: nat) {
    k in w.uploads && w.uploads[k].result.None? ==>
      && (forall i :: 0 <= i < |w.files| ==> w.files[i].source != Object(k))
      && (Object(k) in w.handed ==> Release(w.uploads[k].fence, e) <= clock)
      && (forall t :: t in w.tickets && w.tickets[t].source == Object(k) ==> Release(w.uploads[k].fence, e) <= w.tickets[t].nextAttemptAt)
  }

  ghost predicate Inv(w: World, e: Env, clock: nat) {
    Allocated(w) && Owned(w) && forall k :: Reserved(w, k, e, clock)
  }

  lemma LaterKeepsInv(w: World, e: Env, clock: nat, later: nat)
    requires Inv(w, e, clock) && clock <= later
    ensures Inv(w, e, later)
  {
    forall k: nat
      ensures Reserved(w, k, e, later)
    {
      assert Reserved(w, k, e, clock);
    }
  }

  // ----- cleanup -------------------------------------------------------------------------------------------

  /** A due ticket goes, or is put off. */
  lemma PutOffKeepsInv(w: World, t: nat, row: Ticket, e: Env, now: nat)
    requires Inv(w, e, now) && t in w.tickets && row.source == w.tickets[t].source && row.nextAttemptAt >= w.tickets[t].nextAttemptAt
    ensures Inv(w.(tickets := w.tickets[t := row]), e, now)
  {
    var w' := w.(tickets := w.tickets[t := row]);
    assert Allocated(w') && Owned(w');
    forall k: nat
      ensures Reserved(w', k, e, now)
    {
      assert Reserved(w, k, e, now);
    }
  }

  /** Bytes nobody points to are given out by a due ticket. */
  lemma HandOutKeepsInv(w: World, t: nat, e: Env, now: nat)
    requires Inv(w, e, now) && t in w.tickets && w.tickets[t].nextAttemptAt <= now
    requires forall i :: 0 <= i < |w.files| ==> w.files[i].source != w.tickets[t].source
    ensures Inv(w.(handed := w.handed + {w.tickets[t].source}), e, now)
  {
    var w' := w.(handed := w.handed + {w.tickets[t].source});
    assert Allocated(w') && Owned(w');
    forall k: nat
      ensures Reserved(w', k, e, now)
    {
      assert Reserved(w, k, e, now);
    }
  }

  lemma UnreferencedNowhere(files: seq<File>, s: Source)
    requires !Referenced(files, s) && !s.Inline?
    ensures forall i :: 0 <= i < |files| ==> files[i].source != s
  {}

  lemma CleanKeepsInv(w: World, t: nat, claim: string, e: Env, now: nat)
    requires Inv(w, e, now) && t in w.tickets && w.tickets[t].nextAttemptAt <= now
    ensures Inv(CleanTicket(w, t, claim, now), e, now)
  {
    var row, w' := w.tickets[t], CleanTicket(w, t, claim, now);
    assert !row.source.Inline?;
    hide Inv, Referenced;
    if Referenced(w.files, row.source) {
      if row.purpose.Uncommitted? {
        FewerRowsKeepInv(w, w', e, now);
      } else {
        PutOffKeepsInv(w, t, w'.tickets[t], e, now);
      }
    } else {
      UnreferencedNowhere(w.files, row.source);
      HandOutKeepsInv(w, t, e, now);
      var given := w.(handed := w.handed + {row.source});
      if row.source.Convex? {
        FewerRowsKeepInv(given, w', e, now);
      } else {
        PutOffKeepsInv(given, t, w'.tickets[t], e, now);
      }
    }
  }

  lemma {:induction false} CleanAllKeepsInv(w: World, due: seq<nat>, claim: string, e: Env, now: nat)
    requires Inv(w, e, now)
    ensures Inv(CleanTickets(w, due, claim, now), e, now)
    decreases |due|
  {
    hide Inv, CleanTicket;
    if due != [] {
      var t := due[0];
      if t in w.tickets && w.tickets[t].nextAttemptAt <= now {
        CleanKeepsInv(w, t, claim, e, now);
        CleanAllKeepsInv(CleanTicket(w, t, claim, now), due[1..], claim, e, now);
      } else {
        CleanAllKeepsInv(w, due[1..], claim, e, now);
      }
    }
  }

  /** Rows that only go away. */
  ghost predicate FewerRows(w: World, w': World) {
    && w'.files == w.files && w'.handed == w.handed && w'.nextKey == w.nextKey && w'.nextTicket == w.nextTicket
    && (forall t :: t in w'.tickets ==> t in w.tickets && w'.tickets[t] == w.tickets[t])
    && (forall k :: k in w'.uploads ==> k in w.uploads && w'.uploads[k].fence == w.uploads[k].fence && w'.uploads[k].result == w.uploads[k].result)
  }

  lemma FewerRowsKeepInv(w: World, w': World, e: Env, now: nat)
    requires Inv(w, e, now) && FewerRows(w, w')
    ensures Inv(w', e, now)
  {
    assert Allocated(w') && Owned(w');
    forall k: nat
      ensures Reserved(w', k, e, now)
    {
      assert Reserved(w, k, e, now);
    }
  }

  // ----- uploads --------------------------------------------------------------------------------------------

  /** Two fresh keys, each with a ticket that waits for the execution to be over, and an upload for the second. */
  ghost predicate Opened(w: World, w': World, fence: string, e: Env) {
    var final := w.nextKey + 1;
    && w'.files == w.files && w'.handed == w.handed && w'.nextKey == w.nextKey + 2 && w'.nextTicket == w.nextTicket + 2
    && w'.uploads.Keys == w.uploads.Keys + {final} && w'.uploads[final].fence == fence
    && (forall k :: k in w.uploads && k != final ==> w'.uploads[k] == w.uploads[k])
    && w'.tickets.Keys == w.tickets.Keys + {w.nextTicket, w.nextTicket + 1}
    && (forall t :: t in w.tickets && t < w.nextTicket ==> w'.tickets[t] == w.tickets[t])
    && (forall t :: w.nextTicket <= t <= w.nextTicket + 1 ==>
          (w'.tickets[t].source == Object(w.nextKey) || w'.tickets[t].source == Object(final))
          && w'.tickets[t].nextAttemptAt == Release(fence, e))
  }

  lemma OpenUploadShape(w: World, q: IntentRequest, c: Caller, e: Env, now: nat)
    ensures var w' := OpenUpload(w, q, c, e, now).0; w' == w || Opened(w, w', c.fence, e)
  {
    hide Target, ParentError;
  }

  lemma IntentShape(w: World, q: IntentRequest, c: Caller, e: Env, now: nat)
    ensures var w' := Intent(w, q, c, e, now).0; FewerRows(w, w') || Opened(w, w', c.fence, e)
  {
    OpenUploadShape(w, q, c, e, now);
    hide OpenUpload, Opened, FindPrior, Authorized, SameWrite;
  }

  lemma IntentKeepsInv(w: World, q: IntentRequest, c: Caller, e: Env, now: nat)
    requires Inv(w, e, now)
    ensures Inv(Intent(w, q, c, e, now).0, e, now)
  {
    hide Intent, Inv, Opened, FewerRows;
    IntentShape(w, q, c, e, now);
    var w' := Intent(w, q, c, e, now).0;
    if FewerRows(w, w') {
      FewerRowsKeepInv(w, w', e, now);
    } else {
      OpenKeepsInv(w, w', c.fence, e, now);
    }
  }

  lemma OpenKeepsReserved(w: World, w': World, fence: string, e: Env, now: nat, k: nat)
    requires Allocated(w) && Reserved(w, k, e, now) && Opened(w, w', fence, e)
    ensures Reserved(w', k, e, now)
  {}

  lemma OpenKeepsOwned(w: World, w': World, fence: string, e: Env)
    requires Allocated(w) && Owned(w) && Opened(w, w', fence, e)
    ensures Allocated(w') && Owned(w')
  {}

  lemma OpenKeepsInv(w: World, w': World, fence: string, e: Env, now: nat)
    requires Inv(w, e, now) && Opened(w, w', fence, e)
    ensures Inv(w', e, now)
  {
    hide Allocated, Owned, Opened, Reserved;
    OpenKeepsOwned(w, w', fence, e);
    forall k: nat
      ensures Reserved(w', k, e, now)
    {
      assert Reserved(w, k, e, now);
      OpenKeepsReserved(w, w', fence, e, now, k);
    }
  }

  /** Publishing a reserved object, or nothing, in one file; what the file had gets a ticket. */
  lemma PublishKeepsInv(w: World, w': World, k: nat, f: nat, e: Env, now: nat)
    requires Inv(w, e, now) && k in w.uploads && w.uploads[k].result.None? && now < Release(w.uploads[k].fence, e)
    requires f < |w'.files| && |w.files| <= |w'.files| <= |w.files| + 1 && (|w'.files| > |w.files| ==> f == |w.files|)
    requires forall i :: 0 <= i < |w.files| && i != f ==> w'.files[i].source == w.files[i].source
    requires w'.files[f].source == Object(k) || w'.files[f].source == Inline
    requires w'.handed == w.handed && w'.nextKey == w.nextKey && w'.nextTicket >= w.nextTicket
    requires w'.uploads.Keys == w.uploads.Keys && w'.uploads[k].result.Some? && forall x :: x in w.uploads && x != k ==> w'.uploads[x] == w.uploads[x]
    requires forall t :: t in w'.tickets ==>
               (t in w.tickets && w'.tickets[t] == w.tickets[t])
               || (w.nextTicket <= t < w'.nextTicket && f < |w.files| && !w.files[f].source.Inline? && w'.tickets[t].source == w.files[f].source)
    ensures Inv(w', e, now)
  {
    assert Reserved(w, k, e, now);
    assert Allocated(w');
    assert Owned(w');
    forall x: nat
      ensures Reserved(w', x, e, now)
    {
      assert Reserved(w, x, e, now);
    }
  }

  lemma PromoteKeepsSources(files: seq<File>, f: nat, now: nat)
    requires f < |files|
    ensures |Promote(files, f, now)| == |files| && forall i :: 0 <= i < |files| ==> Promote(files, f, now)[i].source == files[i].source
  {
    PromoteShape(files, f, now);
  }

  lemma CommitKeepsInv(w: World, q: CommitRequest, c: Caller, e: Env, now: nat)
    requires Inv(w, e, now)
    ensures Inv(Commit(w, q, c, e, now).0, e, now)
  {
    hide Commit, PlanCommit, Promote, Inv;
    CommitShape(w, q, c, e, now);
    var w' := Commit(w, q, c, e, now).0;
    if w' != w {
      var u := w.uploads[q.upload];
      var p := PlanCommit(w, u, q, c, e).value;
      var f := if InPlace(u, p) then Existing(u).value else |w.files|;
      if InPlace(u, p) {
        PromoteKeepsSources(w.files, f, NewRevision(w, u, now));
      }
      PublishKeepsInv(w, w', q.upload, f, e, now);
    }
  }

  /** A change gives no file other bytes, and a new folder has none. */
  lemma ChangeKeepsSources(w: World, q: ChangeRequest, c: Caller, e: Env, now: nat)
    ensures var w' := ApplyChange(w, q, c, e, now).0;
            && |w.files| <= |w'.files|
            && (forall i :: 0 <= i < |w'.files| ==> w'.files[i].source == if i < |w.files| then w.files[i].source else Inline)
            && w'.uploads == w.uploads && w'.tickets == w.tickets && w'.handed == w.handed && w'.nextKey == w.nextKey && w'.nextTicket == w.nextTicket
  {
    hide ParentError, Taken, PathFrom, HasChildren, Promote, RowError;
    match q.change
    case Mkdir(_, _) =>
    case Move(f, path, base, _, _) =>
      RowInRange(w, f, path, base, c);
    case Remove(f, path, base) =>
      RowInRange(w, f, path, base, c);
      if f < |w.files| {
        PromoteKeepsSources(w.files, f, Max(now, w.files[f].revision + 1));
      }
  }

  lemma RowInRange(w: World, f: nat, path: string, base: nat, c: Caller)
    ensures RowError(w, f, path, base, c).None? ==> f < |w.files|
  {}

  lemma ChangeKeepsInv(w: World, q: ChangeRequest, c: Caller, e: Env, now: nat)
    requires Inv(w, e, now)
    ensures Inv(ApplyChange(w, q, c, e, now).0, e, now)
  {
    hide Inv, ApplyChange;
    ChangeKeepsSources(w, q, c, e, now);
    SameSourcesKeepInv(w, ApplyChange(w, q, c, e, now).0, e, now);
  }

  /** Files keep their bytes; a new row brings none. */
  lemma SameSourcesKeepInv(w: World, w': World, e: Env, now: nat)
    requires Inv(w, e, now) && |w.files| <= |w'.files|
    requires forall i :: 0 <= i < |w'.files| ==> w'.files[i].source == if i < |w.files| then w.files[i].source else Inline
    requires w'.uploads == w.uploads && w'.tickets == w.tickets && w'.handed == w.handed && w'.nextKey == w.nextKey && w'.nextTicket == w.nextTicket
    ensures Inv(w', e, now)
  {
    assert Allocated(w') && Owned(w');
    forall k: nat
      ensures Reserved(w', k, e, now)
    {
      assert Reserved(w, k, e, now);
    }
  }

  lemma AdoptKeepsInv(w: World, f: File, e: Env, now: nat)
    requires Inv(w, e, now)
    ensures Inv(Adopt(w, f), e, now)
  {
    var w' := Adopt(w, f);
    assert Allocated(w') && Owned(w');
    forall k: nat
      ensures Reserved(w', k, e, now)
    {
      assert Reserved(w, k, e, now);
    }
  }

  lemma EditKeepsInv(w: World, q: EditRequest, e: Env, now: nat)
    requires Inv(w, e, now)
    ensures Inv(EditText(w, q, now), e, now)
  {
    hide Inv;
    SameSourcesKeepInv(w, EditText(w, q, now), e, now);
  }

  lemma StepKeepsInv(w: World, a: Action, e: Env, now: nat)
    requires Inv(w, e, now)
    ensures Inv(Step(w, a, e, now), e, now)
  {
    hide Inv, Intent, Commit, ApplyChange, CleanTickets, Adopt;
    match a
    case OpenIntent(q, c) => IntentKeepsInv(w, q, c, e, now);
    case CommitUpload(q, c) => CommitKeepsInv(w, q, c, e, now);
    case ChangeMeta(q, c) =>
      ChangeKeepsInv(w, q, c, e, now);
      ReceiptsKeepInv(ApplyChange(w, q, c, e, now).0, Step(w, a, e, now).receipts, e, now);
    case Clean(due, claim) => CleanAllKeepsInv(w, due, claim, e, now);
    case ConfirmDeleted(_, _) => FewerRowsKeepInv(w, Step(w, a, e, now), e, now);
    case PruneRows(_, _) => FewerRowsKeepInv(w, Step(w, a, e, now), e, now);
    case Elsewhere(f) => AdoptKeepsInv(w, f, e, now);
    case UserEdit(q) => EditKeepsInv(w, q, e, now);
  }

  lemma ReceiptsKeepInv(w: World, receipts: map<(string, string), Receipt>, e: Env, now: nat)
    requires Inv(w, e, now)
    ensures Inv(w.(receipts := receipts), e, now)
  {
    hide Inv;
    FewerRowsKeepInv(w, w.(receipts := receipts), e, now);
  }

  lemma {:induction false} RunKeepsInv(s: Clocked, actions: seq<Timed>, e: Env)
    requires Inv(s.world, e, s.clock)
    ensures Inv(Run(s, actions, e).world, e, Run(s, actions, e).clock)
    decreases |actions|
  {
    hide Step, Inv;
    if actions != [] {
      var now := Max(s.clock, actions[0].at);
      LaterKeepsInv(s.world, e, s.clock, now);
      StepKeepsInv(s.world, actions[0].action, e, now);
      RunKeepsInv(Next(s, actions[0], e), actions[1..], e);
    }
  }

  lemma {:induction false} HandedOnlyGrows(s: Clocked, actions: seq<Timed>, e: Env)
    ensures s.world.handed <= Run(s, actions, e).world.handed
    decreases |actions|
  {
    hide Intent, Commit, ApplyChange, CleanTicket;
    if actions != [] {
      StepKeepsHanded(s.world, actions[0].action, e, Max(s.clock, actions[0].at));
      hide Step;
      HandedOnlyGrows(Next(s, actions[0], e), actions[1..], e);
    }
  }

  lemma {:induction false} CleanKeepsHanded(w: World, due: seq<nat>, claim: string, now: nat)
    ensures w.handed <= CleanTickets(w, due, claim, now).handed
    decreases |due|
  {
    if due != [] {
      var t := due[0];
      CleanKeepsHanded(if t in w.tickets && w.tickets[t].nextAttemptAt <= now then CleanTicket(w, t, claim, now) else w, due[1..], claim, now);
    }
  }

  lemma StepKeepsHanded(w: World, a: Action, e: Env, now: nat)
    ensures w.handed <= Step(w, a, e, now).handed
  {
    hide Target, ParentError, FindPrior, PlanCommit, Promote, RowError, Taken;
    match a
    case Clean(due, claim) => CleanKeepsHanded(w, due, claim, now);
    case CommitUpload(q, c) =>
      hide Commit;
      CommitShape(w, q, c, e, now);
    case _ =>
  }

  /**
   Cleanup never takes bytes a file has: in every run, a stored object that was deleted or given out for
   deletion is not referenced by any file, live or tombstone, then or at any later time.
   */
  lemma DeletedIsNeverReferenced(actions: seq<Timed>, later: seq<Timed>, e: Env, s: Source)
    requires s in Run(Clocked(EMPTY, 0), actions, e).world.handed
    ensures !Referenced(Run(Run(Clocked(EMPTY, 0), actions, e), later, e).world.files, s)
  {
    hide Step, Run;
    assert Inv(EMPTY, e, 0);
    RunKeepsInv(Clocked(EMPTY, 0), actions, e);
    var mid := Run(Clocked(EMPTY, 0), actions, e);
    RunKeepsInv(mid, later, e);
    HandedOnlyGrows(mid, later, e);
  }
}
