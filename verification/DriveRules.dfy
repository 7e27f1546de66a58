/**
 The guards of the drive's requests: what an upload intent binds, one upload and one answer per request,
 which folders may hold an entry, when a change is made, who takes over a duplicate, and what a confirmation needs.
 */
module DriveRules {
  import opened Common
  import opened DriveNames
  import opened Drive
  import opened DriveWrites

  // ----- intents -------------------------------------------------------------------------------------------

  /** What the upload is bound to: a new file to its own name and folder, a replace to those its file has. */
  predicate Bound(w: World, u: Upload, q: IntentRequest, c: Caller, e: Env) {
    match q.op
    case CreateFile(name, parent) => c.creates && e.safe(name) && u.owner == c.actor && u.name == name && u.parent == parent
    case ReplaceFile(f, path, base) =>
      && f < |w.files| && !w.files[f].folder && !w.files[f].deleted && c.edits(f)
      && (w.files[f].revision == base ==> AtPath(w.files, f, path))
      && u.owner == w.files[f].owner && u.name == w.files[f].name && u.parent == w.files[f].parent
  }

  /**
   An intent gives an upload of this run, request and execution for exactly the bytes and the operation it
   names. A new one is pending, expires within fifteen minutes, and is bound to what the caller may write; an
   old one is as it was, or renewed if it had run out.
   */
  lemma IntentsBind(w: World, q: IntentRequest, c: Caller, e: Env, now: nat)
    requires KeysBelow(w) && Intent(w, q, c, e, now).1.Done?
    ensures var (w', k) := (Intent(w, q, c, e, now).0, Intent(w, q, c, e, now).1.value);
            && c.live && now < e.deadline(c.fence) && k in w'.uploads
            && var u := w'.uploads[k];
               && u.run == c.run && u.request == q.request && u.fence == c.fence
               && u.op == q.op && u.hash == q.hash && u.size == q.size && u.mime == q.mime && q.size <= 16777216
               && (k !in w.uploads ==> u.result.None? && u.expiresAt == Min(q.expiresAt, now + 900000) && Bound(w, u, q, c, e)
                                       && ParentError(w.files, u.parent, None, 0, Units(u.name), c).None? && (c.space || q.size == 0))
               && (k in w.uploads && (w.uploads[k].result.Some? || now < w.uploads[k].expiresAt) ==> w' == w)
               && (k in w.uploads ==> u == w.uploads[k].(expiresAt := u.expiresAt) && (u.expiresAt == w.uploads[k].expiresAt || u.expiresAt <= now + 900000))
    ensures Intent(w, q, c, e, now).0.files == w.files
  {
    hide ParentError, AtPath;
  }

  ghost predicate SameIntent(u: Upload, v: Upload) {
    u.run == v.run && u.request == v.request
  }

  /** No two uploads answer one request of one run. */
  ghost predicate OneUploadPerRequest(w: World) {
    && KeysBelow(w)
    && forall k, l :: k in w.uploads && l in w.uploads && SameIntent(w.uploads[k], w.uploads[l]) ==> k == l
  }

  lemma {:induction false} PriorIsFound(uploads: map<nat, Upload>, run: string, request: string, from: nat, limit: nat)
    ensures FindPrior(uploads, run, request, from, limit).None? ==>
              forall k :: from <= k < limit && k in uploads ==> uploads[k].run != run || uploads[k].request != request
    decreases limit - from
  {
    if from < limit && !(from in uploads && uploads[from].run == run && uploads[from].request == request) {
      PriorIsFound(uploads, run, request, from + 1, limit);
    }
  }

  /** An intent adds at most one upload, for its own request, and only when it found none. */
  lemma IntentUploads(w: World, q: IntentRequest, c: Caller, e: Env, now: nat)
    requires KeysBelow(w)
    ensures var w' := Intent(w, q, c, e, now).0;
            && KeysBelow(w') && (forall k :: k in w.uploads ==> k in w'.uploads && SameIntent(w'.uploads[k], w.uploads[k]))
            && (forall k :: k in w'.uploads && k !in w.uploads ==>
                  k == w.nextKey + 1 && w'.uploads[k].run == c.run && w'.uploads[k].request == q.request
                  && FindPrior(w.uploads, c.run, q.request, 0, w.nextKey).None?)
  {
    IntentSettles(w, q, c, e, now);
    hide Target, ParentError, FindPrior, SameWrite, Authorized;
  }

  lemma IntentKeepsRequests(w: World, q: IntentRequest, c: Caller, e: Env, now: nat)
    requires OneUploadPerRequest(w)
    ensures OneUploadPerRequest(Intent(w, q, c, e, now).0)
  {
    PriorIsFound(w.uploads, c.run, q.request, 0, w.nextKey);
    IntentUploads(w, q, c, e, now);
    hide Intent, FindPrior;
    var w' := Intent(w, q, c, e, now).0;
    forall k, l | k in w'.uploads && l in w'.uploads && SameIntent(w'.uploads[k], w'.uploads[l])
      ensures k == l
    {
      if k in w.uploads && l in w.uploads {
        assert SameIntent(w.uploads[k], w.uploads[l]);
      }
    }
  }

  lemma StepKeepsRequests(w: World, a: Action, e: Env, now: nat)
    requires OneUploadPerRequest(w)
    ensures OneUploadPerRequest(Step(w, a, e, now))
  {
    StepSettles(w, a, e, now);
    hide Intent, Commit, ApplyChange, CleanTickets, MayPrune, Apply;
    match a
    case OpenIntent(q, c) => IntentKeepsRequests(w, q, c, e, now);
    case CommitUpload(q, c) =>
      CommitShape(w, q, c, e, now);
      if Commit(w, q, c, e, now).0 != w {
        hide PlanCommit;
        ApplyShape(w, q.upload, w.uploads[q.upload], PlanCommit(w, w.uploads[q.upload], q, c, e).value, now);
      }
    case ChangeMeta(q, c) => ChangeKeepsUploads(w, q, c, e, now);
    case Clean(due, claim) => TicketsKeepFiles(w, due, claim, now);
    case _ =>
  }

  lemma ChangeKeepsUploads(w: World, q: ChangeRequest, c: Caller, e: Env, now: nat)
    ensures ChangeMetadata(w, q, c, e, now).0.uploads == w.uploads
  {
    ChangeShape(w, q, c, e, now);
    hide ApplyChange, Grows, OneRow;
  }

  lemma {:induction false} RunKeepsRequests(s: Clocked, actions: seq<Timed>, e: Env)
    requires OneUploadPerRequest(s.world)
    ensures OneUploadPerRequest(Run(s, actions, e).world)
    decreases |actions|
  {
    hide Step, OneUploadPerRequest;
    if actions != [] {
      StepKeepsRequests(s.world, actions[0].action, e, Max(s.clock, actions[0].at));
      RunKeepsRequests(Next(s, actions[0], e), actions[1..], e);
    }
  }

  /** However often and by whomever an intent is repeated, a request of a run has one upload in every run. */
  lemma RequestsHaveOneUpload(actions: seq<Timed>, e: Env, k: nat, l: nat)
    ensures var uploads := Run(Clocked(EMPTY, 0), actions, e).world.uploads;
            k in uploads && l in uploads && k != l ==> uploads[k].run != uploads[l].run || uploads[k].request != uploads[l].request
  {
    hide Step, Run;
    RunKeepsRequests(Clocked(EMPTY, 0), actions, e);
  }

  // ----- one answer per request ---------------------------------------------------------------------------

  /** A commit is answered once and for all: after any run, a repeat gets the first answer and changes nothing. */
  lemma CommitIsAnsweredOnce(w: World, q: CommitRequest, c: Caller, e: Env, now: nat, actions: seq<Timed>, at: nat)
    requires KeysBelow(w) && Commit(w, q, c, e, now).1.Done?
    ensures var (w', o) := Commit(w, q, c, e, now);
            var s' := Run(Clocked(w', now), actions, e);
            var again := Max(s'.clock, at);
            Commit(s'.world, q, c, e, again) == (s'.world, if Authorized(c, e, again) then o else Refused(RunUnavailable))
  {
    var (w', o) := Commit(w, q, c, e, now);
    CommitSettles(w, q, c, e, now);
    assert q.upload in w'.uploads && w'.uploads[q.upload].result == Some(o.value) && Presents(w'.uploads[q.upload], q, c) by {
      CommitLeavesResult(w, q, c, e, now);
    }
    hide Commit, Step, Run, Settled;
    assert KeysBelow(w') by { SettledKeys(w, w', e, now); }
    var s' := Run(Clocked(w', now), actions, e);
    CommitTakesEffectOnce(Clocked(w', now), actions, e, q.upload, q, c, at);
    if !Authorized(c, e, Max(s'.clock, at)) {
      Unauthorised(s'.world, q, c, e, Max(s'.clock, at));
    }
  }

  lemma Unauthorised(w: World, q: CommitRequest, c: Caller, e: Env, now: nat)
    requires !Authorized(c, e, now)
    ensures Commit(w, q, c, e, now) == (w, Refused(RunUnavailable))
  {}

  lemma SettledKeys(w: World, w': World, e: Env, now: nat)
    requires KeysBelow(w) && Settled(w, w', e, now)
    ensures KeysBelow(w')
  {}

  lemma CommitLeavesResult(w: World, q: CommitRequest, c: Caller, e: Env, now: nat)
    requires Commit(w, q, c, e, now).1.Done?
    ensures var (w', o) := Commit(w, q, c, e, now);
            q.upload in w'.uploads && w'.uploads[q.upload].result == Some(o.value) && Presents(w'.uploads[q.upload], q, c)
  {
    hide PlanCommit, Apply;
    CommitShape(w, q, c, e, now);
    var u := w.uploads[q.upload];
    if u.result.None? {
      ApplyShape(w, q.upload, u, PlanCommit(w, u, q, c, e).value, now);
    }
  }

  /** A change is answered once and for all: after any run, the same request gets the first answer and changes nothing. */
  lemma ChangeIsAnsweredOnce(w: World, q: ChangeRequest, c: Caller, e: Env, now: nat, actions: seq<Timed>, at: nat)
    requires KeysBelow(w) && ChangeMetadata(w, q, c, e, now).1.Done?
    ensures var (w', o) := ChangeMetadata(w, q, c, e, now);
            var s' := Run(Clocked(w', now), actions, e);
            var again := Max(s'.clock, at);
            ChangeMetadata(s'.world, q, c, e, again) == (s'.world, if Authorized(c, e, again) then o else Refused(RunUnavailable))
  {
    var (w', o) := ChangeMetadata(w, q, c, e, now);
    ChangeSettles(w, q, c, e, now);
    hide ApplyChange;
    assert (c.run, q.request) in w'.receipts && q.valid;
    var r := w'.receipts[(c.run, q.request)];
    assert r.fence == c.fence && r.change == q.change && o.value == (r.file, r.revision);
    hide ChangeMetadata, Step, Run, Settled;
    assert KeysBelow(w') by { SettledKeys(w, w', e, now); }
    ChangeTakesEffectOnce(Clocked(w', now), actions, e, q, c, at);
  }

  // ----- folders ---------------------------------------------------------------------------------------------

  /** The folder `k` levels up from an entry's parent; none at the root. */
  function Above(files: seq<File>, parent: Option<nat>, k: nat): Option<nat> {
    if k == 0 then parent
    else
      match Above(files, parent, k - 1)
      case None => None
      case Some(p) => if p < |files| then files[p].parent else None
  }

  /** The length of the names of the first `k` folders, each with its slash. */
  function NamesAbove(files: seq<File>, parent: Option<nat>, k: nat): nat {
    if k == 0 then 0
    else
      NamesAbove(files, parent, k - 1) +
      match Above(files, parent, k - 1)
      case None => 0
      case Some(p) => if p < |files| then Units(files[p].name) + 1 else 0
  }

  /** A live folder that the caller may edit and that is not the entry being moved. */
  predicate Holds(files: seq<File>, p: nat, moving: Option<nat>, c: Caller) {
    p < |files| && files[p].folder && !files[p].deleted && c.edits(p) && moving != Some(p)
  }

  /** The root is `n` levels up, through folders that may hold the entry, and the path stays short enough. */
  ghost predicate RootAt(files: seq<File>, parent: Option<nat>, moving: Option<nat>, length: nat, c: Caller, n: nat) {
    && Above(files, parent, n).None?
    && (forall k :: 0 <= k < n ==> Above(files, parent, k).Some? && Holds(files, Above(files, parent, k).value, moving, c))
    && (n > 0 ==> length + NamesAbove(files, parent, n) <= 4096)
  }

  lemma {:induction false} AboveStep(files: seq<File>, p: nat, k: nat)
    requires p < |files|
    ensures Above(files, Some(p), k + 1) == Above(files, files[p].parent, k)
    ensures NamesAbove(files, Some(p), k + 1) == Units(files[p].name) + 1 + NamesAbove(files, files[p].parent, k)
    decreases k
  {
    if k > 0 {
      AboveStep(files, p, k - 1);
    }
  }

  lemma AboveSteps(files: seq<File>, p: nat)
    requires p < |files|
    ensures forall k: nat :: Above(files, Some(p), k + 1) == Above(files, files[p].parent, k)
  {
    forall k: nat
      ensures Above(files, Some(p), k + 1) == Above(files, files[p].parent, k)
    {
      AboveStep(files, p, k);
    }
  }

  lemma RootOneUp(files: seq<File>, p: nat, moving: Option<nat>, length: nat, c: Caller, n: nat)
    requires Holds(files, p, moving, c) && length + Units(files[p].name) + 1 <= 4096
    ensures RootAt(files, Some(p), moving, length, c, n + 1) <==> RootAt(files, files[p].parent, moving, length + Units(files[p].name) + 1, c, n)
  {
    var (up, deep) := (files[p].parent, n + 1);
    AboveStep(files, p, n);
    if RootAt(files, up, moving, length + Units(files[p].name) + 1, c, n) {
      forall k | 0 <= k < deep
        ensures Above(files, Some(p), k).Some? && Holds(files, Above(files, Some(p), k).value, moving, c)
      {
        if k > 0 {
          AboveStep(files, p, k - 1);
        }
      }
      assert Above(files, Some(p), deep).None?;
    }
    if RootAt(files, Some(p), moving, length, c, deep) {
      forall k | 0 <= k < n
        ensures Above(files, up, k).Some? && Holds(files, Above(files, up, k).value, moving, c)
      {
        AboveStep(files, p, k);
        var next := k + 1;
        assert Above(files, Some(p), next).Some?;
      }
    }
  }

  lemma HoldsMeans(files: seq<File>, p: nat, moving: Option<nat>, c: Caller)
    ensures Holds(files, p, moving, c) <==> p < |files| && files[p].folder && Editable(files, p, c) && moving != Some(p)
  {}

  lemma RootHere(files: seq<File>, moving: Option<nat>, length: nat, c: Caller)
    ensures RootAt(files, None, moving, length, c, 0)
  {}

  /** The first folder on the way must hold the entry and leave the path short enough. */
  lemma FirstFolder(files: seq<File>, p: nat, moving: Option<nat>, length: nat, c: Caller, n: nat)
    ensures RootAt(files, Some(p), moving, length, c, n) ==>
              n > 0 && Holds(files, p, moving, c) && p < |files| && length + Units(files[p].name) + 1 <= 4096
  {
    if RootAt(files, Some(p), moving, length, c, n) {
      assert Above(files, Some(p), 0) == Some(p);
      AboveStep(files, p, n - 1);
    }
  }

  lemma {:induction false} ParentWalk(files: seq<File>, parent: Option<nat>, moving: Option<nat>, depth: nat, length: nat, c: Caller)
    requires depth <= MAX_DEPTH
    ensures ParentError(files, parent, moving, depth, length, c).None? <==>
            exists n :: depth + n <= MAX_DEPTH && RootAt(files, parent, moving, length, c, n)
    decreases MAX_DEPTH - depth
  {
    hide RootAt, Holds;
    match parent
    case None => RootHere(files, moving, length, c);
    case Some(p) =>
      HoldsMeans(files, p, moving, c);
      forall n: nat
        ensures RootAt(files, parent, moving, length, c, n) ==>
                  n > 0 && Holds(files, p, moving, c) && p < |files| && length + Units(files[p].name) + 1 <= 4096
      {
        FirstFolder(files, p, moving, length, c, n);
      }
      if depth < MAX_DEPTH && p < |files| && Holds(files, p, moving, c) && length + Units(files[p].name) + 1 <= MAX_PATH {
        var further := length + Units(files[p].name) + 1;
        ParentWalk(files, files[p].parent, moving, depth + 1, further, c);
        forall n: nat
          ensures RootAt(files, parent, moving, length, c, n + 1) <==> RootAt(files, files[p].parent, moving, further, c, n)
        {
          RootOneUp(files, p, moving, length, c, n);
        }
        OneFurther(files, p, moving, depth, length, further, c);
      }
  }

  /** The root is in reach from an entry exactly when it is from its folder, one step later. */
  lemma OneFurther(files: seq<File>, p: nat, moving: Option<nat>, depth: nat, length: nat, further: nat, c: Caller)
    requires p < |files|
    requires forall n: nat :: RootAt(files, Some(p), moving, length, c, n + 1) <==> RootAt(files, files[p].parent, moving, further, c, n)
    requires forall n: nat :: RootAt(files, Some(p), moving, length, c, n) ==> n > 0
    ensures (exists n :: depth + n <= MAX_DEPTH && RootAt(files, Some(p), moving, length, c, n))
            <==> (exists n :: depth + 1 + n <= MAX_DEPTH && RootAt(files, files[p].parent, moving, further, c, n))
  {
    hide RootAt;
    if n :| depth + n <= MAX_DEPTH && RootAt(files, Some(p), moving, length, c, n) {
      var before := n - 1;
      assert RootAt(files, Some(p), moving, length, c, before + 1);
      assert depth + 1 + before <= MAX_DEPTH && RootAt(files, files[p].parent, moving, further, c, before);
    }
    if n :| depth + 1 + n <= MAX_DEPTH && RootAt(files, files[p].parent, moving, further, c, n) {
      var after := n + 1;
      assert depth + after <= MAX_DEPTH && RootAt(files, Some(p), moving, length, c, after);
    }
  }

  /**
   An entry may go into a folder exactly when the root is at most 64 levels up, every folder on the way is a
   live one that the caller may edit and not the entry itself, and the path stays within 4096 units.
   */
  lemma FoldersHoldExactly(files: seq<File>, parent: Option<nat>, moving: Option<nat>, name: string, c: Caller)
    ensures ParentError(files, parent, moving, 0, Units(name), c).None? <==>
            exists n :: n <= 64 && RootAt(files, parent, moving, Units(name), c, n)
  {
    hide RootAt;
    ParentWalk(files, parent, moving, 0, Units(name), c);
  }

  // ----- changes ----------------------------------------------------------------------------------------------

  /** The row is live, the caller may edit it, and it is at the revision and the path the caller saw. */
  predicate Seen(w: World, f: nat, path: string, base: nat, c: Caller) {
    f < |w.files| && !w.files[f].deleted && c.edits(f) && w.files[f].revision == base && AtPath(w.files, f, path)
  }

  /** The name is free in the folder but for the row itself. */
  ghost predicate VacantBut(files: seq<File>, f: nat, name: string, parent: Option<nat>, e: Env) {
    forall i :: 0 <= i < |files| && i != f && !files[i].deleted && files[i].parent == parent ==> e.portable(files[i].name) != e.portable(name)
  }

  /** A row is moved exactly when the caller has seen it as it is and may put it under its new name where it is to go. */
  lemma MovesExactly(w: World, f: nat, path: string, base: nat, name: string, parent: Option<nat>, subtree: bool, c: Caller, e: Env, now: nat)
    ensures ApplyMove(w, f, path, base, name, parent, subtree, c, e, now).1.Done? <==>
              && Seen(w, f, path, base, c) && e.safe(name)
              && ParentError(w.files, parent, Some(f), 0, Units(name), c).None?
              && VacantBut(w.files, f, name, parent, e) && (w.files[f].folder ==> subtree)
  {
    hide ParentError, AtPath;
  }

  /** A row is removed exactly when the caller has seen it as it is and, for a folder, nothing live is left in it. */
  lemma RemovesExactly(w: World, f: nat, path: string, base: nat, c: Caller, now: nat)
    ensures ApplyRemove(w, f, path, base, c, now).1.Done? <==>
              Seen(w, f, path, base, c) && (w.files[f].folder ==> forall i :: 0 <= i < |w.files| && !w.files[i].deleted ==> w.files[i].parent != Some(f))
  {
    hide AtPath, Promote;
  }

  // ----- duplicates ---------------------------------------------------------------------------------------------

  /**
   When a file's bytes go, its duplicates get a new original: the first live one of the same owner stands on
   its own, the others point to it with a higher revision, and nothing else changes.
   */
  lemma PromotionIsExact(files: seq<File>, f: nat, now: nat)
    requires f < |files| && files[f].duplicateOf.None?
    ensures var files' := Promote(files, f, now);
            && |files'| == |files|
            && (forall i :: 0 <= i < |files| && !Duplicate(files, f, i) ==> files'[i] == files[i])
            && (forall i :: 0 <= i < |files| ==> !Duplicate(files', f, i))
            && (forall i :: 0 <= i < |files| && Duplicate(files, f, i) ==>
                  && files'[i].revision > files[i].revision && SameContent(files[i], files'[i])
                  && if forall j :: 0 <= j < i ==> !Duplicate(files, f, j) then files'[i].duplicateOf.None?
                     else files'[i].duplicateOf.Some? && files'[i].duplicateOf.value < i && Duplicate(files, f, files'[i].duplicateOf.value)
                          && forall j :: 0 <= j < files'[i].duplicateOf.value ==> !Duplicate(files, f, j))
  {
    PromotedIsFirst(files, f, 0);
  }

  lemma {:induction false} PromotedIsFirst(files: seq<File>, f: nat, from: nat)
    ensures match Promoted(files, f, from)
            case None => forall i :: from <= i < |files| ==> !Duplicate(files, f, i)
            case Some(first) => from <= first && Duplicate(files, f, first) && forall i :: from <= i < first ==> !Duplicate(files, f, i)
    decreases |files| - from
  {
    if from < |files| && !Duplicate(files, f, from) {
      PromotedIsFirst(files, f, from + 1);
    }
  }

  // ----- cleanup -----------------------------------------------------------------------------------------------

  /** A deletion is confirmed exactly for a ticket that is gone, or that this claim gave out and no file points to. */
  lemma ConfirmsExactly(w: World, t: nat, claim: string)
    ensures Confirm(w, t, claim).1 <==>
              t in w.tickets ==> w.tickets[t].source.Object? && w.tickets[t].state == Deleting(claim)
                                 && forall i :: 0 <= i < |w.files| ==> w.files[i].source != w.tickets[t].source
    ensures !Confirm(w, t, claim).1 ==> Confirm(w, t, claim).0 == w
    ensures Confirm(w, t, claim).1 ==> t !in Confirm(w, t, claim).0.tickets
  {}

  /** A ticket that cleanup leaves in the table is not due again for ten minutes. */
  lemma CleanedWaits(w: World, t: nat, claim: string, now: nat)
    requires t in w.tickets && !w.tickets[t].source.Inline?
    ensures var w' := CleanTicket(w, t, claim, now);
            && (t in w'.tickets ==> w'.tickets[t].nextAttemptAt == now + 600000)
            && (forall x :: x != t ==> (x in w'.tickets <==> x in w.tickets) && (x in w.tickets ==> w'.tickets[x] == w.tickets[x]))
  {}

  /** Uploads and receipts are kept for two days past the deadline of their execution, whatever step is taken. */
  lemma RowsAreKept(w: World, a: Action, e: Env, now: nat, k: nat, r: (string, string))
    requires KeysBelow(w)
    ensures k in w.uploads && now < e.deadline(w.uploads[k].fence) + 172800000 ==> k in Step(w, a, e, now).uploads
    ensures r in w.receipts && now < e.deadline(w.receipts[r].fence) + 172800000 ==> r in Step(w, a, e, now).receipts
  {
    StepSettles(w, a, e, now);
    hide Intent, Commit, ApplyChange, CleanTickets, Apply;
    match a
    case OpenIntent(q, c) => IntentUploads(w, q, c, e, now);
    case CommitUpload(q, c) => CommitShape(w, q, c, e, now);
      if Commit(w, q, c, e, now).0 != w {
        hide PlanCommit;
        ApplyShape(w, q.upload, w.uploads[q.upload], PlanCommit(w, w.uploads[q.upload], q, c, e).value, now);
      }
    case ChangeMeta(q, c) => ChangeKeepsUploads(w, q, c, e, now);
    case Clean(due, claim) => TicketsKeepFiles(w, due, claim, now);
    case _ =>
  }
}
