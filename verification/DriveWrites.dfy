/**
 No lost update in the drive: every in-place change is made against the current revision, revisions
 strictly increase, losers become copies, and every upload and metadata request takes effect once.
 */
module DriveWrites {
  import opened Common
  import opened Drive

  // ----- revisions ----------------------------------------------------------------------------------------

  /** Files stay where they are, and one that changes gets a higher revision. */
  ghost predicate Grows(files: seq<File>, files': seq<File>) {
    && |files| <= |files'|
    && forall i :: 0 <= i < |files| ==> files'[i] == files[i] || files'[i].revision > files[i].revision
  }

  /** What a user would notice of a file. */
  predicate SameContent(a: File, b: File) {
    a.name == b.name && a.parent == b.parent && a.source == b.source && a.size == b.size && a.hash == b.hash && a.deleted == b.deleted
    && a.owner == b.owner && a.folder == b.folder && a.kind == b.kind
  }

  /** Promoting a duplicate touches links and revisions only. */
  lemma PromoteShape(files: seq<File>, f: nat, now: nat)
    requires f < |files|
    ensures |Promote(files, f, now)| == |files| && Grows(files, Promote(files, f, now))
    ensures forall i :: 0 <= i < |files| ==> SameContent(files[i], Promote(files, f, now)[i])
    ensures Promote(files, f, now)[f] == files[f]
  {}

  lemma TicketsKeepFiles(w: World, due: seq<nat>, claim: string, now: nat)
    ensures var w' := CleanTickets(w, due, claim, now);
            w'.files == w.files && w'.uploads == w.uploads && w'.receipts == w.receipts && w'.nextKey == w.nextKey
    decreases |due|
  {
    if due != [] {
      var t := due[0];
      TicketsKeepFiles(if t in w.tickets && w.tickets[t].nextAttemptAt <= now then CleanTicket(w, t, claim, now) else w, due[1..], claim, now);
    }
  }

  /** The file is live, has the planned name and holds the uploaded bytes, in the object the upload was given or, for a note, inline. */
  predicate Carries(f: File, u: Upload, k: nat, p: Plan) {
    && f.name == p.name && f.hash == u.hash && f.size == u.size
    && (f.source == Object(k) || (f.kind.Note? && f.source.Inline? && InPlace(u, p)))
    && (!InPlace(u, p) ==> f.owner == u.owner && f.parent == u.parent && !f.deleted && !f.folder)
  }

  /** What a commit that goes through does to the files. */
  lemma ApplyShape(w: World, k: nat, u: Upload, p: Plan, now: nat)
    requires InPlace(u, p) ==> Existing(u).value < |w.files|
    ensures var (w', r) := Apply(w, k, u, p, now);
            && Grows(w.files, w'.files) && r.conflict == p.conflict
            && (InPlace(u, p) ==>
                  && r.file == Existing(u).value && w'.files[r.file].revision == r.revision > w.files[r.file].revision
                  && |w'.files| == |w.files|
                  && forall i :: 0 <= i < |w.files| && i != r.file ==> SameContent(w.files[i], w'.files[i]))
            && (!InPlace(u, p) ==> r.file == |w.files| && |w'.files| == |w.files| + 1 && w'.files[..|w.files|] == w.files)
            && Carries(w'.files[r.file], u, k, p) && r.hash == u.hash && r.size == u.size && r.name == p.name
            && w'.uploads == w.uploads[k := u.(result := Some(r))] && w'.receipts == w.receipts && w'.nextKey == w.nextKey
  {
    if InPlace(u, p) {
      PromoteShape(w.files, Existing(u).value, NewRevision(w, u, now));
    }
  }

  /** A commit either changes nothing or applies a pending upload once. */
  lemma CommitShape(w: World, q: CommitRequest, c: Caller, e: Env, now: nat)
    ensures var (w', o) := Commit(w, q, c, e, now);
            || (w' == w && (o.Done? ==> q.upload in w.uploads && w.uploads[q.upload].result == Some(o.value)))
            || (&& q.upload in w.uploads && w.uploads[q.upload].result.None? && o.Done? && Authorized(c, e, now)
                && w.uploads[q.upload].fence == c.fence && now < w.uploads[q.upload].expiresAt
                && PlanCommit(w, w.uploads[q.upload], q, c, e).Done?
                && var p := PlanCommit(w, w.uploads[q.upload], q, c, e).value;
                   && (InPlace(w.uploads[q.upload], p) ==> Existing(w.uploads[q.upload]).value < |w.files|)
                   && (w', o.value) == Apply(w, q.upload, w.uploads[q.upload], p, now))
  {
    hide Apply, PlanCommit;
    if q.upload in w.uploads && PlanCommit(w, w.uploads[q.upload], q, c, e).Done? {
      PlannedExists(w, w.uploads[q.upload], q, c, e);
    }
  }

  /** Only this row changed, from this revision on. */
  ghost predicate OneRow(w: World, w': World, f: nat, path: string, base: nat) {
    && f < |w.files| && w.files[f].revision == base && AtPath(w.files, f, path)
    && Grows(w.files, w'.files) && |w'.files| == |w.files|
    && (forall i :: 0 <= i < |w.files| && i != f ==> SameContent(w.files[i], w'.files[i]))
    && w'.uploads == w.uploads && w'.receipts == w.receipts && w'.nextKey == w.nextKey
  }

  lemma MoveShape(w: World, f: nat, path: string, base: nat, name: string, parent: Option<nat>, subtree: bool, c: Caller, e: Env, now: nat)
    ensures var (w', o) := ApplyMove(w, f, path, base, name, parent, subtree, c, e, now);
            if o.Refused? then w' == w
            else
              && OneRow(w, w', f, path, base)
              && w'.files[f].name == name && w'.files[f].parent == parent && w'.files[f].source == w.files[f].source && !w'.files[f].deleted
              && w'.files[f].revision == o.value.1 >= now
  {
    hide ParentError, PathFrom, Taken;
  }

  lemma RemoveShape(w: World, f: nat, path: string, base: nat, c: Caller, now: nat)
    ensures var (w', o) := ApplyRemove(w, f, path, base, c, now);
            if o.Refused? then w' == w
            else
              && OneRow(w, w', f, path, base)
              && w'.files[f].deleted && w'.files[f].source == w.files[f].source && w'.files[f].revision == o.value.1 >= now
              && !(w.files[f].folder && HasChildren(w.files, f))
  {
    hide PathFrom, HasChildren, Promote;
    if RowError(w, f, path, base, c).None? {
      PromoteShape(w.files, f, Max(now, w.files[f].revision + 1));
    }
  }

  /** A metadata change touches one row, or appends one. */
  lemma ChangeShape(w: World, q: ChangeRequest, c: Caller, e: Env, now: nat)
    ensures var (w', o) := ApplyChange(w, q, c, e, now);
            && (o.Refused? ==> w' == w)
            && (o.Done? ==>
                  && Grows(w.files, w'.files) && w'.uploads == w.uploads && w'.receipts == w.receipts && w'.nextKey == w.nextKey
                  && match q.change
                     case Mkdir(_, _) => w'.files[..|w.files|] == w.files
                     case Move(f, path, base, _, _) => OneRow(w, w', f, path, base)
                     case Remove(f, path, base) => OneRow(w, w', f, path, base))
  {
    hide ParentError, Taken, ApplyMove, ApplyRemove;
    match q.change
    case Mkdir(_, _) =>
    case Move(f, path, base, name, parent) => MoveShape(w, f, path, base, name, parent, q.subtree, c, e, now);
    case Remove(f, path, base) => RemoveShape(w, f, path, base, c, now);
  }

  /** A user's edit takes the time as the revision, so it is only newer when the time is past the revision the file has. */
  predicate Timely(w: World, a: Action, now: nat) {
    a.UserEdit? && MayEdit(w, a.edit) ==> w.files[a.edit.edited].revision < now || EditText(w, a.edit, now).files == w.files
  }

  lemma CommitGrows(w: World, q: CommitRequest, c: Caller, e: Env, now: nat)
    ensures Grows(w.files, Commit(w, q, c, e, now).0.files)
  {
    hide Commit, Apply, PlanCommit;
    CommitShape(w, q, c, e, now);
    if Commit(w, q, c, e, now).0 != w {
      ApplyShape(w, q.upload, w.uploads[q.upload], PlanCommit(w, w.uploads[q.upload], q, c, e).value, now);
    }
  }

  lemma ChangeGrows(w: World, q: ChangeRequest, c: Caller, e: Env, now: nat)
    ensures Grows(w.files, ChangeMetadata(w, q, c, e, now).0.files)
  {
    hide ApplyChange, Authorized, OneRow;
    ChangeShape(w, q, c, e, now);
  }

  /** Every step leaves a file alone or raises its revision, exactly unless it is a user's edit that comes too early. */
  lemma StepGrows(w: World, a: Action, e: Env, now: nat)
    ensures Grows(w.files, Step(w, a, e, now).files) <==> Timely(w, a, now)
  {
    hide Intent, Commit, ChangeMetadata, CleanTickets, EditText;
    match a
    case OpenIntent(q, c) => IntentKeepsFiles(w, q, c, e, now);
    case CommitUpload(q, c) => CommitGrows(w, q, c, e, now);
    case ChangeMeta(q, c) => ChangeGrows(w, q, c, e, now);
    case Clean(due, claim) => TicketsKeepFiles(w, due, claim, now);
    case UserEdit(q) =>
      if MayEdit(w, q) {
        EditGrowsExactly(w, q, now);
      } else {
        RefusedEdit(w, q, now);
      }
    case ConfirmDeleted(_, _) =>
    case PruneRows(_, _) =>
    case Elsewhere(_) =>
  }

  lemma RefusedEdit(w: World, q: EditRequest, now: nat)
    requires !MayEdit(w, q)
    ensures EditText(w, q, now) == w
  {}

  lemma EditGrowsExactly(w: World, q: EditRequest, now: nat)
    requires MayEdit(w, q)
    ensures Grows(w.files, EditText(w, q, now).files)
            <==> w.files[q.edited].revision < now || EditText(w, q, now).files == w.files
  {
    var files' := EditText(w, q, now).files;
    assert files' == w.files[q.edited := files'[q.edited]];
    if files'[q.edited] == w.files[q.edited] {
      assert files' == w.files;
    }
  }

  lemma IntentKeepsFiles(w: World, q: IntentRequest, c: Caller, e: Env, now: nat)
    ensures Intent(w, q, c, e, now).0.files == w.files
  {
    hide Target, ParentError;
  }

  /** The change an action makes to a file's content names that file and the revision it had. */
  predicate NamesRevision(w: World, a: Action, f: nat, revision: nat) {
    match a
    case CommitUpload(q, _) =>
      q.upload in w.uploads && w.uploads[q.upload].result.None? && w.uploads[q.upload].op.ReplaceFile?
      && w.uploads[q.upload].op.file == f && w.uploads[q.upload].op.base == revision
    case ChangeMeta(q, _) =>
      match q.change {
        case Move(m, _, base, _, _) => m == f && base == revision
        case Remove(m, _, base) => m == f && base == revision
        case Mkdir(_, _) => false
      }
    case UserEdit(q) => q.edited == f && q.seen == Some(revision)
    case _ => false
  }

  lemma CommitIsAgainstCurrent(w: World, q: CommitRequest, c: Caller, e: Env, now: nat, f: nat)
    requires f < |w.files|
    ensures var w' := Commit(w, q, c, e, now).0;
            f < |w'.files| && (!SameContent(w.files[f], w'.files[f]) ==> NamesRevision(w, CommitUpload(q, c), f, w.files[f].revision))
  {
    hide Commit, Apply, PlanCommit;
    CommitShape(w, q, c, e, now);
    if Commit(w, q, c, e, now).0 != w {
      var u := w.uploads[q.upload];
      var p := PlanCommit(w, u, q, c, e).value;
      ApplyShape(w, q.upload, u, p, now);
      PlannedExists(w, u, q, c, e);
    }
  }

  lemma ChangeIsAgainstCurrent(w: World, q: ChangeRequest, c: Caller, e: Env, now: nat, f: nat)
    requires f < |w.files|
    ensures var w' := ChangeMetadata(w, q, c, e, now).0;
            f < |w'.files| && (!SameContent(w.files[f], w'.files[f]) ==> NamesRevision(w, ChangeMeta(q, c), f, w.files[f].revision))
  {
    hide ApplyChange, Authorized;
    ChangeShape(w, q, c, e, now);
  }

  /** A user's edit that names no revision. */
  predicate Unchecked(a: Action, f: nat) {
    a.UserEdit? && a.edit.edited == f && a.edit.seen.None?
  }

  /**
   Every in-place change of a file was made against its current revision, so that nobody overwrites what
   they have not seen, except for a user's edit that names no revision.
   */
  lemma ChangesAreAgainstCurrent(w: World, a: Action, e: Env, now: nat, f: nat)
    requires f < |w.files|
    ensures f < |Step(w, a, e, now).files|
    ensures !SameContent(w.files[f], Step(w, a, e, now).files[f]) ==> NamesRevision(w, a, f, w.files[f].revision) || Unchecked(a, f)
  {
    hide Intent, Commit, ChangeMetadata, CleanTickets;
    match a
    case OpenIntent(q, c) => IntentKeepsFiles(w, q, c, e, now);
    case CommitUpload(q, c) => CommitIsAgainstCurrent(w, q, c, e, now, f);
    case ChangeMeta(q, c) => ChangeIsAgainstCurrent(w, q, c, e, now, f);
    case Clean(due, claim) => TicketsKeepFiles(w, due, claim, now);
    case ConfirmDeleted(_, _) =>
    case PruneRows(_, _) =>
    case Elsewhere(_) =>
    case UserEdit(_) =>
  }

  lemma {:induction false} ClockGrows(s: Clocked, actions: seq<Timed>, e: Env)
    ensures s.clock <= Run(s, actions, e).clock
    decreases |actions|
  {
    hide Step;
    if actions != [] {
      ClockGrows(Next(s, actions[0], e), actions[1..], e);
    }
  }

  /** No user edits a file in or before the millisecond its revision stands for. */
  predicate TimelyRun(s: Clocked, actions: seq<Timed>, e: Env)
    decreases |actions|
  {
    actions == [] || (Timely(s.world, actions[0].action, Max(s.clock, actions[0].at)) && TimelyRun(Next(s, actions[0], e), actions[1..], e))
  }

  lemma {:induction false} RunGrows(s: Clocked, actions: seq<Timed>, e: Env)
    requires TimelyRun(s, actions, e)
    ensures |s.world.files| <= |Run(s, actions, e).world.files|
    ensures forall i :: 0 <= i < |s.world.files| ==> Run(s, actions, e).world.files[i].revision >= s.world.files[i].revision
    decreases |actions|
  {
    hide Step, Timely;
    if actions != [] {
      StepGrows(s.world, actions[0].action, e, Max(s.clock, actions[0].at));
      RunGrows(Next(s, actions[0], e), actions[1..], e);
    }
  }

  /**
   Two replaces from one base revision never both overwrite: once a file has moved past the base, whatever
   happens in between, a pending replace made against that base ends as a copy under a name of its own
   and leaves the file as it is.
   */
  lemma LoserBecomesCopy(s: Clocked, actions: seq<Timed>, e: Env, q: CommitRequest, c: Caller, now: nat)
    requires TimelyRun(s, actions, e)
    requires var w := Run(s, actions, e).world;
             && q.upload in w.uploads && w.uploads[q.upload].op.ReplaceFile? && w.uploads[q.upload].result.None?
             && w.uploads[q.upload].op.file < |s.world.files|
             && s.world.files[w.uploads[q.upload].op.file].revision > w.uploads[q.upload].op.base
    ensures var w := Run(s, actions, e).world;
            var (w', o) := Commit(w, q, c, e, now);
            o.Done? ==>
              && o.value.conflict && o.value.file == |w.files| && |w'.files| == |w.files| + 1 && w'.files[..|w.files|] == w.files
              && Carries(w'.files[o.value.file], w.uploads[q.upload], q.upload, Plan(o.value.name, true))
  {
    hide Step;
    RunGrows(s, actions, e);
    var w := Run(s, actions, e).world;
    var u := w.uploads[q.upload];
    CommitShape(w, q, c, e, now);
    if Commit(w, q, c, e, now).1.Done? {
      var p := PlanCommit(w, u, q, c, e).value;
      assert p.conflict;
      ApplyShape(w, q.upload, u, p, now);
    }
  }

  /** The winner moves the file past its base, so `LoserBecomesCopy` applies to every other replace from it. */
  lemma WinnerMovesPastBase(w: World, q: CommitRequest, c: Caller, e: Env, now: nat)
    requires q.upload in w.uploads && w.uploads[q.upload].op.ReplaceFile? && w.uploads[q.upload].result.None?
    requires Commit(w, q, c, e, now).1.Done? && !Commit(w, q, c, e, now).1.value.conflict
    ensures var u, w' := w.uploads[q.upload], Commit(w, q, c, e, now).0;
            && u.op.file < |w.files| && w.files[u.op.file].revision == u.op.base
            && w'.files[u.op.file].revision > u.op.base && w'.files[u.op.file].hash == u.hash && w'.files[u.op.file].size == u.size
  {
    hide Commit;
    CommitShape(w, q, c, e, now);
    var u := w.uploads[q.upload];
    var p := PlanCommit(w, u, q, c, e).value;
    PlannedExists(w, u, q, c, e);
    hide PlanCommit;
    ApplyShape(w, q.upload, u, p, now);
  }

  // ----- each upload takes effect once ------------------------------------------------------------------------

  ghost predicate KeysBelow(w: World) {
    forall k :: k in w.uploads ==> k < w.nextKey
  }

  /** Committed uploads keep their result until they are pruned, and pruned ones never come back. */
  ghost predicate Settled(w: World, w': World, e: Env, now: nat) {
    && w.nextKey <= w'.nextKey && (KeysBelow(w) ==> KeysBelow(w'))
    && (forall k :: k in w.uploads && w.uploads[k].result.Some? ==>
          if k in w'.uploads then w'.uploads[k] == w.uploads[k] else RetireAt(w.uploads[k].fence, e) <= now)
    && (forall k :: k < w.nextKey && k !in w.uploads ==> k !in w'.uploads)
    && (forall r :: r in w.receipts ==>
          if r in w'.receipts then w'.receipts[r] == w.receipts[r] else RetireAt(w.receipts[r].fence, e) <= now)
  }

  lemma OpenUploadSettles(w: World, q: IntentRequest, c: Caller, e: Env, now: nat)
    requires KeysBelow(w)
    ensures Settled(w, OpenUpload(w, q, c, e, now).0, e, now)
  {
    hide Target, ParentError, RetireAt;
  }

  /** An open upload is renewed. */
  lemma RenewalSettles(w: World, k: nat, expiresAt: nat, e: Env, now: nat)
    requires KeysBelow(w) && k in w.uploads && w.uploads[k].result.None?
    ensures Settled(w, w.(uploads := w.uploads[k := w.uploads[k].(expiresAt := expiresAt)]), e, now)
  {}

  lemma IntentSettles(w: World, q: IntentRequest, c: Caller, e: Env, now: nat)
    requires KeysBelow(w)
    ensures Settled(w, Intent(w, q, c, e, now).0, e, now)
  {
    OpenUploadSettles(w, q, c, e, now);
    QuietSettles(w, w, e, now);
    hide OpenUpload, FindPrior, Authorized, SameWrite, Settled;
    var prior := FindPrior(w.uploads, c.run, q.request, 0, w.nextKey);
    if prior.Some? && w.uploads[prior.value].result.None? {
      RenewalSettles(w, prior.value, Min(q.expiresAt, Min(e.deadline(c.fence), now + INTENT_MS)), e, now);
    }
  }

  lemma CommitSettles(w: World, q: CommitRequest, c: Caller, e: Env, now: nat)
    requires KeysBelow(w)
    ensures Settled(w, Commit(w, q, c, e, now).0, e, now)
  {
    hide Commit, Apply, PlanCommit, RetireAt;
    CommitShape(w, q, c, e, now);
    if Commit(w, q, c, e, now).0 != w {
      ApplyShape(w, q.upload, w.uploads[q.upload], PlanCommit(w, w.uploads[q.upload], q, c, e).value, now);
    }
  }

  lemma ChangeSettles(w: World, q: ChangeRequest, c: Caller, e: Env, now: nat)
    requires KeysBelow(w)
    ensures Settled(w, ChangeMetadata(w, q, c, e, now).0, e, now)
  {
    hide ApplyChange, RetireAt, Authorized, Grows, OneRow;
    ChangeShape(w, q, c, e, now);
  }

  lemma PruneSettles(w: World, uploads: set<nat>, receipts: set<(string, string)>, e: Env, now: nat)
    requires KeysBelow(w) && MayPrune(w, uploads, receipts, e, now)
    ensures Settled(w, Prune(w, uploads, receipts), e, now)
  {}

  /** A step that leaves uploads and receipts alone. */
  lemma QuietSettles(w: World, w': World, e: Env, now: nat)
    requires w'.uploads == w.uploads && w'.receipts == w.receipts && w.nextKey <= w'.nextKey
    requires forall k :: k in w.uploads ==> k < w.nextKey
    ensures Settled(w, w', e, now)
  {}

  lemma StepSettles(w: World, a: Action, e: Env, now: nat)
    requires KeysBelow(w)
    ensures Settled(w, Step(w, a, e, now), e, now)
  {
    hide Intent, Commit, ChangeMetadata, CleanTickets, Settled, MayPrune;
    match a
    case OpenIntent(q, c) => IntentSettles(w, q, c, e, now);
    case CommitUpload(q, c) => CommitSettles(w, q, c, e, now);
    case ChangeMeta(q, c) => ChangeSettles(w, q, c, e, now);
    case Clean(due, claim) =>
      TicketsKeepFiles(w, due, claim, now);
      QuietSettles(w, Step(w, a, e, now), e, now);
    case PruneRows(uploads, receipts) =>
      if MayPrune(w, uploads, receipts, e, now) {
        PruneSettles(w, uploads, receipts, e, now);
      } else {
        QuietSettles(w, w, e, now);
      }
    case ConfirmDeleted(_, _) => QuietSettles(w, Step(w, a, e, now), e, now);
    case Elsewhere(_) => QuietSettles(w, Step(w, a, e, now), e, now);
    case UserEdit(_) => QuietSettles(w, Step(w, a, e, now), e, now);
  }

  /** The caller is the upload's execution and presents the bytes it was opened for. */
  predicate Presents(u: Upload, q: CommitRequest, c: Caller) {
    c.fence == u.fence && c.run == u.run && q.hash == u.hash && q.size == u.size
  }

  /**
   Exactly once, uploads: after an upload has been committed, in any run, a commit of it changes nothing
   and returns the same result whenever the caller is still authorised for that execution.
   */
  lemma {:induction false} CommitTakesEffectOnce(s: Clocked, actions: seq<Timed>, e: Env, k: nat, q: CommitRequest, c: Caller, at: nat)
    requires KeysBelow(s.world) && q.upload == k && k < s.world.nextKey
    requires k in s.world.uploads ==> s.world.uploads[k].result.Some?
    ensures var s' := Run(s, actions, e);
            var (w', o) := Commit(s'.world, q, c, e, Max(s'.clock, at));
            && w' == s'.world
            && (o.Done? ==> k in s.world.uploads && Some(o.value) == s.world.uploads[k].result)
            && (k in s.world.uploads && Presents(s.world.uploads[k], q, c) && Authorized(c, e, Max(s'.clock, at)) ==> o.Done?)
    decreases |actions|
  {
    hide Step, PlanCommit, Apply;
    if actions != [] {
      var a, now := actions[0], Max(s.clock, actions[0].at);
      StepSettles(s.world, a.action, e, now);
      ClockGrows(Next(s, a, e), actions[1..], e);
      CommitTakesEffectOnce(Next(s, a, e), actions[1..], e, k, q, c, at);
    }
  }

  /**
   Exactly once, metadata: after a change was made, in any run, the same request is answered from its
   receipt with the same result and changes nothing, as long as the caller is authorised at all.
   */
  lemma {:induction false} ChangeTakesEffectOnce(s: Clocked, actions: seq<Timed>, e: Env, q: ChangeRequest, c: Caller, at: nat)
    requires KeysBelow(s.world) && (c.run, q.request) in s.world.receipts && q.valid
    requires s.world.receipts[(c.run, q.request)].fence == c.fence && s.world.receipts[(c.run, q.request)].change == q.change
    ensures var s', r := Run(s, actions, e), s.world.receipts[(c.run, q.request)];
            var now := Max(s'.clock, at);
            ChangeMetadata(s'.world, q, c, e, now)
            == (s'.world, if Authorized(c, e, now) then Done((r.file, r.revision)) else Refused(RunUnavailable))
    decreases |actions|
  {
    hide Step, ApplyChange;
    if actions != [] {
      var a, now := actions[0], Max(s.clock, actions[0].at);
      StepSettles(s.world, a.action, e, now);
      ClockGrows(Next(s, a, e), actions[1..], e);
      if (c.run, q.request) in Next(s, a, e).world.receipts {
        ChangeTakesEffectOnce(Next(s, a, e), actions[1..], e, q, c, at);
      } else {
        assert !Authorized(c, e, Max(Run(s, actions, e).clock, at));
      }
    }
  }

  // ----- a user edits in the same millisecond -----------------------------------------------------------------

  /**
   A user's edit survives a replace that was opened before it, which then ends as a copy, exactly unless it
   happens in the millisecond that the replaced revision stands for: then the replace goes in place on top
   of it. (A note whose text does not fit inline is always written as a copy.)
   */
  lemma EditSurvivesExactly(w: World, q: EditRequest, now: nat, r: CommitRequest, c: Caller, e: Env, later: nat)
    requires MayEdit(w, q) && r.upload in w.uploads && w.uploads[r.upload].result.None?
    requires w.uploads[r.upload].op.ReplaceFile? && w.uploads[r.upload].op.file == q.edited
    requires Commit(EditText(w, q, now), r, c, e, later).1.Done?
    ensures var u, edited := w.uploads[r.upload], EditText(w, q, now);
            var w' := Commit(edited, r, c, e, later).0;
            var survives := now != u.op.base || (w.files[q.edited].kind.Note? && r.text != Some(u.size));
            && (survives ==> w'.files[..|w.files|] == edited.files)
            && (!survives ==> w'.files[q.edited].hash == u.hash && w'.files[q.edited].revision > now && |w'.files| == |w.files|)
  {
    hide Commit, Promote;
    var edited, u := EditText(w, q, now), w.uploads[r.upload];
    CommitShape(edited, r, c, e, later);
    var p := PlanCommit(edited, u, r, c, e).value;
    PlannedExists(edited, u, r, c, e);
    assert p.conflict <==> now != u.op.base || (w.files[q.edited].kind.Note? && r.text != Some(u.size));
    hide PlanCommit;
    ApplyShape(edited, r.upload, u, p, later);
  }

  const DRAFT: File := File("ada", "n", None, false, Note, 5, false, Inline, 1, "first", None)

  /** The agent opens a replace of the note, the user changes the note, the agent writes: all at time 5. */
  function Rush(c: Caller): seq<Timed> {
    [Timed(Elsewhere(DRAFT), 5),
     Timed(OpenIntent(IntentRequest("q", ReplaceFile(0, "n", 5), "agent", 1, "t", 20, true), c), 5),
     Timed(UserEdit(EditRequest(0, Some(5), "n", "user", 1, None)), 5),
     Timed(CommitUpload(CommitRequest(2, "agent", 1, Some(1), true), c), 5)]
  }

  lemma {:induction false} RunUpTo(s: Clocked, actions: seq<Timed>, n: nat, e: Env)
    requires n < |actions|
    ensures Run(s, actions[..n + 1], e) == Next(Run(s, actions[..n], e), actions[n], e)
    decreases n
  {
    if n > 0 {
      assert actions[..n + 1][1..] == actions[1..][..n] && actions[..n][1..] == actions[1..][..n - 1];
      RunUpTo(Next(s, actions[0], e), actions[1..], n - 1, e);
    } else {
      assert actions[..1][1..] == [];
    }
  }

  lemma OpenRush(w: World, c: Caller, e: Env)
    requires c.live && c.run == "r" && c.fence == "f" && e.deadline("f") == 30 && c.edits(0) && c.space
    requires w.files == [DRAFT] && w.uploads == map[] && w.nextKey == 1
    ensures var w' := Step(w, Rush(c)[1].action, e, 5);
            && w'.files == w.files && w'.usage == w.usage
            && w'.uploads == map[2 := Upload("r", "q", "f", ReplaceFile(0, "n", 5), "ada", "n", None, "agent", 1, "t", 20, None)]
  {
    assert AtPath(w.files, 0, "n");
    assert FindPrior(w.uploads, "r", "q", 0, 1) == FindPrior(w.uploads, "r", "q", 1, 1);
  }

  lemma CommitRush(w: World, c: Caller, e: Env)
    requires c.live && c.run == "r" && c.fence == "f" && e.deadline("f") == 30 && c.edits(0) && c.space
    requires w.files == [DRAFT.(hash := "user")]
    requires w.uploads == map[2 := Upload("r", "q", "f", ReplaceFile(0, "n", 5), "ada", "n", None, "agent", 1, "t", 20, None)]
    ensures Step(w, Rush(c)[3].action, e, 5).files == [DRAFT.(hash := "agent", revision := 6)]
  {
    var u, q := w.uploads[2], CommitRequest(2, "agent", 1, Some(1), true);
    assert AtPath(w.files, 0, "n");
    assert PlanCommit(w, u, q, c, e) == Done(Plan("n", false));
    PromoteShape(w.files, 0, 6);
  }

  /** The user's text is gone and no copy was made. */
  lemma EditIsLost(c: Caller, e: Env)
    requires c.live && c.run == "r" && c.fence == "f" && e.deadline("f") == 30 && c.edits(0) && c.space
    ensures Run(Clocked(EMPTY, 0), Rush(c)[..3], e).world.files == [DRAFT.(hash := "user")]
    ensures Run(Clocked(EMPTY, 0), Rush(c), e).world.files == [DRAFT.(hash := "agent", revision := 6)]
  {
    hide Step;
    var a := Rush(c);
    var s0 := Clocked(EMPTY, 0);
    var s1 := Next(s0, a[0], e);
    var s2 := Next(s1, a[1], e);
    var s3 := Next(s2, a[2], e);
    DraftArrives(c, e);
    OpenRush(s1.world, c, e);
    UserChanges(s2.world, c, e);
    CommitRush(s3.world, c, e);
    RunUpTo(s0, a, 0, e);
    RunUpTo(s0, a, 1, e);
    RunUpTo(s0, a, 2, e);
    RunUpTo(s0, a, 3, e);
    assert a[..0] == [] && a[..4] == a;
  }

  lemma DraftArrives(c: Caller, e: Env)
    ensures var w := Step(EMPTY, Rush(c)[0].action, e, 5); w.files == [DRAFT] && w.uploads == map[] && w.nextKey == 1
  {}

  lemma UserChanges(w: World, c: Caller, e: Env)
    requires w.files == [DRAFT]
    ensures var w' := Step(w, Rush(c)[2].action, e, 5); w'.files == [DRAFT.(hash := "user")] && w'.uploads == w.uploads
  {}
}
