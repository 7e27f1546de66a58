/**
 Where a committed upload ends up: a new file keeps its name exactly when the name is free in its folder,
 a stale replace becomes a copy, and a copy gets the first free candidate name.
 */
module DrivePlacement {
  import opened Common
  import opened DriveNames
  import opened Drive
  import opened DriveWrites
  import opened DriveTree

  /** No live entry of the folder has this portable name. */
  ghost predicate Vacant(files: seq<File>, name: string, parent: Option<nat>, e: Env) {
    forall i :: 0 <= i < |files| && !files[i].deleted && files[i].parent == parent ==> e.portable(files[i].name) != e.portable(name)
  }

  /** The candidate of this number is safe and free, and every one before it is safe but taken. */
  ghost predicate FirstFreeAt(files: seq<File>, name: string, parent: Option<nat>, e: Env, k: nat) {
    && 1 <= k <= 100 && e.safe(Candidate(name, k)) && Vacant(files, Candidate(name, k), parent, e)
    && forall j :: 1 <= j < k ==> e.safe(Candidate(name, j)) && !Vacant(files, Candidate(name, j), parent, e)
  }

  ghost predicate FirstFree(files: seq<File>, name: string, parent: Option<nat>, e: Env, chosen: string) {
    exists k :: FirstFreeAt(files, name, parent, e, k) && chosen == Candidate(name, k)
  }

  lemma VacantIsFree(files: seq<File>, name: string, parent: Option<nat>, e: Env)
    ensures Vacant(files, name, parent, e) <==> !Taken(files, name, parent, None, e)
  {}

  /** The search for a copy's name finds the first free candidate, whenever there is one. */
  lemma CopyNameIsFirstFree(files: seq<File>, name: string, parent: Option<nat>, e: Env)
    ensures var r := ConflictName(name, e.safe, n => Taken(files, n, parent, None, e), 1);
            && (r.Named? ==> FirstFree(files, name, parent, e, r.name))
            && (r.Named? <==> exists k :: FirstFreeAt(files, name, parent, e, k))
  {
    hide Candidate, Taken, Vacant;
    SearchIsExact(name, e.safe, n => Taken(files, n, parent, None, e), 1);
    forall n
      ensures Vacant(files, n, parent, e) <==> !Taken(files, n, parent, None, e)
    {
      VacantIsFree(files, n, parent, e);
    }
    var r := ConflictName(name, e.safe, n => Taken(files, n, parent, None, e), 1);
    if r.Named? {
      var k :| 1 <= k <= TRIES && r.name == Candidate(name, k)
               && forall j :: 1 <= j < k ==> e.safe(Candidate(name, j)) && Taken(files, Candidate(name, j), parent, None, e);
      assert FirstFreeAt(files, name, parent, e, k);
    }
  }

  predicate Pending(w: World, q: CommitRequest) {
    q.upload in w.uploads && w.uploads[q.upload].result.None?
  }

  /** A replace that no longer finds what it was made against, or a note that is too long to stay inline. */
  predicate Stale(w: World, u: Upload, q: CommitRequest) {
    u.op.ReplaceFile? && u.op.file < |w.files|
    && (w.files[u.op.file].revision != u.op.base || (w.files[u.op.file].kind == Note && q.text != Some(u.size)))
  }

  /** The row a write that does not replace in place leaves behind. */
  predicate NewRow(f: File, u: Upload, k: nat, name: string, revision: nat) {
    && f.name == name && f.parent == u.parent && f.owner == u.owner && !f.folder && !f.deleted
    && f.source == Object(k) && f.hash == u.hash && f.size == u.size && f.revision == revision
  }

  /** The row a replace in place leaves behind: the new bytes, inline for a note, and no longer anyone's duplicate. */
  function Rewritten(f: File, u: Upload, k: nat, r: Committed): File {
    f.(name := u.name, source := if f.kind == Note then Inline else Object(k), size := u.size, hash := u.hash, duplicateOf := None, revision := r.revision)
  }

  /**
   A commit of a pending upload that goes through. A new file is a conflict exactly when its name is taken
   in its folder, a replace exactly when it is stale; without a conflict the upload's own name stands, with
   one the first free candidate. Everything but a current replace is one new row in the upload's folder.
   */
  lemma CommitPlaces(w: World, q: CommitRequest, c: Caller, e: Env, now: nat)
    requires Pending(w, q) && Commit(w, q, c, e, now).1.Done?
    ensures var (u, w', r) := (w.uploads[q.upload], Commit(w, q, c, e, now).0, Commit(w, q, c, e, now).1.value);
            && (u.op.CreateFile? ==> (r.conflict <==> !Vacant(w.files, u.name, u.parent, e)))
            && (u.op.ReplaceFile? ==> u.op.file < |w.files| && (r.conflict <==> Stale(w, u, q)))
            && (!r.conflict ==> r.name == u.name)
            && (r.conflict ==> FirstFree(w.files, u.name, u.parent, e, r.name))
            && r.hash == u.hash && r.size == u.size && w'.uploads == w.uploads[q.upload := u.(result := Some(r))]
            && (if u.op.ReplaceFile? && !r.conflict
                then r.file == u.op.file && |w'.files| == |w.files| && w'.files[r.file] == Rewritten(w.files[r.file], u, q.upload, r)
                else r.file == |w.files| && |w'.files| == |w.files| + 1 && w'.files[..|w.files|] == w.files
                     && NewRow(w'.files[r.file], u, q.upload, r.name, r.revision))
  {
    hide ParentError, AtPath, Taken, Candidate, Vacant, FirstFree, Promote, ConflictName, Apply;
    var u := w.uploads[q.upload];
    CommitShape(w, q, c, e, now);
    PlannedExists(w, u, q, c, e);
    VacantIsFree(w.files, u.name, u.parent, e);
    CopyNameIsFirstFree(w.files, u.name, u.parent, e);
    var p := PlanCommit(w, u, q, c, e).value;
    PlacedByPlan(w, q.upload, u, p, now);
  }

  lemma PlacedByPlan(w: World, k: nat, u: Upload, p: Plan, now: nat)
    requires InPlace(u, p) ==> Existing(u).value < |w.files|
    ensures var (w', r) := Apply(w, k, u, p, now);
            && r.conflict == p.conflict && r.name == p.name && r.hash == u.hash && r.size == u.size && w'.uploads == w.uploads[k := u.(result := Some(r))]
            && (if InPlace(u, p)
                then r.file == Existing(u).value && |w'.files| == |w.files| && (p.name == u.name ==> w'.files[r.file] == Rewritten(w.files[r.file], u, k, r))
                else r.file == |w.files| && |w'.files| == |w.files| + 1 && w'.files[..|w.files|] == w.files
                     && NewRow(w'.files[r.file], u, k, p.name, r.revision))
  {
    hide Promote;
    if InPlace(u, p) {
      PromoteShape(w.files, Existing(u).value, NewRevision(w, u, now));
    }
  }

  /**
   A pending upload of a new file is committed exactly when it is presented in time, its folder is good, the
   caller may create and has the space, and its name or one of the hundred candidates can be used.
   */
  lemma CreatesExactly(w: World, q: CommitRequest, c: Caller, e: Env, now: nat)
    requires Pending(w, q) && w.uploads[q.upload].op.CreateFile?
    ensures var u := w.uploads[q.upload];
            Commit(w, q, c, e, now).1.Done? <==>
              && Presented(w, q, c, e, now) && ParentError(w.files, u.parent, None, 0, Units(u.name), c).None?
              && c.creates && (c.space || u.size == 0)
              && (Vacant(w.files, u.name, u.parent, e) || exists k :: FirstFreeAt(w.files, u.name, u.parent, e, k))
  {
    hide ParentError, AtPath, Taken, Vacant, FirstFreeAt, ConflictName, Apply;
    var u := w.uploads[q.upload];
    VacantIsFree(w.files, u.name, u.parent, e);
    CopyNameIsFirstFree(w.files, u.name, u.parent, e);
  }

  /**
   A folder is made exactly when its name is safe and free, its own folder is good and the caller may
   create, and then it is one new empty row of that name.
   */
  lemma FolderIsMadeExactly(w: World, name: string, parent: Option<nat>, c: Caller, e: Env, now: nat)
    ensures var (w', o) := ApplyMkdir(w, name, parent, c, e, now);
            && (o.Done? <==> e.safe(name) && c.creates && ParentError(w.files, parent, None, 0, Units(name), c).None? && Vacant(w.files, name, parent, e))
            && (o.Refused? ==> w' == w)
            && (o.Done? ==>
                  && |w'.files| == |w.files| + 1 && w'.files[..|w.files|] == w.files && o.value == (|w.files|, now)
                  && w' == w.(files := w'.files)
                  && var f := w'.files[|w.files|];
                     f.folder && !f.deleted && f.name == name && f.parent == parent && f.owner == c.actor && f.size == 0 && f.revision == now)
  {
    hide ParentError, Taken, Vacant;
    VacantIsFree(w.files, name, parent, e);
  }

  // ----- rights ----------------------------------------------------------------------------------------

  function CallerOf(a: Action): Option<Caller> {
    match a
    case OpenIntent(_, c) => Some(c)
    case CommitUpload(_, c) => Some(c)
    case ChangeMeta(_, c) => Some(c)
    case _ => None
  }

  /**
   An agent's request changes nothing without the right: before its deadline, a live authority, leave to
   edit each row whose content it changes, and leave to create for each row it adds.
   */
  lemma WritesNeedTheRight(w: World, a: Action, e: Env, now: nat)
    requires CallerOf(a).Some? && Step(w, a, e, now).files != w.files
    ensures var c, files' := CallerOf(a).value, Step(w, a, e, now).files;
            && c.live && now < e.deadline(c.fence)
            && |w.files| <= |files'|
            && (forall f :: 0 <= f < |w.files| && !SameContent(w.files[f], files'[f]) ==> !w.files[f].deleted && c.edits(f))
            && (|w.files| < |files'| ==> c.creates)
  {
    match a
    case OpenIntent(q, c) => IntentKeepsFiles(w, q, c, e, now);
    case CommitUpload(q, c) => CommitNeedsTheRight(w, q, c, e, now);
    case ChangeMeta(q, c) => ChangeNeedsTheRight(w, q, c, e, now);
    case _ =>
  }

  lemma CommitNeedsTheRight(w: World, q: CommitRequest, c: Caller, e: Env, now: nat)
    requires Commit(w, q, c, e, now).0.files != w.files
    ensures var files' := Commit(w, q, c, e, now).0.files;
            && Authorized(c, e, now) && |w.files| <= |files'|
            && (forall f :: 0 <= f < |w.files| && !SameContent(w.files[f], files'[f]) ==> Editable(w.files, f, c))
            && (|w.files| < |files'| ==> c.creates)
  {
    hide ParentError, AtPath, Taken, ConflictName, Apply;
    CommitShape(w, q, c, e, now);
    var u := w.uploads[q.upload];
    PlannedExists(w, u, q, c, e);
    ApplyShape(w, q.upload, u, PlanCommit(w, u, q, c, e).value, now);
  }

  lemma ChangeNeedsTheRight(w: World, q: ChangeRequest, c: Caller, e: Env, now: nat)
    requires ChangeMetadata(w, q, c, e, now).0.files != w.files
    ensures var files' := ChangeMetadata(w, q, c, e, now).0.files;
            && Authorized(c, e, now) && |w.files| <= |files'|
            && (forall f :: 0 <= f < |w.files| && !SameContent(w.files[f], files'[f]) ==> Editable(w.files, f, c))
            && (|w.files| < |files'| ==> c.creates)
  {
    ChangeShape(w, q, c, e, now);
    hide ParentError, AtPath, Taken, Promote, HasChildren;
  }
}
