/**
 When the drive stays a tree: live entries sit in live folders, no folder is inside itself, and no two
 live entries of a folder have the same portable name.
 */
module DriveTree {
  import opened Common
  import opened DriveNames
  import opened Drive
  import opened DriveWrites

  /** Live entries sit at the root or in a live folder. */
  ghost predicate Housed(files: seq<File>) {
    forall i :: 0 <= i < |files| && !files[i].deleted ==> GoodParent(files, files[i].parent)
  }

  predicate GoodParent(files: seq<File>, parent: Option<nat>) {
    parent.Some? ==> Live(files, parent.value) && files[parent.value].folder
  }

  /** Walking up reaches the root in fewer than n steps. */
  predicate Reaches(files: seq<File>, i: nat, n: nat)
    decreases n
  {
    n > 0 && i < |files| && (files[i].parent.Some? ==> Reaches(files, files[i].parent.value, n - 1))
  }

  ghost predicate HasRoot(files: seq<File>, i: nat) {
    exists n: nat :: Reaches(files, i, n)
  }

  ghost predicate Rooted(files: seq<File>) {
    forall i :: 0 <= i < |files| ==> HasRoot(files, i)
  }

  ghost predicate Unambiguous(files: seq<File>, e: Env) {
    forall i, j :: 0 <= i < j < |files| && !files[i].deleted && !files[j].deleted && files[i].parent == files[j].parent ==>
      e.portable(files[i].name) != e.portable(files[j].name)
  }

  ghost predicate Tree(files: seq<File>, e: Env) {
    Housed(files) && Rooted(files) && Unambiguous(files, e)
  }

  /** The commit names a pending upload of this execution and presents what it was opened for. */
  predicate Presented(w: World, q: CommitRequest, c: Caller, e: Env, now: nat) {
    && Authorized(c, e, now) && q.upload in w.uploads
    && var u := w.uploads[q.upload];
       && u.run == c.run && u.fence == c.fence && q.hash == u.hash && q.size == u.size
       && u.result.None? && now < u.expiresAt
       && (q.text.Some? ==> q.text.value <= MAX_TEXT_BYTES && q.wellFormed)
  }

  /**
   The commit goes through as a replace where the file is: the file is the owner's, at the revision and the
   path the upload names, a note's text fits inline, the upload's folder is good and there is space.
   */
  predicate Replaces(w: World, q: CommitRequest, c: Caller, e: Env, now: nat) {
    && Presented(w, q, c, e, now) && w.uploads[q.upload].op.ReplaceFile?
    && var u := w.uploads[q.upload];
       var f := u.op.file;
       && Editable(w.files, f, c) && !w.files[f].folder && w.files[f].owner == u.owner
       && w.files[f].revision == u.op.base && AtPath(w.files, f, u.op.path)
       && (w.files[f].kind.Note? ==> q.text == Some(u.size))
       && ParentError(w.files, u.parent, None, 0, Units(u.name), c).None?
       && (c.space || u.size <= ReleasedInline(w.files[f]))
  }

  /**
   What the three writes that do not look for a free name must find: an in-place replace brings back the
   name its upload was opened with, and files from elsewhere and users' edits bring names of their own.
   */
  predicate Orderly(w: World, a: Action, e: Env, now: nat) {
    match a
    case CommitUpload(q, c) =>
      Replaces(w, q, c, e, now) ==>
        var u := w.uploads[q.upload];
        !Taken(w.files, u.name, w.files[u.op.file].parent, Some(u.op.file), e)
    case Elsewhere(f) => GoodParent(w.files, f.parent) && !Taken(w.files, f.name, f.parent, None, e)
    case UserEdit(q) => MayEdit(w, q) ==> !Taken(w.files, q.title, w.files[q.edited].parent, Some(q.edited), e)
    case _ => true
  }

  // ----- parents --------------------------------------------------------------------------------------------

  lemma ParentIsGood(files: seq<File>, parent: Option<nat>, moving: Option<nat>, length: nat, c: Caller)
    requires ParentError(files, parent, moving, 0, length, c).None?
    ensures GoodParent(files, parent) && (parent.Some? ==> moving != parent)
  {}

  /** Walking up from an entry reaches the root without meeting `f`. */
  predicate Avoids(files: seq<File>, i: nat, f: nat, n: nat)
    decreases n
  {
    n > 0 && i < |files| && i != f && (files[i].parent.Some? ==> Avoids(files, files[i].parent.value, f, n - 1))
  }

  lemma {:induction false} CheckedPathAvoids(files: seq<File>, parent: Option<nat>, f: nat, depth: nat, length: nat, c: Caller)
    requires depth <= MAX_DEPTH && ParentError(files, parent, Some(f), depth, length, c).None? && parent.Some?
    ensures Avoids(files, parent.value, f, MAX_DEPTH + 1 - depth)
    decreases MAX_DEPTH - depth
  {
    var p := parent.value;
    if files[p].parent.Some? {
      CheckedPathAvoids(files, files[p].parent, f, depth + 1, length + Units(files[p].name) + 1, c);
    }
  }

  lemma {:induction false} AvoidingPathStays(files: seq<File>, files': seq<File>, i: nat, f: nat, n: nat)
    requires Avoids(files, i, f, n) && |files'| == |files| && forall k :: 0 <= k < |files| && k != f ==> files'[k].parent == files[k].parent
    ensures Reaches(files', i, n)
    decreases n
  {
    if files[i].parent.Some? {
      AvoidingPathStays(files, files', files[i].parent.value, f, n - 1);
    }
  }

  lemma {:induction false} ReachesMore(files: seq<File>, i: nat, n: nat, m: nat)
    requires Reaches(files, i, n) && n <= m
    ensures Reaches(files, i, m)
    decreases n
  {
    if files[i].parent.Some? {
      ReachesMore(files, files[i].parent.value, n - 1, m - 1);
    }
  }

  /** After a move every path that went through the moved entry continues on its new one. */
  lemma {:induction false} MovedPath(files: seq<File>, files': seq<File>, i: nat, f: nat, n: nat, m: nat)
    requires Reaches(files, i, n) && |files'| == |files| && forall k :: 0 <= k < |files| && k != f ==> files'[k].parent == files[k].parent
    requires f < |files| && Reaches(files', f, m)
    ensures Reaches(files', i, n + m)
    decreases n
  {
    if i == f {
      ReachesMore(files', f, m, n + m);
    } else if files[i].parent.Some? {
      MovedPath(files, files', files[i].parent.value, f, n - 1, m);
    }
  }

  lemma MoveKeepsRooted(files: seq<File>, f: nat, row: File, length: nat, c: Caller)
    requires Rooted(files) && f < |files| && ParentError(files, row.parent, Some(f), 0, length, c).None?
    ensures Rooted(files[f := row])
  {
    var files' := files[f := row];
    var m: nat := MAX_DEPTH + 2;
    if row.parent.Some? {
      CheckedPathAvoids(files, row.parent, f, 0, length, c);
      AvoidingPathStays(files, files', row.parent.value, f, MAX_DEPTH + 1);
    }
    assert Reaches(files', f, m);
    forall i | 0 <= i < |files'|
      ensures HasRoot(files', i)
    {
      assert HasRoot(files, i);
      var n: nat :| Reaches(files, i, n);
      MovedPath(files, files', i, f, n, m);
    }
  }

  lemma {:induction false} SameParentsReach(files: seq<File>, files': seq<File>, i: nat, n: nat)
    requires Reaches(files, i, n) && |files| <= |files'| && forall k :: 0 <= k < |files| ==> files'[k].parent == files[k].parent
    ensures Reaches(files', i, n)
    decreases n
  {
    if files[i].parent.Some? {
      SameParentsReach(files, files', files[i].parent.value, n - 1);
    }
  }

  lemma SameParentsKeepRooted(files: seq<File>, files': seq<File>)
    requires Rooted(files) && |files| == |files'| && forall k :: 0 <= k < |files| ==> files'[k].parent == files[k].parent
    ensures Rooted(files')
  {
    forall i | 0 <= i < |files'|
      ensures HasRoot(files', i)
    {
      assert HasRoot(files, i);
      var n: nat :| Reaches(files, i, n);
      SameParentsReach(files, files', i, n);
    }
  }

  // ----- names --------------------------------------------------------------------------------------------------

  lemma FreeName(files: seq<File>, name: string, parent: Option<nat>, besides: Option<nat>, e: Env)
    requires !Taken(files, name, parent, besides, e)
    ensures forall i :: 0 <= i < |files| && besides != Some(i) && !files[i].deleted && files[i].parent == parent ==> e.portable(files[i].name) != e.portable(name)
  {}

  /** A new entry with a free name in a good folder. */
  lemma AppendKeepsTree(files: seq<File>, f: File, e: Env)
    requires Tree(files, e) && GoodParent(files, f.parent) && !Taken(files, f.name, f.parent, None, e)
    ensures Tree(files + [f], e)
  {
    var files' := files + [f];
    FreeName(files, f.name, f.parent, None, e);
    hide Taken;
    assert Unambiguous(files', e) && Housed(files');
    forall i | 0 <= i < |files'|
      ensures HasRoot(files', i)
    {
      if i < |files| {
        assert HasRoot(files, i);
        var n: nat :| Reaches(files, i, n);
        SameParentsReach(files, files', i, n);
      } else if f.parent.Some? {
        assert HasRoot(files, f.parent.value);
        var n: nat :| Reaches(files, f.parent.value, n);
        SameParentsReach(files, files', f.parent.value, n);
        assert Reaches(files', i, n + 1);
      } else {
        assert Reaches(files', i, 1);
      }
    }
  }

  /** Rows that keep their place and name, except that some may go. */
  lemma QuietKeepsTree(files: seq<File>, files': seq<File>, e: Env)
    requires Tree(files, e) && |files'| == |files|
    requires forall i :: 0 <= i < |files| ==>
               files'[i].name == files[i].name && files'[i].parent == files[i].parent && files'[i].folder == files[i].folder
               && (files[i].deleted ==> files'[i].deleted)
    requires forall i :: 0 <= i < |files| && files'[i].deleted && !files[i].deleted ==> !HasChildren(files, i)
    ensures Tree(files', e)
  {
    SameParentsKeepRooted(files, files');
    assert Unambiguous(files', e);
    forall i | 0 <= i < |files'| && !files'[i].deleted
      ensures GoodParent(files', files'[i].parent)
    {
      assert GoodParent(files, files[i].parent);
      assert files[i].parent.Some? ==> HasChildren(files, files[i].parent.value);
    }
  }

  /** Rows that keep their place, and of which one takes another name, form a tree exactly when nothing else has it. */
  lemma RenameKeepsTreeExactly(files: seq<File>, files': seq<File>, f: nat, e: Env)
    requires Tree(files, e) && |files'| == |files| && f < |files| && !files[f].deleted
    requires forall i :: 0 <= i < |files| ==>
               (i != f ==> files'[i].name == files[i].name)
               && files'[i].parent == files[i].parent && files'[i].folder == files[i].folder && files'[i].deleted == files[i].deleted
    ensures Tree(files', e) <==> !Taken(files, files'[f].name, files[f].parent, Some(f), e)
  {
    SameParentsKeepRooted(files, files');
    assert Housed(files');
    if !Taken(files, files'[f].name, files[f].parent, Some(f), e) {
      FreeName(files, files'[f].name, files[f].parent, Some(f), e);
      assert Unambiguous(files', e);
    } else {
      var i :| 0 <= i < |files| && i != f && !files[i].deleted && files[i].parent == files[f].parent && e.portable(files[i].name) == e.portable(files'[f].name);
      assert files'[i].name == files[i].name;
    }
  }

  lemma {:induction false} InsideItself(files: seq<File>, i: nat, n: nat)
    requires i < |files| && files[i].parent == Some(i)
    ensures !Reaches(files, i, n)
    decreases n
  {
    if n > 0 {
      InsideItself(files, i, n - 1);
    }
  }

  /** A new entry keeps the tree exactly when its folder is good and its name free. */
  lemma AppendKeepsTreeExactly(files: seq<File>, f: File, e: Env)
    requires Tree(files, e) && !f.deleted
    ensures Tree(files + [f], e) <==> GoodParent(files, f.parent) && !Taken(files, f.name, f.parent, None, e)
  {
    var files' := files + [f];
    if GoodParent(files, f.parent) && !Taken(files, f.name, f.parent, None, e) {
      AppendKeepsTree(files, f, e);
    } else if f.parent == Some(|files|) {
      if HasRoot(files', |files|) {
        var n: nat :| Reaches(files', |files|, n);
        InsideItself(files', |files|, n);
      }
    } else if GoodParent(files, f.parent) {
      var i :| 0 <= i < |files| && !files[i].deleted && files[i].parent == f.parent && e.portable(files[i].name) == e.portable(f.name);
      assert files'[i] == files[i] && files'[|files|] == f;
    } else {
      assert files'[|files|] == f;
    }
  }

  lemma MoveKeepsTree(w: World, f: nat, path: string, base: nat, name: string, parent: Option<nat>, subtree: bool, c: Caller, e: Env, now: nat)
    requires Tree(w.files, e)
    ensures Tree(ApplyMove(w, f, path, base, name, parent, subtree, c, e, now).0.files, e)
  {
    hide PathFrom;
    var w' := ApplyMove(w, f, path, base, name, parent, subtree, c, e, now).0;
    if ApplyMove(w, f, path, base, name, parent, subtree, c, e, now).1.Done? {
      ParentIsGood(w.files, parent, Some(f), Units(name), c);
      FreeName(w.files, name, parent, Some(f), e);
      MoveKeepsRooted(w.files, f, w'.files[f], Units(name), c);
      hide ParentError, Taken, Rooted;
      assert Unambiguous(w'.files, e);
      assert Housed(w'.files);
    }
  }

  lemma FilesHaveNoChildren(files: seq<File>, f: nat)
    requires Housed(files) && f < |files| && !files[f].folder
    ensures !HasChildren(files, f)
  {}

  lemma RemoveKeepsTree(w: World, f: nat, path: string, base: nat, c: Caller, e: Env, now: nat)
    requires Tree(w.files, e)
    ensures Tree(ApplyRemove(w, f, path, base, c, now).0.files, e)
  {
    hide RowError, Tree, Housed, Promote, HasChildren;
    var w' := ApplyRemove(w, f, path, base, c, now).0;
    if ApplyRemove(w, f, path, base, c, now).1.Done? {
      RowErrorInRange(w, f, path, base, c);
      PromoteShape(w.files, f, Max(now, w.files[f].revision + 1));
      if !w.files[f].folder {
        TreeIsHoused(w.files, e);
        FilesHaveNoChildren(w.files, f);
      }
      QuietKeepsTree(w.files, w'.files, e);
    }
  }

  lemma TreeIsHoused(files: seq<File>, e: Env)
    requires Tree(files, e)
    ensures Housed(files)
  {}

  lemma RowErrorInRange(w: World, f: nat, path: string, base: nat, c: Caller)
    requires RowError(w, f, path, base, c).None?
    ensures f < |w.files|
  {}

  lemma ChangeKeepsTree(w: World, q: ChangeRequest, c: Caller, e: Env, now: nat)
    requires Tree(w.files, e)
    ensures Tree(ApplyChange(w, q, c, e, now).0.files, e)
  {
    hide Tree, ApplyMove, ApplyRemove;
    match q.change
    case Mkdir(name, parent) =>
      if ApplyChange(w, q, c, e, now).1.Done? {
        ParentIsGood(w.files, parent, None, Units(name), c);
        AppendKeepsTree(w.files, ApplyChange(w, q, c, e, now).0.files[|w.files|], e);
      }
    case Move(f, path, base, name, parent) => MoveKeepsTree(w, f, path, base, name, parent, q.subtree, c, e, now);
    case Remove(f, path, base) => RemoveKeepsTree(w, f, path, base, c, e, now);
  }

  // ----- commits -----------------------------------------------------------------------------------------------

  /** A planned commit has a good folder, and a copy has a free name. */
  lemma PlanIsFree(w: World, u: Upload, q: CommitRequest, c: Caller, e: Env)
    requires PlanCommit(w, u, q, c, e).Done?
    ensures GoodParent(w.files, u.parent)
    ensures !InPlace(u, PlanCommit(w, u, q, c, e).value) ==> !Taken(w.files, PlanCommit(w, u, q, c, e).value.name, u.parent, None, e)
  {
    hide ReplaceCheck, Taken, Candidate;
    ParentIsGood(w.files, u.parent, None, Units(u.name), c);
    SearchIsExact(u.name, e.safe, n => Taken(w.files, n, u.parent, None, e), 1);
  }

  /** These guards are exactly what lets a pending upload replace its file in place. */
  lemma ReplacesExactly(w: World, q: CommitRequest, c: Caller, e: Env, now: nat)
    ensures Replaces(w, q, c, e, now) <==>
              && q.upload in w.uploads && w.uploads[q.upload].result.None? && w.uploads[q.upload].op.ReplaceFile?
              && Commit(w, q, c, e, now).1.Done? && !Commit(w, q, c, e, now).1.value.conflict
    ensures Replaces(w, q, c, e, now) ==> w.uploads[q.upload].op.file < |w.files|
  {
    hide ParentError, AtPath, Taken, ReplaceInPlace, InsertFile, ConflictName;
    if q.upload in w.uploads && PlanCommit(w, w.uploads[q.upload], q, c, e).Done? {
      PlannedExists(w, w.uploads[q.upload], q, c, e);
    }
  }

  /** A commit keeps the tree exactly when it is not a replace in place that brings back a taken name. */
  lemma CommitKeepsTreeExactly(w: World, q: CommitRequest, c: Caller, e: Env, now: nat)
    requires Tree(w.files, e)
    ensures Tree(Commit(w, q, c, e, now).0.files, e) <==> Orderly(w, CommitUpload(q, c), e, now)
  {
    ReplacesExactly(w, q, c, e, now);
    hide Commit, PlanCommit, Promote, Tree, Taken, GoodParent, Replaces;
    CommitShape(w, q, c, e, now);
    var w' := Commit(w, q, c, e, now).0;
    if w' != w {
      var u := w.uploads[q.upload];
      var p := PlanCommit(w, u, q, c, e).value;
      PlannedExists(w, u, q, c, e);
      PlanIsFree(w, u, q, c, e);
      if InPlace(u, p) {
        PromoteShape(w.files, u.op.file, NewRevision(w, u, now));
        RenameKeepsTreeExactly(w.files, w'.files, u.op.file, e);
      } else {
        AppendKeepsTree(w.files, w'.files[|w.files|], e);
      }
    }
  }

  // ----- runs ----------------------------------------------------------------------------------------------------

  lemma EditKeepsTreeExactly(w: World, q: EditRequest, e: Env, now: nat)
    requires Tree(w.files, e)
    ensures Tree(EditText(w, q, now).files, e) <==> Orderly(w, UserEdit(q), e, now)
  {
    hide Tree, Taken;
    if MayEdit(w, q) {
      RenameKeepsTreeExactly(w.files, EditText(w, q, now).files, q.edited, e);
    }
  }

  /** From a tree, a step leads to a tree exactly when the names it brings are free and their folders good. */
  lemma StepKeepsTreeExactly(w: World, a: Action, e: Env, now: nat)
    requires Tree(w.files, e)
    ensures Tree(Step(w, a, e, now).files, e) <==> Orderly(w, a, e, now)
  {
    hide Tree, Intent, Commit, ApplyChange, CleanTickets, Taken, GoodParent, EditText;
    match a
    case OpenIntent(q, c) => IntentKeepsFiles(w, q, c, e, now);
    case CommitUpload(q, c) => CommitKeepsTreeExactly(w, q, c, e, now);
    case ChangeMeta(q, c) => ChangeKeepsTree(w, q, c, e, now);
    case Clean(due, claim) => TicketsKeepFiles(w, due, claim, now);
    case Elsewhere(f) => AppendKeepsTreeExactly(w.files, Adopt(w, f).files[|w.files|], e);
    case UserEdit(q) => EditKeepsTreeExactly(w, q, e, now);
    case _ =>
  }

  /** The drive is a tree in this state and in every later one of the run. */
  ghost predicate AlwaysTree(s: Clocked, actions: seq<Timed>, e: Env)
    decreases |actions|
  {
    Tree(s.world.files, e) && (actions == [] || AlwaysTree(Next(s, actions[0], e), actions[1..], e))
  }

  predicate OrderlyRun(s: Clocked, actions: seq<Timed>, e: Env)
    decreases |actions|
  {
    actions == []
    || (Orderly(s.world, actions[0].action, e, Max(s.clock, actions[0].at)) && OrderlyRun(Next(s, actions[0], e), actions[1..], e))
  }

  /** The drive is a tree throughout a run exactly when every step of it is orderly. */
  lemma {:induction false} TreeThroughoutExactly(s: Clocked, actions: seq<Timed>, e: Env)
    requires Tree(s.world.files, e)
    ensures AlwaysTree(s, actions, e) <==> OrderlyRun(s, actions, e)
    decreases |actions|
  {
    hide Step, Tree, Orderly;
    if actions != [] {
      StepKeepsTreeExactly(s.world, actions[0].action, e, Max(s.clock, actions[0].at));
      if Tree(Next(s, actions[0], e).world.files, e) {
        TreeThroughoutExactly(Next(s, actions[0], e), actions[1..], e);
      }
    }
  }

  // ----- callers that name revisions they have seen ----------------------------------------------------------------

  /** An open replace of a file's current revision knows its current name. */
  ghost predicate Remembers(files: seq<File>, u: Upload) {
    u.op.ReplaceFile? && u.op.file < |files| ==>
      && u.op.base <= files[u.op.file].revision
      && (files[u.op.file].revision == u.op.base ==> u.name == files[u.op.file].name)
  }

  ghost predicate Inv(w: World, e: Env) {
    Tree(w.files, e) && forall k :: k in w.uploads && w.uploads[k].result.None? ==> w.uploads[k].op.ReplaceFile? ==>
      w.uploads[k].op.file < |w.files| && Remembers(w.files, w.uploads[k])
  }

  /** A replace names a revision the file has had, and a user's edit does not come before the file's revision. */
  predicate Seen(w: World, a: Action, now: nat) {
    && (a.OpenIntent? && a.intent.op.ReplaceFile? && a.intent.op.file < |w.files| ==> a.intent.op.base <= w.files[a.intent.op.file].revision)
    && Timely(w, a, now)
  }

  /** The name such a replace brings back is the name the file has. */
  lemma SeenReplaceIsOrderly(w: World, q: CommitRequest, c: Caller, e: Env, now: nat)
    requires Inv(w, e)
    ensures Orderly(w, CommitUpload(q, c), e, now)
  {
    ReplacesExactly(w, q, c, e, now);
    hide Commit, PlanCommit, HasRoot, Replaces;
    if Replaces(w, q, c, e, now) {
      CommitShape(w, q, c, e, now);
      var u := w.uploads[q.upload];
      PlannedExists(w, u, q, c, e);
      assert Remembers(w.files, u);
      assert Unambiguous(w.files, e);
    }
  }

  /** Renaming a file raises its revision past every base that remembers the old name. */
  lemma GrowthKeepsMemory(w: World, w': World, k: nat)
    requires Grows(w.files, w'.files) && k in w.uploads && k in w'.uploads
    requires w'.uploads[k].op == w.uploads[k].op && w'.uploads[k].name == w.uploads[k].name
    requires w.uploads[k].op.ReplaceFile? ==> w.uploads[k].op.file < |w.files| && Remembers(w.files, w.uploads[k])
    ensures w'.uploads[k].op.ReplaceFile? ==> w'.uploads[k].op.file < |w'.files| && Remembers(w'.files, w'.uploads[k])
  {}

  /** Uploads are opened, renewed, committed or dropped, but never rewritten. */
  ghost predicate UploadsStay(w: World, w': World) {
    forall k :: k in w'.uploads && w'.uploads[k].result.None? ==>
      (k in w.uploads && w.uploads[k].result.None? && w'.uploads[k].op == w.uploads[k].op && w'.uploads[k].name == w.uploads[k].name)
      || (w'.files == w.files && (w'.uploads[k].op.ReplaceFile? ==>
                                    w'.uploads[k].op.file < |w.files|
                                    && w'.uploads[k].op.base <= w.files[w'.uploads[k].op.file].revision
                                    && w'.uploads[k].name == w.files[w'.uploads[k].op.file].name))
  }

  lemma OpenUploadRemembers(w: World, q: IntentRequest, c: Caller, e: Env, now: nat)
    requires q.op.ReplaceFile? && q.op.file < |w.files| ==> q.op.base <= w.files[q.op.file].revision
    ensures UploadsStay(w, OpenUpload(w, q, c, e, now).0)
  {
    hide ParentError, AtPath, Editable;
    var w' := OpenUpload(w, q, c, e, now).0;
    assert w'.files == w.files;
  }

  lemma RenewalStays(w: World, k: nat, expiresAt: nat)
    requires k in w.uploads
    ensures UploadsStay(w, w) && UploadsStay(w, w.(uploads := w.uploads[k := w.uploads[k].(expiresAt := expiresAt)]))
  {}

  lemma IntentRemembers(w: World, q: IntentRequest, c: Caller, e: Env, now: nat)
    requires q.op.ReplaceFile? && q.op.file < |w.files| ==> q.op.base <= w.files[q.op.file].revision
    ensures UploadsStay(w, Intent(w, q, c, e, now).0)
  {
    OpenUploadRemembers(w, q, c, e, now);
    assert UploadsStay(w, w);
    hide OpenUpload, FindPrior, Authorized, SameWrite, UploadsStay;
    var prior := FindPrior(w.uploads, c.run, q.request, 0, w.nextKey);
    if prior.Some? {
      RenewalStays(w, prior.value, Min(q.expiresAt, Min(e.deadline(c.fence), now + INTENT_MS)));
    }
  }

  lemma CommitKeepsUploads(w: World, q: CommitRequest, c: Caller, e: Env, now: nat)
    ensures UploadsStay(w, Commit(w, q, c, e, now).0)
  {
    hide Commit, PlanCommit, Apply;
    CommitShape(w, q, c, e, now);
    if Commit(w, q, c, e, now).0 != w {
      ApplyShape(w, q.upload, w.uploads[q.upload], PlanCommit(w, w.uploads[q.upload], q, c, e).value, now);
    }
  }

  /** A step that opens and changes no upload. */
  lemma FewerUploadsStay(w: World, w': World)
    requires forall k :: k in w'.uploads ==> k in w.uploads && w'.uploads[k] == w.uploads[k]
    ensures UploadsStay(w, w')
  {}

  lemma ChangeKeepsUploads(w: World, q: ChangeRequest, c: Caller, e: Env, now: nat)
    ensures ChangeMetadata(w, q, c, e, now).0.uploads == w.uploads
  {
    hide ApplyChange, Authorized, Grows, OneRow;
    ChangeShape(w, q, c, e, now);
  }

  lemma StepKeepsUploads(w: World, a: Action, e: Env, now: nat)
    requires Seen(w, a, now)
    ensures UploadsStay(w, Step(w, a, e, now))
  {
    hide UploadsStay, Intent, Commit, ChangeMetadata, CleanTickets;
    if a.OpenIntent? {
      IntentRemembers(w, a.intent, a.caller, e, now);
    } else if a.CommitUpload? {
      CommitKeepsUploads(w, a.commit, a.committer, e, now);
    } else {
      if a.ChangeMeta? {
        ChangeKeepsUploads(w, a.change, a.user, e, now);
      } else if a.Clean? {
        TicketsKeepFiles(w, a.due, a.claim, now);
      }
      FewerUploadsStay(w, Step(w, a, e, now));
    }
  }

  lemma StepKeepsInv(w: World, a: Action, e: Env, now: nat)
    requires Inv(w, e) && Seen(w, a, now) && Orderly(w, a, e, now)
    ensures Inv(Step(w, a, e, now), e)
  {
    hide Tree, Step, Orderly;
    StepKeepsTreeExactly(w, a, e, now);
    StepKeepsUploads(w, a, e, now);
    StepGrows(w, a, e, now);
    var w' := Step(w, a, e, now);
    forall k | k in w'.uploads && w'.uploads[k].result.None? && w'.uploads[k].op.ReplaceFile?
      ensures w'.uploads[k].op.file < |w'.files| && Remembers(w'.files, w'.uploads[k])
    {
      if k in w.uploads && w.uploads[k].result.None? && w'.uploads[k].op == w.uploads[k].op && w'.uploads[k].name == w.uploads[k].name {
        GrowthKeepsMemory(w, w', k);
      }
    }
  }

  /** Replaces name revisions they have seen, and the names that come from elsewhere are free. */
  predicate SeenRun(s: Clocked, actions: seq<Timed>, e: Env)
    decreases |actions|
  {
    actions == []
    || (var (a, now) := (actions[0].action, Max(s.clock, actions[0].at));
        Seen(s.world, a, now) && (!a.CommitUpload? ==> Orderly(s.world, a, e, now)) && SeenRun(Next(s, actions[0], e), actions[1..], e))
  }

  /** Then no replace brings back a taken name. */
  lemma {:induction false} SeenRunIsOrderly(s: Clocked, actions: seq<Timed>, e: Env)
    requires Inv(s.world, e) && SeenRun(s, actions, e)
    ensures OrderlyRun(s, actions, e)
    decreases |actions|
  {
    hide Step, Inv, Orderly, Seen;
    if actions != [] {
      var (a, now) := (actions[0].action, Max(s.clock, actions[0].at));
      if a.CommitUpload? {
        SeenReplaceIsOrderly(s.world, a.commit, a.committer, e, now);
      }
      StepKeepsInv(s.world, a, e, now);
      SeenRunIsOrderly(Next(s, actions[0], e), actions[1..], e);
    }
  }

  lemma {:induction false} TreeAtTheEnd(s: Clocked, actions: seq<Timed>, e: Env)
    requires AlwaysTree(s, actions, e)
    ensures Tree(Run(s, actions, e).world.files, e)
    decreases |actions|
  {
    hide Step, Tree;
    if actions != [] {
      TreeAtTheEnd(Next(s, actions[0], e), actions[1..], e);
    }
  }

  /**
   The drive stays a tree in every run whose callers name revisions they have seen and whose names from
   elsewhere are free: each live entry sits in a live folder, every entry's path reaches the root, and no
   two live entries of a folder share a portable name.
   */
  lemma DriveStaysATree(actions: seq<Timed>, e: Env, i: nat, j: nat)
    requires SeenRun(Clocked(EMPTY, 0), actions, e)
    ensures var files := Run(Clocked(EMPTY, 0), actions, e).world.files;
            && (i < |files| && !files[i].deleted && files[i].parent.Some? ==>
                  Live(files, files[i].parent.value) && files[files[i].parent.value].folder)
            && (i < |files| ==> HasRoot(files, i))
            && (i < j < |files| && !files[i].deleted && !files[j].deleted && files[i].parent == files[j].parent ==>
                  e.portable(files[i].name) != e.portable(files[j].name))
  {
    assert Inv(EMPTY, e);
    SeenRunIsOrderly(Clocked(EMPTY, 0), actions, e);
    TreeThroughoutExactly(Clocked(EMPTY, 0), actions, e);
    TreeAtTheEnd(Clocked(EMPTY, 0), actions, e);
    hide Run, OrderlyRun, SeenRun;
  }

  // ----- runs that end in two entries of one name -------------------------------------------------------------------

  function Sheet(name: string, revision: nat): File {
    File("ada", name, None, false, OtherKind, revision, false, Inline, 1, "h", None)
  }

  /** Entries 0 and 1 are live, at the root, and have one name. */
  predicate Clash(files: seq<File>, name: string) {
    |files| == 2 && !files[0].deleted && !files[1].deleted && files[0].parent == files[1].parent == None && files[0].name == files[1].name == name
  }

  lemma ClashIsNoTree(files: seq<File>, name: string, e: Env)
    requires Clash(files, name)
    ensures !Tree(files, e)
  {}

  /** Other parts of the product bring in two files of one name. */
  lemma ArrivalsClash(e: Env)
    ensures var files := Run(Clocked(EMPTY, 0), [Timed(Elsewhere(Sheet("a", 1)), 1), Timed(Elsewhere(Sheet("a", 1)), 1)], e).world.files;
            Clash(files, "a") && !Tree(files, e)
  {
    var a := [Timed(Elsewhere(Sheet("a", 1)), 1), Timed(Elsewhere(Sheet("a", 1)), 1)];
    RunUpTo(Clocked(EMPTY, 0), a, 0, e);
    RunUpTo(Clocked(EMPTY, 0), a, 1, e);
    assert a[..0] == [] && a[..2] == a;
    ClashIsNoTree(Run(Clocked(EMPTY, 0), a, e).world.files, "a", e);
  }

  /** A user renames a file to the name of another one. */
  lemma RenameClashes(e: Env)
    ensures var files := Run(Clocked(EMPTY, 0), [Timed(Elsewhere(Sheet("a", 1)), 1), Timed(Elsewhere(Sheet("b", 1)), 1),
                                                 Timed(UserEdit(EditRequest(1, Some(1), "a", "h", 1, None)), 2)], e).world.files;
            Clash(files, "a") && !Tree(files, e)
  {
    var a := [Timed(Elsewhere(Sheet("a", 1)), 1), Timed(Elsewhere(Sheet("b", 1)), 1), Timed(UserEdit(EditRequest(1, Some(1), "a", "h", 1, None)), 2)];
    RunUpTo(Clocked(EMPTY, 0), a, 0, e);
    RunUpTo(Clocked(EMPTY, 0), a, 1, e);
    RunUpTo(Clocked(EMPTY, 0), a, 2, e);
    assert a[..0] == [] && a[..3] == a;
    ClashIsNoTree(Run(Clocked(EMPTY, 0), a, e).world.files, "a", e);
  }

  /**
   A replace names revision 9 of a file that is still at revision 1; the file is moved to another name at
   time 9, a new file takes the old name, and then the replace goes through.
   */
  function Guess(c: Caller): seq<Timed> {
    [Timed(Elsewhere(Sheet("a", 1)), 1),
     Timed(OpenIntent(IntentRequest("q", ReplaceFile(0, "new", 9), "x", 1, "t", 20, true), c), 1),
     Timed(ChangeMeta(ChangeRequest("m", Move(0, "a", 1, "new", None), true, true), c), 9),
     Timed(Elsewhere(Sheet("a", 9)), 9),
     Timed(CommitUpload(CommitRequest(2, "x", 1, None, true), c), 9)]
  }

  predicate Able(c: Caller, e: Env) {
    c.live && c.run == "r" && c.fence == "f" && e.deadline("f") == 30 && c.edits(0) && c.space
  }

  const PENDING: Upload := Upload("r", "q", "f", ReplaceFile(0, "new", 9), "ada", "a", None, "x", 1, "t", 20, None)

  lemma OpenGuess(w: World, c: Caller, e: Env)
    requires Able(c, e) && w.files == [Sheet("a", 1)] && w.uploads == map[] && w.nextKey == 1
    ensures var w' := Step(w, Guess(c)[1].action, e, 1); w'.files == w.files && w'.uploads == map[2 := PENDING] && w'.receipts == w.receipts
  {
    assert FindPrior(w.uploads, "r", "q", 0, 1) == FindPrior(w.uploads, "r", "q", 1, 1);
  }

  lemma MoveGuess(w: World, c: Caller, e: Env)
    requires Able(c, e) && e.safe("new") && w.files == [Sheet("a", 1)] && w.uploads == map[2 := PENDING] && w.receipts == map[]
    ensures var w' := Step(w, Guess(c)[2].action, e, 9); w'.files == [Sheet("new", 9)] && w'.uploads == w.uploads
  {
    assert AtPath(w.files, 0, "a");
    assert !Taken(w.files, "new", None, Some(0), e);
  }

  lemma CommitGuess(w: World, c: Caller, e: Env)
    requires Able(c, e) && w.files == [Sheet("new", 9), Sheet("a", 9)] && w.uploads == map[2 := PENDING]
    ensures Clash(Step(w, Guess(c)[4].action, e, 9).files, "a")
  {
    var q := CommitRequest(2, "x", 1, None, true);
    assert AtPath(w.files, 0, "new");
    assert PlanCommit(w, PENDING, q, c, e) == Done(Plan("a", false));
    PromoteShape(w.files, 0, 10);
  }

  lemma ArriveGuess(w: World, c: Caller, e: Env, k: nat)
    requires (k == 0 && w == EMPTY) || (k == 3 && w.files == [Sheet("new", 9)])
    ensures var w' := Step(w, Guess(c)[k].action, e, Guess(c)[k].at);
            && w'.files == w.files + [Sheet("a", Guess(c)[k].at)] && w'.uploads == w.uploads && w'.receipts == w.receipts && w'.nextKey == w.nextKey + 1
  {}

  /** Just before the replace the two entries have different names. */
  lemma GuessedRevisionClashes(c: Caller, e: Env)
    requires Able(c, e) && e.safe("new")
    ensures Clash(Run(Clocked(EMPTY, 0), Guess(c), e).world.files, "a") && !Tree(Run(Clocked(EMPTY, 0), Guess(c), e).world.files, e)
    ensures Run(Clocked(EMPTY, 0), Guess(c)[..4], e).world.files == [Sheet("new", 9), Sheet("a", 9)]
  {
    hide Step;
    var a, s0 := Guess(c), Clocked(EMPTY, 0);
    var s1 := Next(s0, a[0], e);
    var s2 := Next(s1, a[1], e);
    var s3 := Next(s2, a[2], e);
    var s4 := Next(s3, a[3], e);
    ArriveGuess(s0.world, c, e, 0);
    OpenGuess(s1.world, c, e);
    MoveGuess(s2.world, c, e);
    ArriveGuess(s3.world, c, e, 3);
    CommitGuess(s4.world, c, e);
    RunUpTo(s0, a, 0, e);
    RunUpTo(s0, a, 1, e);
    RunUpTo(s0, a, 2, e);
    RunUpTo(s0, a, 3, e);
    RunUpTo(s0, a, 4, e);
    assert a[..0] == [] && a[..5] == a;
    ClashIsNoTree(Run(s0, a, e).world.files, "a", e);
  }
}
