/** The drive mutations as they run: file, upload, receipt and ticket rows updated in place. */
module DriveTable {
  import opened Common
  import opened DriveNames
  import opened Drive
  import opened DriveWrites

  class Table {
    var files: seq<File>
    var uploads: map<nat, Upload>
    var receipts: map<(string, string), Receipt>
    var tickets: map<nat, Ticket>
    var usage: map<string, int>
    var nextKey: nat
    var nextTicket: nat
    var handed: set<Source>

    function State(): World
      reads this
    {
      World(files, uploads, receipts, tickets, usage, nextKey, nextTicket, handed)
    }

    constructor ()
      ensures State() == EMPTY
    {
      files, uploads, receipts, tickets, usage, nextKey, nextTicket, handed := [], map[], map[], map[], map[], 0, 0, {};
    }

    method ApplyUsageDelta(owner: string, delta: int)
      modifies this`usage
      ensures State() == Charge(old(State()), owner, delta)
    {
      var used := if owner in usage then usage[owner] else 0;
      usage := usage[owner := Max(0, used + delta)];
    }

    method QueueTicket(t: Ticket)
      modifies this`tickets, this`nextTicket
      ensures State() == AddTicket(old(State()), t)
    {
      tickets := tickets[nextTicket := t];
      nextTicket := nextTicket + 1;
    }

    /** An upload intent: the same request always gets the same upload. */
    method RequestUpload(q: IntentRequest, c: Caller, e: Env, now: nat) returns (r: Outcome<nat>)
      modifies this
      ensures (State(), r) == Intent(old(State()), q, c, e, now)
    {
      hide Target, ParentError, FindPrior;
      if !Authorized(c, e, now) {
        return Refused(RunUnavailable);
      }
      if !q.valid || q.size > MAX_FILE_BYTES {
        return Refused(InvalidUpload);
      }
      var prior := FindPrior(uploads, c.run, q.request, 0, nextKey);
      if prior.Some? {
        var u := uploads[prior.value];
        if u.fence != c.fence {
          return Refused(RunUnavailable);
        }
        if !SameWrite(u, q) {
          return Refused(RequestConflict);
        }
        if u.result.None? && u.expiresAt <= now {
          uploads := uploads[prior.value := u.(expiresAt := Min(q.expiresAt, Min(e.deadline(c.fence), now + INTENT_MS)))];
        }
        return Done(prior.value);
      }
      var target := Target(files, q.op, c, e);
      if target.Refused? {
        return Refused(target.error);
      }
      var owner, name, parent := target.value.0, target.value.1, target.value.2;
      var error := ParentError(files, parent, None, 0, Units(name), c);
      if error.Some? {
        return Refused(error.value);
      }
      if !c.space && q.size > 0 {
        return Refused(StorageQuota);
      }
      var final, at := nextKey + 1, e.deadline(c.fence) + DAY_MS;
      QueueTicket(Unclaimed(owner, Staging, 0, Object(nextKey), at));
      QueueTicket(Unclaimed(owner, Uncommitted, 0, Object(final), at));
      uploads := uploads[final := Upload(c.run, q.request, c.fence, q.op, owner, name, parent, q.hash, q.size, q.mime,
                                         Min(q.expiresAt, now + INTENT_MS), None)];
      nextKey := nextKey + 2;
      return Done(final);
    }

    /** The first duplicate becomes the one the others point to. */
    method PromoteDuplicate(f: nat, now: nat)
      requires f < |files|
      modifies this`files
      ensures State() == old(State()).(files := Promote(old(files), f, now))
    {
      if files[f].duplicateOf.Some? {
        return;
      }
      var rows := files;
      var first: Option<nat> := None;
      for i := 0 to |rows|
        invariant |files| == |rows| && first == FirstBelow(rows, f, i)
        invariant forall k :: 0 <= k < |rows| ==>
                    files[k] == if k < i && Duplicate(rows, f, k) then Repointed(rows, k, first, now) else rows[k]
      {
        FirstBelowStep(rows, f, i);
        if Duplicate(rows, f, i) {
          first := if first.None? then Some(i) else first;
          files := files[i := rows[i].(duplicateOf := if first == Some(i) then None else first, revision := Max(now, rows[i].revision + 1))];
        }
      }
      FirstBelowAll(rows, f);
      PromotedFirst(rows, f, 0);
      assert files == Promote(rows, f, now);
    }

    method RetireContent(f: nat, now: nat)
      requires f < |files|
      modifies this`tickets, this`nextTicket
      ensures State() == Retire(old(State()), f, now)
    {
      if !files[f].source.Inline? {
        QueueTicket(Unclaimed(files[f].owner, Version, files[f].size, files[f].source, now + DAY_MS));
      }
    }

    /** Where the write goes: in place, under its name, or to a free name next to it. */
    method Place(u: Upload, q: CommitRequest, c: Caller, e: Env) returns (p: Outcome<Plan>)
      ensures p == PlanCommit(State(), u, q, c, e)
    {
      var check := ReplaceCheck(State(), u, q, c);
      if check.Refused? {
        return Refused(check.error);
      }
      var conflict := check.value;
      var parent := ParentError(files, u.parent, None, 0, Units(u.name), c);
      if parent.Some? {
        return Refused(parent.value);
      }
      if Existing(u).Some? && !conflict {
        return Done(Plan(u.name, false));
      }
      if !c.creates {
        return Refused(EditDenied);
      }
      if !conflict && Taken(files, u.name, u.parent, None, e) {
        conflict := true;
      }
      if !conflict {
        return Done(Plan(u.name, false));
      }
      var rows := files;
      var naming := FindConflictName(u.name, e.safe, n => Taken(rows, n, u.parent, None, e));
      match naming {
        case Named(name) => p := Done(Plan(name, true));
        case Unsafe => p := Refused(UnsafePath);
        case AllTaken => p := Refused(PathConflict);
      }
    }

    /** The writes of a commit. */
    method Store(k: nat, u: Upload, p: Plan, now: nat) returns (r: Committed)
      requires InPlace(u, p) ==> Existing(u).value < |files|
      modifies this
      ensures (State(), r) == Apply(old(State()), k, u, p, now)
    {
      hide Promote;
      ghost var w := State();
      var at, stored := NewRevision(State(), u, now), StoresObject(State(), u, p);
      var source := if stored then Object(k) else Inline;
      var f := |files|;
      if InPlace(u, p) {
        f := Existing(u).value;
        var was := files[f];
        PromoteDuplicate(f, at);
        PromoteShape(w.files, f, at);
        RetireContent(f, at);
        files := files[f := was.(name := p.name, source := source, size := u.size, hash := u.hash, duplicateOf := None, revision := at)];
        ApplyUsageDelta(u.owner, u.size - ReleasedInline(was));
        assert State() == ReplaceInPlace(w, f, k, u, p, at);
      } else {
        files := files + [File(u.owner, p.name, u.parent, false, OtherKind, at, false, Object(k), u.size, u.hash, None)];
        ApplyUsageDelta(u.owner, u.size);
        assert State() == InsertFile(w, k, u, p, at);
      }
      r := Committed(f, at, p.name, p.conflict, stored, u.hash, u.size);
      uploads := uploads[k := u.(result := Some(r))];
    }

    method CommitUpload(q: CommitRequest, c: Caller, e: Env, now: nat) returns (r: Outcome<Committed>)
      modifies this
      ensures (State(), r) == Commit(old(State()), q, c, e, now)
    {
      hide PlanCommit, Apply;
      if !Authorized(c, e, now) {
        return Refused(RunUnavailable);
      }
      if q.upload !in uploads {
        return Refused(UploadUnavailable);
      }
      var u := uploads[q.upload];
      if u.run != c.run || u.fence != c.fence {
        return Refused(RunUnavailable);
      }
      if q.hash != u.hash || q.size != u.size {
        return Refused(UploadChanged);
      }
      if u.result.Some? {
        return Done(u.result.value);
      }
      if u.expiresAt <= now {
        return Refused(UploadExpired);
      }
      if q.text.Some? && (q.text.value > MAX_TEXT_BYTES || !q.wellFormed) {
        return Refused(InvalidUpload);
      }
      var plan := Place(u, q, c, e);
      if plan.Refused? {
        return Refused(plan.error);
      }
      var p := plan.value;
      PlannedExists(State(), u, q, c, e);
      var released := if InPlace(u, p) && Existing(u).value < |files| then ReleasedInline(files[Existing(u).value]) else 0;
      if !c.space && u.size > released {
        return Refused(StorageQuota);
      }
      var done := Store(q.upload, u, p, now);
      return Done(done);
    }

    method MoveRow(f: nat, path: string, base: nat, name: string, parent: Option<nat>, subtree: bool, c: Caller, e: Env, now: nat)
      returns (r: Outcome<(nat, nat)>)
      modifies this`files
      ensures (State(), r) == ApplyMove(old(State()), f, path, base, name, parent, subtree, c, e, now)
    {
      hide ParentError, Taken, PathFrom;
      var error := RowError(State(), f, path, base, c);
      if error.Some? {
        return Refused(error.value);
      }
      var at := Max(now, files[f].revision + 1);
      if !e.safe(name) {
        return Refused(UnsafePath);
      }
      error := ParentError(files, parent, Some(f), 0, Units(name), c);
      if error.Some? {
        return Refused(error.value);
      }
      if Taken(files, name, parent, Some(f), e) {
        return Refused(PathConflict);
      }
      if files[f].folder && !subtree {
        return Refused(EditDenied);
      }
      files := files[f := files[f].(name := name, parent := parent, revision := at)];
      return Done((f, at));
    }

    method RemoveRow(f: nat, path: string, base: nat, c: Caller, now: nat) returns (r: Outcome<(nat, nat)>)
      modifies this
      ensures (State(), r) == ApplyRemove(old(State()), f, path, base, c, now)
    {
      hide PathFrom, HasChildren, Promote;
      var error := RowError(State(), f, path, base, c);
      if error.Some? {
        return Refused(error.value);
      }
      if files[f].folder && HasChildren(files, f) {
        return Refused(DirectoryNotEmpty);
      }
      var was, at := files[f], Max(now, files[f].revision + 1);
      PromoteShape(files, f, at);
      if !was.folder {
        PromoteDuplicate(f, at);
        if ReleasedInline(was) > 0 {
          ApplyUsageDelta(was.owner, 0 - ReleasedInline(was));
        }
      }
      files := files[f := was.(deleted := true, revision := at)];
      return Done((f, at));
    }

    method MakeFolder(name: string, parent: Option<nat>, c: Caller, e: Env, now: nat) returns (r: Outcome<(nat, nat)>)
      modifies this`files
      ensures (State(), r) == ApplyMkdir(old(State()), name, parent, c, e, now)
    {
      hide ParentError, Taken;
      if !e.safe(name) {
        return Refused(UnsafePath);
      }
      if !c.creates {
        return Refused(EditDenied);
      }
      var error := ParentError(files, parent, None, 0, Units(name), c);
      if error.Some? {
        return Refused(error.value);
      }
      if Taken(files, name, parent, None, e) {
        return Refused(PathConflict);
      }
      files := files + [File(c.actor, name, parent, true, OtherKind, now, false, Inline, 0, "", None)];
      return Done((|files| - 1, now));
    }

    /** A metadata change with its receipt. */
    method CommitChange(q: ChangeRequest, c: Caller, e: Env, now: nat) returns (r: Outcome<(nat, nat)>)
      modifies this
      ensures (State(), r) == ChangeMetadata(old(State()), q, c, e, now)
    {
      hide ApplyMkdir, ApplyMove, ApplyRemove;
      if !Authorized(c, e, now) {
        return Refused(RunUnavailable);
      }
      if !q.valid {
        return Refused(InvalidUpload);
      }
      if (c.run, q.request) in receipts {
        var known := receipts[(c.run, q.request)];
        if known.fence == c.fence && known.change == q.change {
          return Done((known.file, known.revision));
        }
        return Refused(RequestConflict);
      }
      ChangeShape(State(), q, c, e, now);
      match q.change {
        case Mkdir(name, parent) => r := MakeFolder(name, parent, c, e, now);
        case Move(f, path, base, name, parent) => r := MoveRow(f, path, base, name, parent, q.subtree, c, e, now);
        case Remove(f, path, base) => r := RemoveRow(f, path, base, c, now);
      }
      if r.Done? {
        receipts := receipts[(c.run, q.request) := Receipt(c.fence, q.change, r.value.0, r.value.1)];
      }
    }

    /** One due ticket. */
    method CleanOne(t: nat, claim: string, now: nat)
      requires t in tickets
      modifies this
      ensures State() == CleanTicket(old(State()), t, claim, now)
    {
      hide Referenced;
      var row := tickets[t];
      if Referenced(files, row.source) {
        if row.purpose.Uncommitted? {
          tickets := tickets - {t};
        } else {
          tickets := tickets[t := row.(nextAttemptAt := now + RETRY_MS)];
        }
      } else if row.source.Convex? {
        tickets := tickets - {t};
        ApplyUsageDelta(row.owner, 0 - row.size);
        handed := handed + {row.source};
      } else if row.source.Object? {
        tickets := tickets[t := row.(state := Deleting(claim), nextAttemptAt := now + RETRY_MS)];
        handed := handed + {row.source};
      }
    }

    /** The cleanup claim: a page of due tickets in order. */
    method ClaimDue(due: seq<nat>, claim: string, now: nat)
      modifies this
      ensures State() == CleanTickets(old(State()), due, claim, now)
    {
      hide CleanTicket;
      var i := 0;
      while i < |due|
        invariant i <= |due| && CleanTickets(State(), due[i..], claim, now) == CleanTickets(old(State()), due, claim, now)
      {
        assert due[i..][1..] == due[i + 1..];
        if due[i] in tickets && tickets[due[i]].nextAttemptAt <= now {
          CleanOne(due[i], claim, now);
        }
        i := i + 1;
      }
    }

    method ConfirmDeletion(t: nat, claim: string) returns (ok: bool)
      modifies this`tickets, this`usage
      ensures (State(), ok) == Confirm(old(State()), t, claim)
    {
      if t !in tickets {
        return true;
      }
      var row := tickets[t];
      if !row.source.Object? || row.state != Deleting(claim) || Referenced(files, row.source) {
        return false;
      }
      tickets := tickets - {t};
      ApplyUsageDelta(row.owner, 0 - row.size);
      return true;
    }
  }

  // ----- the first duplicate -----------------------------------------------------------------------------------

  function FirstBelow(rows: seq<File>, f: nat, n: nat): Option<nat> {
    if n == 0 then None
    else if FirstBelow(rows, f, n - 1).Some? then FirstBelow(rows, f, n - 1)
    else if Duplicate(rows, f, n - 1) then Some(n - 1) else None
  }

  function Repointed(rows: seq<File>, k: nat, first: Option<nat>, now: nat): File
    requires k < |rows|
  {
    rows[k].(duplicateOf := if first == Some(k) then None else first, revision := Max(now, rows[k].revision + 1))
  }

  lemma FirstBelowStep(rows: seq<File>, f: nat, n: nat)
    ensures FirstBelow(rows, f, n + 1) == if FirstBelow(rows, f, n).Some? then FirstBelow(rows, f, n) else if Duplicate(rows, f, n) then Some(n) else None
    ensures FirstBelow(rows, f, n).None? ==> forall k :: 0 <= k < n ==> !Duplicate(rows, f, k)
  {
    FirstBelowFinds(rows, f, n);
  }

  lemma {:induction false} FirstBelowFinds(rows: seq<File>, f: nat, n: nat)
    ensures match FirstBelow(rows, f, n)
            case None => forall k :: 0 <= k < n ==> !Duplicate(rows, f, k)
            case Some(m) => m < n && Duplicate(rows, f, m) && forall k :: 0 <= k < m ==> !Duplicate(rows, f, k)
    decreases n
  {
    if n > 0 {
      FirstBelowFinds(rows, f, n - 1);
    }
  }

  lemma {:induction false} PromotedFirst(rows: seq<File>, f: nat, from: nat)
    ensures match Promoted(rows, f, from)
            case None => forall k :: from <= k < |rows| ==> !Duplicate(rows, f, k)
            case Some(m) => from <= m < |rows| && Duplicate(rows, f, m) && forall k :: from <= k < m ==> !Duplicate(rows, f, k)
    decreases |rows| - from
  {
    if from < |rows| && !Duplicate(rows, f, from) {
      PromotedFirst(rows, f, from + 1);
    }
  }

  lemma FirstBelowAll(rows: seq<File>, f: nat)
    ensures FirstBelow(rows, f, |rows|) == Promoted(rows, f, 0)
  {
    PromotedFirst(rows, f, 0);
    FirstBelowFinds(rows, f, |rows|);
  }
}
