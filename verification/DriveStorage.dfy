/**
 The bytes behind the drive: storage usage always equals what the files and the retired versions are
 charged for, and an object that was given out for deletion is never referenced again.
 */
module DriveStorage {
  import opened Common
  import opened Drive
  import opened DriveWrites

  // ----- sums -------------------------------------------------------------------------------------------

  function ChargedTo(f: File, owner: string): nat {
    if f.owner == owner then Charged(f) else 0
  }

  function FileBytes(files: seq<File>, owner: string): nat
    decreases |files|
  {
    if files == [] then 0 else FileBytes(files[..|files| - 1], owner) + ChargedTo(files[|files| - 1], owner)
  }

  function TicketBytesOf(tickets: map<nat, Ticket>, t: nat, owner: string): nat {
    if t in tickets && tickets[t].owner == owner then tickets[t].size else 0
  }

  /** The retired versions with numbers below n. */
  function TicketBytes(tickets: map<nat, Ticket>, n: nat, owner: string): nat {
    if n == 0 then 0 else TicketBytes(tickets, n - 1, owner) + TicketBytesOf(tickets, n - 1, owner)
  }

  /** What an owner is charged for. */
  function Total(w: World, owner: string): nat {
    FileBytes(w.files, owner) + TicketBytes(w.tickets, w.nextTicket, owner)
  }

  lemma {:induction false} FileBytesUpdate(files: seq<File>, i: nat, f: File, owner: string)
    requires i < |files|
    ensures FileBytes(files[i := f], owner) == FileBytes(files, owner) - ChargedTo(files[i], owner) + ChargedTo(f, owner)
    decreases |files|
  {
    var n := |files| - 1;
    if i == n {
      assert files[i := f][..n] == files[..n];
    } else {
      assert files[i := f][..n] == files[..n][i := f];
      FileBytesUpdate(files[..n], i, f, owner);
    }
  }

  lemma FileBytesAppend(files: seq<File>, f: File, owner: string)
    ensures FileBytes(files + [f], owner) == FileBytes(files, owner) + ChargedTo(f, owner)
  {
    assert (files + [f])[..|files|] == files;
  }

  lemma {:induction false} FileBytesSame(files: seq<File>, files': seq<File>, owner: string)
    requires |files| == |files'| && forall i :: 0 <= i < |files| ==> SameContent(files[i], files'[i])
    ensures FileBytes(files', owner) == FileBytes(files, owner)
    decreases |files|
  {
    if files != [] {
      FileBytesSame(files[..|files| - 1], files'[..|files| - 1], owner);
      assert SameContent(files[|files| - 1], files'[|files| - 1]);
    }
  }

  /** Tickets that differ at one number only. */
  lemma {:induction false} TicketBytesChange(a: map<nat, Ticket>, b: map<nat, Ticket>, t: nat, n: nat, owner: string)
    requires forall k: nat :: k != t ==> TicketBytesOf(a, k, owner) == TicketBytesOf(b, k, owner)
    ensures TicketBytes(b, n, owner)
            == TicketBytes(a, n, owner) + if t < n then TicketBytesOf(b, t, owner) - TicketBytesOf(a, t, owner) else 0
    decreases n
  {
    if n > 0 {
      TicketBytesChange(a, b, t, n - 1, owner);
    }
  }

  // ----- the invariant -------------------------------------------------------------------------------------

  /** Usage is what the owner is charged for and `lost`, the bytes of texts that were emptied. */
  ghost predicate Balanced(w: World, lost: string -> nat) {
    forall o: string :: Usage(w, o) == Total(w, o) + lost(o)
  }

  ghost predicate TicketsFit(w: World) {
    forall t :: t in w.tickets ==> t < w.nextTicket && !w.tickets[t].source.Inline? && (w.tickets[t].purpose.Version? || w.tickets[t].size == 0)
  }

  lemma Charges(w: World, owner: string, delta: int, w': World, lost: string -> nat)
    requires Balanced(w, lost) && w'.usage == Charge(w, owner, delta).usage
    requires forall o: string :: Total(w', o) == Total(w, o) + if o == owner then delta else 0
    ensures Balanced(w', lost)
    ensures Usage(w, owner) + delta >= 0
  {
    assert Usage(w, owner) == Total(w, owner) + lost(owner);
    forall o: string
      ensures Usage(w', o) == Total(w', o) + lost(o)
    {
      assert Usage(w, o) == Total(w, o) + lost(o);
    }
  }

  lemma AddTicketTotal(w: World, t: Ticket, owner: string)
    requires TicketsFit(w)
    ensures Total(AddTicket(w, t), owner) == Total(w, owner) + if t.owner == owner then t.size else 0
  {
    TicketBytesChange(w.tickets, AddTicket(w, t).tickets, w.nextTicket, w.nextTicket, owner);
  }

  lemma DropTicketTotal(w: World, t: nat, owner: string)
    requires TicketsFit(w) && t in w.tickets
    ensures Total(DropTicket(w, t), owner) == Total(w, owner) - if w.tickets[t].owner == owner then w.tickets[t].size else 0
  {
    TicketBytesChange(w.tickets, DropTicket(w, t).tickets, t, w.nextTicket, owner);
  }

  lemma RelabelTicketTotal(w: World, t: nat, row: Ticket, owner: string)
    requires t in w.tickets && row.owner == w.tickets[t].owner && row.size == w.tickets[t].size
    ensures Total(w.(tickets := w.tickets[t := row]), owner) == Total(w, owner)
  {
    TicketBytesChange(w.tickets, w.tickets[t := row], t, w.nextTicket, owner);
  }

  // ----- every step keeps the balance ----------------------------------------------------------------------

  lemma CleanKeepsBalance(w: World, t: nat, claim: string, now: nat, lost: string -> nat)
    requires Balanced(w, lost) && TicketsFit(w) && t in w.tickets
    ensures Balanced(CleanTicket(w, t, claim, now), lost) && TicketsFit(CleanTicket(w, t, claim, now))
  {
    hide Referenced, Total;
    var row, w' := w.tickets[t], CleanTicket(w, t, claim, now);
    if Referenced(w.files, row.source) && row.purpose.Uncommitted? {
      forall o: string
        ensures Total(w', o) == Total(w, o) && Usage(w', o) == Usage(w, o)
      {
        DropTicketTotal(w, t, o);
      }
      assert forall o: string :: Usage(w, o) == Total(w, o) + lost(o);
    } else if !Referenced(w.files, row.source) && row.source.Convex? {
      DropChargeBalance(w, t, w', lost);
    } else {
      forall o: string
        ensures Total(w', o) == Total(w, o) && Usage(w', o) == Usage(w, o)
      {
        RelabelTicketTotal(w, t, w'.tickets[t], o);
        SameTotal(w.(tickets := w.tickets[t := w'.tickets[t]]), w', o);
      }
      assert forall o: string :: Usage(w, o) == Total(w, o) + lost(o);
    }
  }

  lemma SameTotal(w: World, w': World, o: string)
    requires w'.files == w.files && w'.tickets == w.tickets && w'.nextTicket == w.nextTicket
    ensures Total(w', o) == Total(w, o)
  {}

  /** A ticket goes and its bytes are given back. */
  lemma DropChargeBalance(w: World, t: nat, w': World, lost: string -> nat)
    requires Balanced(w, lost) && TicketsFit(w) && t in w.tickets
    requires w'.files == w.files && w'.tickets == DropTicket(w, t).tickets && w'.nextTicket == w.nextTicket
    requires w'.usage == Charge(DropTicket(w, t), w.tickets[t].owner, 0 - w.tickets[t].size).usage
    ensures Balanced(w', lost)
  {
    hide Total;
    forall o: string
      ensures Total(w', o) == Total(w, o) + if o == w.tickets[t].owner then 0 - w.tickets[t].size else 0
    {
      DropTicketTotal(w, t, o);
      SameTotal(DropTicket(w, t), w', o);
    }
    Charges(w, w.tickets[t].owner, 0 - w.tickets[t].size, w', lost);
  }

  lemma {:induction false} CleanAllKeepsBalance(w: World, due: seq<nat>, claim: string, now: nat, lost: string -> nat)
    requires Balanced(w, lost) && TicketsFit(w)
    ensures Balanced(CleanTickets(w, due, claim, now), lost) && TicketsFit(CleanTickets(w, due, claim, now))
    decreases |due|
  {
    hide Balanced, TicketsFit, CleanTicket;
    if due != [] {
      var t := due[0];
      if t in w.tickets && w.tickets[t].nextAttemptAt <= now {
        CleanKeepsBalance(w, t, claim, now, lost);
        CleanAllKeepsBalance(CleanTicket(w, t, claim, now), due[1..], claim, now, lost);
      } else {
        CleanAllKeepsBalance(w, due[1..], claim, now, lost);
      }
    }
  }

  /** Two tickets without bytes, or nothing that counts. */
  lemma OpenUploadKeepsBalance(w: World, q: IntentRequest, c: Caller, e: Env, now: nat, lost: string -> nat)
    requires Balanced(w, lost) && TicketsFit(w)
    ensures Balanced(OpenUpload(w, q, c, e, now).0, lost) && TicketsFit(OpenUpload(w, q, c, e, now).0)
  {
    hide Target, ParentError, Total;
    var w' := OpenUpload(w, q, c, e, now).0;
    if OpenUpload(w, q, c, e, now).1.Done? {
      var at := e.deadline(c.fence) + DAY_MS;
      var owner := Target(w.files, q.op, c, e).value.0;
      var w1 := AddTicket(w, Unclaimed(owner, Staging, 0, Object(w.nextKey), at));
      var w2 := AddTicket(w1, Unclaimed(owner, Uncommitted, 0, Object(w.nextKey + 1), at));
      assert TicketsFit(w1) && TicketsFit(w2);
      forall o: string
        ensures Usage(w', o) == Total(w', o) + lost(o)
      {
        assert Usage(w, o) == Total(w, o) + lost(o);
        AddTicketTotal(w, w1.tickets[w.nextTicket], o);
        AddTicketTotal(w1, w2.tickets[w1.nextTicket], o);
        SameTotal(w2, w', o);
      }
    }
  }

  lemma IntentKeepsBalance(w: World, q: IntentRequest, c: Caller, e: Env, now: nat, lost: string -> nat)
    requires Balanced(w, lost) && TicketsFit(w)
    ensures Balanced(Intent(w, q, c, e, now).0, lost) && TicketsFit(Intent(w, q, c, e, now).0)
  {
    hide OpenUpload, FindPrior, Authorized, SameWrite, Balanced, TicketsFit;
    OpenUploadKeepsBalance(w, q, c, e, now, lost);
    var prior := FindPrior(w.uploads, c.run, q.request, 0, w.nextKey);
    if prior.Some? {
      var expiresAt := Min(q.expiresAt, Min(e.deadline(c.fence), now + INTENT_MS));
      SameMoney(w, w.(uploads := w.uploads[prior.value := w.uploads[prior.value].(expiresAt := expiresAt)]), lost);
    }
  }

  /** Replacing one row, duplicates promoted first. */
  lemma RowSwap(files: seq<File>, f: nat, row: File, now: nat, o: string)
    requires f < |files|
    ensures FileBytes(Promote(files, f, now)[f := row], o) == FileBytes(files, o) - ChargedTo(files[f], o) + ChargedTo(row, o)
  {
    PromoteShape(files, f, now);
    hide Promote;
    FileBytesSame(files, Promote(files, f, now), o);
    FileBytesUpdate(Promote(files, f, now), f, row, o);
  }

  /** A retired version is charged through its ticket from now on. */
  lemma RetireTotal(w: World, f: nat, now: nat, o: string)
    requires TicketsFit(w) && f < |w.files|
    ensures var w1 := Retire(w, f, now);
            && w1.files == w.files && w1.usage == w.usage && TicketsFit(w1)
            && TicketBytes(w1.tickets, w1.nextTicket, o)
               == TicketBytes(w.tickets, w.nextTicket, o)
                  + if w.files[f].owner == o && !w.files[f].source.Inline? then w.files[f].size else 0
  {
    hide FileBytes;
    if !w.files[f].source.Inline? {
      AddTicketTotal(w, Retire(w, f, now).tickets[w.nextTicket], o);
    }
  }

  lemma InPlaceKeepsBalance(w: World, f: nat, k: nat, u: Upload, p: Plan, now: nat, lost: string -> nat)
    requires Balanced(w, lost) && TicketsFit(w) && f < |w.files| && Existing(u) == Some(f) && !p.conflict
    requires w.files[f].owner == u.owner && !w.files[f].folder && !w.files[f].deleted
    ensures Balanced(ReplaceInPlace(w, f, k, u, p, now), lost) && TicketsFit(ReplaceInPlace(w, f, k, u, p, now))
  {
    var was, w' := w.files[f], ReplaceInPlace(w, f, k, u, p, now);
    var row, w1 := w'.files[f], Retire(w, f, now);
    PromoteShape(w.files, f, now);
    assert w'.files == Promote(w.files, f, now)[f := row] && w'.tickets == w1.tickets && w'.nextTicket == w1.nextTicket;
    assert Charged(row) == u.size && row.owner == u.owner;
    assert w1.usage == w.usage && TicketsFit(w1) by { RetireTotal(w, f, now, ""); }
    assert w'.usage == Charge(w, u.owner, u.size - ReleasedInline(was)).usage;
    assert Charged(was) == if was.source.Inline? then ReleasedInline(was) else was.size;
    assert TicketsFit(w');
    hide Promote, Retire, FileBytes, TicketBytes, Charged, ReplaceInPlace, TicketsFit, Balanced;
    forall o: string
      ensures Total(w', o) == Total(w, o) + if o == u.owner then u.size - ReleasedInline(was) else 0
    {
      RowSwap(w.files, f, row, now, o);
      RetireTotal(w, f, now, o);
    }
    Charges(w, u.owner, u.size - ReleasedInline(was), w', lost);
  }

  lemma InsertKeepsBalance(w: World, k: nat, u: Upload, p: Plan, now: nat, lost: string -> nat)
    requires Balanced(w, lost) && TicketsFit(w)
    ensures Balanced(InsertFile(w, k, u, p, now), lost) && TicketsFit(InsertFile(w, k, u, p, now))
  {
    var w' := InsertFile(w, k, u, p, now);
    forall o: string
      ensures Total(w', o) == Total(w, o) + if o == u.owner then u.size else 0
    {
      FileBytesAppend(w.files, w'.files[|w.files|], o);
    }
    Charges(w, u.owner, u.size, w', lost);
  }

  lemma CommitKeepsBalance(w: World, q: CommitRequest, c: Caller, e: Env, now: nat, lost: string -> nat)
    requires Balanced(w, lost) && TicketsFit(w)
    ensures Balanced(Commit(w, q, c, e, now).0, lost) && TicketsFit(Commit(w, q, c, e, now).0)
  {
    hide Commit, PlanCommit, ReplaceInPlace, InsertFile;
    CommitShape(w, q, c, e, now);
    var w' := Commit(w, q, c, e, now).0;
    if w' != w {
      var u := w.uploads[q.upload];
      var p := PlanCommit(w, u, q, c, e).value;
      PlannedExists(w, u, q, c, e);
      var at := NewRevision(w, u, now);
      if InPlace(u, p) {
        InPlaceKeepsBalance(w, Existing(u).value, q.upload, u, p, at, lost);
        SameMoney(ReplaceInPlace(w, Existing(u).value, q.upload, u, p, at), w', lost);
      } else {
        InsertKeepsBalance(w, q.upload, u, p, at, lost);
        SameMoney(InsertFile(w, q.upload, u, p, at), w', lost);
      }
    }
  }

  lemma SameMoney(w: World, w': World, lost: string -> nat)
    requires Balanced(w, lost) && TicketsFit(w)
    requires w'.files == w.files && w'.tickets == w.tickets && w'.nextTicket == w.nextTicket && w'.usage == w.usage
    ensures Balanced(w', lost) && TicketsFit(w')
  {
    hide Total;
    forall o: string
      ensures Usage(w', o) == Total(w', o) + lost(o)
    {
      assert Usage(w, o) == Total(w, o) + lost(o);
      SameTotal(w, w', o);
    }
  }

  lemma RemoveKeepsBalance(w: World, f: nat, path: string, base: nat, c: Caller, now: nat, lost: string -> nat)
    requires Balanced(w, lost) && TicketsFit(w)
    ensures Balanced(ApplyRemove(w, f, path, base, c, now).0, lost) && TicketsFit(ApplyRemove(w, f, path, base, c, now).0)
  {
    hide RowError, HasChildren, Promote, FileBytes, TicketBytes, Balanced;
    var w' := ApplyRemove(w, f, path, base, c, now).0;
    if ApplyRemove(w, f, path, base, c, now).1.Done? {
      RowErrorLive(w, f, path, base, c);
      var was, at := w.files[f], Max(now, w.files[f].revision + 1);
      PromoteShape(w.files, f, at);
      var row, released: int := w'.files[f], if !was.folder then ReleasedInline(was) else 0;
      forall o: string
        ensures Total(w', o) == Total(w, o) + if o == was.owner then 0 - released else 0
      {
        if was.folder {
          FileBytesUpdate(w.files, f, row, o);
        } else {
          RowSwap(w.files, f, row, at, o);
        }
      }
      if released > 0 {
        Charges(w, was.owner, 0 - released, w', lost);
      } else {
        UnchargedKeepsBalance(w, w', lost);
      }
    }
  }

  lemma RowErrorLive(w: World, f: nat, path: string, base: nat, c: Caller)
    requires RowError(w, f, path, base, c).None?
    ensures Live(w.files, f)
  {}

  lemma UnchargedKeepsBalance(w: World, w': World, lost: string -> nat)
    requires Balanced(w, lost) && w'.usage == w.usage && forall o: string :: Total(w', o) == Total(w, o)
    ensures Balanced(w', lost)
  {
    hide Total;
    forall o: string
      ensures Usage(w', o) == Total(w', o) + lost(o)
    {
      assert Usage(w, o) == Total(w, o) + lost(o);
    }
  }

  lemma MkdirKeepsBalance(w: World, name: string, parent: Option<nat>, c: Caller, e: Env, now: nat, lost: string -> nat)
    requires Balanced(w, lost) && TicketsFit(w)
    ensures Balanced(ApplyMkdir(w, name, parent, c, e, now).0, lost) && TicketsFit(ApplyMkdir(w, name, parent, c, e, now).0)
  {
    hide ParentError, Taken, FileBytes, TicketBytes, Balanced;
    var w' := ApplyMkdir(w, name, parent, c, e, now).0;
    if ApplyMkdir(w, name, parent, c, e, now).1.Done? {
      forall o: string
        ensures Total(w', o) == Total(w, o)
      {
        FileBytesAppend(w.files, w'.files[|w.files|], o);
      }
      UnchargedKeepsBalance(w, w', lost);
    }
  }

  lemma MoveKeepsBalance(w: World, f: nat, path: string, base: nat, name: string, parent: Option<nat>, subtree: bool, c: Caller, e: Env, now: nat, lost: string -> nat)
    requires Balanced(w, lost) && TicketsFit(w)
    ensures var w' := ApplyMove(w, f, path, base, name, parent, subtree, c, e, now).0; Balanced(w', lost) && TicketsFit(w')
  {
    hide ParentError, Taken, PathFrom, FileBytes, TicketBytes, Balanced;
    var (w', o) := ApplyMove(w, f, path, base, name, parent, subtree, c, e, now);
    if o.Done? {
      forall owner: string
        ensures Total(w', owner) == Total(w, owner)
      {
        FileBytesUpdate(w.files, f, w'.files[f], owner);
      }
      UnchargedKeepsBalance(w, w', lost);
    }
  }

  lemma ChangeKeepsBalance(w: World, q: ChangeRequest, c: Caller, e: Env, now: nat, lost: string -> nat)
    requires Balanced(w, lost) && TicketsFit(w)
    ensures Balanced(ApplyChange(w, q, c, e, now).0, lost) && TicketsFit(ApplyChange(w, q, c, e, now).0)
  {
    hide Balanced, TicketsFit, ApplyMkdir, ApplyMove, ApplyRemove;
    match q.change
    case Mkdir(name, parent) => MkdirKeepsBalance(w, name, parent, c, e, now, lost);
    case Move(f, path, base, name, parent) => MoveKeepsBalance(w, f, path, base, name, parent, q.subtree, c, e, now, lost);
    case Remove(f, path, base) => RemoveKeepsBalance(w, f, path, base, c, now, lost);
  }

  /** What a step gives up for good: the bytes of a text that a user empties. */
  function Emptied(w: World, a: Action, owner: string): nat {
    if a.UserEdit? && MayEdit(w, a.edit) && a.edit.length == 0 && !w.files[a.edit.edited].kind.Output? && w.files[a.edit.edited].owner == owner
    then w.files[a.edit.edited].size else 0
  }

  function After(lost: string -> nat, w: World, a: Action): string -> nat {
    (o: string) => lost(o) + Emptied(w, a, o)
  }

  lemma SameLosses(w: World, w': World, lost: string -> nat, a: Action)
    requires Balanced(w', lost) && forall o: string :: Emptied(w, a, o) == 0
    ensures Balanced(w', After(lost, w, a))
  {
    hide Total, Emptied;
    forall o: string
      ensures Usage(w', o) == Total(w', o) + After(lost, w, a)(o)
    {
      assert Usage(w', o) == Total(w', o) + lost(o);
    }
  }

  lemma EditKeepsBalance(w: World, q: EditRequest, now: nat, lost: string -> nat)
    requires Balanced(w, lost) && TicketsFit(w)
    ensures Balanced(EditText(w, q, now), After(lost, w, UserEdit(q))) && TicketsFit(EditText(w, q, now))
  {
    hide FileBytes, TicketBytes;
    var w', a := EditText(w, q, now), UserEdit(q);
    if MayEdit(w, q) {
      var was := w.files[q.edited];
      var delta: int := if was.kind.Output? || q.length == 0 then 0 else q.length - was.size;
      assert Usage(w, was.owner) == Total(w, was.owner) + lost(was.owner);
      FileBytesUpdate(w.files, q.edited, w'.files[q.edited], was.owner);
      forall o: string
        ensures Usage(w', o) == Total(w', o) + After(lost, w, a)(o)
      {
        assert Usage(w, o) == Total(w, o) + lost(o);
        FileBytesUpdate(w.files, q.edited, w'.files[q.edited], o);
      }
    } else {
      SameLosses(w, w', lost, a);
    }
  }

  /** Every step keeps the balance, with what it empties added to the losses. */
  lemma StepKeepsBalance(w: World, a: Action, e: Env, now: nat, lost: string -> nat)
    requires Balanced(w, lost) && TicketsFit(w)
    ensures Balanced(Step(w, a, e, now), After(lost, w, a)) && TicketsFit(Step(w, a, e, now))
  {
    if a.UserEdit? {
      EditKeepsBalance(w, a.edit, now, lost);
    } else {
      OtherStepsKeepBalance(w, a, e, now, lost);
      SameLosses(w, Step(w, a, e, now), lost, a);
    }
  }

  lemma OtherStepsKeepBalance(w: World, a: Action, e: Env, now: nat, lost: string -> nat)
    requires Balanced(w, lost) && TicketsFit(w) && !a.UserEdit?
    ensures Balanced(Step(w, a, e, now), lost) && TicketsFit(Step(w, a, e, now))
  {
    hide Intent, Commit, ApplyChange, CleanTickets, Total;
    match a
    case OpenIntent(q, c) => IntentKeepsBalance(w, q, c, e, now, lost);
    case CommitUpload(q, c) => CommitKeepsBalance(w, q, c, e, now, lost);
    case ChangeMeta(q, c) =>
      ChangeKeepsBalance(w, q, c, e, now, lost);
      SameMoney(ApplyChange(w, q, c, e, now).0, ApplyChange(w, q, c, e, now).0.(receipts := Step(w, a, e, now).receipts), lost);
      ChangeShape(w, q, c, e, now);
    case Clean(due, claim) => CleanAllKeepsBalance(w, due, claim, now, lost);
    case ConfirmDeleted(t, claim) =>
      if Confirm(w, t, claim).1 && t in w.tickets {
        DropChargeBalance(w, t, Step(w, a, e, now), lost);
      }
    case PruneRows(uploads, receipts) => SameMoney(w, Prune(w, uploads, receipts), lost);
    case Elsewhere(f) =>
      var w' := Adopt(w, f);
      var row := w'.files[|w.files|];
      forall o: string
        ensures Total(w', o) == Total(w, o) + if o == f.owner then Charged(row) else 0
      {
        AdoptTotal(w, f, o);
      }
      Charges(w, f.owner, Charged(row), w', lost);
  }

  lemma AdoptTotal(w: World, f: File, o: string)
    ensures var w' := Adopt(w, f);
            Total(w', o) == Total(w, o) + if o == f.owner then Charged(w'.files[|w.files|]) else 0
  {
    FileBytesAppend(w.files, Adopt(w, f).files[|w.files|], o);
  }

  /** The bytes of the texts that users emptied in a run. */
  function Lost(s: Clocked, actions: seq<Timed>, e: Env, owner: string): nat
    decreases |actions|
  {
    if actions == [] then 0
    else Emptied(s.world, actions[0].action, owner) + Lost(Next(s, actions[0], e), actions[1..], e, owner)
  }

  lemma {:induction false} RunKeepsBalance(s: Clocked, actions: seq<Timed>, e: Env, lost: string -> nat, owner: string)
    requires Balanced(s.world, lost) && TicketsFit(s.world)
    ensures var w := Run(s, actions, e).world;
            Usage(w, owner) == Total(w, owner) + lost(owner) + Lost(s, actions, e, owner)
    decreases |actions|
  {
    hide Step, TicketsFit, Total, Emptied;
    if actions != [] {
      StepKeepsBalance(s.world, actions[0].action, e, Max(s.clock, actions[0].at), lost);
      RunKeepsBalance(Next(s, actions[0], e), actions[1..], e, After(lost, s.world, actions[0].action), owner);
    }
  }

  /**
   Storage is conserved: in every run an owner's recorded usage is exactly the bytes of their files, the
   retired versions whose deletion is not confirmed yet, and the bytes of texts that users emptied, which
   are never given back. It is never clamped at zero.
   */
  lemma UsageIsExact(actions: seq<Timed>, e: Env, owner: string)
    ensures var w := Run(Clocked(EMPTY, 0), actions, e).world;
            Usage(w, owner) == FileBytes(w.files, owner) + TicketBytes(w.tickets, w.nextTicket, owner)
                               + Lost(Clocked(EMPTY, 0), actions, e, owner)
  {
    hide Run, Lost;
    var none := (o: string) => 0;
    assert Balanced(EMPTY, none) && TicketsFit(EMPTY);
    RunKeepsBalance(Clocked(EMPTY, 0), actions, e, none, owner);
  }

  const NOTE: File := File("ada", "n", None, false, Note, 1, false, Inline, 7, "h", None)

  /** A user who writes seven bytes and deletes them again is charged for them from then on. */
  lemma EmptiedNoteStaysCharged(e: Env)
    ensures var w := Run(Clocked(EMPTY, 0), [Timed(Elsewhere(NOTE), 1), Timed(UserEdit(EditRequest(0, None, "n", "", 0, None)), 2)], e).world;
            w.files == [NOTE.(size := 0, hash := "", revision := 2)] && Usage(w, "ada") == 7
  {
    var actions := [Timed(Elsewhere(NOTE), 1), Timed(UserEdit(EditRequest(0, None, "n", "", 0, None)), 2)];
    var s1 := Next(Clocked(EMPTY, 0), actions[0], e);
    assert s1.world.files == [NOTE];
    var s2 := Next(s1, actions[1], e);
    assert Run(s1, actions[1..], e) == Run(s2, [], e);
  }
}
