/**
 The agent drive (convex/agents/agentDriveUploads.ts, agentDriveMetadata.ts, agentDriveCleanup.ts and
 their helpers in convex/lib, and the users' own edits in convex/files/files.ts): uploads committed against a file revision, metadata changes with
 receipts, and the cleanup of retired object versions. One scope; files are known by their position.
 */
module Drive {
  import opened Common
  import opened DriveNames

  const DAY_MS: nat := 24 * 60 * 60000
  const INTENT_MS: nat := 15 * 60000
  const RETRY_MS: nat := 10 * 60000
  const MAX_FILE_BYTES: nat := 16 * 1024 * 1024
  const MAX_TEXT_BYTES: nat := 128 * 1024
  const MAX_DEPTH: nat := 64
  const MAX_PATH: nat := 4096

  /** Where the bytes of a file are; keys are never reused. */
  datatype Source = Inline | Object(key: nat) | Convex(key: nat)

  datatype Kind = Note | Output | OtherKind

  datatype File = File(
    owner: string,
    name: string,
    parent: Option<nat>,
    folder: bool,
    kind: Kind,
    revision: nat,
    deleted: bool,
    source: Source,
    size: nat,
    hash: string,
    duplicateOf: Option<nat>)

  datatype Op = CreateFile(name: string, parent: Option<nat>) | ReplaceFile(file: nat, path: string, base: nat)

  datatype Committed = Committed(file: nat, revision: nat, name: string, conflict: bool, stored: bool, hash: string, size: nat)

  /** Known by its final object key. `fence` stands for session, attempt and generation. */
  datatype Upload = Upload(
    run: string,
    request: string,
    fence: string,
    op: Op,
    owner: string,
    name: string,
    parent: Option<nat>,
    hash: string,
    size: nat,
    mime: string,
    expiresAt: nat,
    result: Option<Committed>)

  datatype Change =
    | Mkdir(dirName: string, under: Option<nat>)
    | Move(moved: nat, from: string, movedBase: nat, newName: string, to: Option<nat>)
    | Remove(removed: nat, at: string, removedBase: nat)

  datatype Receipt = Receipt(fence: string, change: Change, file: nat, revision: nat)

  datatype Purpose = Version | Staging | Uncommitted

  datatype TicketState = Idle | Deleting(claim: string)

  datatype Ticket = Ticket(owner: string, purpose: Purpose, size: nat, source: Source, nextAttemptAt: nat, state: TicketState)

  /** `handed` is every stored object that was ever deleted or given out for deletion. */
  datatype World = World(
    files: seq<File>,
    uploads: map<nat, Upload>,
    receipts: map<(string, string), Receipt>,
    tickets: map<nat, Ticket>,
    usage: map<string, int>,
    nextKey: nat,
    nextTicket: nat,
    handed: set<Source>)

  /** The hard deadline of an execution, the portable form of a name, and which names are safe. */
  datatype Env = Env(deadline: string -> nat, portable: string -> string, safe: string -> bool)

  /** Who calls: `live` is the authority check apart from the deadline, `edits` which rows the viewer may edit. */
  datatype Caller = Caller(run: string, fence: string, actor: string, live: bool, edits: nat -> bool, creates: bool, space: bool)

  datatype Error =
    | RunUnavailable | InvalidUpload | RequestConflict | SourceChanged | EditDenied | UnsafePath | PathConflict
    | StorageQuota | UploadUnavailable | UploadChanged | UploadExpired | DirectoryNotEmpty

  datatype Outcome<+T> = Done(value: T) | Refused(error: Error)

  predicate Authorized(c: Caller, e: Env, now: nat) {
    c.live && now < e.deadline(c.fence)
  }

  // ----- names and paths -----------------------------------------------------------------------------------

  predicate Live(files: seq<File>, i: nat) {
    i < |files| && !files[i].deleted
  }

  predicate Editable(files: seq<File>, i: nat, c: Caller) {
    Live(files, i) && c.edits(i)
  }

  /** Walks up from a parent: only live folders the caller may edit, no cycle through the moved row. */
  function ParentError(files: seq<File>, parent: Option<nat>, moving: Option<nat>, depth: nat, length: nat, c: Caller): Option<Error>
    requires depth <= MAX_DEPTH
    decreases MAX_DEPTH - depth
  {
    match parent
    case None => None
    case Some(p) =>
      if depth >= MAX_DEPTH || moving == Some(p) then Some(UnsafePath)
      else if p >= |files| || !files[p].folder then Some(SourceChanged)
      else if !Editable(files, p, c) then Some(EditDenied)
      else if length + Units(files[p].name) + 1 > MAX_PATH then Some(UnsafePath)
      else ParentError(files, files[p].parent, moving, depth + 1, length + Units(files[p].name) + 1, c)
  }

  function PathFrom(files: seq<File>, parent: Option<nat>, depth: nat, tail: string): Option<string>
    requires depth <= MAX_DEPTH
    decreases MAX_DEPTH - depth
  {
    match parent
    case None => Some(tail)
    case Some(p) =>
      if depth >= MAX_DEPTH || !Live(files, p) || !files[p].folder then None
      else PathFrom(files, files[p].parent, depth + 1, files[p].name + "/" + tail)
  }

  predicate AtPath(files: seq<File>, i: nat, path: string)
    requires i < |files|
  {
    PathFrom(files, files[i].parent, 1, files[i].name) == Some(path)
  }

  /** Another live entry of the folder has the same portable name. */
  predicate Taken(files: seq<File>, name: string, parent: Option<nat>, besides: Option<nat>, e: Env) {
    exists i :: 0 <= i < |files| && besides != Some(i) && !files[i].deleted && files[i].parent == parent && e.portable(files[i].name) == e.portable(name)
  }

  predicate HasChildren(files: seq<File>, folder: nat) {
    exists i :: 0 <= i < |files| && !files[i].deleted && files[i].parent == Some(folder)
  }

  // ----- intents -------------------------------------------------------------------------------------------

  datatype IntentRequest = IntentRequest(request: string, op: Op, hash: string, size: nat, mime: string, expiresAt: nat, valid: bool)

  /** The upload a run has for a request, among those with keys from `from` on. */
  function FindPrior(uploads: map<nat, Upload>, run: string, request: string, from: nat, limit: nat): (r: Option<nat>)
    ensures r.Some? ==> from <= r.value < limit && r.value in uploads && uploads[r.value].run == run && uploads[r.value].request == request
    decreases limit - from
  {
    if from >= limit then None
    else if from in uploads && uploads[from].run == run && uploads[from].request == request then Some(from)
    else FindPrior(uploads, run, request, from + 1, limit)
  }

  predicate SameWrite(u: Upload, q: IntentRequest) {
    u.op == q.op && u.hash == q.hash && u.size == q.size && u.mime == q.mime
  }

  function AddTicket(w: World, t: Ticket): World {
    w.(tickets := w.tickets[w.nextTicket := t], nextTicket := w.nextTicket + 1)
  }

  function Unclaimed(owner: string, purpose: Purpose, size: nat, source: Source, at: nat): Ticket {
    Ticket(owner, purpose, size, source, at, Idle)
  }

  /** The owner, name and folder the upload is bound to. */
  function Target(files: seq<File>, op: Op, c: Caller, e: Env): Outcome<(string, string, Option<nat>)> {
    match op
    case CreateFile(name, parent) =>
      if !c.creates then Refused(EditDenied) else if !e.safe(name) then Refused(UnsafePath) else Done((c.actor, name, parent))
    case ReplaceFile(f, path, base) =>
      if f >= |files| || files[f].folder then Refused(SourceChanged)
      else if !Editable(files, f, c) then Refused(EditDenied)
      else if files[f].revision == base && !AtPath(files, f, path) then Refused(SourceChanged)
      else Done((files[f].owner, files[f].name, files[f].parent))
  }

  /** A new write: two tickets first, so that no byte is ever stored without one. */
  function OpenUpload(w: World, q: IntentRequest, c: Caller, e: Env, now: nat): (World, Outcome<nat>) {
    match Target(w.files, q.op, c, e)
    case Refused(error) => (w, Refused(error))
    case Done((owner, name, parent)) =>
      if ParentError(w.files, parent, None, 0, Units(name), c).Some? then (w, Refused(ParentError(w.files, parent, None, 0, Units(name), c).value))
      else if !c.space && q.size > 0 then (w, Refused(StorageQuota))
      else
        var staging, final, at := w.nextKey, w.nextKey + 1, e.deadline(c.fence) + DAY_MS;
        var w1 := AddTicket(w, Unclaimed(owner, Staging, 0, Object(staging), at));
        var w2 := AddTicket(w1, Unclaimed(owner, Uncommitted, 0, Object(final), at));
        (w2.(uploads := w.uploads[final := Upload(c.run, q.request, c.fence, q.op, owner, name, parent, q.hash, q.size, q.mime,
                                                  Min(q.expiresAt, now + INTENT_MS), None)],
             nextKey := w.nextKey + 2),
         Done(final))
  }

  /** A repeated intent returns the same upload, renewed if it ran out; nothing else may use its request id. */
  function Intent(w: World, q: IntentRequest, c: Caller, e: Env, now: nat): (World, Outcome<nat>) {
    if !Authorized(c, e, now) then (w, Refused(RunUnavailable))
    else if !q.valid || q.size > MAX_FILE_BYTES then (w, Refused(InvalidUpload))
    else
      match FindPrior(w.uploads, c.run, q.request, 0, w.nextKey)
      case None => OpenUpload(w, q, c, e, now)
      case Some(k) =>
        var u := w.uploads[k];
        if u.fence != c.fence then (w, Refused(RunUnavailable))
        else if !SameWrite(u, q) then (w, Refused(RequestConflict))
        else if u.result.None? && u.expiresAt <= now
        then (w.(uploads := w.uploads[k := u.(expiresAt := Min(q.expiresAt, Min(e.deadline(c.fence), now + INTENT_MS)))]), Done(k))
        else (w, Done(k))
  }

  // ----- commits -------------------------------------------------------------------------------------------

  /** `text` is the length of the text prefix in bytes. */
  datatype CommitRequest = CommitRequest(upload: nat, hash: string, size: nat, text: Option<nat>, wellFormed: bool)

  /** Another file takes over as the one the duplicates point to. */
  predicate Duplicate(files: seq<File>, f: nat, i: nat) {
    f < |files| && i < |files| && files[i].duplicateOf == Some(f) && files[i].owner == files[f].owner && !files[i].deleted
  }

  function Promoted(files: seq<File>, f: nat, from: nat): Option<nat>
    decreases |files| - from
  {
    if from >= |files| then None else if Duplicate(files, f, from) then Some(from) else Promoted(files, f, from + 1)
  }

  function Promote(files: seq<File>, f: nat, now: nat): seq<File>
    requires f < |files|
  {
    if files[f].duplicateOf.Some? || Promoted(files, f, 0).None? then files
    else
      var first := Promoted(files, f, 0).value;
      seq(|files|, i requires 0 <= i < |files| =>
        if Duplicate(files, f, i)
        then files[i].(duplicateOf := if i == first then None else Some(first), revision := Max(now, files[i].revision + 1))
        else files[i])
  }

  /** The old version stays charged until its cleanup is confirmed. */
  function Retire(w: World, f: nat, now: nat): World
    requires f < |w.files|
  {
    if w.files[f].source.Inline? then w
    else AddTicket(w, Unclaimed(w.files[f].owner, Version, w.files[f].size, w.files[f].source, now + DAY_MS))
  }

  function Usage(w: World, owner: string): int {
    if owner in w.usage then w.usage[owner] else 0
  }

  function Charge(w: World, owner: string, delta: int): World {
    w.(usage := w.usage[owner := Max(0, Usage(w, owner) + delta)])
  }

  /** Inline bytes are given back at once; outputs were never charged. */
  function ReleasedInline(f: File): nat {
    if f.source.Inline? && !f.kind.Output? then f.size else 0
  }

  /** What a commit does to the files: the name, and whether it goes to a copy. */
  datatype Plan = Plan(name: string, conflict: bool)

  /** The file an upload replaces. */
  function Existing(u: Upload): Option<nat> {
    match u.op
    case CreateFile(_, _) => None
    case ReplaceFile(f, _, _) => Some(f)
  }

  /** Whether a replace has become a conflict, or why it is refused. */
  function ReplaceCheck(w: World, u: Upload, q: CommitRequest, c: Caller): Outcome<bool> {
    match u.op
    case CreateFile(_, _) => Done(false)
    case ReplaceFile(f, path, base) =>
      if f >= |w.files| || w.files[f].folder then Refused(SourceChanged)
      else if !Editable(w.files, f, c) then Refused(EditDenied)
      else if w.files[f].owner != u.owner then Refused(SourceChanged)
      else if w.files[f].revision == base && !AtPath(w.files, f, path) then Refused(SourceChanged)
      else if w.files[f].kind.Note? && q.text.None? then Refused(InvalidUpload)
      else Done(w.files[f].revision != base || (w.files[f].kind.Note? && q.text.value != u.size))
  }

  /** Where a write ends up: in place, under its own name, or as a copy under a free one. */
  function PlanCommit(w: World, u: Upload, q: CommitRequest, c: Caller, e: Env): Outcome<Plan> {
    match ReplaceCheck(w, u, q, c)
    case Refused(error) => Refused(error)
    case Done(stale) =>
      if ParentError(w.files, u.parent, None, 0, Units(u.name), c).Some? then Refused(ParentError(w.files, u.parent, None, 0, Units(u.name), c).value)
      else if Existing(u).Some? && !stale then Done(Plan(u.name, false))
      else if !c.creates then Refused(EditDenied)
      else if !stale && !Taken(w.files, u.name, u.parent, None, e) then Done(Plan(u.name, false))
      else
        match ConflictName(u.name, e.safe, n => Taken(w.files, n, u.parent, None, e), 1)
        case Named(name) => Done(Plan(name, true))
        case Unsafe => Refused(UnsafePath)
        case AllTaken => Refused(PathConflict)
  }

  /** The commit replaces the file where it is. */
  predicate InPlace(u: Upload, p: Plan) {
    Existing(u).Some? && !p.conflict
  }

  function NewRevision(w: World, u: Upload, now: nat): nat {
    match Existing(u)
    case Some(f) => if f < |w.files| then Max(now, w.files[f].revision + 1) else now
    case None => Max(now, 1)
  }

  /** A note stays inline. */
  predicate StoresObject(w: World, u: Upload, p: Plan) {
    !(InPlace(u, p) && Existing(u).value < |w.files| && w.files[Existing(u).value].kind.Note?)
  }

  function SourceFor(w: World, k: nat, u: Upload, p: Plan): Source {
    if StoresObject(w, u, p) then Object(k) else Inline
  }

  function ReplaceInPlace(w: World, f: nat, k: nat, u: Upload, p: Plan, now: nat): World
    requires f < |w.files|
  {
    var was := w.files[f];
    var files := Promote(w.files, f, now);
    var w1 := Retire(w, f, now);
    Charge(w1.(files := files[f := was.(name := p.name, source := SourceFor(w, k, u, p), size := u.size, hash := u.hash, duplicateOf := None, revision := now)]),
           u.owner, u.size - ReleasedInline(was))
  }

  function InsertFile(w: World, k: nat, u: Upload, p: Plan, now: nat): World {
    Charge(w.(files := w.files + [File(u.owner, p.name, u.parent, false, OtherKind, now, false, Object(k), u.size, u.hash, None)]), u.owner, u.size)
  }

  function Apply(w: World, k: nat, u: Upload, p: Plan, now: nat): (World, Committed)
    requires InPlace(u, p) ==> Existing(u).value < |w.files|
  {
    var at := NewRevision(w, u, now);
    var r := Committed(if InPlace(u, p) then Existing(u).value else |w.files|, at, p.name, p.conflict, StoresObject(w, u, p), u.hash, u.size);
    var w1 := if InPlace(u, p) then ReplaceInPlace(w, Existing(u).value, k, u, p, at) else InsertFile(w, k, u, p, at);
    (w1.(uploads := w1.uploads[k := u.(result := Some(r))]), r)
  }

  function Commit(w: World, q: CommitRequest, c: Caller, e: Env, now: nat): (World, Outcome<Committed>) {
    if !Authorized(c, e, now) then (w, Refused(RunUnavailable))
    else if q.upload !in w.uploads then (w, Refused(UploadUnavailable))
    else
      var u := w.uploads[q.upload];
      if u.run != c.run || u.fence != c.fence then (w, Refused(RunUnavailable))
      else if q.hash != u.hash || q.size != u.size then (w, Refused(UploadChanged))
      else if u.result.Some? then (w, Done(u.result.value))
      else if u.expiresAt <= now then (w, Refused(UploadExpired))
      else if q.text.Some? && (q.text.value > MAX_TEXT_BYTES || !q.wellFormed) then (w, Refused(InvalidUpload))
      else
        match PlanCommit(w, u, q, c, e)
        case Refused(error) => (w, Refused(error))
        case Done(p) =>
          var released := if InPlace(u, p) && Existing(u).value < |w.files| then ReleasedInline(w.files[Existing(u).value]) else 0;
          if !c.space && u.size > released then (w, Refused(StorageQuota))
          else
            PlannedExists(w, u, q, c, e);
            var (w', r) := Apply(w, q.upload, u, p, now);
            (w', Done(r))
  }

  lemma PlannedExists(w: World, u: Upload, q: CommitRequest, c: Caller, e: Env)
    requires PlanCommit(w, u, q, c, e).Done?
    ensures Existing(u).Some? ==> Existing(u).value < |w.files| && !w.files[Existing(u).value].folder && !w.files[Existing(u).value].deleted
    ensures InPlace(u, PlanCommit(w, u, q, c, e).value) ==>
              w.files[Existing(u).value].revision == u.op.base && w.files[Existing(u).value].owner == u.owner
              && PlanCommit(w, u, q, c, e).value.name == u.name
  {}

  // ----- metadata ------------------------------------------------------------------------------------------

  /** `subtree` is the scan of a moved folder: few enough entries, all of which the caller may edit. */
  datatype ChangeRequest = ChangeRequest(request: string, change: Change, valid: bool, subtree: bool)

  function ApplyMkdir(w: World, name: string, parent: Option<nat>, c: Caller, e: Env, now: nat): (World, Outcome<(nat, nat)>) {
    if !e.safe(name) then (w, Refused(UnsafePath))
    else if !c.creates then (w, Refused(EditDenied))
    else if ParentError(w.files, parent, None, 0, Units(name), c).Some? then (w, Refused(ParentError(w.files, parent, None, 0, Units(name), c).value))
    else if Taken(w.files, name, parent, None, e) then (w, Refused(PathConflict))
    else (w.(files := w.files + [File(c.actor, name, parent, true, OtherKind, now, false, Inline, 0, "", None)]), Done((|w.files|, now)))
  }

  /** The row a change names must be live, editable, at the revision and at the path the caller saw. */
  function RowError(w: World, f: nat, path: string, base: nat, c: Caller): Option<Error> {
    if f >= |w.files| then Some(SourceChanged)
    else if !Editable(w.files, f, c) then Some(EditDenied)
    else if w.files[f].revision != base || !AtPath(w.files, f, path) then Some(SourceChanged)
    else None
  }

  function ApplyMove(w: World, f: nat, path: string, base: nat, name: string, parent: Option<nat>, subtree: bool, c: Caller, e: Env, now: nat): (World, Outcome<(nat, nat)>) {
    if RowError(w, f, path, base, c).Some? then (w, Refused(RowError(w, f, path, base, c).value))
    else
      var at := Max(now, w.files[f].revision + 1);
      if !e.safe(name) then (w, Refused(UnsafePath))
      else if ParentError(w.files, parent, Some(f), 0, Units(name), c).Some? then (w, Refused(ParentError(w.files, parent, Some(f), 0, Units(name), c).value))
      else if Taken(w.files, name, parent, Some(f), e) then (w, Refused(PathConflict))
      else if w.files[f].folder && !subtree then (w, Refused(EditDenied))
      else (w.(files := w.files[f := w.files[f].(name := name, parent := parent, revision := at)]), Done((f, at)))
  }

  function ApplyRemove(w: World, f: nat, path: string, base: nat, c: Caller, now: nat): (World, Outcome<(nat, nat)>) {
    if RowError(w, f, path, base, c).Some? then (w, Refused(RowError(w, f, path, base, c).value))
    else if w.files[f].folder && HasChildren(w.files, f) then (w, Refused(DirectoryNotEmpty))
    else
      var at := Max(now, w.files[f].revision + 1);
      var files := if w.files[f].folder then w.files else Promote(w.files, f, at);
      var w1 := if !w.files[f].folder && ReleasedInline(w.files[f]) > 0 then Charge(w, w.files[f].owner, 0 - ReleasedInline(w.files[f])) else w;
      (w1.(files := files[f := w.files[f].(deleted := true, revision := at)]), Done((f, at)))
  }

  function ApplyChange(w: World, q: ChangeRequest, c: Caller, e: Env, now: nat): (World, Outcome<(nat, nat)>) {
    match q.change
    case Mkdir(name, parent) => ApplyMkdir(w, name, parent, c, e, now)
    case Move(f, path, base, name, parent) => ApplyMove(w, f, path, base, name, parent, q.subtree, c, e, now)
    case Remove(f, path, base) => ApplyRemove(w, f, path, base, c, now)
  }

  /** A change and its receipt are stored together; a retry is answered from the receipt. */
  function ChangeMetadata(w: World, q: ChangeRequest, c: Caller, e: Env, now: nat): (World, Outcome<(nat, nat)>) {
    if !Authorized(c, e, now) then (w, Refused(RunUnavailable))
    else if !q.valid then (w, Refused(InvalidUpload))
    else if (c.run, q.request) in w.receipts then
      var r := w.receipts[(c.run, q.request)];
      (w, if r.fence == c.fence && r.change == q.change then Done((r.file, r.revision)) else Refused(RequestConflict))
    else
      var (w1, r) := ApplyChange(w, q, c, e, now);
      match r
      case Refused(error) => (w, Refused(error))
      case Done((file, at)) => (w1.(receipts := w1.receipts[(c.run, q.request) := Receipt(c.fence, q.change, file, at)]), r)
  }

  // ----- cleanup -------------------------------------------------------------------------------------------

  /** Some file still points to the bytes; tombstones count. */
  predicate Referenced(files: seq<File>, s: Source) {
    exists i :: 0 <= i < |files| && files[i].source == s && !s.Inline?
  }

  function DropTicket(w: World, t: nat): World {
    w.(tickets := w.tickets - {t})
  }

  /** One due ticket: a published object keeps its bytes, a stored blob is deleted here, an object is handed out. */
  function CleanTicket(w: World, t: nat, claim: string, now: nat): World
    requires t in w.tickets
  {
    var row := w.tickets[t];
    if Referenced(w.files, row.source) then
      if row.purpose.Uncommitted? then DropTicket(w, t) else w.(tickets := w.tickets[t := row.(nextAttemptAt := now + RETRY_MS)])
    else if row.source.Convex? then Charge(DropTicket(w, t), row.owner, 0 - row.size).(handed := w.handed + {row.source})
    else if row.source.Object? then
      w.(tickets := w.tickets[t := row.(state := Deleting(claim), nextAttemptAt := now + RETRY_MS)], handed := w.handed + {row.source})
    else w
  }

  /** A page of due tickets, one after the other. */
  function CleanTickets(w: World, due: seq<nat>, claim: string, now: nat): World
    decreases |due|
  {
    if due == [] then w
    else
      var t := due[0];
      CleanTickets(if t in w.tickets && w.tickets[t].nextAttemptAt <= now then CleanTicket(w, t, claim, now) else w, due[1..], claim, now)
  }

  /** The deletion was confirmed: only now are the bytes given back. */
  function Confirm(w: World, t: nat, claim: string): (World, bool) {
    if t !in w.tickets then (w, true)
    else
      var row := w.tickets[t];
      if !row.source.Object? || row.state != Deleting(claim) || Referenced(w.files, row.source) then (w, false)
      else (Charge(DropTicket(w, t), row.owner, 0 - row.size), true)
  }

  /** Rows are kept two days past the execution's hard deadline. */
  function RetireAt(fence: string, e: Env): nat {
    e.deadline(fence) + 2 * DAY_MS
  }

  /** Uploads and receipts past their retention go away, any of them. */
  predicate MayPrune(w: World, uploads: set<nat>, receipts: set<(string, string)>, e: Env, now: nat) {
    && (forall k :: k in uploads && k in w.uploads ==> RetireAt(w.uploads[k].fence, e) <= now)
    && (forall r :: r in receipts && r in w.receipts ==> RetireAt(w.receipts[r].fence, e) <= now)
  }

  function Prune(w: World, uploads: set<nat>, receipts: set<(string, string)>): World {
    w.(uploads := w.uploads - uploads, receipts := w.receipts - receipts)
  }

  // ----- runs ------------------------------------------------------------------------------------------------

  datatype Action =
    | OpenIntent(intent: IntentRequest, caller: Caller)
    | CommitUpload(commit: CommitRequest, committer: Caller)
    | ChangeMeta(change: ChangeRequest, user: Caller)
    | Clean(due: seq<nat>, claim: string)
    | ConfirmDeleted(ticket: nat, claimed: string)
    | PruneRows(gone: set<nat>, answered: set<(string, string)>)
    | Elsewhere(file: File)
    | UserEdit(edit: EditRequest)

  /** A file that comes from another part of the product, with bytes of its own. */
  function Adopt(w: World, f: File): World {
    var source := match f.source
                  case Inline => Inline
                  case Object(_) => Object(w.nextKey)
                  case Convex(_) => Convex(w.nextKey);
    var row := f.(source := source, deleted := false, duplicateOf := None);
    Charge(w.(files := w.files + [row], nextKey := w.nextKey + 1), f.owner, Charged(row))
  }

  /** A user's own change of an inline text file; `seen` is the revision it was made against, if it names one. */
  datatype EditRequest = EditRequest(edited: nat, seen: Option<nat>, title: string, hash: string, length: nat, duplicate: Option<nat>)

  predicate MayEdit(w: World, q: EditRequest) {
    && Live(w.files, q.edited) && !w.files[q.edited].folder && w.files[q.edited].source.Inline?
    && (q.seen.Some? ==> q.seen.value == w.files[q.edited].revision)
  }

  /** The time becomes the revision as it is, and bytes are charged or given back only while some are left. */
  function EditText(w: World, q: EditRequest, now: nat): World {
    if !MayEdit(w, q) then w
    else
      var was := w.files[q.edited];
      Charge(w.(files := w.files[q.edited := was.(name := q.title, hash := q.hash, size := q.length, duplicateOf := q.duplicate, revision := now)]),
             was.owner, if was.kind.Output? || q.length == 0 then 0 else q.length - was.size)
  }

  /** What a file is charged for: tombstones keep only bytes stored elsewhere, inline outputs are free. */
  function Charged(f: File): nat {
    if !f.source.Inline? then f.size else if f.deleted || f.folder then 0 else ReleasedInline(f)
  }

  function Step(w: World, a: Action, e: Env, now: nat): World {
    match a
    case OpenIntent(q, c) => Intent(w, q, c, e, now).0
    case CommitUpload(q, c) => Commit(w, q, c, e, now).0
    case ChangeMeta(q, c) => ChangeMetadata(w, q, c, e, now).0
    case Clean(due, claim) => CleanTickets(w, due, claim, now)
    case ConfirmDeleted(t, claim) => Confirm(w, t, claim).0
    case PruneRows(uploads, receipts) => if MayPrune(w, uploads, receipts, e, now) then Prune(w, uploads, receipts) else w
    case Elsewhere(f) => Adopt(w, f)
    case UserEdit(q) => EditText(w, q, now)
  }

  /** An action with the time it happens at. */
  datatype Timed = Timed(action: Action, at: nat)

  datatype Clocked = Clocked(world: World, clock: nat)

  function Next(s: Clocked, a: Timed, e: Env): Clocked {
    var now := Max(s.clock, a.at);
    Clocked(Step(s.world, a.action, e, now), now)
  }

  function Run(s: Clocked, actions: seq<Timed>, e: Env): Clocked
    decreases |actions|
  {
    if actions == [] then s else Run(Next(s, actions[0], e), actions[1..], e)
  }

  const EMPTY: World := World([], map[], map[], map[], map[], 0, 0, {})
}
