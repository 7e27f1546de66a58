/**
 The durable MCP call journal (convex/agents/mcpCalls.ts): registered calls, their single
 execution, ordered result chunks, per-run quotas and bounded cleanup. Every operation takes the
 journal and the time and gives the next journal and an answer; a refusal leaves the journal as it was.
 */
module McpJournal {
  import opened Common

  newtype byte = b: int | 0 <= b < 256

  const MAX_INPUT_BYTES: nat := 256 * 1024
  const MAX_CHUNK_BYTES: nat := 64 * 1024
  const MAX_RUN_BYTES: nat := 64 * 1024 * 1024
  const MAX_RUN_CALLS: nat := 1000
  const RETENTION_MS: nat := 24 * 60 * 60000
  const PAGE_CALLS: nat := 10
  const TICK_CHUNKS: nat := 64
  const READ_CHUNKS: nat := 8

  /** Key of an index ordered by the number itself. */
  const BY_INDEX: nat -> int := (k: nat) => k

  datatype CallState =
    | Waiting
    | Executing(executionId: string, deadlineAt: nat, chunks: nat, bytes: nat)
    | Completed(chunks: nat, bytes: nat, sha256: string)

  /** `uid` is the row identity; `fence` stands for workspace, environment and execution attempt. */
  datatype Call = Call(
    uid: nat,
    callId: string,
    sessionId: string,
    fence: string,
    runId: string,
    rpc: (string, string),
    toolName: string,
    arguments: seq<byte>,
    expiresAt: nat,
    retireAt: nat,
    state: CallState)

  datatype Budget = Budget(calls: nat, bytes: nat, retireAt: nat)

  datatype Journal = Journal(calls: seq<Call>, chunks: map<(string, nat), seq<byte>>, budgets: map<string, Budget>, nextUid: nat)

  /** What a caller presents; `live` is the outcome of the session, membership and participant checks. */
  datatype Authority = Authority(sessionId: string, fence: string, runId: string, expiresAt: nat, live: bool)

  datatype Error =
    | Unauthorized | Unavailable | Invalid | IdReused | Quota | NotApproved
    | ExecutorMismatch | ResultChanged | ResultOrder | ResultIncomplete | ResultUnavailable

  datatype Outcome<+T> = Done(value: T) | Refused(error: Error)

  function ChunkCount(s: CallState): nat {
    match s
    case Waiting => 0
    case Executing(_, _, chunks, _) => chunks
    case Completed(chunks, _, _) => chunks
  }

  function ResultBytes(s: CallState): nat {
    match s
    case Waiting => 0
    case Executing(_, _, _, bytes) => bytes
    case Completed(_, bytes, _) => bytes
  }

  predicate BoundedId(s: string) {
    0 < |s| <= 200
  }

  predicate Authorized(a: Authority, now: nat) {
    a.live && now < a.expiresAt
  }

  predicate SameScope(c: Call, a: Authority, now: nat) {
    c.sessionId == a.sessionId && c.fence == a.fence && c.runId == a.runId && now < c.expiresAt
  }

  function FindCall(calls: seq<Call>, callId: string, from: nat): Option<nat>
    decreases |calls| - from
  {
    if from >= |calls| then None else if calls[from].callId == callId then Some(from) else FindCall(calls, callId, from + 1)
  }

  function FindRpc(calls: seq<Call>, sessionId: string, rpc: (string, string), from: nat): Option<nat>
    decreases |calls| - from
  {
    if from >= |calls| then None
    else if calls[from].sessionId == sessionId && calls[from].rpc == rpc then Some(from)
    else FindRpc(calls, sessionId, rpc, from + 1)
  }

  /** The call a live, unexpired authority may act on. */
  function AuthorizedCall(j: Journal, a: Authority, callId: string, now: nat): (r: Outcome<nat>)
    ensures r.Done? ==> r.value < |j.calls| && j.calls[r.value].callId == callId && SameScope(j.calls[r.value], a, now)
  {
    if !Authorized(a, now) then Refused(Unauthorized)
    else
      match FindCall(j.calls, callId, 0)
      case None => Refused(Unavailable)
      case Some(i) =>
        FindCallFinds(j.calls, callId, 0);
        if SameScope(j.calls[i], a, now) then Done(i) else Refused(Unavailable)
  }

  lemma {:induction false} FindCallFinds(calls: seq<Call>, callId: string, from: nat)
    ensures var f := FindCall(calls, callId, from);
            f.Some? ==> from <= f.value < |calls| && calls[f.value].callId == callId
    ensures FindCall(calls, callId, from).None? ==> forall k :: from <= k < |calls| ==> calls[k].callId != callId
    decreases |calls| - from
  {
    if from < |calls| && calls[from].callId != callId {
      FindCallFinds(calls, callId, from + 1);
    }
  }

  lemma {:induction false} FindRpcFinds(calls: seq<Call>, sessionId: string, rpc: (string, string), from: nat)
    ensures var f := FindRpc(calls, sessionId, rpc, from);
            f.Some? ==> from <= f.value < |calls| && calls[f.value].sessionId == sessionId && calls[f.value].rpc == rpc
    ensures FindRpc(calls, sessionId, rpc, from).None? ==>
              forall k :: from <= k < |calls| ==> calls[k].sessionId != sessionId || calls[k].rpc != rpc
    decreases |calls| - from
  {
    if from < |calls| && !(calls[from].sessionId == sessionId && calls[from].rpc == rpc) {
      FindRpcFinds(calls, sessionId, rpc, from + 1);
    }
  }

  // ----- operations ---------------------------------------------------------------------------

  datatype Request = Request(rpc: (string, string), callId: string, toolName: string, arguments: seq<byte>, parses: bool)

  function Register(j: Journal, a: Authority, q: Request, now: nat): (Journal, Outcome<Call>) {
    if !Authorized(a, now) then (j, Refused(Unauthorized))
    else if !(BoundedId(q.rpc.0) && BoundedId(q.rpc.1) && BoundedId(q.callId) && BoundedId(q.toolName))
            || |q.arguments| > MAX_INPUT_BYTES || !q.parses then (j, Refused(Invalid))
    else
      match FindRpc(j.calls, a.sessionId, q.rpc, 0)
      case Some(i) =>
        FindRpcFinds(j.calls, a.sessionId, q.rpc, 0);
        var existing := j.calls[i];
        if !SameScope(existing, a, now) || existing.toolName != q.toolName || existing.arguments != q.arguments
        then (j, Refused(IdReused)) else (j, Done(existing))
      case None =>
        if FindCall(j.calls, q.callId, 0).Some? then (j, Refused(IdReused))
        else
          var budget := if a.runId in j.budgets then j.budgets[a.runId] else Budget(0, 0, 0);
          if budget.calls >= MAX_RUN_CALLS || budget.bytes + |q.arguments| > MAX_RUN_BYTES then (j, Refused(Quota))
          else
            var retireAt := a.expiresAt + RETENTION_MS;
            var call := Call(j.nextUid, q.callId, a.sessionId, a.fence, a.runId, q.rpc, q.toolName, q.arguments,
                             a.expiresAt, retireAt, Waiting);
            (Journal(j.calls + [call], j.chunks,
                     j.budgets[a.runId := Budget(budget.calls + 1, budget.bytes + |q.arguments|, Max(budget.retireAt, retireAt))],
                     j.nextUid + 1),
             Done(call))
  }

  function SetState(j: Journal, i: nat, s: CallState): Journal
    requires i < |j.calls|
  {
    j.(calls := j.calls[i := j.calls[i].(state := s)])
  }

  /** `approved` is false exactly when approval is required and not given. */
  function Claim(j: Journal, a: Authority, callId: string, executionId: string, approved: bool, now: nat): (Journal, Outcome<bool>) {
    match AuthorizedCall(j, a, callId, now)
    case Refused(e) => (j, Refused(e))
    case Done(i) =>
      if !j.calls[i].state.Waiting? then (j, Done(false))
      else if !BoundedId(executionId) then (j, Refused(Invalid))
      else if !approved then (j, Refused(NotApproved))
      else (SetState(j, i, Executing(executionId, Min(now + 240000, a.expiresAt), 0, 0)), Done(true))
  }

  function AppendResult(j: Journal, a: Authority, callId: string, executionId: string, index: int, data: seq<byte>, now: nat): (Journal, Outcome<()>) {
    match AuthorizedCall(j, a, callId, now)
    case Refused(e) => (j, Refused(e))
    case Done(i) =>
      var s := j.calls[i].state;
      if !s.Executing? || s.executionId != executionId then (j, Refused(ExecutorMismatch))
      else if index < 0 || |data| > MAX_CHUNK_BYTES || |data| == 0 then (j, Refused(Invalid))
      else if index < s.chunks then
        if (callId, index) !in j.chunks || j.chunks[(callId, index)] != data then (j, Refused(ResultChanged)) else (j, Done(()))
      else if index != s.chunks then (j, Refused(ResultOrder))
      else if a.runId !in j.budgets || j.budgets[a.runId].bytes + |data| > MAX_RUN_BYTES then (j, Refused(Quota))
      else
        var b := j.budgets[a.runId];
        (SetState(j, i, Executing(executionId, s.deadlineAt, s.chunks + 1, s.bytes + |data|))
           .(chunks := j.chunks[(callId, index) := data], budgets := j.budgets[a.runId := b.(bytes := b.bytes + |data|)]),
         Done(()))
  }

  predicate IsSha256(s: string) {
    |s| == 64 && forall k :: 0 <= k < 64 ==> '0' <= s[k] <= '9' || 'a' <= s[k] <= 'f'
  }

  function Complete(j: Journal, a: Authority, callId: string, executionId: string, chunks: nat, bytes: nat, sha256: string, now: nat): (Journal, Outcome<()>) {
    match AuthorizedCall(j, a, callId, now)
    case Refused(e) => (j, Refused(e))
    case Done(i) =>
      var s := j.calls[i].state;
      if s.Completed? then (j, if s == Completed(chunks, bytes, sha256) then Done(()) else Refused(ResultChanged))
      else if !s.Executing? || s.executionId != executionId then (j, Refused(ExecutorMismatch))
      else if s.chunks != chunks || s.bytes != bytes || !IsSha256(sha256) then (j, Refused(ResultIncomplete))
      else (SetState(j, i, Completed(chunks, bytes, sha256)), Done(()))
  }

  /** Indices of the stored chunks of a call at or after `start`. */
  function StoredFrom(j: Journal, callId: string, start: nat): set<nat> {
    set key | key in j.chunks && key.0 == callId && key.1 >= start :: key.1
  }

  /** The indices one page of a finished result holds. */
  ghost function ReadResult(j: Journal, a: Authority, callId: string, start: int, now: nat): Outcome<seq<nat>> {
    match AuthorizedCall(j, a, callId, now)
    case Refused(e) => Refused(e)
    case Done(i) =>
      if !j.calls[i].state.Completed? || start < 0 then Refused(ResultUnavailable)
      else Done(InOrder(Page(StoredFrom(j, callId, start), BY_INDEX, READ_CHUNKS), BY_INDEX))
  }

  // ----- cleanup -------------------------------------------------------------------------------

  function DropChunks(j: Journal, callId: string, page: set<nat>): Journal {
    j.(chunks := map key | key in j.chunks && !(key.0 == callId && key.1 in page) :: j.chunks[key])
  }

  function DropCall(j: Journal, callId: string): Journal {
    match FindCall(j.calls, callId, 0)
    case None => j
    case Some(i) =>
      FindCallFinds(j.calls, callId, 0);
      j.(calls := j.calls[..i] + j.calls[i + 1..])
  }

  datatype Cleaning = Cleaning(j: Journal, budget: nat, more: bool)

  /** Delete a page of one call's chunks, and the call with it when that was fewer than the budget allowed. */
  function CleanOne(j: Journal, callId: string, budget: nat): Cleaning {
    var page := Page(StoredFrom(j, callId, 0), BY_INDEX, budget);
    PageSize(StoredFrom(j, callId, 0), BY_INDEX, budget);
    var j1 := DropChunks(j, callId, page);
    if |page| < budget then Cleaning(DropCall(j1, callId), budget - |page|, false) else Cleaning(j1, 0, true)
  }

  /** Delete the results of the listed retired calls within a chunk budget; true when some remain. */
  function CleanCalls(j: Journal, callIds: seq<string>, budget: nat, remaining: bool): (Journal, bool)
    decreases |callIds|
  {
    if callIds == [] then (j, remaining)
    else if budget == 0 then (j, true)
    else
      var c := CleanOne(j, callIds[0], budget);
      CleanCalls(c.j, callIds[1..], c.budget, remaining || c.more)
  }

  function RetiredAt(calls: seq<Call>, now: nat): set<nat> {
    set i: nat | i < |calls| && calls[i].retireAt <= now
  }

  /** The retirement index: up to ten retired calls, longest retired first. */
  ghost function RetiredPage(j: Journal, now: nat): seq<string>
  {
    CallIdsAt(j.calls, InOrder(Page(RetiredAt(j.calls, now), RetireKey(j.calls), PAGE_CALLS), RetireKey(j.calls)))
  }

  function RetireKey(calls: seq<Call>): nat -> int {
    (i: nat) => if i < |calls| then calls[i].retireAt else 0
  }

  function CallIdsAt(calls: seq<Call>, positions: seq<nat>): seq<string> {
    seq(|positions|, k requires 0 <= k < |positions| => if positions[k] < |calls| then calls[positions[k]].callId else "")
  }

  /** What the budget index may return: retired budgets, all of them unless there are ten. */
  ghost predicate BudgetPage(j: Journal, now: nat, page: set<string>) {
    && (forall r :: r in page ==> r in j.budgets && j.budgets[r].retireAt <= now)
    && |page| <= PAGE_CALLS
    && (|page| < PAGE_CALLS ==> forall r :: r in j.budgets && j.budgets[r].retireAt <= now ==> r in page)
  }

  /** One cleanup tick; true when it schedules another. */
  ghost function Cleanup(j: Journal, now: nat, budgets: set<string>): (Journal, bool) {
    var callIds := RetiredPage(j, now);
    var (j1, remaining) := CleanCalls(j, callIds, TICK_CHUNKS, false);
    (j1.(budgets := j1.budgets - budgets), remaining || |callIds| == PAGE_CALLS || |budgets| == PAGE_CALLS)
  }
}
