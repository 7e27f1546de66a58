/** The MCP journal mutations as they run: three tables updated in place, cleanup as loops over index pages. */
module McpTable {
  import opened Common
  import opened McpJournal

  lemma MovesOne(page: set<string>, left: set<string>, r: string, due: set<string>)
    requires r in left && page !! left && page + left == due
    ensures (page + {r}) + (left - {r}) == due && page + {r} !! left - {r}
    ensures |page + {r}| == |page| + 1 && |left - {r}| < |left|
  {}

  lemma DropsOne(budgets: map<string, Budget>, page: set<string>, r: string)
    ensures budgets - page - {r} == budgets - (page + {r})
  {}

  lemma PageTaken(j: Journal, now: nat, page: set<string>, left: set<string>)
    requires page + left == set r | r in j.budgets && j.budgets[r].retireAt <= now
    requires |page| <= PAGE_CALLS && (|page| < PAGE_CALLS ==> left == {})
    ensures BudgetPage(j, now, page)
  {
    assert forall r :: r in page ==> r in page + left;
    assert forall r :: r in j.budgets && j.budgets[r].retireAt <= now ==> r in page + left;
  }

  class Table {
    var calls: seq<Call>
    var chunks: map<(string, nat), seq<byte>>
    var budgets: map<string, Budget>
    var nextUid: nat

    ghost function State(): Journal
      reads this
    {
      Journal(calls, chunks, budgets, nextUid)
    }

    constructor ()
      ensures State() == Journal([], map[], map[], 0)
    {
      calls, chunks, budgets, nextUid := [], map[], map[], 0;
    }

    method RegisterCall(a: Authority, q: Request, now: nat) returns (r: Outcome<Call>)
      modifies this
      ensures (State(), r) == Register(old(State()), a, q, now)
    {
      if !Authorized(a, now) {
        return Refused(Unauthorized);
      }
      if !(BoundedId(q.rpc.0) && BoundedId(q.rpc.1) && BoundedId(q.callId) && BoundedId(q.toolName))
         || |q.arguments| > MAX_INPUT_BYTES || !q.parses {
        return Refused(Invalid);
      }
      var existing := FindRpc(calls, a.sessionId, q.rpc, 0);
      FindRpcFinds(calls, a.sessionId, q.rpc, 0);
      if existing.Some? {
        var call := calls[existing.value];
        if !SameScope(call, a, now) || call.toolName != q.toolName || call.arguments != q.arguments {
          return Refused(IdReused);
        }
        return Done(call);
      }
      if FindCall(calls, q.callId, 0).Some? {
        return Refused(IdReused);
      }
      var usedCalls, usedBytes, retired := 0, 0, 0;
      if a.runId in budgets {
        usedCalls, usedBytes, retired := budgets[a.runId].calls, budgets[a.runId].bytes, budgets[a.runId].retireAt;
      }
      if usedCalls >= MAX_RUN_CALLS || usedBytes + |q.arguments| > MAX_RUN_BYTES {
        return Refused(Quota);
      }
      var retireAt := a.expiresAt + RETENTION_MS;
      budgets := budgets[a.runId := Budget(usedCalls + 1, usedBytes + |q.arguments|, Max(retired, retireAt))];
      var row := Call(nextUid, q.callId, a.sessionId, a.fence, a.runId, q.rpc, q.toolName, q.arguments, a.expiresAt, retireAt, Waiting);
      calls, nextUid := calls + [row], nextUid + 1;
      return Done(row);
    }

    method ClaimCall(a: Authority, callId: string, executionId: string, approved: bool, now: nat) returns (r: Outcome<bool>)
      modifies this
      ensures (State(), r) == Claim(old(State()), a, callId, executionId, approved, now)
    {
      var found := AuthorizedCall(Snapshot(), a, callId, now);
      if found.Refused? {
        return Refused(found.error);
      }
      var i := found.value;
      if !calls[i].state.Waiting? {
        return Done(false);
      }
      if !BoundedId(executionId) {
        return Refused(Invalid);
      }
      if !approved {
        return Refused(NotApproved);
      }
      calls := calls[i := calls[i].(state := Executing(executionId, Min(now + 240000, a.expiresAt), 0, 0))];
      return Done(true);
    }

    function Snapshot(): Journal
      reads this
    {
      Journal(calls, chunks, budgets, nextUid)
    }

    method Append(a: Authority, callId: string, executionId: string, index: int, data: seq<byte>, now: nat) returns (r: Outcome<()>)
      modifies this
      ensures (State(), r) == AppendResult(old(State()), a, callId, executionId, index, data, now)
    {
      var found := AuthorizedCall(Snapshot(), a, callId, now);
      if found.Refused? {
        return Refused(found.error);
      }
      var i, s := found.value, calls[found.value].state;
      if !s.Executing? || s.executionId != executionId {
        return Refused(ExecutorMismatch);
      }
      if index < 0 || |data| > MAX_CHUNK_BYTES || |data| == 0 {
        return Refused(Invalid);
      }
      if index < s.chunks {
        if (callId, index) !in chunks || chunks[(callId, index)] != data {
          return Refused(ResultChanged);
        }
        return Done(());
      }
      if index != s.chunks {
        return Refused(ResultOrder);
      }
      if a.runId !in budgets || budgets[a.runId].bytes + |data| > MAX_RUN_BYTES {
        return Refused(Quota);
      }
      chunks := chunks[(callId, index) := data];
      budgets := budgets[a.runId := budgets[a.runId].(bytes := budgets[a.runId].bytes + |data|)];
      calls := calls[i := calls[i].(state := Executing(executionId, s.deadlineAt, s.chunks + 1, s.bytes + |data|))];
      return Done(());
    }

    method CompleteCall(a: Authority, callId: string, executionId: string, count: nat, bytes: nat, sha256: string, now: nat) returns (r: Outcome<()>)
      modifies this
      ensures (State(), r) == Complete(old(State()), a, callId, executionId, count, bytes, sha256, now)
    {
      var found := AuthorizedCall(Snapshot(), a, callId, now);
      if found.Refused? {
        return Refused(found.error);
      }
      var i, s := found.value, calls[found.value].state;
      if s.Completed? {
        if s.chunks != count || s.bytes != bytes || s.sha256 != sha256 {
          return Refused(ResultChanged);
        }
        return Done(());
      }
      if !s.Executing? || s.executionId != executionId {
        return Refused(ExecutorMismatch);
      }
      if s.chunks != count || s.bytes != bytes || !IsSha256(sha256) {
        return Refused(ResultIncomplete);
      }
      calls := calls[i := calls[i].(state := Completed(count, bytes, sha256))];
      return Done(());
    }

    /** Reads a set in index order. */
    method DeleteChunks(callId: string, page: set<nat>)
      modifies this`chunks
      ensures chunks == DropChunks(old(State()), callId, page).chunks
    {
      var rest := page;
      while rest != {}
        invariant rest <= page
        invariant chunks == DropChunks(old(State()), callId, page - rest).chunks
        decreases |rest|
      {
        var k :| k in rest;
        chunks := map key | key in chunks && key != (callId, k) :: chunks[key];
        rest := rest - {k};
      }
    }

    method DeleteCall(callId: string)
      modifies this`calls
      ensures calls == DropCall(old(State()), callId).calls
    {
      var found := FindCall(calls, callId, 0);
      FindCallFinds(calls, callId, 0);
      if found.Some? {
        calls := calls[..found.value] + calls[found.value + 1..];
      }
    }

    method DeleteBudgets(now: nat) returns (count: nat, ghost page: set<string>)
      modifies this`budgets
      ensures BudgetPage(old(State()), now, page) && count == |page|
      ensures budgets == old(budgets) - page
    {
      hide BudgetPage;
      page, count := {}, 0;
      var retired := set r | r in budgets && budgets[r].retireAt <= now;
      ghost var due := retired;
      while count < PAGE_CALLS && retired != {}
        invariant count == |page| <= PAGE_CALLS && page !! retired && page + retired == due
        invariant budgets == old(budgets) - page
        decreases |retired|
      {
        var r :| r in retired;
        MovesOne(page, retired, r, due);
        DropsOne(old(budgets), page, r);
        budgets := budgets - {r};
        page, retired, count := page + {r}, retired - {r}, count + 1;
      }
      PageTaken(old(State()), now, page, retired);
    }

    /** One cleanup tick; the answer says whether another is scheduled. */
    method CleanupExpired(now: nat) returns (again: bool)
      modifies this
      ensures exists page :: BudgetPage(old(State()), now, page) && (State(), again) == Cleanup(old(State()), now, page)
    {
      hide CleanOne;
      var order := ReadInOrder(Page(RetiredAt(calls, now), RetireKey(calls), PAGE_CALLS), RetireKey(calls));
      var ids := CallIdsAt(calls, order);
      var remaining, chunkBudget, n, stop := false, TICK_CHUNKS, 0, false;
      while n < |ids| && !stop
        invariant n <= |ids| && budgets == old(budgets)
        invariant !stop ==> CleanCalls(State(), ids[n..], chunkBudget, remaining) == CleanCalls(old(State()), ids, TICK_CHUNKS, false)
        invariant stop ==> (State(), remaining) == CleanCalls(old(State()), ids, TICK_CHUNKS, false)
        decreases |ids| - n, !stop
      {
        if chunkBudget == 0 {
          remaining, stop := true, true;
        } else {
          ghost var j, budget, left := State(), chunkBudget, remaining;
          var gone, more := CleanNext(ids[n], chunkBudget);
          chunkBudget := chunkBudget - gone;
          remaining := remaining || more;
          assert ids[n..][0] == ids[n] && ids[n..][1..] == ids[n + 1..];
          assert CleanCalls(j, ids[n..], budget, left) == CleanCalls(State(), ids[n + 1..], chunkBudget, remaining);
          n := n + 1;
        }
      }
      var count, page := DeleteBudgets(now);
      again := remaining || |ids| == PAGE_CALLS || count == PAGE_CALLS;
      assert ids == RetiredPage(old(State()), now);
      assert BudgetPage(old(State()), now, page);
      assert (State(), again) == Cleanup(old(State()), now, page);
    }

    /** Delete one retired call's next chunks; gives how many went and whether some may be left. */
    method CleanNext(callId: string, limit: nat) returns (gone: nat, more: bool)
      modifies this`calls, this`chunks
      ensures gone <= limit && CleanOne(old(State()), callId, limit) == Cleaning(State(), limit - gone, more)
    {
      var page := Page(StoredFrom(Snapshot(), callId, 0), BY_INDEX, limit);
      PageSize(StoredFrom(Snapshot(), callId, 0), BY_INDEX, limit);
      DeleteChunks(callId, page);
      gone, more := |page|, |page| == limit;
      if !more {
        DeleteCall(callId);
      }
    }
  }
}
