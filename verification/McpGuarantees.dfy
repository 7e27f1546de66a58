/** What the MCP call journal guarantees over every run: quotas, single execution, round trip, cleanup. */
module McpGuarantees {
  import opened Common
  import opened McpJournal

  // ----- what is live, and how much of it ---------------------------------------------------

  predicate Live(c: Call, runId: string, t: nat) {
    c.runId == runId && c.retireAt > t
  }

  function Weight(c: Call): nat {
    |c.arguments| + ResultBytes(c.state)
  }

  /** Calls of a run not yet past their retirement. */
  function LiveCount(calls: seq<Call>, runId: string, t: nat): nat {
    if calls == [] then 0 else (if Live(calls[0], runId, t) then 1 else 0) + LiveCount(calls[1..], runId, t)
  }

  /** Their argument and result bytes. */
  function LiveBytes(calls: seq<Call>, runId: string, t: nat): nat {
    if calls == [] then 0 else (if Live(calls[0], runId, t) then Weight(calls[0]) else 0) + LiveBytes(calls[1..], runId, t)
  }

  lemma {:induction false} LiveConcat(a: seq<Call>, b: seq<Call>, runId: string, t: nat)
    ensures LiveCount(a + b, runId, t) == LiveCount(a, runId, t) + LiveCount(b, runId, t)
    ensures LiveBytes(a + b, runId, t) == LiveBytes(a, runId, t) + LiveBytes(b, runId, t)
  {
    if a == [] {
      assert a + b == b;
    } else {
      assert (a + b)[1..] == a[1..] + b;
      LiveConcat(a[1..], b, runId, t);
    }
  }

  lemma LiveSplit(calls: seq<Call>, i: nat, c: Call, runId: string, t: nat)
    requires i < |calls|
    ensures LiveCount(calls[i := c], runId, t) - (if Live(c, runId, t) then 1 else 0)
            == LiveCount(calls, runId, t) - (if Live(calls[i], runId, t) then 1 else 0)
            == LiveCount(calls[..i] + calls[i + 1..], runId, t)
    ensures LiveBytes(calls[i := c], runId, t) - (if Live(c, runId, t) then Weight(c) else 0)
            == LiveBytes(calls, runId, t) - (if Live(calls[i], runId, t) then Weight(calls[i]) else 0)
            == LiveBytes(calls[..i] + calls[i + 1..], runId, t)
  {
    var (front, back) := (calls[..i], calls[i + 1..]);
    assert calls == front + ([calls[i]] + back) && calls[i := c] == front + ([c] + back);
    LiveConcat(front, [calls[i]] + back, runId, t);
    LiveConcat(front, [c] + back, runId, t);
    LiveConcat(front, back, runId, t);
    LiveConcat([calls[i]], back, runId, t);
    LiveConcat([c], back, runId, t);
  }

  lemma {:induction false} LiveShrinks(calls: seq<Call>, runId: string, t: nat, t': nat)
    requires t <= t'
    ensures LiveCount(calls, runId, t') <= LiveCount(calls, runId, t)
    ensures LiveBytes(calls, runId, t') <= LiveBytes(calls, runId, t)
  {
    if calls != [] {
      LiveShrinks(calls[1..], runId, t, t');
    }
  }

  lemma {:induction false} LiveMember(calls: seq<Call>, i: nat, t: nat)
    requires i < |calls| && calls[i].retireAt > t
    ensures LiveCount(calls, calls[i].runId, t) > 0
  {
    if i > 0 {
      assert calls[1..][i - 1] == calls[i];
      LiveMember(calls[1..], i - 1, t);
    }
  }

  // ----- invariant -----------------------------------------------------------------------------

  function SizeSum(chunks: map<(string, nat), seq<byte>>, callId: string, n: nat): nat {
    if n == 0 then 0
    else SizeSum(chunks, callId, n - 1) + (if (callId, n - 1) in chunks then |chunks[(callId, n - 1)]| else 0)
  }

  ghost predicate WellFormed(j: Journal) {
    && (forall a, b :: 0 <= a < b < |j.calls| ==> j.calls[a].callId != j.calls[b].callId && j.calls[a].uid != j.calls[b].uid)
    && (forall a :: 0 <= a < |j.calls| ==> j.calls[a].uid < j.nextUid && j.calls[a].retireAt == j.calls[a].expiresAt + RETENTION_MS)
  }

  ghost predicate Owned(j: Journal, callId: string, index: nat) {
    exists i :: 0 <= i < |j.calls| && j.calls[i].callId == callId && index < ChunkCount(j.calls[i].state)
  }

  /** Every stored chunk belongs to an existing call, within its chunk count. */
  ghost predicate NoOrphans(j: Journal) {
    forall key :: key in j.chunks ==> Owned(j, key.0, key.1)
  }

  /** A call not yet retired has exactly the chunks 0..n-1, adding up to its recorded bytes. */
  ghost predicate ResultsIntact(j: Journal, t: nat) {
    forall i :: 0 <= i < |j.calls| && j.calls[i].retireAt > t ==> Intact(j.chunks, j.calls[i])
  }

  ghost predicate Intact(chunks: map<(string, nat), seq<byte>>, c: Call) {
    && (forall k :: 0 <= k < ChunkCount(c.state) ==> (c.callId, k) in chunks)
    && SizeSum(chunks, c.callId, ChunkCount(c.state)) == ResultBytes(c.state)
  }

  /** The budget of a run covers everything of the run that is still live. */
  ghost predicate Counted(j: Journal, t: nat) {
    && (forall r :: LiveCount(j.calls, r, t) > 0 ==>
          r in j.budgets && LiveCount(j.calls, r, t) <= j.budgets[r].calls && LiveBytes(j.calls, r, t) <= j.budgets[r].bytes)
    && (forall i :: 0 <= i < |j.calls| && j.calls[i].retireAt > t ==>
          j.calls[i].runId in j.budgets && j.calls[i].retireAt <= j.budgets[j.calls[i].runId].retireAt)
  }

  ghost predicate Bounded(j: Journal) {
    forall r :: r in j.budgets ==> j.budgets[r].calls <= MAX_RUN_CALLS && j.budgets[r].bytes <= MAX_RUN_BYTES
  }

  ghost predicate Inv(j: Journal, t: nat) {
    WellFormed(j) && NoOrphans(j) && ResultsIntact(j, t) && Counted(j, t) && Bounded(j)
  }

  lemma TimeKeepsInv(j: Journal, t: nat, t': nat)
    requires Inv(j, t) && t <= t'
    ensures Inv(j, t')
  {
    forall r | LiveCount(j.calls, r, t') > 0
      ensures r in j.budgets && LiveCount(j.calls, r, t') <= j.budgets[r].calls && LiveBytes(j.calls, r, t') <= j.budgets[r].bytes
    {
      LiveShrinks(j.calls, r, t, t');
    }
  }

  lemma {:induction false} LiveBytesOfNothing(calls: seq<Call>, runId: string, t: nat)
    requires LiveCount(calls, runId, t) == 0
    ensures LiveBytes(calls, runId, t) == 0
  {
    if calls != [] {
      LiveBytesOfNothing(calls[1..], runId, t);
    }
  }

  /** The quota at any time: at most 1000 live calls and 64 MiB of live arguments and results per run. */
  lemma InvGivesQuota(j: Journal, runId: string, t: nat)
    requires Inv(j, t)
    ensures LiveCount(j.calls, runId, t) <= MAX_RUN_CALLS && LiveBytes(j.calls, runId, t) <= MAX_RUN_BYTES
  {
    if LiveCount(j.calls, runId, t) == 0 {
      LiveBytesOfNothing(j.calls, runId, t);
    }
  }

  // ----- each operation keeps it ------------------------------------------------------------------

  /** A new call, charged to its run's budget, which is started when there is none. */
  ghost function WithCall(j: Journal, call: Call): Journal {
    var b := if call.runId in j.budgets then j.budgets[call.runId] else Budget(0, 0, 0);
    Journal(j.calls + [call], j.chunks,
            j.budgets[call.runId := Budget(b.calls + 1, b.bytes + |call.arguments|, Max(b.retireAt, call.retireAt))], j.nextUid + 1)
  }

  lemma WithCallStaysCounted(j: Journal, call: Call, t: nat)
    requires Counted(j, t) && call.state.Waiting?
    ensures Counted(WithCall(j, call), t)
  {
    var j' := WithCall(j, call);
    forall r | LiveCount(j'.calls, r, t) > 0
      ensures r in j'.budgets && LiveCount(j'.calls, r, t) <= j'.budgets[r].calls && LiveBytes(j'.calls, r, t) <= j'.budgets[r].bytes
    {
      LiveConcat(j.calls, [call], r, t);
      assert [call][1..] == [];
      if LiveCount(j.calls, r, t) == 0 {
        LiveBytesOfNothing(j.calls, r, t);
      }
    }
  }

  lemma WithCallKeepsInv(j: Journal, call: Call, t: nat)
    requires Inv(j, t) && call.state.Waiting? && call.uid == j.nextUid && call.retireAt == call.expiresAt + RETENTION_MS
    requires forall k :: 0 <= k < |j.calls| ==> j.calls[k].callId != call.callId
    requires Bounded(WithCall(j, call))
    ensures Inv(WithCall(j, call), t)
  {
    hide Counted;
    var j' := WithCall(j, call);
    WithCallStaysCounted(j, call, t);
    forall key | key in j'.chunks
      ensures Owned(j', key.0, key.1)
    {
      var i :| 0 <= i < |j.calls| && j.calls[i].callId == key.0 && key.1 < ChunkCount(j.calls[i].state);
      assert j'.calls[i] == j.calls[i];
    }
  }

  lemma RegisterKeepsInv(j: Journal, a: Authority, q: Request, t: nat)
    requires Inv(j, t)
    ensures Inv(Register(j, a, q, t).0, t)
  {
    hide NoOrphans, ResultsIntact, Counted, WellFormed, FindRpc;
    var j' := Register(j, a, q, t).0;
    if j' != j {
      FindCallFinds(j.calls, q.callId, 0);
      var call := Call(j.nextUid, q.callId, a.sessionId, a.fence, a.runId, q.rpc, q.toolName, q.arguments,
                       a.expiresAt, a.expiresAt + RETENTION_MS, Waiting);
      assert j' == WithCall(j, call);
      WithCallKeepsInv(j, call, t);
    }
  }

  /** Moving one call to a state of the same weight and chunks changes no count. */
  lemma SetStateKeepsInv(j: Journal, i: nat, s: CallState, t: nat)
    requires Inv(j, t) && i < |j.calls|
    requires ChunkCount(s) == ChunkCount(j.calls[i].state) && ResultBytes(s) == ResultBytes(j.calls[i].state)
    ensures Inv(SetState(j, i, s), t)
  {
    var j' := SetState(j, i, s);
    forall key | key in j'.chunks
      ensures Owned(j', key.0, key.1)
    {
      var k :| 0 <= k < |j.calls| && j.calls[k].callId == key.0 && key.1 < ChunkCount(j.calls[k].state);
      assert j'.calls[k].callId == key.0;
    }
    forall r | LiveCount(j'.calls, r, t) > 0
      ensures r in j'.budgets && LiveCount(j'.calls, r, t) <= j'.budgets[r].calls && LiveBytes(j'.calls, r, t) <= j'.budgets[r].bytes
    {
      LiveSplit(j.calls, i, j'.calls[i], r, t);
    }
  }

  lemma ClaimKeepsInv(j: Journal, a: Authority, callId: string, executionId: string, approved: bool, t: nat)
    requires Inv(j, t)
    ensures Inv(Claim(j, a, callId, executionId, approved, t).0, t)
  {
    var c := AuthorizedCall(j, a, callId, t);
    if c.Done? && j.calls[c.value].state.Waiting? {
      SetStateKeepsInv(j, c.value, Executing(executionId, Min(t + 240000, a.expiresAt), 0, 0), t);
    }
  }

  lemma CompleteKeepsInv(j: Journal, a: Authority, callId: string, executionId: string, chunks: nat, bytes: nat, sha256: string, t: nat)
    requires Inv(j, t)
    ensures Inv(Complete(j, a, callId, executionId, chunks, bytes, sha256, t).0, t)
  {
    var c := AuthorizedCall(j, a, callId, t);
    if c.Done? && j.calls[c.value].state.Executing? && j.calls[c.value].state.chunks == chunks && j.calls[c.value].state.bytes == bytes {
      SetStateKeepsInv(j, c.value, Completed(chunks, bytes, sha256), t);
    }
  }

  lemma {:induction false} SizeSumFrame(chunks: map<(string, nat), seq<byte>>, chunks': map<(string, nat), seq<byte>>, callId: string, n: nat)
    requires forall k :: 0 <= k < n ==> ((callId, k) in chunks <==> (callId, k) in chunks')
                                        && ((callId, k) in chunks ==> chunks[(callId, k)] == chunks'[(callId, k)])
    ensures SizeSum(chunks, callId, n) == SizeSum(chunks', callId, n)
  {
    if n > 0 {
      SizeSumFrame(chunks, chunks', callId, n - 1);
    }
  }

  /** One more chunk of the executing call at `i`, charged to its run. */
  ghost function WithChunk(j: Journal, i: nat, data: seq<byte>): Journal
    requires i < |j.calls| && j.calls[i].state.Executing? && j.calls[i].runId in j.budgets
  {
    var (c, s) := (j.calls[i], j.calls[i].state);
    Journal(j.calls[i := c.(state := Executing(s.executionId, s.deadlineAt, s.chunks + 1, s.bytes + |data|))],
            j.chunks[(c.callId, s.chunks) := data],
            j.budgets[c.runId := j.budgets[c.runId].(bytes := j.budgets[c.runId].bytes + |data|)],
            j.nextUid)
  }

  lemma WithChunkStaysCounted(j: Journal, i: nat, data: seq<byte>, t: nat)
    requires i < |j.calls| && j.calls[i].state.Executing? && j.calls[i].runId in j.budgets
    requires Counted(j, t)
    ensures Counted(WithChunk(j, i, data), t)
  {
    var j' := WithChunk(j, i, data);
    forall r | LiveCount(j'.calls, r, t) > 0
      ensures r in j'.budgets && LiveCount(j'.calls, r, t) <= j'.budgets[r].calls && LiveBytes(j'.calls, r, t) <= j'.budgets[r].bytes
    {
      LiveSplit(j.calls, i, j'.calls[i], r, t);
    }
  }

  lemma WithChunkLeavesNoOrphan(j: Journal, i: nat, data: seq<byte>)
    requires i < |j.calls| && j.calls[i].state.Executing? && j.calls[i].runId in j.budgets && NoOrphans(j)
    ensures NoOrphans(WithChunk(j, i, data))
  {
    var j' := WithChunk(j, i, data);
    forall key | key in j'.chunks
      ensures Owned(j', key.0, key.1)
    {
      if key == (j.calls[i].callId, j.calls[i].state.chunks) {
        assert j'.calls[i].callId == key.0;
      } else {
        assert Owned(j, key.0, key.1);
        var k :| 0 <= k < |j.calls| && j.calls[k].callId == key.0 && key.1 < ChunkCount(j.calls[k].state);
        assert j'.calls[k].callId == key.0;
      }
    }
  }

  lemma WithChunkKeepsResults(j: Journal, i: nat, data: seq<byte>, t: nat)
    requires i < |j.calls| && j.calls[i].state.Executing? && j.calls[i].runId in j.budgets
    requires WellFormed(j) && ResultsIntact(j, t)
    ensures ResultsIntact(WithChunk(j, i, data), t)
  {
    var j' := WithChunk(j, i, data);
    forall k | 0 <= k < |j'.calls| && j'.calls[k].retireAt > t
      ensures Intact(j'.chunks, j'.calls[k])
    {
      var n := ChunkCount(j.calls[k].state);
      assert Intact(j.chunks, j.calls[k]);
      SizeSumFrame(j.chunks, j'.chunks, j.calls[k].callId, n);
      if k == i {
        assert ChunkCount(j'.calls[k].state) == n + 1;
        assert SizeSum(j'.chunks, j.calls[k].callId, n + 1) == SizeSum(j'.chunks, j.calls[k].callId, n) + |data|;
      } else {
        assert j'.calls[k] == j.calls[k];
      }
    }
  }

  /** What an accepted append does: a replay changes nothing, a new chunk extends the result. */
  lemma AppendShape(j: Journal, a: Authority, callId: string, executionId: string, index: int, data: seq<byte>, t: nat)
    ensures var (j', r) := AppendResult(j, a, callId, executionId, index, data, t);
            && (r.Refused? ==> j' == j)
            && (r.Done? ==>
                  && AuthorizedCall(j, a, callId, t).Done?
                  && var i := AuthorizedCall(j, a, callId, t).value;
                  && j.calls[i].state.Executing? && 0 <= index <= j.calls[i].state.chunks && 0 < |data| <= MAX_CHUNK_BYTES
                  && (index < j.calls[i].state.chunks ==> j' == j && (callId, index) in j.chunks && j.chunks[(callId, index)] == data)
                  && (index == j.calls[i].state.chunks ==>
                        j.calls[i].runId in j.budgets && j' == WithChunk(j, i, data)
                        && j.budgets[j.calls[i].runId].bytes + |data| <= MAX_RUN_BYTES))
  {
    hide FindCall;
  }

  lemma AppendKeepsInv(j: Journal, a: Authority, callId: string, executionId: string, index: int, data: seq<byte>, t: nat)
    requires Inv(j, t)
    ensures Inv(AppendResult(j, a, callId, executionId, index, data, t).0, t)
  {
    hide AppendResult, AuthorizedCall, NoOrphans, ResultsIntact, Counted;
    AppendShape(j, a, callId, executionId, index, data, t);
    var j' := AppendResult(j, a, callId, executionId, index, data, t).0;
    if j' != j {
      var i := AuthorizedCall(j, a, callId, t).value;
      WithChunkStaysCounted(j, i, data, t);
      WithChunkLeavesNoOrphan(j, i, data);
      WithChunkKeepsResults(j, i, data, t);
    }
  }
}
