/** Cleanup of the MCP call journal: it only removes what is retired, leaves no orphan, and ends. */
module McpCleanup {
  import opened Common
  import opened McpJournal
  import opened McpGuarantees

  ghost predicate HasCall(calls: seq<Call>, callId: string) {
    exists i :: 0 <= i < |calls| && calls[i].callId == callId
  }

  ghost predicate RetiredId(calls: seq<Call>, callId: string, t: nat) {
    forall i :: 0 <= i < |calls| && calls[i].callId == callId ==> calls[i].retireAt <= t
  }

  /** Only retired calls and their chunks have gone, nothing has changed or been added. */
  ghost predicate Cleaned(j: Journal, j': Journal, t: nat) {
    && j'.budgets == j.budgets && j'.nextUid == j.nextUid
    && |j'.calls| <= |j.calls| && |j'.chunks| <= |j.chunks|
    && (forall c :: c in j'.calls ==> c in j.calls)
    && (forall c :: c in j.calls && c.retireAt > t ==> c in j'.calls)
    && (forall key :: key in j'.chunks ==> key in j.chunks && j'.chunks[key] == j.chunks[key])
    && (forall key :: key in j.chunks && !RetiredId(j.calls, key.0, t) ==> key in j'.chunks)
  }

  function KeysOf(callId: string, page: set<nat>): set<(string, nat)> {
    set k | k in page :: (callId, k)
  }

  lemma {:induction false} KeysOfSize(callId: string, page: set<nat>)
    ensures |KeysOf(callId, page)| == |page|
  {
    if page != {} {
      var x :| x in page;
      KeysOfSize(callId, page - {x});
      assert KeysOf(callId, page) == KeysOf(callId, page - {x}) + {(callId, x)};
      assert (callId, x) !in KeysOf(callId, page - {x});
    }
  }

  lemma DropChunksCounts(j: Journal, callId: string, page: set<nat>)
    requires page <= StoredFrom(j, callId, 0)
    ensures |DropChunks(j, callId, page).chunks| == |j.chunks| - |page|
  {
    var (before, after) := (j.chunks.Keys, DropChunks(j, callId, page).chunks.Keys);
    KeysOfSize(callId, page);
    forall key | key in KeysOf(callId, page)
      ensures key in before && key !in after
    {
      assert key.1 in page && key.1 in StoredFrom(j, callId, 0);
    }
    assert before == after + KeysOf(callId, page);
  }

  lemma DropChunksKeepsInv(j: Journal, callId: string, page: set<nat>, t: nat)
    requires Inv(j, t) && RetiredId(j.calls, callId, t)
    ensures Inv(DropChunks(j, callId, page), t)
  {
    hide Counted;
    var j' := DropChunks(j, callId, page);
    assert Counted(j', t) by {
      CountedFrame(j, j', t);
    }
    forall key | key in j'.chunks
      ensures Owned(j', key.0, key.1)
    {
      assert Owned(j, key.0, key.1);
    }
    forall i | 0 <= i < |j'.calls| && j'.calls[i].retireAt > t
      ensures Intact(j'.chunks, j'.calls[i])
    {
      assert Intact(j.chunks, j.calls[i]);
      SizeSumFrame(j.chunks, j'.chunks, j.calls[i].callId, ChunkCount(j.calls[i].state));
    }
  }

  lemma CountedFrame(j: Journal, j': Journal, t: nat)
    requires Counted(j, t) && j'.calls == j.calls && j'.budgets == j.budgets
    ensures Counted(j', t)
  {}

  lemma DropCallKeepsInv(j: Journal, callId: string, t: nat)
    requires Inv(j, t) && RetiredId(j.calls, callId, t)
    requires forall key :: key in j.chunks ==> key.0 != callId
    ensures Inv(DropCall(j, callId), t) && !HasCall(DropCall(j, callId).calls, callId)
    ensures Cleaned(j, DropCall(j, callId), t)
    ensures HasCall(j.calls, callId) ==> |DropCall(j, callId).calls| == |j.calls| - 1
    ensures DropCall(j, callId).chunks == j.chunks
  {
    FindCallFinds(j.calls, callId, 0);
    if FindCall(j.calls, callId, 0).Some? {
      var i := FindCall(j.calls, callId, 0).value;
      DropAtKeepsInv(j, i, t);
    }
  }

  function DropAt(j: Journal, i: nat): Journal
    requires i < |j.calls|
  {
    j.(calls := j.calls[..i] + j.calls[i + 1..])
  }

  lemma DropAtKeepsInv(j: Journal, i: nat, t: nat)
    requires Inv(j, t) && i < |j.calls| && j.calls[i].retireAt <= t
    requires forall key :: key in j.chunks ==> key.0 != j.calls[i].callId
    ensures Inv(DropAt(j, i), t) && Cleaned(j, DropAt(j, i), t) && !HasCall(DropAt(j, i).calls, j.calls[i].callId)
  {
    DropAtKeepsRows(j, i, t);
    DropAtLeavesNoOrphans(j, i);
    DropAtStaysCounted(j, i, t);
    DropAtIsCleaned(j, i, t);
    hide WellFormed, NoOrphans, ResultsIntact, Counted, Cleaned, HasCall;
  }

  /** The other rows move up at most. */
  lemma DropAtKeepsRows(j: Journal, i: nat, t: nat)
    requires WellFormed(j) && ResultsIntact(j, t) && i < |j.calls|
    ensures WellFormed(DropAt(j, i)) && ResultsIntact(DropAt(j, i), t) && !HasCall(DropAt(j, i).calls, j.calls[i].callId)
  {
    hide Intact;
    var j' := DropAt(j, i);
    forall k | 0 <= k < |j'.calls|
      ensures j'.calls[k] == j.calls[if k < i then k else k + 1]
    {}
  }

  lemma DropAtLeavesNoOrphans(j: Journal, i: nat)
    requires NoOrphans(j) && i < |j.calls| && forall key :: key in j.chunks ==> key.0 != j.calls[i].callId
    ensures NoOrphans(DropAt(j, i))
  {
    var j' := DropAt(j, i);
    forall key | key in j'.chunks
      ensures Owned(j', key.0, key.1)
    {
      assert Owned(j, key.0, key.1);
      var k :| 0 <= k < |j.calls| && j.calls[k].callId == key.0 && key.1 < ChunkCount(j.calls[k].state);
      assert j'.calls[if k < i then k else k - 1] == j.calls[k];
    }
  }

  lemma DropAtStaysCounted(j: Journal, i: nat, t: nat)
    requires Counted(j, t) && i < |j.calls| && j.calls[i].retireAt <= t
    ensures Counted(DropAt(j, i), t)
  {
    var j' := DropAt(j, i);
    forall r | LiveCount(j'.calls, r, t) > 0
      ensures r in j'.budgets && LiveCount(j'.calls, r, t) <= j'.budgets[r].calls && LiveBytes(j'.calls, r, t) <= j'.budgets[r].bytes
    {
      LiveSplit(j.calls, i, j.calls[i], r, t);
    }
    forall k | 0 <= k < |j'.calls| && j'.calls[k].retireAt > t
      ensures j'.calls[k].runId in j'.budgets && j'.calls[k].retireAt <= j'.budgets[j'.calls[k].runId].retireAt
    {
      assert j'.calls[k] == j.calls[if k < i then k else k + 1];
    }
  }

  lemma DropAtIsCleaned(j: Journal, i: nat, t: nat)
    requires i < |j.calls| && j.calls[i].retireAt <= t
    ensures Cleaned(j, DropAt(j, i), t)
  {
    var calls' := j.calls[..i] + j.calls[i + 1..];
    forall c | c in j.calls && c.retireAt > t
      ensures c in calls'
    {
      var k :| 0 <= k < |j.calls| && j.calls[k] == c;
      assert calls'[if k < i then k else k - 1] == c;
    }
  }

  /** One round of the loop: the page of chunks goes, and the call with it only when that was all of them. */
  lemma CleanOneKeepsInv(j: Journal, callId: string, budget: nat, t: nat)
    requires Inv(j, t) && RetiredId(j.calls, callId, t) && budget > 0
    ensures var c := CleanOne(j, callId, budget);
            && Inv(c.j, t) && Cleaned(j, c.j, t)
            && c.budget <= budget && |j.chunks| == |c.j.chunks| + budget - c.budget
            && (c.more ==> c.budget == 0)
            && (!c.more ==> !HasCall(c.j.calls, callId))
            && (HasCall(j.calls, callId) ==> |c.j.calls| + |c.j.chunks| < |j.calls| + |j.chunks|)
  {
    hide Inv, Page, DropCall;
    var stored := StoredFrom(j, callId, 0);
    var page := Page(stored, BY_INDEX, budget);
    PageSize(stored, BY_INDEX, budget);
    var j1 := DropChunks(j, callId, page);
    DropChunksCounts(j, callId, page);
    DropChunksKeepsInv(j, callId, page, t);
    if |page| < budget {
      forall key | key in j1.chunks
        ensures key.0 != callId
      {
        assert key.0 == callId ==> key.1 in stored;
      }
      DropCallKeepsInv(j1, callId, t);
      CleanedTransitive(j, j1, DropCall(j1, callId), t);
    }
  }

  lemma CleanedTransitive(a: Journal, b: Journal, c: Journal, t: nat)
    requires Cleaned(a, b, t) && Cleaned(b, c, t)
    ensures Cleaned(a, c, t)
  {
    forall key | key in a.chunks && !RetiredId(a.calls, key.0, t)
      ensures key in c.chunks
    {
      assert !RetiredId(b.calls, key.0, t) by {
        var i :| 0 <= i < |a.calls| && a.calls[i].callId == key.0 && a.calls[i].retireAt > t;
        assert a.calls[i] in a.calls;
        var k :| 0 <= k < |b.calls| && b.calls[k] == a.calls[i];
      }
    }
  }

  lemma CleanedKeepsRetired(a: Journal, b: Journal, callId: string, t: nat)
    requires Cleaned(a, b, t)
    ensures RetiredId(a.calls, callId, t) ==> RetiredId(b.calls, callId, t)
    ensures HasCall(b.calls, callId) ==> HasCall(a.calls, callId)
  {
    forall i | 0 <= i < |b.calls|
      ensures exists k :: 0 <= k < |a.calls| && a.calls[k] == b.calls[i]
    {
      assert b.calls[i] in a.calls;
    }
  }

  /** The loop over a page of retired calls. */
  lemma {:induction false} CleanCallsKeepsInv(j: Journal, callIds: seq<string>, budget: nat, remaining: bool, t: nat)
    requires Inv(j, t)
    requires forall k :: 0 <= k < |callIds| ==> RetiredId(j.calls, callIds[k], t)
    ensures var (j', rest) := CleanCalls(j, callIds, budget, remaining);
            && Inv(j', t) && Cleaned(j, j', t)
            && |j.chunks| <= |j'.chunks| + budget
            && (!rest ==> !remaining && forall k :: 0 <= k < |callIds| ==> !HasCall(j'.calls, callIds[k]))
            && (callIds == [] ==> rest == remaining)
            && (callIds != [] && budget > 0 && HasCall(j.calls, callIds[0]) ==> |j'.calls| + |j'.chunks| < |j.calls| + |j.chunks|)
    decreases |callIds|
  {
    hide Inv, Cleaned, HasCall, RetiredId, CleanOne;
    if callIds == [] || budget == 0 {
      CleanedItself(j, t);
    } else {
      CleanOneKeepsInv(j, callIds[0], budget, t);
      var c := CleanOne(j, callIds[0], budget);
      StillRetired(j, c.j, callIds, t);
      CleanCallsKeepsInv(c.j, callIds[1..], c.budget, remaining || c.more, t);
      var (j', rest) := CleanCalls(c.j, callIds[1..], c.budget, remaining || c.more);
      CleanedTransitive(j, c.j, j', t);
      CleanedSizes(c.j, j', t);
      if !rest {
        AllGone(c.j, j', callIds, t);
      }
    }
  }

  lemma CleanedItself(j: Journal, t: nat)
    ensures Cleaned(j, j, t)
  {}

  lemma StillRetired(j: Journal, j': Journal, callIds: seq<string>, t: nat)
    requires callIds != [] && Cleaned(j, j', t) && forall k :: 0 <= k < |callIds| ==> RetiredId(j.calls, callIds[k], t)
    ensures forall k :: 0 <= k < |callIds[1..]| ==> RetiredId(j'.calls, callIds[1..][k], t)
  {
    hide Cleaned, RetiredId;
    forall k | 0 <= k < |callIds[1..]|
      ensures RetiredId(j'.calls, callIds[1..][k], t)
    {
      assert callIds[1..][k] == callIds[k + 1];
      CleanedKeepsRetired(j, j', callIds[k + 1], t);
    }
  }

  /** The first call is gone already, and the others go. */
  lemma AllGone(j: Journal, j': Journal, callIds: seq<string>, t: nat)
    requires callIds != [] && Cleaned(j, j', t) && !HasCall(j.calls, callIds[0])
    requires forall k :: 0 <= k < |callIds[1..]| ==> !HasCall(j'.calls, callIds[1..][k])
    ensures forall k :: 0 <= k < |callIds| ==> !HasCall(j'.calls, callIds[k])
  {
    hide Cleaned, HasCall;
    forall k | 0 <= k < |callIds|
      ensures !HasCall(j'.calls, callIds[k])
    {
      CleanedKeepsRetired(j, j', callIds[k], t);
      if k > 0 {
        assert callIds[k] == callIds[1..][k - 1];
      }
    }
  }

  lemma CleanedSizes(j: Journal, j': Journal, t: nat)
    requires Cleaned(j, j', t)
    ensures |j'.calls| <= |j.calls| && |j'.chunks| <= |j.chunks| && j'.budgets == j.budgets
  {}

  // ----- the tick and the self-rescheduling chain ------------------------------------------------

  lemma RetiredPageShape(j: Journal, t: nat)
    requires WellFormed(j)
    ensures var ids := RetiredPage(j, t);
            && |ids| <= PAGE_CALLS
            && (forall k :: 0 <= k < |ids| ==> RetiredId(j.calls, ids[k], t) && HasCall(j.calls, ids[k]))
            && (|ids| < PAGE_CALLS ==> forall i :: 0 <= i < |j.calls| && j.calls[i].retireAt <= t ==> j.calls[i].callId in ids)
  {
    hide Page, InOrder;
    var retired := RetiredAt(j.calls, t);
    var page := Page(retired, RetireKey(j.calls), PAGE_CALLS);
    var order := InOrder(page, RetireKey(j.calls));
    var ids := RetiredPage(j, t);
    PageSize(retired, RetireKey(j.calls), PAGE_CALLS);
    InOrderMembers(page, RetireKey(j.calls));
    forall k | 0 <= k < |ids|
      ensures RetiredId(j.calls, ids[k], t) && HasCall(j.calls, ids[k])
    {
      assert order[k] in order;
    }
    if |ids| < PAGE_CALLS {
      forall i | 0 <= i < |j.calls| && j.calls[i].retireAt <= t
        ensures j.calls[i].callId in ids
      {
        assert i in order;
        var k :| 0 <= k < |order| && order[k] == i;
        assert ids[k] == j.calls[i].callId;
      }
    }
  }

  function Size(j: Journal): nat {
    |j.calls| + |j.chunks| + |j.budgets|
  }

  ghost predicate Drained(j: Journal, t: nat) {
    && (forall i :: 0 <= i < |j.calls| ==> j.calls[i].retireAt > t)
    && (forall r :: r in j.budgets ==> j.budgets[r].retireAt > t)
  }

  lemma DropBudgetsKeepsInv(j: Journal, page: set<string>, t: nat)
    requires Inv(j, t) && forall r :: r in page ==> r in j.budgets && j.budgets[r].retireAt <= t
    ensures Inv(j.(budgets := j.budgets - page), t) && |j.budgets - page| == |j.budgets| - |page|
  {
    var j' := j.(budgets := j.budgets - page);
    forall r | LiveCount(j'.calls, r, t) > 0
      ensures r !in page
    {
      LiveWitness(j.calls, r, t);
    }
    assert j.budgets.Keys == j'.budgets.Keys + page;
    forall key | key in j'.chunks
      ensures Owned(j', key.0, key.1)
    {
      assert Owned(j, key.0, key.1);
    }
  }

  lemma {:induction false} LiveWitness(calls: seq<Call>, runId: string, t: nat)
    requires LiveCount(calls, runId, t) > 0
    ensures exists i :: 0 <= i < |calls| && Live(calls[i], runId, t)
  {
    if Live(calls[0], runId, t) {
      assert Live(calls[0], runId, t);
    } else {
      LiveWitness(calls[1..], runId, t);
      var i :| 0 <= i < |calls[1..]| && Live(calls[1..][i], runId, t);
      assert Live(calls[i + 1], runId, t);
    }
  }

  /** What a tick keeps: live calls, their chunks and the budgets that count them. */
  ghost predicate KeepsLive(j: Journal, j': Journal, t: nat) {
    && j'.nextUid == j.nextUid
    && (forall c :: c in j'.calls ==> c in j.calls)
    && (forall c :: c in j.calls && c.retireAt > t ==> c in j'.calls)
    && (forall key :: key in j'.chunks ==> key in j.chunks && j'.chunks[key] == j.chunks[key])
    && (forall key :: key in j.chunks && !RetiredId(j.calls, key.0, t) ==> key in j'.chunks)
  }

  /** When the whole retirement index fits in one page and every listed call went, none is left. */
  lemma NothingRetiredLeft(j: Journal, j': Journal, ids: seq<string>, t: nat)
    requires forall i :: 0 <= i < |j.calls| && j.calls[i].retireAt <= t ==> j.calls[i].callId in ids
    requires forall k :: 0 <= k < |ids| ==> !HasCall(j'.calls, ids[k])
    requires Cleaned(j, j', t)
    ensures forall i :: 0 <= i < |j'.calls| ==> j'.calls[i].retireAt > t
  {
    forall i | 0 <= i < |j'.calls|
      ensures j'.calls[i].retireAt > t
    {
      assert j'.calls[i] in j.calls;
      assert HasCall(j'.calls, j'.calls[i].callId);
    }
  }

  /**
   One cleanup tick removes only retired rows and at most 64 chunks, leaves no orphaned chunk, and
   either everything retired is gone or it schedules another tick on a strictly smaller journal.
   */
  lemma TickKeepsInv(j: Journal, t: nat, budgets: set<string>)
    requires Inv(j, t) && BudgetPage(j, t, budgets)
    ensures var (j', again) := Cleanup(j, t, budgets);
            && Inv(j', t) && KeepsLive(j, j', t)
            && |j.chunks| <= |j'.chunks| + TICK_CHUNKS
            && (again ==> Size(j') < Size(j))
            && (!again ==> Drained(j', t))
  {
    hide Inv, CleanCalls, RetiredPage, HasCall, RetiredId, Cleaned, KeepsLive, Drained, WellFormed, NoOrphans;
    InvParts(j, t);
    RetiredPageShape(j, t);
    var ids := RetiredPage(j, t);
    CleanCallsKeepsInv(j, ids, TICK_CHUNKS, false, t);
    var (j1, remaining) := CleanCalls(j, ids, TICK_CHUNKS, false);
    CleanedSizes(j, j1, t);
    DropBudgetsKeepsInv(j1, budgets, t);
    CleanedKeepsLive(j, j1, budgets, t);
    if !Cleanup(j, t, budgets).1 {
      NothingRetiredLeft(j, j1, ids, t);
      BudgetsDrained(j1, budgets, t);
    }
  }

  lemma CleanedKeepsLive(j: Journal, j1: Journal, budgets: set<string>, t: nat)
    requires Cleaned(j, j1, t)
    ensures KeepsLive(j, j1.(budgets := j1.budgets - budgets), t)
  {}

  lemma BudgetsDrained(j: Journal, budgets: set<string>, t: nat)
    requires forall i :: 0 <= i < |j.calls| ==> j.calls[i].retireAt > t
    requires BudgetPage(j, t, budgets) && |budgets| < PAGE_CALLS
    ensures Drained(j.(budgets := j.budgets - budgets), t)
  {}

  lemma InvParts(j: Journal, t: nat)
    requires Inv(j, t)
    ensures WellFormed(j) && NoOrphans(j)
  {}

  ghost function PickBudgets(j: Journal, t: nat): (page: set<string>)
    ensures BudgetPage(j, t, page)
  {
    BudgetPageExists(j, t);
    var page :| BudgetPage(j, t, page);
    page
  }

  lemma BudgetPageExists(j: Journal, t: nat)
    ensures exists page :: BudgetPage(j, t, page)
  {
    var retired := set r | r in j.budgets && j.budgets[r].retireAt <= t;
    var page := SomeOf(retired, PAGE_CALLS);
    assert BudgetPage(j, t, page);
  }

  lemma {:induction false} SomeOf(s: set<string>, limit: nat) returns (page: set<string>)
    ensures page <= s && |page| <= limit && (|page| < limit ==> page == s)
  {
    page := {};
    while |page| < limit && page != s
      invariant page <= s && |page| <= limit
      decreases limit - |page|
    {
      var r :| r in s && r !in page;
      page := page + {r};
    }
  }

  /** The chain of ticks a first tick starts, with the clock fixed. */
  ghost function Chain(j: Journal, t: nat): Journal
    requires Inv(j, t)
    decreases Size(j)
  {
    var (j', again) := Cleanup(j, t, PickBudgets(j, t));
    TickKeepsInv(j, t, PickBudgets(j, t));
    if again then Chain(j', t) else j'
  }

  /** The chain ends with every retired call, chunk and budget gone and every live call and result as it was. */
  lemma {:induction false} ChainDrains(j: Journal, t: nat)
    requires Inv(j, t)
    ensures Inv(Chain(j, t), t) && Drained(Chain(j, t), t) && KeepsLive(j, Chain(j, t), t)
    decreases Size(j)
  {
    hide Cleanup, Inv;
    TickKeepsInv(j, t, PickBudgets(j, t));
    var (j', again) := Cleanup(j, t, PickBudgets(j, t));
    if again {
      ChainDrains(j', t);
      KeepsLiveTransitive(j, j', Chain(j, t), t);
    }
  }

  lemma KeepsLiveTransitive(a: Journal, b: Journal, c: Journal, t: nat)
    requires KeepsLive(a, b, t) && KeepsLive(b, c, t)
    ensures KeepsLive(a, c, t)
  {
    forall key | key in a.chunks && !RetiredId(a.calls, key.0, t)
      ensures key in c.chunks
    {
      assert !RetiredId(b.calls, key.0, t) by {
        var i :| 0 <= i < |a.calls| && a.calls[i].callId == key.0 && a.calls[i].retireAt > t;
        assert a.calls[i] in a.calls;
        var k :| 0 <= k < |b.calls| && b.calls[k] == a.calls[i];
      }
    }
  }
}
