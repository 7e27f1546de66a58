/**
 Who may move a call and when: exactly which requests the journal takes, and that every change of a call is
 made under a live authority of its own session, run and attempt, and by the execution that claimed it.
 */
module McpExecution {
  import opened Common
  import opened McpJournal
  import opened McpGuarantees
  import opened McpCleanup
  import opened McpRuns
  import opened McpRequests

  /** A live, unexpired authority of the call's own session, attempt and run, before the call expires. */
  predicate MayAct(c: Call, a: Authority, now: nat) {
    a.live && now < a.expiresAt && c.sessionId == a.sessionId && c.fence == a.fence && c.runId == a.runId && now < c.expiresAt
  }

  lemma Authorises(j: Journal, c: Call, a: Authority, now: nat)
    requires WellFormed(j) && c in j.calls
    ensures var r := AuthorizedCall(j, a, c.callId, now);
            (r.Done? <==> MayAct(c, a, now)) && (r.Done? ==> j.calls[r.value] == c)
  {
    FindCallFinds(j.calls, c.callId, 0);
    var i :| 0 <= i < |j.calls| && j.calls[i] == c;
    var f := FindCall(j.calls, c.callId, 0);
    assert f.Some? && j.calls[f.value] in j.calls;
    SameRow(j, c, j.calls[f.value]);
  }

  lemma NoCallNoAuthority(j: Journal, callId: string, a: Authority, now: nat)
    requires forall c :: c in j.calls ==> c.callId != callId
    ensures AuthorizedCall(j, a, callId, now).Refused?
  {
    FindCallFinds(j.calls, callId, 0);
  }

  /** A claim is won exactly for a waiting call, by a named execution, with the approval it needs; once it was won, everyone else is told no. */
  lemma ClaimsExactly(j: Journal, c: Call, a: Authority, executionId: string, approved: bool, now: nat)
    requires WellFormed(j) && c in j.calls
    ensures var r := Claim(j, a, c.callId, executionId, approved, now).1;
            && (r == Done(true) <==> MayAct(c, a, now) && c.state.Waiting? && 0 < |executionId| <= 200 && approved)
            && (r == Done(false) <==> MayAct(c, a, now) && !c.state.Waiting?)
  {
    Authorises(j, c, a, now);
    hide AuthorizedCall;
  }

  /** A chunk is taken exactly from the execution that holds the call, as the next one within the quota or as a repeat of a stored one. */
  lemma AppendsExactly(j: Journal, c: Call, a: Authority, executionId: string, index: int, data: seq<byte>, now: nat)
    requires WellFormed(j) && c in j.calls
    ensures AppendResult(j, a, c.callId, executionId, index, data, now).1.Done? <==>
              && MayAct(c, a, now) && c.state.Executing? && c.state.executionId == executionId
              && 0 < |data| <= 65536 && 0 <= index
              && (if index < c.state.chunks then (c.callId, index) in j.chunks && j.chunks[(c.callId, index)] == data
                  else index == c.state.chunks && c.runId in j.budgets && j.budgets[c.runId].bytes + |data| <= 67108864)
  {
    Authorises(j, c, a, now);
    hide AuthorizedCall;
  }

  /** A call is completed exactly by the execution that holds it, with the counts it has stored and a digest, or again with the same result. */
  lemma CompletesExactly(j: Journal, c: Call, a: Authority, executionId: string, chunks: nat, bytes: nat, sha256: string, now: nat)
    requires WellFormed(j) && c in j.calls
    ensures Complete(j, a, c.callId, executionId, chunks, bytes, sha256, now).1.Done? <==>
              && MayAct(c, a, now)
              && (c.state == Completed(chunks, bytes, sha256)
                  || (c.state.Executing? && c.state.executionId == executionId && c.state.chunks == chunks && c.state.bytes == bytes && IsSha256(sha256)))
  {
    Authorises(j, c, a, now);
    hide AuthorizedCall, IsSha256;
  }

  /** A result can be read exactly once it is complete, by whoever may act on the call. */
  lemma ReadsExactly(j: Journal, c: Call, a: Authority, start: int, now: nat)
    requires WellFormed(j) && c in j.calls
    ensures ReadResult(j, a, c.callId, start, now).Done? <==> MayAct(c, a, now) && c.state.Completed? && start >= 0
  {
    Authorises(j, c, a, now);
    hide AuthorizedCall, InOrder, Page;
  }

  /** A registration is answered exactly for a well-formed request: with its row, or with a new one if the identity is free and the run has quota left. */
  lemma RegistersExactly(j: Journal, a: Authority, q: Request, now: nat)
    requires WellFormed(j) && OneRowPerRequest(j)
    ensures Register(j, a, q, now).1.Done? <==>
              && a.live && now < a.expiresAt && WellSpoken(q)
              && ((exists c :: c in j.calls && c.sessionId == a.sessionId && c.rpc == q.rpc && Repeats(c, a, q, now))
                  || (&& (forall c :: c in j.calls ==> (c.sessionId != a.sessionId || c.rpc != q.rpc) && c.callId != q.callId)
                      && |q.arguments| <= 67108864
                      && (a.runId in j.budgets ==> j.budgets[a.runId].calls < 1000 && j.budgets[a.runId].bytes + |q.arguments| <= 67108864)))
  {
    hide FindRpc, FindCall;
    FindRpcFinds(j.calls, a.sessionId, q.rpc, 0);
    FindCallFinds(j.calls, q.callId, 0);
    var found := FindRpc(j.calls, a.sessionId, q.rpc, 0);
    if found.Some? {
      var row := j.calls[found.value];
      assert row in j.calls;
      forall c | c in j.calls && c.sessionId == a.sessionId && c.rpc == q.rpc
        ensures c == row
      {
        assert SameRequest(c, row);
        SameRow(j, c, row);
      }
    } else {
      assert forall c :: c in j.calls ==> c.sessionId != a.sessionId || c.rpc != q.rpc;
      assert FindCall(j.calls, q.callId, 0).None? <==> forall c :: c in j.calls ==> c.callId != q.callId by {
        var f := FindCall(j.calls, q.callId, 0);
        if f.Some? {
          assert j.calls[f.value] in j.calls;
        }
      }
    }
  }

  // ----- who moves a call ----------------------------------------------------------------------------------

  /** The one step that can have moved a call from `c.state` to `s`. */
  predicate MovedBy(c: Call, s: CallState, a: Action, now: nat) {
    match s
    case Waiting => false
    case Executing(executionId, deadlineAt, chunks, bytes) =>
      if c.state.Waiting? then
        && a.DoClaim? && a.claimId == c.callId && MayAct(c, a.ca, now) && a.approved && a.claimant == executionId
        && deadlineAt == Min(now + 240000, a.ca.expiresAt) && chunks == 0 && bytes == 0
      else
        && a.DoAppend? && a.callId == c.callId && MayAct(c, a.aa, now) && c.state.Executing?
        && a.executionId == c.state.executionId == executionId && a.index == c.state.chunks
        && deadlineAt == c.state.deadlineAt && chunks == c.state.chunks + 1 && bytes == c.state.bytes + |a.data|
    case Completed(chunks, bytes, sha256) =>
      && a.DoComplete? && a.finishedId == c.callId && MayAct(c, a.fa, now) && c.state.Executing? && a.finisher == c.state.executionId
      && chunks == c.state.chunks && bytes == c.state.bytes && sha256 == a.sha256 && IsSha256(sha256)
  }

  lemma SetRow(j: Journal, i: nat, s: CallState, c: Call, c': Call)
    requires WellFormed(j) && i < |j.calls| && c in j.calls && c' in SetState(j, i, s).calls && c'.uid == c.uid
    ensures c' == if c == j.calls[i] then c.(state := s) else c
  {
    var k :| 0 <= k < |j.calls| && SetState(j, i, s).calls[k] == c';
    assert j.calls[k] in j.calls && j.calls[i] in j.calls;
    SameRow(j, c, j.calls[k]);
  }

  lemma ClaimMoves(s: Timed, a: Action, c: Call, c': Call)
    requires WellFormed(s.j) && a.DoClaim? && c in s.j.calls && c' in Step(s, a).j.calls && c'.uid == c.uid
    ensures c' == c || (c' == c.(state := c'.state) && MovedBy(c, c'.state, a, s.now))
  {
    var r := AuthorizedCall(s.j, a.ca, a.claimId, s.now);
    if r.Done? && s.j.calls[r.value].state.Waiting? && Step(s, a).j != s.j {
      SetRow(s.j, r.value, Executing(a.claimant, Min(s.now + 240000, a.ca.expiresAt), 0, 0), c, c');
    } else {
      SameRow(s.j, c, c');
    }
  }

  lemma AppendMovesOne(s: Timed, a: Action, c: Call, c': Call)
    requires WellFormed(s.j) && a.DoAppend? && c in s.j.calls && c' in Step(s, a).j.calls && c'.uid == c.uid
    ensures c' == c || (c' == c.(state := c'.state) && MovedBy(c, c'.state, a, s.now))
  {
    var r := AuthorizedCall(s.j, a.aa, a.callId, s.now);
    if Step(s, a).j != s.j {
      var st := s.j.calls[r.value].state;
      var next := Executing(a.executionId, st.deadlineAt, st.chunks + 1, st.bytes + |a.data|);
      assert Step(s, a).j.calls == SetState(s.j, r.value, next).calls;
      SetRow(s.j, r.value, next, c, c');
    } else {
      SameRow(s.j, c, c');
    }
  }

  lemma CompleteMoves(s: Timed, a: Action, c: Call, c': Call)
    requires WellFormed(s.j) && a.DoComplete? && c in s.j.calls && c' in Step(s, a).j.calls && c'.uid == c.uid
    ensures c' == c || (c' == c.(state := c'.state) && MovedBy(c, c'.state, a, s.now))
  {
    hide IsSha256;
    var r := AuthorizedCall(s.j, a.fa, a.finishedId, s.now);
    if Step(s, a).j != s.j {
      SetRow(s.j, r.value, Completed(a.chunks, a.bytes, a.sha256), c, c');
    } else {
      SameRow(s.j, c, c');
    }
  }

  /**
   A call moves only so: a claim with the approval starts it, the execution that holds it appends the next
   chunk or completes it, each under a live authority of its own session, attempt and run before the call
   expires; no other step, no other caller and no cleanup changes a row that stays.
   */
  lemma CallMovesOnlySo(s: Timed, a: Action, c: Call, c': Call)
    requires Inv(s.j, s.now) && c in s.j.calls && c' in Step(s, a).j.calls && c'.uid == c.uid
    ensures c' == c || (c' == c.(state := c'.state) && MovedBy(c, c'.state, a, s.now))
  {
    InvParts(s.j, s.now);
    if a.DoClaim? {
      ClaimMoves(s, a, c, c');
    } else if a.DoAppend? {
      AppendMovesOne(s, a, c, c');
    } else if a.DoComplete? {
      CompleteMoves(s, a, c, c');
    } else if a.DoRegister? {
      hide Inv;
      RegisterLeavesRows(s.j, a.ra, a.q, s.now, c, c');
    } else {
      hide Inv, Cleanup, BudgetPage;
      if a.DoCleanup? && BudgetPage(s.j, s.now, a.budgets) {
        TickKeepsInv(s.j, s.now, a.budgets);
      }
      SameRow(s.j, c, c');
    }
  }

  lemma RegisterLeavesRows(j: Journal, a: Authority, q: Request, now: nat, c: Call, c': Call)
    requires WellFormed(j) && c in j.calls && c' in Register(j, a, q, now).0.calls && c'.uid == c.uid
    ensures c' == c
  {
    hide FindRpc, FindCall;
    assert c.uid < j.nextUid;
    assert c' in j.calls;
    SameRow(j, c, c');
  }
}
