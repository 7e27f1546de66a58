/**
 One JSON-RPC request of a session is one call: whatever is registered again, it names a single row, and
 that row is executed at most once.
 */
module McpRequests {
  import opened Common
  import opened McpJournal
  import opened McpGuarantees
  import opened McpCleanup
  import opened McpRuns

  predicate SameRequest(c: Call, d: Call) {
    c.sessionId == d.sessionId && c.rpc == d.rpc
  }

  ghost predicate OneRowPerRequest(j: Journal) {
    forall c, d :: c in j.calls && d in j.calls && SameRequest(c, d) ==> c.uid == d.uid
  }

  /** Only a registration hands out a row identity. */
  lemma OthersAddNoRow(s: Timed, a: Action)
    requires Inv(s.j, s.now) && !a.DoRegister?
    ensures Step(s, a).j.nextUid == s.j.nextUid
  {
    hide Inv, AuthorizedCall, Cleanup, BudgetPage, AppendResult;
    if a.DoAppend? {
      AppendShape(s.j, a.aa, a.callId, a.executionId, a.index, a.data, s.now);
    } else if a.DoCleanup? && BudgetPage(s.j, s.now, a.budgets) {
      TickKeepsInv(s.j, s.now, a.budgets);
    }
  }

  /** A registration that adds a row found none of its request. */
  lemma RegisterAddsNewRequest(j: Journal, a: Authority, q: Request, now: nat, c': Call)
    requires WellFormed(j) && c' in Register(j, a, q, now).0.calls && c'.uid == j.nextUid
    ensures forall d :: d in j.calls ==> !SameRequest(c', d)
  {
    hide FindCall, FindRpc;
    FindRpcFinds(j.calls, a.sessionId, q.rpc, 0);
    assert c' !in j.calls;
  }

  lemma StepRegisters(s: Timed, a: Action)
    requires a.DoRegister?
    ensures Step(s, a) == Timed(Register(s.j, a.ra, a.q, s.now).0, s.now)
  {}

  lemma StepAddsNewRequests(s: Timed, a: Action)
    requires Inv(s.j, s.now)
    ensures forall c' :: c' in Step(s, a).j.calls && c'.uid == s.j.nextUid ==> forall d :: d in s.j.calls ==> !SameRequest(c', d)
  {
    hide Inv, Step, Register, SameRequest;
    StepKeepsInv(s, a);
    InvParts(s.j, s.now);
    InvParts(Step(s, a).j, Step(s, a).now);
    if a.DoRegister? {
      forall c' | c' in Step(s, a).j.calls && c'.uid == s.j.nextUid
        ensures forall d :: d in s.j.calls ==> !SameRequest(c', d)
      {
        StepRegisters(s, a);
        RegisterAddsNewRequest(s.j, a.ra, a.q, s.now, c');
      }
    } else {
      OthersAddNoRow(s, a);
    }
  }

  lemma MovesKeepRequests(j: Journal, j': Journal)
    requires OneRowPerRequest(j) && Moves(j, j')
    requires forall c' :: c' in j'.calls && c'.uid == j.nextUid ==> forall d :: d in j.calls ==> !SameRequest(c', d)
    ensures OneRowPerRequest(j')
  {
    hide Forward;
    forall c', d' | c' in j'.calls && d' in j'.calls && SameRequest(c', d')
      ensures c'.uid == d'.uid
    {
      if c'.uid != j.nextUid && d'.uid != j.nextUid {
        var c :| c in j.calls && c' == c.(state := c'.state);
        var d :| d in j.calls && d' == d.(state := d'.state);
        assert SameRequest(c, d);
      }
    }
  }

  lemma StepKeepsRequests(s: Timed, a: Action)
    requires Inv(s.j, s.now) && OneRowPerRequest(s.j)
    ensures OneRowPerRequest(Step(s, a).j)
  {
    hide Inv, Step, OneRowPerRequest, SameRequest, Moves;
    StepMoves(s, a);
    StepAddsNewRequests(s, a);
    MovesKeepRequests(s.j, Step(s, a).j);
  }

  lemma {:induction false} RunKeepsRequests(s: Timed, actions: seq<Action>)
    requires Inv(s.j, s.now) && OneRowPerRequest(s.j)
    ensures OneRowPerRequest(Run(s, actions).j)
    decreases |actions|
  {
    hide Inv, Step, OneRowPerRequest;
    if actions != [] {
      StepKeepsInv(s, actions[0]);
      StepKeepsRequests(s, actions[0]);
      RunKeepsRequests(Step(s, actions[0]), actions[1..]);
    }
  }

  /** In every run no two calls of the journal answer the same request of the same session. */
  lemma RequestsAreUnique(actions: seq<Action>, a: nat, b: nat)
    requires a < b < |Run(EMPTY, actions).j.calls|
    ensures !SameRequest(Run(EMPTY, actions).j.calls[a], Run(EMPTY, actions).j.calls[b])
  {
    assert Inv(EMPTY.j, EMPTY.now);
    hide Step, Inv;
    RunKeepsInv(EMPTY, actions);
    RunKeepsRequests(EMPTY, actions);
    var j := Run(EMPTY, actions).j;
    InvParts(j, Run(EMPTY, actions).now);
    assert j.calls[a] in j.calls && j.calls[b] in j.calls && j.calls[a].uid != j.calls[b].uid;
  }

  // ----- a registered row ---------------------------------------------------------------------------

  /** The row as a later journal has it: only its state may have moved. */
  predicate LaterOf(c: Call, c': Call) {
    c' == c.(state := c'.state)
  }

  /** A row that is not yet past its retirement stays through a step. */
  lemma StepKeepsLiveRow(s: Timed, a: Action, c: Call)
    requires Inv(s.j, s.now) && c in s.j.calls && s.now < c.retireAt
    ensures exists c' :: c' in Step(s, a).j.calls && LaterOf(c, c')
  {
    hide Inv, FindCall, FindRpc, Cleanup, BudgetPage, AppendResult, AuthorizedCall;
    if a.DoCleanup? {
      if BudgetPage(s.j, s.now, a.budgets) {
        TickKeepsInv(s.j, s.now, a.budgets);
      }
      assert LaterOf(c, c);
    } else {
      var i :| 0 <= i < |s.j.calls| && s.j.calls[i] == c;
      if a.DoAppend? {
        AppendShape(s.j, a.aa, a.callId, a.executionId, a.index, a.data, s.now);
      }
      assert LaterOf(c, Step(s, a).j.calls[i]);
    }
  }

  lemma {:induction false} RunKeepsLiveRow(s: Timed, actions: seq<Action>, c: Call) returns (c': Call)
    requires Inv(s.j, s.now) && c in s.j.calls && Run(s, actions).now < c.retireAt
    ensures c' in Run(s, actions).j.calls && LaterOf(c, c')
    decreases |actions|
  {
    hide Inv, Step;
    if actions == [] {
      c' := c;
    } else {
      var s1 := Step(s, actions[0]);
      RunMovesOn(s, actions);
      StepKeepsInv(s, actions[0]);
      StepKeepsLiveRow(s, actions[0], c);
      var c1 :| c1 in s1.j.calls && LaterOf(c, c1);
      c' := RunKeepsLiveRow(s1, actions[1..], c1);
    }
  }

  predicate WellSpoken(q: Request) {
    && q.parses && |q.arguments| <= MAX_INPUT_BYTES
    && 0 < |q.rpc.0| <= 200 && 0 < |q.rpc.1| <= 200 && 0 < |q.callId| <= 200 && 0 < |q.toolName| <= 200
  }

  /** The same request of the same run and attempt, with the same tool and arguments, before the call expires. */
  predicate Repeats(c: Call, a: Authority, q: Request, now: nat) {
    c.fence == a.fence && c.runId == a.runId && now < c.expiresAt && c.toolName == q.toolName && c.arguments == q.arguments
  }

  lemma RetryFindsRow(j: Journal, c: Call, a: Authority, q: Request, now: nat)
    requires WellFormed(j) && OneRowPerRequest(j) && c in j.calls
    requires a.live && now < a.expiresAt && WellSpoken(q) && a.sessionId == c.sessionId && q.rpc == c.rpc
    ensures Register(j, a, q, now) == (j, if Repeats(c, a, q, now) then Done(c) else Refused(IdReused))
  {
    hide FindRpc, FindCall;
    FindRpcFinds(j.calls, a.sessionId, q.rpc, 0);
    var i := FindRpc(j.calls, a.sessionId, q.rpc, 0);
    assert i.Some? && j.calls[i.value] in j.calls;
    assert SameRequest(c, j.calls[i.value]);
    SameRow(j, c, j.calls[i.value]);
  }

  lemma RegisteredIsThere(j: Journal, a: Authority, q: Request, now: nat)
    requires Register(j, a, q, now).1.Done?
    ensures var (j', r) := Register(j, a, q, now);
            r.value in j'.calls && r.value.sessionId == a.sessionId && r.value.rpc == q.rpc
            && Repeats(r.value, a, q, now)
  {
    hide FindCall, FindRpc;
    FindRpcFinds(j.calls, a.sessionId, q.rpc, 0);
  }

  /**
   Registration is idempotent over any run. Once it returned a call, and until 24 hours after the call
   expired, registering that request again changes nothing: it returns the same row when run, attempt,
   tool and arguments agree and the call has not expired, and refuses the identity as reused otherwise.
   */
  lemma RetryNamesTheSameRow(s: Timed, a: Authority, q: Request, actions: seq<Action>, a': Authority, q': Request) returns (c': Call)
    requires Inv(s.j, s.now) && OneRowPerRequest(s.j)
    requires Register(s.j, a, q, s.now).1.Done?
    requires var c, t := Register(s.j, a, q, s.now).1.value, Run(s, [DoRegister(a, q)] + actions);
             t.now < c.retireAt && a'.live && t.now < a'.expiresAt
    requires WellSpoken(q') && a'.sessionId == a.sessionId && q'.rpc == q.rpc
    ensures var c, t := Register(s.j, a, q, s.now).1.value, Run(s, [DoRegister(a, q)] + actions);
            && c' in t.j.calls && LaterOf(c, c')
            && Register(t.j, a', q', t.now) == (t.j, if Repeats(c, a', q', t.now) then Done(c') else Refused(IdReused))
  {
    hide Inv, Register, OneRowPerRequest, Repeats;
    var all := [DoRegister(a, q)] + actions;
    var c, s1 := Register(s.j, a, q, s.now).1.value, Step(s, DoRegister(a, q));
    assert all[1..] == actions;
    assert Run(s, all) == Run(s1, actions);
    StepKeepsInv(s, all[0]);
    StepKeepsRequests(s, all[0]);
    RegisteredIsThere(s.j, a, q, s.now);
    RunKeepsInv(s1, actions);
    RunKeepsRequests(s1, actions);
    c' := RunKeepsLiveRow(s1, actions, c);
    var t := Run(s1, actions);
    InvParts(t.j, t.now);
    RetryFindsRow(t.j, c', a', q', t.now);
    assert Repeats(c', a', q', t.now) == Repeats(c, a', q', t.now) by { SameRepeats(c, c', a', q', t.now); }
  }

  lemma SameRepeats(c: Call, c': Call, a: Authority, q: Request, now: nat)
    requires LaterOf(c, c')
    ensures Repeats(c', a, q, now) == Repeats(c, a, q, now)
  {}

  // ----- one execution per request --------------------------------------------------------------------

  /** The step lets its caller execute a call of this request. */
  ghost predicate ClaimsRequest(s: Timed, a: Action, sessionId: string, rpc: (string, string)) {
    && a.DoClaim? && Claim(s.j, a.ca, a.claimId, a.claimant, a.approved, s.now).1 == Done(true)
    && AuthorizedCall(s.j, a.ca, a.claimId, s.now).Done?
    && var c := s.j.calls[AuthorizedCall(s.j, a.ca, a.claimId, s.now).value];
       c.sessionId == sessionId && c.rpc == rpc
  }

  ghost function RequestClaims(s: Timed, actions: seq<Action>, sessionId: string, rpc: (string, string)): nat
    decreases |actions|
  {
    if actions == [] then 0
    else (if ClaimsRequest(s, actions[0], sessionId, rpc) then 1 else 0) + RequestClaims(Step(s, actions[0]), actions[1..], sessionId, rpc)
  }

  lemma ClaimOfRequest(s: Timed, a: Action, c: Call)
    requires WellFormed(s.j) && OneRowPerRequest(s.j) && c in s.j.calls && ClaimsRequest(s, a, c.sessionId, c.rpc)
    ensures ClaimedBy(s, a, c.uid)
  {
    hide AuthorizedCall, Claim;
    var d := s.j.calls[AuthorizedCall(s.j, a.ca, a.claimId, s.now).value];
    assert d in s.j.calls && SameRequest(c, d);
  }

  lemma {:induction false} RequestClaimsAreRowClaims(s: Timed, actions: seq<Action>, c: Call)
    requires Inv(s.j, s.now) && OneRowPerRequest(s.j) && c in s.j.calls && Run(s, actions).now < c.retireAt
    ensures RequestClaims(s, actions, c.sessionId, c.rpc) <= ClaimsWon(s, actions, c.uid)
    decreases |actions|
  {
    hide Inv, Step, OneRowPerRequest, ClaimsRequest, ClaimedBy;
    if actions != [] {
      var s1 := Step(s, actions[0]);
      InvParts(s.j, s.now);
      if ClaimsRequest(s, actions[0], c.sessionId, c.rpc) {
        ClaimOfRequest(s, actions[0], c);
      }
      RunMovesOn(s, actions);
      StepKeepsInv(s, actions[0]);
      StepKeepsRequests(s, actions[0]);
      StepKeepsLiveRow(s, actions[0], c);
      var c1 :| c1 in s1.j.calls && LaterOf(c, c1);
      RequestClaimsAreRowClaims(s1, actions[1..], c1);
    }
  }

  /**
   One request, one execution: from the moment a call is registered until 24 hours after it expired, over
   any run with any retries and any callers, at most one claim is won for its JSON-RPC request.
   */
  lemma RequestExecutesOnce(s: Timed, actions: seq<Action>, c: Call)
    requires Inv(s.j, s.now) && OneRowPerRequest(s.j) && c in s.j.calls && Run(s, actions).now < c.retireAt
    ensures RequestClaims(s, actions, c.sessionId, c.rpc) <= if c.state.Waiting? then 1 else 0
  {
    hide Inv, Step, OneRowPerRequest;
    RequestClaimsAreRowClaims(s, actions, c);
    ClaimedAtMostOnce(s, actions, c.uid);
    InvParts(s.j, s.now);
    if Claimable(s.j, c.uid) {
      var d :| d in s.j.calls && d.uid == c.uid && d.state.Waiting?;
      SameRow(s.j, c, d);
    }
  }
}
