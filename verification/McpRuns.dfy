/** Whole runs of the MCP call journal under a clock that never goes back. */
module McpRuns {
  import opened Common
  import opened McpJournal
  import opened McpGuarantees
  import opened McpCleanup

  datatype Timed = Timed(j: Journal, now: nat)

  datatype Action =
    | Wait(ms: nat)
    | DoRegister(ra: Authority, q: Request)
    | DoClaim(ca: Authority, claimId: string, claimant: string, approved: bool)
    | DoAppend(aa: Authority, callId: string, executionId: string, index: int, data: seq<byte>)
    | DoComplete(fa: Authority, finishedId: string, finisher: string, chunks: nat, bytes: nat, sha256: string)
    | DoCleanup(budgets: set<string>)

  ghost function Step(s: Timed, a: Action): Timed {
    match a
    case Wait(ms) => Timed(s.j, s.now + ms)
    case DoRegister(auth, q) => Timed(Register(s.j, auth, q, s.now).0, s.now)
    case DoClaim(auth, callId, executionId, approved) => Timed(Claim(s.j, auth, callId, executionId, approved, s.now).0, s.now)
    case DoAppend(auth, callId, executionId, index, data) => Timed(AppendResult(s.j, auth, callId, executionId, index, data, s.now).0, s.now)
    case DoComplete(auth, callId, executionId, chunks, bytes, sha) =>
      Timed(Complete(s.j, auth, callId, executionId, chunks, bytes, sha, s.now).0, s.now)
    case DoCleanup(budgets) => if BudgetPage(s.j, s.now, budgets) then Timed(Cleanup(s.j, s.now, budgets).0, s.now) else s
  }

  ghost function Run(s: Timed, actions: seq<Action>): Timed
    decreases |actions|
  {
    if actions == [] then s else Run(Step(s, actions[0]), actions[1..])
  }

  const EMPTY: Timed := Timed(Journal([], map[], map[], 0), 0)

  lemma StepKeepsInv(s: Timed, a: Action)
    requires Inv(s.j, s.now)
    ensures Inv(Step(s, a).j, Step(s, a).now)
  {
    hide Inv, Register, Claim, AppendResult, Complete, Cleanup, BudgetPage;
    match a
    case Wait(ms) => TimeKeepsInv(s.j, s.now, s.now + ms);
    case DoRegister(auth, q) => RegisterKeepsInv(s.j, auth, q, s.now);
    case DoClaim(auth, callId, executionId, approved) => ClaimKeepsInv(s.j, auth, callId, executionId, approved, s.now);
    case DoAppend(auth, callId, executionId, index, data) => AppendKeepsInv(s.j, auth, callId, executionId, index, data, s.now);
    case DoComplete(auth, callId, executionId, chunks, bytes, sha) =>
      CompleteKeepsInv(s.j, auth, callId, executionId, chunks, bytes, sha, s.now);
    case DoCleanup(budgets) =>
      if BudgetPage(s.j, s.now, budgets) {
        TickKeepsInv(s.j, s.now, budgets);
      }
  }

  lemma {:induction false} RunKeepsInv(s: Timed, actions: seq<Action>)
    requires Inv(s.j, s.now)
    ensures Inv(Run(s, actions).j, Run(s, actions).now)
    decreases |actions|
  {
    if actions != [] {
      StepKeepsInv(s, actions[0]);
      RunKeepsInv(Step(s, actions[0]), actions[1..]);
    }
  }

  /**
   The quota survives cleanup: in every run, at every time, the calls of a run not yet past their
   retirement number at most 1000 and hold at most 64 MiB, and every stored chunk has its call.
   */
  lemma QuotaInEveryRun(actions: seq<Action>, runId: string)
    ensures var s := Run(EMPTY, actions);
            && LiveCount(s.j.calls, runId, s.now) <= MAX_RUN_CALLS
            && LiveBytes(s.j.calls, runId, s.now) <= MAX_RUN_BYTES
            && NoOrphans(s.j)
  {
    RunKeepsInv(EMPTY, actions);
    InvGivesQuota(Run(EMPTY, actions).j, runId, Run(EMPTY, actions).now);
  }

  // ----- how one step moves one call -----------------------------------------------------------

  /** The chunks of a call in order. */
  ghost function Result(j: Journal, c: Call): seq<seq<byte>> {
    seq(ChunkCount(c.state), k => if k >= 0 && (c.callId, k) in j.chunks then j.chunks[(c.callId, k)] else [])
  }

  /** The chunk a step newly appends to the call with this row identity. */
  ghost function AppendedBy(s: Timed, a: Action, uid: nat): seq<seq<byte>> {
    if a.DoAppend? && AppendResult(s.j, a.aa, a.callId, a.executionId, a.index, a.data, s.now).1.Done?
       && AuthorizedCall(s.j, a.aa, a.callId, s.now).Done?
       && s.j.calls[AuthorizedCall(s.j, a.aa, a.callId, s.now).value].uid == uid
       && a.index == ChunkCount(s.j.calls[AuthorizedCall(s.j, a.aa, a.callId, s.now).value].state)
    then [a.data] else []
  }

  ghost predicate ClaimedBy(s: Timed, a: Action, uid: nat) {
    && a.DoClaim? && Claim(s.j, a.ca, a.claimId, a.claimant, a.approved, s.now).1 == Done(true)
    && AuthorizedCall(s.j, a.ca, a.claimId, s.now).Done?
    && s.j.calls[AuthorizedCall(s.j, a.ca, a.claimId, s.now).value].uid == uid
  }

  /** A state only moves forward: waiting, executing, completed. */
  predicate Forward(s: CallState, s': CallState) {
    || s' == s
    || (s.Waiting? && s'.Executing?)
    || (s.Executing? && !s'.Waiting?)
  }

  /** How the journal's calls may change in one step. */
  ghost predicate Moves(j: Journal, j': Journal) {
    && j.nextUid <= j'.nextUid
    && forall c' :: c' in j'.calls ==>
         || (c'.uid == j.nextUid && c'.state.Waiting? && j'.nextUid == j.nextUid + 1)
         || exists c :: c in j.calls && c' == c.(state := c'.state) && Forward(c.state, c'.state)
  }

  lemma SetStateMoves(j: Journal, i: nat, s: CallState)
    requires i < |j.calls| && Forward(j.calls[i].state, s)
    ensures Moves(j, SetState(j, i, s))
  {
    var j' := SetState(j, i, s);
    forall c' | c' in j'.calls
      ensures exists c :: c in j.calls && c' == c.(state := c'.state) && Forward(c.state, c'.state)
    {
      var k :| 0 <= k < |j'.calls| && j'.calls[k] == c';
      assert j.calls[k] in j.calls;
    }
  }

  lemma StepMoves(s: Timed, a: Action)
    requires Inv(s.j, s.now)
    ensures Moves(s.j, Step(s, a).j)
  {
    hide Inv, FindCall, FindRpc, Cleanup, BudgetPage;
    match a
    case Wait(ms) =>
    case DoRegister(auth, q) =>
    case DoClaim(auth, callId, executionId, approved) =>
      var c := AuthorizedCall(s.j, auth, callId, s.now);
      if c.Done? && s.j.calls[c.value].state.Waiting? {
        SetStateMoves(s.j, c.value, Executing(executionId, Min(s.now + 240000, auth.expiresAt), 0, 0));
      }
    case DoAppend(auth, callId, executionId, index, data) =>
      AppendShape(s.j, auth, callId, executionId, index, data, s.now);
      AppendMoves(s.j, auth, callId, executionId, index, data, s.now);
    case DoComplete(auth, callId, executionId, chunks, bytes, sha) =>
      var c := AuthorizedCall(s.j, auth, callId, s.now);
      if c.Done? && s.j.calls[c.value].state.Executing? {
        SetStateMoves(s.j, c.value, Completed(chunks, bytes, sha));
      }
    case DoCleanup(budgets) =>
      if BudgetPage(s.j, s.now, budgets) {
        TickKeepsInv(s.j, s.now, budgets);
      }
  }

  lemma AppendMoves(j: Journal, a: Authority, callId: string, executionId: string, index: int, data: seq<byte>, t: nat)
    ensures Moves(j, AppendResult(j, a, callId, executionId, index, data, t).0)
  {
    hide AppendResult, AuthorizedCall;
    AppendShape(j, a, callId, executionId, index, data, t);
    var j' := AppendResult(j, a, callId, executionId, index, data, t).0;
    if j' != j {
      var i := AuthorizedCall(j, a, callId, t).value;
      SetStateMoves(j, i, j'.calls[i].state);
    }
  }

  // ----- a call is claimed at most once ----------------------------------------------------------

  ghost predicate Claimable(j: Journal, uid: nat) {
    uid >= j.nextUid || exists c :: c in j.calls && c.uid == uid && c.state.Waiting?
  }

  ghost function ClaimsWon(s: Timed, actions: seq<Action>, uid: nat): nat
    decreases |actions|
  {
    if actions == [] then 0
    else (if ClaimedBy(s, actions[0], uid) then 1 else 0) + ClaimsWon(Step(s, actions[0]), actions[1..], uid)
  }

  lemma ClaimEndsClaimability(s: Timed, a: Action, uid: nat)
    requires Inv(s.j, s.now)
    ensures Claimable(Step(s, a).j, uid) ==> Claimable(s.j, uid)
    ensures ClaimedBy(s, a, uid) ==> Claimable(s.j, uid) && !Claimable(Step(s, a).j, uid)
  {
    StepMoves(s, a);
    if ClaimedBy(s, a, uid) {
      hide FindCall, NoOrphans, ResultsIntact, Counted;
      var i := AuthorizedCall(s.j, a.ca, a.claimId, s.now).value;
      assert s.j.calls[i] in s.j.calls;
    }
  }

  /** Over any run, any interleaving and any retries, one registered call is claimed at most once. */
  lemma {:induction false} ClaimedAtMostOnce(s: Timed, actions: seq<Action>, uid: nat)
    requires Inv(s.j, s.now)
    ensures ClaimsWon(s, actions, uid) <= if Claimable(s.j, uid) then 1 else 0
    decreases |actions|
  {
    if actions != [] {
      ClaimEndsClaimability(s, actions[0], uid);
      StepKeepsInv(s, actions[0]);
      ClaimedAtMostOnce(Step(s, actions[0]), actions[1..], uid);
    }
  }

  // ----- round trip -------------------------------------------------------------------------------

  /** Everything newly appended to a call over a run, in order. */
  ghost function Appended(s: Timed, actions: seq<Action>, uid: nat): seq<seq<byte>>
    decreases |actions|
  {
    if actions == [] then [] else AppendedBy(s, actions[0], uid) + Appended(Step(s, actions[0]), actions[1..], uid)
  }

  lemma SameRow(j: Journal, c: Call, c': Call)
    requires WellFormed(j) && c in j.calls && c' in j.calls && (c.uid == c'.uid || c.callId == c'.callId)
    ensures c == c'
  {}

  lemma AppendExtendsResult(j: Journal, a: Authority, callId: string, executionId: string, index: int, data: seq<byte>, t: nat, c: Call, c': Call)
    requires WellFormed(j) && c in j.calls
    requires c' in AppendResult(j, a, callId, executionId, index, data, t).0.calls && c' == c.(state := c'.state)
    ensures var (s, act) := (Timed(j, t), DoAppend(a, callId, executionId, index, data));
            Result(Step(s, act).j, c') == Result(j, c) + AppendedBy(s, act, c.uid)
            && (c.state.Completed? ==> c' == c && AppendedBy(s, act, c.uid) == [])
  {
    hide AppendResult, AuthorizedCall;
    AppendShape(j, a, callId, executionId, index, data, t);
    var (j', r) := AppendResult(j, a, callId, executionId, index, data, t);
    if r.Done? && index == j.calls[AuthorizedCall(j, a, callId, t).value].state.chunks {
      var i := AuthorizedCall(j, a, callId, t).value;
      assert j.calls[i] in j.calls && j'.calls[i] in j'.calls;
      var k :| 0 <= k < |j'.calls| && j'.calls[k] == c';
      assert j.calls[k] in j.calls;
      if c.uid == j.calls[i].uid {
        SameRow(j, c, j.calls[i]);
        assert Result(j', c') == Result(j, c) + [data];
      } else {
        SameRow(j, c, j.calls[k]);
        assert Result(j', c') == Result(j, c);
      }
    } else {
      SameRow(j, c, c');
    }
  }

  lemma LiveResultKept(j: Journal, j': Journal, t: nat, c: Call)
    requires KeepsLive(j, j', t) && c in j.calls && c.retireAt > t
    ensures Result(j', c) == Result(j, c)
  {
    assert !RetiredId(j.calls, c.callId, t);
    forall k | 0 <= k < ChunkCount(c.state)
      ensures Result(j', c)[k] == Result(j, c)[k]
    {
      assert (c.callId, k) in j.chunks <==> (c.callId, k) in j'.chunks;
    }
  }

  lemma CleanupKeepsResult(j: Journal, t: nat, budgets: set<string>, c: Call)
    requires Inv(j, t) && BudgetPage(j, t, budgets) && c in j.calls && c.retireAt > t
    ensures Result(Cleanup(j, t, budgets).0, c) == Result(j, c)
  {
    hide Cleanup, Inv, BudgetPage, Drained;
    TickKeepsInv(j, t, budgets);
    LiveResultKept(j, Cleanup(j, t, budgets).0, t, c);
  }

  /** One step extends the result of a live call by exactly what it appended, and never touches a finished one. */
  lemma StepExtendsResult(s: Timed, a: Action, c: Call, c': Call)
    requires Inv(s.j, s.now) && c in s.j.calls
    requires c' in Step(s, a).j.calls && c' == c.(state := c'.state) && c'.retireAt > Step(s, a).now
    ensures Result(Step(s, a).j, c') == Result(s.j, c) + AppendedBy(s, a, c.uid)
    ensures c.state.Completed? ==> c' == c && AppendedBy(s, a, c.uid) == []
  {
    hide Inv, FindCall, FindRpc, Cleanup, BudgetPage, AppendResult;
    var s' := Step(s, a);
    InvParts(s.j, s.now);
    match a
    case Wait(ms) =>
      SameRow(s.j, c, c');
    case DoRegister(auth, q) =>
      SameRowOfRegister(s.j, auth, q, s.now, c, c');
    case DoClaim(auth, callId, executionId, approved) =>
      SameResultWithoutChunks(s.j, s'.j, AuthorizedCall(s.j, auth, callId, s.now), c, c');
    case DoAppend(auth, callId, executionId, index, data) =>
      AppendExtendsResult(s.j, auth, callId, executionId, index, data, s.now, c, c');
    case DoComplete(auth, callId, executionId, chunks, bytes, sha) =>
      SameResultWithoutChunks(s.j, s'.j, AuthorizedCall(s.j, auth, callId, s.now), c, c');
    case DoCleanup(budgets) =>
      if BudgetPage(s.j, s.now, budgets) {
        TickKeepsInv(s.j, s.now, budgets);
        SameRow(s.j, c, c');
        CleanupKeepsResult(s.j, s.now, budgets, c);
      } else {
        SameRow(s.j, c, c');
      }
  }

  lemma SameRowOfRegister(j: Journal, a: Authority, q: Request, t: nat, c: Call, c': Call)
    requires WellFormed(j) && c in j.calls
    requires c' in Register(j, a, q, t).0.calls && c' == c.(state := c'.state)
    ensures c' == c && Register(j, a, q, t).0.chunks == j.chunks
  {
    hide FindCall, FindRpc;
    assert c.uid < j.nextUid;
    assert c' in j.calls;
  }

  /** Claiming or completing the call found moves only its state, and not its chunk count. */
  lemma SameResultWithoutChunks(j: Journal, j': Journal, found: Outcome<nat>, c: Call, c': Call)
    requires WellFormed(j) && c in j.calls && c' in j'.calls && c' == c.(state := c'.state)
    requires j' == j || (found.Done? && found.value < |j.calls| && j'.chunks == j.chunks
                         && exists st :: j' == SetState(j, found.value, st) && ChunkCount(st) == ChunkCount(j.calls[found.value].state)
                                         && !j.calls[found.value].state.Completed?)
    ensures Result(j', c') == Result(j, c) && (c.state.Completed? ==> c' == c)
  {
    if j' == j {
      SameRow(j, c, c');
    } else {
      var k :| 0 <= k < |j'.calls| && j'.calls[k] == c';
      assert j.calls[k] in j.calls;
      SameRow(j, c, j.calls[k]);
    }
  }

  /** The two ways a row of a later journal can have come about. */
  ghost predicate Grown(s: Timed, c': Call, result: seq<seq<byte>>, appended: seq<seq<byte>>) {
    || (c'.uid >= s.j.nextUid && result == appended)
    || exists c :: c in s.j.calls && c' == c.(state := c'.state) && result == Result(s.j, c) + appended
                   && (c.state.Completed? ==> c' == c && appended == [])
  }

  /** No step makes the clock go back or the row counter fall. */
  lemma {:induction false} RunMovesOn(s: Timed, actions: seq<Action>)
    requires Inv(s.j, s.now)
    ensures s.now <= Run(s, actions).now && s.j.nextUid <= Run(s, actions).j.nextUid
    decreases |actions|
  {
    if actions != [] {
      StepKeepsInv(s, actions[0]);
      StepMoves(s, actions[0]);
      RunMovesOn(Step(s, actions[0]), actions[1..]);
    }
  }

  /** A first step composes with the rest of a run. */
  lemma GrownComposes(s: Timed, a: Action, c': Call, result: seq<seq<byte>>, appended: seq<seq<byte>>)
    requires Inv(s.j, s.now) && c'.retireAt > Step(s, a).now && Grown(Step(s, a), c', result, appended)
    ensures Grown(s, c', result, AppendedBy(s, a, c'.uid) + appended)
  {
    hide Inv, Step, AppendedBy, Result, Moves;
    var s1 := Step(s, a);
    if c'.uid >= s1.j.nextUid && result == appended {
      RowsOnlyGrow(s, a);
      NewRowsStartEmpty(s, a, c'.uid);
      assert [] + appended == appended;
    } else {
      var c1 :| c1 in s1.j.calls && c' == c1.(state := c'.state) && result == Result(s1.j, c1) + appended
                && (c1.state.Completed? ==> c' == c1 && appended == []);
      RowComposes(s, a, c1, c', result, appended);
    }
  }

  lemma RowsOnlyGrow(s: Timed, a: Action)
    requires Inv(s.j, s.now)
    ensures s.j.nextUid <= Step(s, a).j.nextUid
  {
    hide Inv, Step;
    StepMoves(s, a);
  }

  lemma RowComposes(s: Timed, a: Action, c1: Call, c': Call, result: seq<seq<byte>>, appended: seq<seq<byte>>)
    requires Inv(s.j, s.now) && c1 in Step(s, a).j.calls && c' == c1.(state := c'.state) && c'.retireAt > Step(s, a).now
    requires result == Result(Step(s, a).j, c1) + appended && (c1.state.Completed? ==> c' == c1 && appended == [])
    ensures Grown(s, c', result, AppendedBy(s, a, c'.uid) + appended)
  {
    hide Inv, Step, AppendedBy, Result;
    StepMoves(s, a);
    if c1.uid == s.j.nextUid && c1.state.Waiting? {
      NewRowsStartEmpty(s, a, c'.uid);
      WaitingHasNoResult(Step(s, a).j, c1);
      assert [] + appended == appended;
    } else {
      var c :| c in s.j.calls && c1 == c.(state := c1.state) && Forward(c.state, c1.state);
      StepExtendsResult(s, a, c, c1);
      assert result == Result(s.j, c) + (AppendedBy(s, a, c.uid) + appended);
      assert c' == c.(state := c'.state);
    }
  }

  lemma WaitingHasNoResult(j: Journal, c: Call)
    requires c.state.Waiting?
    ensures Result(j, c) == []
  {}

  lemma NewRowsStartEmpty(s: Timed, a: Action, uid: nat)
    requires Inv(s.j, s.now) && uid >= s.j.nextUid
    ensures AppendedBy(s, a, uid) == []
  {
    hide AppendResult, AuthorizedCall;
    InvParts(s.j, s.now);
  }

  /**
   Round trip over any run: the stored result of a call that is not yet retired is what it was plus
   exactly the chunks newly appended since, in order; retries add nothing, and a finished result never changes.
   */
  lemma {:induction false} ResultIsWhatWasAppended(s: Timed, actions: seq<Action>, c': Call)
    requires Inv(s.j, s.now)
    requires c' in Run(s, actions).j.calls && c'.retireAt > Run(s, actions).now
    ensures Grown(s, c', Result(Run(s, actions).j, c'), Appended(s, actions, c'.uid))
    decreases |actions|
  {
    if actions == [] {
      assert c' == c'.(state := c'.state) && Result(s.j, c') == Result(s.j, c') + [];
    } else {
      hide Inv, Step, Result;
      var s1 := Step(s, actions[0]);
      StepKeepsInv(s, actions[0]);
      RunMovesOn(s1, actions[1..]);
      ResultIsWhatWasAppended(s1, actions[1..], c');
      GrownComposes(s, actions[0], c', Result(Run(s, actions).j, c'), Appended(s1, actions[1..], c'.uid));
    }
  }

  /** From an empty journal, a stored result is exactly the sequence of accepted new chunks. */
  lemma StoredResultIsAppendedSequence(actions: seq<Action>, c: Call)
    requires c in Run(EMPTY, actions).j.calls && c.retireAt > Run(EMPTY, actions).now
    ensures Result(Run(EMPTY, actions).j, c) == Appended(EMPTY, actions, c.uid)
  {
    ResultIsWhatWasAppended(EMPTY, actions, c);
  }
}
