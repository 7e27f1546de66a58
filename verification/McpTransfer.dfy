/**
 A tool result goes out in 64 KiB chunks and comes back in pages of eight
 (src/server/agents/McpCallJournal.ts): the bytes that come back are the bytes that went in.
 */
module McpTransfer {
  import opened Common
  import opened McpJournal
  import opened McpGuarantees
  import opened McpCleanup
  import opened McpRuns

  /** The chunks a result is saved in. */
  function Split(bytes: seq<byte>): seq<seq<byte>>
    decreases |bytes|
  {
    if bytes == [] then []
    else if |bytes| <= MAX_CHUNK_BYTES then [bytes]
    else [bytes[..MAX_CHUNK_BYTES]] + Split(bytes[MAX_CHUNK_BYTES..])
  }

  function Flatten(chunks: seq<seq<byte>>): seq<byte> {
    if chunks == [] then [] else chunks[0] + Flatten(chunks[1..])
  }

  /** Saving never offers an empty or oversized chunk, and the chunks are the bytes. */
  lemma {:induction false} SplitIsTheBytes(bytes: seq<byte>)
    ensures Flatten(Split(bytes)) == bytes
    ensures forall k :: 0 <= k < |Split(bytes)| ==> 0 < |Split(bytes)[k]| <= MAX_CHUNK_BYTES
    decreases |bytes|
  {
    if bytes != [] {
      if |bytes| <= MAX_CHUNK_BYTES {
        assert Flatten([bytes]) == bytes + Flatten([bytes][1..]);
      } else {
        SplitIsTheBytes(bytes[MAX_CHUNK_BYTES..]);
        assert Split(bytes)[1..] == Split(bytes[MAX_CHUNK_BYTES..]);
        assert bytes == bytes[..MAX_CHUNK_BYTES] + bytes[MAX_CHUNK_BYTES..];
      }
    }
  }

  /** The reading loop: page after page from `start`, refusing an empty or misnumbered page. */
  ghost function Fetch(j: Journal, a: Authority, callId: string, total: nat, start: nat, now: nat): Outcome<seq<seq<byte>>>
    decreases total - start
  {
    if start >= total then Done([])
    else
      match ReadResult(j, a, callId, start, now)
      case Refused(e) => Refused(e)
      case Done(page) =>
        if page == [] || exists k :: 0 <= k < |page| && (page[k] != start + k || (callId, page[k]) !in j.chunks) then Refused(ResultIncomplete)
        else
          match Fetch(j, a, callId, total, start + |page|, now)
          case Refused(e) => Refused(e)
          case Done(rest) => Done(seq(|page|, k requires 0 <= k < |page| => j.chunks[(callId, page[k])]) + rest)
  }

  predicate AtLeast(lo: nat, k: nat) {
    lo <= k
  }

  function Interval(lo: nat, hi: nat): set<nat> {
    set k: nat | k < hi && AtLeast(lo, k)
  }

  lemma {:induction false} IntervalSize(lo: nat, hi: nat)
    ensures |Interval(lo, hi)| == if lo <= hi then hi - lo else 0
    decreases hi
  {
    if hi > 0 && lo < hi {
      IntervalSize(lo, hi - 1);
      assert Interval(lo, hi) == Interval(lo, hi - 1) + {hi - 1};
    } else {
      assert Interval(lo, hi) == {};
    }
  }

  lemma IntervalPage(lo: nat, hi: nat, limit: nat)
    ensures Page(Interval(lo, hi), BY_INDEX, limit) == Interval(lo, Min(hi, lo + limit))
  {
    forall k | k in Interval(lo, hi)
      ensures |Below(Interval(lo, hi), BY_INDEX, k)| == k - lo
    {
      IntervalSize(lo, k);
      assert Below(Interval(lo, hi), BY_INDEX, k) == Interval(lo, k);
    }
    forall k | k in Interval(lo, hi)
      ensures k in Page(Interval(lo, hi), BY_INDEX, limit) <==> k in Interval(lo, Min(hi, lo + limit))
    {}
  }

  lemma {:induction false} IntervalInOrder(lo: nat, hi: nat)
    requires lo <= hi
    ensures InOrder(Interval(lo, hi), BY_INDEX) == seq(hi - lo, k => lo + k)
    decreases hi - lo
  {
    if lo == hi {
      assert Interval(lo, hi) == {};
    } else {
      assert lo in Interval(lo, hi);
      assert First(Interval(lo, hi), BY_INDEX) == lo;
      assert Interval(lo, hi) - {lo} == Interval(lo + 1, hi);
      IntervalInOrder(lo + 1, hi);
    }
  }

  /** Every page of a finished result holds the next eight indices, or all that are left. */
  lemma PageIsTheNextIndices(j: Journal, a: Authority, callId: string, start: nat, now: nat)
    requires Inv(j, now) && AuthorizedCall(j, a, callId, now).Done?
    requires var c := j.calls[AuthorizedCall(j, a, callId, now).value]; c.state.Completed? && start < c.state.chunks
    ensures var c := j.calls[AuthorizedCall(j, a, callId, now).value];
            && ReadResult(j, a, callId, start, now) == Done(seq(Min(READ_CHUNKS, c.state.chunks - start), k => start + k))
            && forall k :: start <= k < c.state.chunks ==> (callId, k) in j.chunks
  {
    hide AuthorizedCall, Counted, Bounded, Page, InOrder;
    var c := j.calls[AuthorizedCall(j, a, callId, now).value];
    var n := c.state.chunks;
    assert Intact(j.chunks, c);
    assert StoredFrom(j, callId, start) == Interval(start, n) by {
      forall k | k in StoredFrom(j, callId, start)
        ensures k in Interval(start, n)
      {
        assert Owned(j, callId, k);
      }
      forall k | k in Interval(start, n)
        ensures k in StoredFrom(j, callId, start)
      {
        assert (callId, k) in j.chunks && (callId, k).0 == callId;
      }
    }
    IntervalPage(start, n, READ_CHUNKS);
    IntervalInOrder(start, Min(n, start + READ_CHUNKS));
  }

  /** Paging from any start returns the rest of the result, with no refusal. */
  lemma {:induction false} FetchReturnsTheRest(j: Journal, a: Authority, callId: string, start: nat, now: nat)
    requires Inv(j, now) && AuthorizedCall(j, a, callId, now).Done?
    requires var c := j.calls[AuthorizedCall(j, a, callId, now).value]; c.state.Completed? && start <= c.state.chunks
    ensures var c := j.calls[AuthorizedCall(j, a, callId, now).value];
            Fetch(j, a, callId, c.state.chunks, start, now) == Done(Result(j, c)[start..])
    decreases j.calls[AuthorizedCall(j, a, callId, now).value].state.chunks - start
  {
    hide Inv, ReadResult, AuthorizedCall;
    var c := j.calls[AuthorizedCall(j, a, callId, now).value];
    if start < c.state.chunks {
      PageIsTheNextIndices(j, a, callId, start, now);
      var page := ReadResult(j, a, callId, start, now).value;
      FetchReturnsTheRest(j, a, callId, start + |page|, now);
      assert seq(|page|, k requires 0 <= k < |page| => j.chunks[(callId, page[k])]) + Result(j, c)[start + |page|..] == Result(j, c)[start..];
    } else {
      assert Result(j, c)[start..] == [];
    }
  }

  lemma {:induction false} FlattenSize(j: Journal, c: Call, n: nat)
    requires n <= ChunkCount(c.state)
    ensures |Flatten(Result(j, c)[..n])| == SizeSum(j.chunks, c.callId, n)
  {
    if n > 0 {
      FlattenSize(j, c, n - 1);
      assert Result(j, c)[..n] == Result(j, c)[..n - 1] + [Result(j, c)[n - 1]];
      FlattenSnoc(Result(j, c)[..n - 1], Result(j, c)[n - 1]);
    }
  }

  lemma {:induction false} FlattenSnoc(chunks: seq<seq<byte>>, last: seq<byte>)
    ensures Flatten(chunks + [last]) == Flatten(chunks) + last
  {
    if chunks == [] {
      assert Flatten([last]) == last + Flatten([last][1..]);
    } else {
      assert (chunks + [last])[1..] == chunks[1..] + [last];
      FlattenSnoc(chunks[1..], last);
    }
  }

  // ----- saving -----------------------------------------------------------------------------------------

  /** The mutations with which a client saves a result. */
  function SaveCalls(a: Authority, callId: string, executionId: string, bytes: seq<byte>, sha256: string): seq<Action> {
    var chunks := Split(bytes);
    seq(|chunks|, k requires 0 <= k < |chunks| => DoAppend(a, callId, executionId, k, chunks[k]))
    + [DoComplete(a, callId, executionId, |chunks|, |bytes|, sha256)]
  }

  /** The saving loop, 64 KiB at a time. */
  method SaveResult(a: Authority, callId: string, executionId: string, bytes: seq<byte>, sha256: string) returns (calls: seq<Action>)
    ensures calls == SaveCalls(a, callId, executionId, bytes, sha256)
  {
    var chunks, start := 0, 0;
    calls := [];
    assert bytes[0..] == bytes;
    while start < |bytes|
      invariant 0 <= start <= |bytes| && chunks == |calls| <= |Split(bytes)|
      invariant Split(bytes[start..]) == Split(bytes)[chunks..]
      invariant forall k :: 0 <= k < chunks ==> calls[k] == DoAppend(a, callId, executionId, k, Split(bytes)[k])
    {
      var end := Min(start + MAX_CHUNK_BYTES, |bytes|);
      assert bytes[start..][..end - start] == bytes[start..end] && bytes[start..][end - start..] == bytes[end..];
      assert Split(bytes[start..])[0] == bytes[start..end];
      assert Split(bytes[end..]) == Split(bytes[start..])[1..];
      calls := calls + [DoAppend(a, callId, executionId, chunks, bytes[start..end])];
      chunks, start := chunks + 1, end;
    }
    calls := calls + [DoComplete(a, callId, executionId, chunks, |bytes|, sha256)];
  }

  /** An action that writes a result of this call, if it does, is one of those with which these bytes are saved. */
  predicate Saves(act: Action, callId: string, bytes: seq<byte>) {
    && (act.DoAppend? && act.callId == callId ==> 0 <= act.index < |Split(bytes)| && act.data == Split(bytes)[act.index])
    && (act.DoComplete? && act.finishedId == callId ==> act.chunks == |Split(bytes)|)
  }

  /** What is stored for the call is a first part of what is being saved, and all of it once complete. */
  ghost predicate Pieces(s: Timed, callId: string, bytes: seq<byte>) {
    forall c :: c in s.j.calls && c.callId == callId && c.retireAt > s.now ==>
      Result(s.j, c) <= Split(bytes) && (c.state.Completed? ==> Result(s.j, c) == Split(bytes))
  }

  /** A call becomes complete only through a completion that names its number of chunks. */
  lemma CompletedBy(s: Timed, act: Action, c: Call, c': Call)
    requires Inv(s.j, s.now) && c in s.j.calls && !c.state.Completed?
    requires c' in Step(s, act).j.calls && c' == c.(state := c'.state) && c'.state.Completed?
    ensures act.DoComplete? && act.finishedId == c.callId && act.chunks == ChunkCount(c.state)
  {
    hide Inv, AuthorizedCall, Register, Claim, AppendResult, Complete, Cleanup, BudgetPage;
    InvParts(s.j, s.now);
    match act
    case Wait(_) => SameRow(s.j, c, c');
    case DoRegister(auth, q) => SameRowOfRegister(s.j, auth, q, s.now, c, c');
    case DoClaim(auth, callId, executionId, approved) =>
      ClaimCompletesNone(s.j, auth, callId, executionId, approved, s.now);
      NotCompletedHere(s.j, Step(s, act).j, c, c');
    case DoAppend(auth, callId, executionId, index, data) =>
      AppendShape(s.j, auth, callId, executionId, index, data, s.now);
      NotCompletedHere(s.j, Step(s, act).j, c, c');
    case DoComplete(auth, callId, executionId, chunks, bytes, sha) =>
      CompletesOne(s.j, auth, callId, executionId, chunks, bytes, sha, s.now, c, c');
    case DoCleanup(budgets) =>
      if BudgetPage(s.j, s.now, budgets) {
        TickKeepsInv(s.j, s.now, budgets);
      }
      SameRow(s.j, c, c');
  }

  lemma ClaimCompletesNone(j: Journal, a: Authority, callId: string, executionId: string, approved: bool, t: nat)
    ensures var j' := Claim(j, a, callId, executionId, approved, t).0;
            |j'.calls| == |j.calls| && forall i :: 0 <= i < |j.calls| ==> j'.calls[i] == j.calls[i] || !j'.calls[i].state.Completed?
  {
    hide FindCall, Authorized;
  }

  lemma CompletesOne(j: Journal, a: Authority, callId: string, executionId: string, chunks: nat, bytes: nat, sha: string, t: nat, c: Call, c': Call)
    requires WellFormed(j) && c in j.calls && !c.state.Completed?
    requires c' in Complete(j, a, callId, executionId, chunks, bytes, sha, t).0.calls && c' == c.(state := c'.state) && c'.state.Completed?
    ensures callId == c.callId && chunks == ChunkCount(c.state)
  {
    hide FindCall, Authorized, IsSha256;
    CompletesFound(j, Complete(j, a, callId, executionId, chunks, bytes, sha, t).0, AuthorizedCall(j, a, callId, t), c, c');
  }

  lemma NotCompletedHere(j: Journal, j': Journal, c: Call, c': Call)
    requires WellFormed(j) && c in j.calls && c' in j'.calls && c' == c.(state := c'.state) && !c.state.Completed?
    requires |j'.calls| == |j.calls| && forall i :: 0 <= i < |j.calls| ==> j'.calls[i] == j.calls[i] || !j'.calls[i].state.Completed?
    ensures !c'.state.Completed?
  {
    var k :| 0 <= k < |j'.calls| && j'.calls[k] == c';
    assert j.calls[k] in j.calls;
    if j'.calls[k] == j.calls[k] {
      SameRow(j, c, j.calls[k]);
    }
  }

  lemma CompletesFound(j: Journal, j': Journal, found: Outcome<nat>, c: Call, c': Call)
    requires WellFormed(j) && c in j.calls && c' in j'.calls && c' == c.(state := c'.state) && !c.state.Completed? && c'.state.Completed?
    requires |j'.calls| == |j.calls| && forall i :: 0 <= i < |j.calls| ==> j'.calls[i] == j.calls[i].(state := j'.calls[i].state)
    requires forall i :: 0 <= i < |j.calls| && found != Done(i) ==> j'.calls[i] == j.calls[i]
    ensures found.Done? && found.value < |j.calls| && j.calls[found.value] == c
  {
    var k :| 0 <= k < |j'.calls| && j'.calls[k] == c';
    assert j.calls[k] in j.calls;
    SameRow(j, c, j.calls[k]);
  }

  /** What a step adds to a row is the next piece. */
  lemma AddsNextPiece(s: Timed, act: Action, callId: string, bytes: seq<byte>, c: Call)
    requires Inv(s.j, s.now) && Saves(act, callId, bytes) && c in s.j.calls && c.callId == callId
    requires Result(s.j, c) <= Split(bytes)
    ensures Result(s.j, c) + AppendedBy(s, act, c.uid) <= Split(bytes)
  {
    hide AppendResult, AuthorizedCall, Split;
    InvParts(s.j, s.now);
    if AppendedBy(s, act, c.uid) != [] {
      var i := AuthorizedCall(s.j, act.aa, act.callId, s.now).value;
      assert s.j.calls[i] in s.j.calls;
      SameRow(s.j, c, s.j.calls[i]);
      assert act.callId == callId && act.index == |Result(s.j, c)|;
    }
  }

  lemma StepKeepsPieces(s: Timed, act: Action, callId: string, bytes: seq<byte>)
    requires Inv(s.j, s.now) && Pieces(s, callId, bytes) && Saves(act, callId, bytes)
    ensures Pieces(Step(s, act), callId, bytes)
  {
    hide Inv, Step, AppendedBy, Split, Result;
    StepMoves(s, act);
    StepIsLater(s, act);
    var s' := Step(s, act);
    forall c' | c' in s'.j.calls && c'.callId == callId && c'.retireAt > s'.now
      ensures Result(s'.j, c') <= Split(bytes) && (c'.state.Completed? ==> Result(s'.j, c') == Split(bytes))
    {
      if c'.uid == s.j.nextUid && c'.state.Waiting? {
        WaitingHasNoResult(s'.j, c');
      } else {
        var c :| c in s.j.calls && c' == c.(state := c'.state) && Forward(c.state, c'.state);
        StepExtendsResult(s, act, c, c');
        if c.state.Completed? {
          assert Result(s'.j, c') == Result(s.j, c) + [];
        } else {
          AddsNextPiece(s, act, callId, bytes, c);
          if c'.state.Completed? {
            CompletedBy(s, act, c, c');
            OnlyAppendsAdd(s, act, c, c', bytes);
          }
        }
      }
    }
  }

  lemma StepIsLater(s: Timed, act: Action)
    ensures Step(s, act).now >= s.now
  {}

  lemma OnlyAppendsAdd(s: Timed, act: Action, c: Call, c': Call, bytes: seq<byte>)
    requires act.DoComplete? && act.chunks == ChunkCount(c.state) && act.chunks == |Split(bytes)|
    requires Result(Step(s, act).j, c') == Result(s.j, c) + AppendedBy(s, act, c.uid) && Result(Step(s, act).j, c') <= Split(bytes)
    ensures Result(Step(s, act).j, c') == Split(bytes)
  {
    hide Step, Split;
    assert |Result(s.j, c)| == |Split(bytes)|;
  }

  /** Every write of a result for this call in the run is one with which these bytes are saved. */
  predicate AllSave(actions: seq<Action>, callId: string, bytes: seq<byte>) {
    forall k :: 0 <= k < |actions| ==> Saves(actions[k], callId, bytes)
  }

  lemma {:induction false} RunKeepsPieces(s: Timed, actions: seq<Action>, callId: string, bytes: seq<byte>)
    requires Inv(s.j, s.now) && Pieces(s, callId, bytes) && AllSave(actions, callId, bytes)
    ensures Pieces(Run(s, actions), callId, bytes)
    decreases |actions|
  {
    hide Inv, Step, Pieces, Saves;
    if actions != [] {
      StepKeepsInv(s, actions[0]);
      StepKeepsPieces(s, actions[0], callId, bytes);
      RunKeepsPieces(Step(s, actions[0]), actions[1..], callId, bytes);
    }
  }

  lemma CompleteIsSplit(actions: seq<Action>, c: Call, bytes: seq<byte>)
    requires AllSave(actions, c.callId, bytes)
    requires c in Run(EMPTY, actions).j.calls && c.retireAt > Run(EMPTY, actions).now && c.state.Completed?
    ensures Result(Run(EMPTY, actions).j, c) == Split(bytes)
  {
    hide Run, Result, Split, AllSave;
    assert Pieces(EMPTY, c.callId, bytes);
    RunKeepsPieces(EMPTY, actions, c.callId, bytes);
  }

  /**
   End to end: whenever a call is complete after a run in which its executor saved some bytes, with any of
   the saving loop's mutations lost, repeated, delayed or reordered, and other calls and cleanups in
   between, reading it returns exactly those bytes, and the recorded byte count is their number.
   */
  lemma SavedResultComesBack(actions: seq<Action>, a: Authority, callId: string, bytes: seq<byte>)
    requires AllSave(actions, callId, bytes)
    requires AuthorizedCall(Run(EMPTY, actions).j, a, callId, Run(EMPTY, actions).now).Done?
    requires var s := Run(EMPTY, actions); s.j.calls[AuthorizedCall(s.j, a, callId, s.now).value].state.Completed?
    ensures var s := Run(EMPTY, actions);
            var c := s.j.calls[AuthorizedCall(s.j, a, callId, s.now).value];
            && Fetch(s.j, a, callId, c.state.chunks, 0, s.now) == Done(Split(bytes))
            && Flatten(Split(bytes)) == bytes
            && c.state.bytes == |bytes|
  {
    hide Run, AuthorizedCall, AllSave, Split, Fetch;
    var s := Run(EMPTY, actions);
    var c := s.j.calls[AuthorizedCall(s.j, a, callId, s.now).value];
    RunKeepsInv(EMPTY, actions);
    assert c in s.j.calls && c.retireAt > s.now;
    CompleteIsSplit(actions, c, bytes);
    FetchReturnsTheRest(s.j, a, callId, 0, s.now);
    SplitIsTheBytes(bytes);
    assert Result(s.j, c)[0..] == Result(s.j, c) && Result(s.j, c)[..|Result(s.j, c)|] == Result(s.j, c);
    FlattenSize(s.j, c, ChunkCount(c.state));
    assert Intact(s.j.chunks, c);
  }

  /** The action writes no result of this call. */
  predicate Elsewhere(act: Action, callId: string) {
    !(act.DoAppend? && act.callId == callId) && !(act.DoComplete? && act.finishedId == callId)
  }

  /** Any run of the saving loop's calls, each any number of times and in any order, among other actions. */
  ghost predicate MadeOf(actions: seq<Action>, calls: seq<Action>, callId: string) {
    forall k :: 0 <= k < |actions| ==> actions[k] in calls || Elsewhere(actions[k], callId)
  }

  lemma SaveCallsSave(actions: seq<Action>, a: Authority, callId: string, executionId: string, bytes: seq<byte>, sha256: string)
    requires MadeOf(actions, SaveCalls(a, callId, executionId, bytes, sha256), callId)
    ensures AllSave(actions, callId, bytes)
  {
    var calls := SaveCalls(a, callId, executionId, bytes, sha256);
    forall k | 0 <= k < |actions|
      ensures Saves(actions[k], callId, bytes)
    {
      if actions[k] in calls {
        var i :| 0 <= i < |calls| && calls[i] == actions[k];
      }
    }
  }

  /** So whatever becomes of the calls that `SaveResult` returns, a call that is complete reads back as the bytes it was given. */
  lemma LoopComesBack(actions: seq<Action>, a: Authority, reader: Authority, callId: string, executionId: string, bytes: seq<byte>, sha256: string)
    requires MadeOf(actions, SaveCalls(a, callId, executionId, bytes, sha256), callId)
    requires AuthorizedCall(Run(EMPTY, actions).j, reader, callId, Run(EMPTY, actions).now).Done?
    requires var s := Run(EMPTY, actions); s.j.calls[AuthorizedCall(s.j, reader, callId, s.now).value].state.Completed?
    ensures var s := Run(EMPTY, actions);
            var c := s.j.calls[AuthorizedCall(s.j, reader, callId, s.now).value];
            exists chunks :: Fetch(s.j, reader, callId, c.state.chunks, 0, s.now) == Done(chunks) && Flatten(chunks) == bytes
  {
    hide Run, Fetch, AuthorizedCall, MadeOf, AllSave;
    SaveCallsSave(actions, a, callId, executionId, bytes, sha256);
    SavedResultComesBack(actions, reader, callId, bytes);
  }
}
