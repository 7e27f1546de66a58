/**
 How commands end: what a host's verdict does to its command and to the run, what stopping an environment
 and finishing a run resolve, and why an id always means one command.
 */
module CommandOutcomes {
  import opened Common
  import opened CommandQueue
  import opened CommandStream
  import opened CommandEffects

  // ----- verdicts ----------------------------------------------------------------------------------------

  /** The command a verdict names: the first row with its id. */
  predicate Names(rows: seq<Command>, id: CommandId, i: nat) {
    i < |rows| && rows[i].id == id && forall j :: 0 <= j < i ==> rows[j].id != id
  }

  lemma FindNames(rows: seq<Command>, id: CommandId, i: nat)
    requires Names(rows, id, i)
    ensures Find(rows, id, 0) == Some(i)
  {
    FindFinds(rows, id, 0);
  }

  /** A verdict on an unknown command is refused and changes nothing. */
  lemma UnknownIsRefused(w: World, id: CommandId, verdict: Verdict, now: nat, reduce: Reducer)
    requires !HasId(w.rows, id)
    ensures Acknowledge(w, id, verdict, now, reduce) == (w, false)
  {
    FindFinds(w.rows, id, 0);
  }

  /** A run is told of a verdict by this fact, if at all. */
  function Fitting(w: World, c: Command, verdict: Verdict): Option<Fact> {
    if c.runId !in w.runs || w.runs[c.runId].lifecycle.None? then None
    else
      var lc := w.runs[c.runId].lifecycle.value;
      match verdict
      case Accepted => if c.kind == ApprovalResponse && c.attempt == Some(lc.attempt) then Some(DecisionDelivered) else None
      case SequenceGap => None
      case PreparationRetryable(_) => if lc.attempt in w.sessions && c.status != Claimed then Some(HealthUnknown) else None
      case Rejected => if lc.attempt in w.sessions then Some(HealthUnknown) else None
  }

  /** The row of a resolved command survives whatever fact follows. */
  lemma ResolvedStays(w: World, i: nat, runId: string, current: Lifecycle, fact: Fact, now: nat, reduce: Reducer)
    requires i < |w.rows| && Resolved(w.rows[i])
    ensures var w' := ApplyFact(w, runId, current, fact, now, reduce).0; i < |w'.rows| && w'.rows[i] == w.rows[i]
  {
    hide ApplyFact, InRunPage;
    FactRows(w, runId, current, fact, now, reduce);
  }

  /**
   A verdict is taken exactly while its command is not cancelled and, unless it accepts, not acknowledged.
   An acceptance resolves the command as acknowledged, a reported gap leaves every command as it is, and any
   other verdict resolves it as cancelled.
   */
  lemma VerdictsAreExact(w: World, id: CommandId, i: nat, verdict: Verdict, now: nat, reduce: Reducer)
    requires Names(w.rows, id, i)
    ensures var (w', taken) := Acknowledge(w, id, verdict, now, reduce);
            var c := w.rows[i];
            && (taken <==> c.status != Cancelled && (verdict.Accepted? || c.status != Acknowledged))
            && (!taken ==> w' == w)
            && i < |w'.rows|
            && (taken && verdict.Accepted? ==> w'.rows[i].status == Acknowledged)
            && (taken && (verdict.Rejected? || verdict.PreparationRetryable?) ==> w'.rows[i].status == Cancelled)
            && (taken && verdict.SequenceGap? ==> w'.rows == w.rows)
  {
    assert i < |w.rows|;
    FindNames(w.rows, id, i);
    hide ApplyFact, Names;
    var c := w.rows[i];
    if c.runId in w.runs && w.runs[c.runId].lifecycle.Some? && !c.status.Cancelled? {
      var lc := w.runs[c.runId].lifecycle.value;
      if verdict.Accepted? {
        ResolvedStays(if c.status.Acknowledged? then w else SetStatus(w, i, Acknowledged), i, c.runId, lc, DecisionDelivered, now, reduce);
      } else {
        ResolvedStays(SetStatus(w, i, Cancelled), i, c.runId, lc, HealthUnknown, now, reduce);
      }
    }
  }

  /** The run of a taken verdict is told of it by the fact that fits, and by no other. */
  lemma VerdictsTellTheRun(w: World, id: CommandId, i: nat, verdict: Verdict, now: nat, reduce: Reducer)
    requires Names(w.rows, id, i) && Acknowledge(w, id, verdict, now, reduce).1
    requires w.rows[i].runId in w.runs && w.runs[w.rows[i].runId].lifecycle.Some?
    ensures var w' := Acknowledge(w, id, verdict, now, reduce).0;
            var (r, fact) := (w.rows[i].runId, Fitting(w, w.rows[i], verdict));
            && (fact.Some? ==> r in w'.runs && w'.runs[r].lifecycle.Some?
                               && LeadsTo(w.runs[r].lifecycle.value, fact.value, w'.runs[r].lifecycle.value, now, reduce))
            && (fact.None? && !(verdict.PreparationRetryable? && w.runs[r].lifecycle.value.attempt in w.sessions) ==> w'.runs == w.runs)
  {
    assert i < |w.rows|;
    FindNames(w.rows, id, i);
    hide ApplyFact, StartHeld, Names, LeadsTo;
    var (c, fact) := (w.rows[i], Fitting(w, w.rows[i], verdict));
    if fact.Some? {
      var w1 := if verdict.Accepted? then (if c.status.Acknowledged? then w else SetStatus(w, i, Acknowledged)) else SetStatus(w, i, Cancelled);
      FactLeads(w1, c.runId, w.runs[c.runId].lifecycle.value, fact.value, now, reduce);
    }
  }

  /** What a verdict does besides: a retry of the preparation is queued as a new command, and a run without a lifecycle fails. */
  lemma VerdictsFollowUp(w: World, id: CommandId, i: nat, verdict: Verdict, now: nat, reduce: Reducer)
    requires Names(w.rows, id, i) && Acknowledge(w, id, verdict, now, reduce).1 && w.rows[i].runId in w.runs
    ensures var w' := Acknowledge(w, id, verdict, now, reduce).0;
            var (c, run) := (w.rows[i], w.runs[w.rows[i].runId]);
            && (verdict.PreparationRetryable? && c.status == Claimed && run.lifecycle.Some? && run.lifecycle.value.attempt in w.sessions ==>
                  && |w'.rows| == |w.rows| + 1
                  && w'.rows[|w.rows|] == Command(PreparationRetry(id), c.runId, c.attempt, c.kind, Latest(w.rows) + 1, Pending, None)
                  && c.runId in w'.runs && w'.runs[c.runId].lifecycle == Some(verdict.next) && Follows(w'.runs[c.runId].status, verdict.next.phase))
            && (run.lifecycle.None? ==>
                  w'.runs == if verdict.Accepted? || run.status == RunCompleted || run.status == RunCancelled || run.status == RunFailed then w.runs
                             else w.runs[c.runId := run.(status := RunFailed)])
  {
    hide ApplyFact;
    FindNames(w.rows, id, i);
  }

  // ----- bulk resolution --------------------------------------------------------------------------------

  /** Stopping an environment leaves none of its first thousand commands open on a host, and touches no other row. */
  lemma StoppingCancelsOpen(w: World, now: nat)
    ensures var w' := CancelOpen(w, now);
            && |w'.rows| == |w.rows| && w' == w.(rows := w'.rows)
            && (forall i :: 0 <= i < |w.rows| && i < 1000 ==> w'.rows[i].status != Pending && w'.rows[i].status != Claimed)
            && (forall i :: 0 <= i < |w.rows| && (i >= 1000 || Resolved(w.rows[i]) || w.rows[i].status == CoordinatorPending) ==> w'.rows[i] == w.rows[i])
            && (forall i :: 0 <= i < |w.rows| && w'.rows[i] != w.rows[i] ==>
                  w'.rows[i] == w.rows[i].(status := Cancelled, claimExpiresAt := Some(now)))
  {}

  /** The end of a run acknowledges what the host was given on the run's page, and nothing else. */
  lemma FinishAcknowledges(w: World, runId: string)
    ensures var w' := FinishRun(w, runId);
            && |w'.rows| == |w.rows| && w' == w.(rows := w'.rows)
            && (forall i :: 0 <= i < |w.rows| && InRunPage(w.rows, runId, i) ==> w'.rows[i].status != Claimed)
            && (forall i :: 0 <= i < |w.rows| && w'.rows[i] != w.rows[i] ==>
                  w.rows[i].runId == runId && (w.rows[i].status == Claimed || w.rows[i].status == Acknowledged)
                  && w'.rows[i] == w.rows[i].(status := Acknowledged, claimExpiresAt := None))
  {
    hide InRunPage;
    assert forall i :: 0 <= i < |w.rows| && InRunPage(w.rows, runId, i) ==> w.rows[i].runId == runId by { PageIsOwn(w.rows, runId); }
  }

  lemma PageIsOwn(rows: seq<Command>, runId: string)
    ensures forall i :: 0 <= i < |rows| && InRunPage(rows, runId, i) ==> rows[i].runId == runId
  {}
}
