/**
 The workflow event projector (convex/automations/workflowEventProjector.ts). A workflow's events are
 an append-only log read page by page; each page and its cursor are stored together. Ticks overlap and
 retry, and a page may come without a next cursor, so the same events can be delivered many times.
 */
module Projection {
  import opened Common

  const PAGE_EVENTS: nat := 100

  datatype Event = Event(sourceId: string, correlation: string, stepName: Option<string>, status: string)

  datatype StepEvent = StepEvent(sourceId: string, correlation: string, stepName: string, status: string)

  /** `cursor` is a position in the log. */
  datatype State = State(stored: seq<StepEvent>, cursor: Option<nat>, complete: bool)

  datatype Page = Page(expected: Option<nat>, cursor: Option<nat>, complete: bool, events: seq<Event>)

  function FindSource(stored: seq<StepEvent>, sourceId: string, from: nat): Option<nat>
    decreases |stored| - from
  {
    if from >= |stored| then None else if stored[from].sourceId == sourceId then Some(from) else FindSource(stored, sourceId, from + 1)
  }

  /** The name of the first stored event of the same step. */
  function FirstName(stored: seq<StepEvent>, correlation: string): Option<string>
    decreases |stored|
  {
    if stored == [] then None
    else
      var earlier := FirstName(stored[..|stored| - 1], correlation);
      if earlier.Some? then earlier
      else if stored[|stored| - 1].correlation == correlation then Some(stored[|stored| - 1].stepName) else None
  }

  function Resolve(stored: seq<StepEvent>, e: Event): StepEvent {
    var name := match e.stepName
                case Some(n) => n
                case None => GetOr(FirstName(stored, e.correlation), e.correlation);
    StepEvent(e.sourceId, e.correlation, name, e.status)
  }

  function Record(stored: seq<StepEvent>, e: Event): seq<StepEvent> {
    if FindSource(stored, e.sourceId, 0).Some? then stored else stored + [Resolve(stored, e)]
  }

  /** One sequential pass over events. */
  function Pass(stored: seq<StepEvent>, events: seq<Event>): seq<StepEvent>
    decreases |events|
  {
    if events == [] then stored else Record(Pass(stored, events[..|events| - 1]), events[|events| - 1])
  }

  /** The number of events a page stored; none when the page is refused outright. */
  function RecordPage(s: State, p: Page): (State, Option<nat>) {
    if |p.events| > PAGE_EVENTS then (s, None)
    else if s.complete || s.cursor != p.expected then (s, Some(0))
    else
      PassExtends(s.stored, p.events);
      var stored := Pass(s.stored, p.events);
      (State(stored, if p.cursor.Some? then p.cursor else s.cursor, p.complete), Some(|stored| - |s.stored|))
  }

  // ----- the pass -----------------------------------------------------------------------------------------

  lemma {:induction false} FindSourceFinds(stored: seq<StepEvent>, sourceId: string, from: nat)
    ensures FindSource(stored, sourceId, from).Some? <==> exists i :: from <= i < |stored| && stored[i].sourceId == sourceId
    decreases |stored| - from
  {
    if from < |stored| && stored[from].sourceId != sourceId {
      FindSourceFinds(stored, sourceId, from + 1);
    }
  }

  predicate Has(stored: seq<StepEvent>, sourceId: string) {
    exists i :: 0 <= i < |stored| && stored[i].sourceId == sourceId
  }

  lemma {:induction false} PassExtends(stored: seq<StepEvent>, events: seq<Event>)
    ensures |stored| <= |Pass(stored, events)| <= |stored| + |events|
    ensures Pass(stored, events)[..|stored|] == stored
    decreases |events|
  {
    if events != [] {
      PassExtends(stored, events[..|events| - 1]);
    }
  }

  lemma {:induction false} PassConcat(stored: seq<StepEvent>, a: seq<Event>, b: seq<Event>)
    ensures Pass(stored, a + b) == Pass(Pass(stored, a), b)
    decreases |b|
  {
    if b == [] {
      assert a + b == a;
    } else {
      assert (a + b)[..|a + b| - 1] == a + b[..|b| - 1];
      PassConcat(stored, a, b[..|b| - 1]);
    }
  }

  /** After a pass every event it went over is there. */
  lemma {:induction false} PassHasAll(stored: seq<StepEvent>, events: seq<Event>, k: nat)
    requires k < |events|
    ensures Has(Pass(stored, events), events[k].sourceId)
    decreases |events|
  {
    var front, last := events[..|events| - 1], events[|events| - 1];
    var before := Pass(stored, front);
    FindSourceFinds(before, last.sourceId, 0);
    if k < |front| {
      PassHasAll(stored, front, k);
      var i :| 0 <= i < |before| && before[i].sourceId == events[k].sourceId;
      assert Pass(stored, events)[i] == before[i];
    } else if FindSource(before, last.sourceId, 0).None? {
      assert Pass(stored, events)[|before|].sourceId == last.sourceId;
    }
  }

  /** A second pass over events that are all there changes nothing. */
  lemma {:induction false} PassAgain(stored: seq<StepEvent>, events: seq<Event>)
    requires forall k :: 0 <= k < |events| ==> Has(stored, events[k].sourceId)
    ensures Pass(stored, events) == stored
    decreases |events|
  {
    if events != [] {
      PassAgain(stored, events[..|events| - 1]);
      FindSourceFinds(stored, events[|events| - 1].sourceId, 0);
    }
  }

  ghost predicate DistinctSources(stored: seq<StepEvent>) {
    forall i, j :: 0 <= i < j < |stored| ==> stored[i].sourceId != stored[j].sourceId
  }

  lemma {:induction false} PassIsDistinct(stored: seq<StepEvent>, events: seq<Event>)
    requires DistinctSources(stored)
    ensures DistinctSources(Pass(stored, events))
    decreases |events|
  {
    if events != [] {
      PassIsDistinct(stored, events[..|events| - 1]);
      FindSourceFinds(Pass(stored, events[..|events| - 1]), events[|events| - 1].sourceId, 0);
    }
  }

  /** Events of one step without a name of their own all get the name of the step's first stored event. */
  lemma {:induction false} FirstNameIsStable(stored: seq<StepEvent>, events: seq<Event>, correlation: string)
    requires FirstName(stored, correlation).Some?
    ensures FirstName(Pass(stored, events), correlation) == FirstName(stored, correlation)
    decreases |events|
  {
    if events != [] {
      var before := Pass(stored, events[..|events| - 1]);
      FirstNameIsStable(stored, events[..|events| - 1], correlation);
      var after := Pass(stored, events);
      assert |after| > |before| ==> after[..|after| - 1] == before;
    }
  }

  // ----- overlapping and repeated pages -----------------------------------------------------------------------

  /** The page is cut from the log where its expected cursor points, and its next cursor, if any, is its end. */
  ghost predicate Honest(log: seq<Event>, p: Page) {
    var from := GetOr(p.expected, 0);
    && from + |p.events| <= |log| && p.events == log[from..from + |p.events|]
    && (p.cursor.Some? ==> p.cursor.value == from + |p.events|)
    && (p.complete ==> from + |p.events| == |log|)
  }

  function Run(s: State, pages: seq<Page>): State
    decreases |pages|
  {
    if pages == [] then s else Run(RecordPage(s, pages[0]).0, pages[1..])
  }

  const EMPTY: State := State([], None, false)

  /** What is stored is one in-order pass over the log up to `seen`, and the cursor is not past it. */
  ghost predicate Refines(log: seq<Event>, s: State, seen: nat) {
    && seen <= |log| && s.stored == Pass([], log[..seen]) && GetOr(s.cursor, 0) <= seen
    && (s.complete ==> seen == |log|)
  }

  /** Passing again over a stretch that starts inside what was seen adds only what is beyond it. */
  lemma OverlapAddsTheRest(log: seq<Event>, seen: nat, from: nat, to: nat)
    requires from <= seen <= |log| && from <= to <= |log|
    ensures Pass(Pass([], log[..seen]), log[from..to]) == Pass([], log[..Max(seen, to)])
  {
    hide Pass;
    var stored, cut := Pass([], log[..seen]), Min(seen, to);
    var known, added := log[from..cut], log[cut..to];
    assert log[from..to] == known + added;
    PassConcat(stored, known, added);
    forall k | 0 <= k < |known|
      ensures Has(stored, known[k].sourceId)
    {
      assert log[..seen][from + k] == known[k];
      PassHasAll([], log[..seen], from + k);
    }
    PassAgain(stored, known);
    if to > seen {
      assert log[..to] == log[..seen] + added;
      PassConcat([], log[..seen], added);
    } else {
      PassAgain(stored, added);
    }
  }

  lemma PageRefines(log: seq<Event>, s: State, seen: nat, p: Page) returns (seen': nat)
    requires Refines(log, s, seen) && Honest(log, p)
    ensures Refines(log, RecordPage(s, p).0, seen') && seen <= seen'
  {
    hide Pass;
    seen' := seen;
    if |p.events| <= PAGE_EVENTS && !s.complete && s.cursor == p.expected {
      var from := GetOr(p.expected, 0);
      OverlapAddsTheRest(log, seen, from, from + |p.events|);
      seen' := Max(seen, from + |p.events|);
    }
  }

  lemma {:induction false} RunRefines(log: seq<Event>, s: State, seen: nat, pages: seq<Page>) returns (seen': nat)
    requires Refines(log, s, seen) && forall k :: 0 <= k < |pages| ==> Honest(log, pages[k])
    ensures Refines(log, Run(s, pages), seen') && seen <= seen'
    decreases |pages|
  {
    hide Refines, RecordPage, Honest;
    seen' := seen;
    if pages != [] {
      assert Honest(log, pages[0]);
      var mid := PageRefines(log, s, seen, pages[0]);
      seen' := RunRefines(log, RecordPage(s, pages[0]).0, mid, pages[1..]);
    }
  }

  /**
   Under any overlap, retry and split of the pages, the stored events are those of a single in-order
   pass over a prefix of the log, resolved step names included, with distinct source ids; once complete,
   they are those of a pass over the whole log.
   */
  lemma StoredIsOnePass(log: seq<Event>, pages: seq<Page>) returns (seen: nat)
    requires forall k :: 0 <= k < |pages| ==> Honest(log, pages[k])
    ensures var s := Run(EMPTY, pages);
            && seen <= |log| && s.stored == Pass([], log[..seen]) && DistinctSources(s.stored)
            && (s.complete ==> s.stored == Pass([], log))
  {
    assert log[..0] == [];
    seen := RunRefines(log, EMPTY, 0, pages);
    PassIsDistinct([], log[..seen]);
    assert log[..|log|] == log;
  }

  lemma {:induction false} FirstNameIsFirst(stored: seq<StepEvent>, correlation: string)
    ensures var name := FirstName(stored, correlation);
            && (name.None? ==> forall i :: 0 <= i < |stored| ==> stored[i].correlation != correlation)
            && (name.Some? ==> exists i: nat :: FirstOf(stored, correlation, i) && stored[i].stepName == name.value)
    decreases |stored|
  {
    if stored != [] {
      var front := stored[..|stored| - 1];
      FirstNameIsFirst(front, correlation);
      if FirstName(front, correlation).Some? {
        var i: nat :| FirstOf(front, correlation, i) && front[i].stepName == FirstName(front, correlation).value;
        assert FirstOf(stored, correlation, i);
      } else if stored[|stored| - 1].correlation == correlation {
        assert FirstOf(stored, correlation, |stored| - 1);
      }
    }
  }

  /** The first stored event of a step. */
  predicate FirstOf(stored: seq<StepEvent>, correlation: string, i: nat) {
    i < |stored| && stored[i].correlation == correlation && forall j :: 0 <= j < i ==> stored[j].correlation != correlation
  }

  /**
   An event is stored exactly when its source is new: with its own name if it has one, else with the name its
   step was first stored with, or, for the first event of a step, with the step's own id.
   */
  lemma NamesAreResolved(stored: seq<StepEvent>, e: Event)
    ensures var after := Record(stored, e);
            && (Has(stored, e.sourceId) ==> after == stored)
            && (!Has(stored, e.sourceId) ==>
                  && |after| == |stored| + 1 && after[..|stored|] == stored
                  && var added := after[|stored|];
                     && added.sourceId == e.sourceId && added.correlation == e.correlation && added.status == e.status
                     && (e.stepName.Some? ==> added.stepName == e.stepName.value)
                     && (e.stepName.None? ==>
                           || (exists i: nat :: FirstOf(stored, e.correlation, i) && added.stepName == stored[i].stepName)
                           || ((forall i :: 0 <= i < |stored| ==> stored[i].correlation != e.correlation) && added.stepName == e.correlation)))
  {
    FindSourceFinds(stored, e.sourceId, 0);
    FirstNameIsFirst(stored, e.correlation);
  }

  /**
   A page is taken exactly when it is small enough, the projection is not complete and stands where the page
   expects it; it then moves the cursor if it names one, and completes the projection if it is the last.
   */
  lemma PagesMoveTheCursor(s: State, p: Page)
    ensures var (s', n) := RecordPage(s, p);
            var taken := |p.events| <= 100 && !s.complete && s.cursor == p.expected;
            && (n.None? <==> |p.events| > 100)
            && (!taken ==> s' == s)
            && (taken ==> s'.cursor == (if p.cursor.Some? then p.cursor else s.cursor) && s'.complete == p.complete
                          && |s'.stored| == |s.stored| + GetOr(n, 0))
  {
    PassExtends(s.stored, p.events);
    hide Pass;
  }

  /** Nothing changes after completion, and nothing stored is ever changed or moved. */
  lemma {:induction false} StoredNeverChanges(s: State, pages: seq<Page>)
    ensures |s.stored| <= |Run(s, pages).stored| && Run(s, pages).stored[..|s.stored|] == s.stored
    ensures s.complete ==> Run(s, pages) == s
    decreases |pages|
  {
    if pages != [] {
      PassExtends(s.stored, pages[0].events);
      var s1 := RecordPage(s, pages[0]).0;
      StoredNeverChanges(s1, pages[1..]);
      assert Run(s, pages).stored[..|s.stored|] == Run(s1, pages[1..]).stored[..|s1.stored|][..|s.stored|];
    }
  }

  // ----- the mutation as it runs ---------------------------------------------------------------------------------

  class Table {
    var stored: seq<StepEvent>
    var cursor: Option<nat>
    var complete: bool

    function Now(): State
      reads this
    {
      State(stored, cursor, complete)
    }

    constructor ()
      ensures Now() == EMPTY
    {
      stored, cursor, complete := [], None, false;
    }

    method RecordProjectionPage(p: Page) returns (inserted: Option<nat>)
      modifies this
      ensures (Now(), inserted) == RecordPage(old(Now()), p)
    {
      if |p.events| > PAGE_EVENTS {
        return None;
      }
      if complete || cursor != p.expected {
        return Some(0);
      }
      var count := 0;
      for i := 0 to |p.events|
        invariant stored == Pass(old(stored), p.events[..i]) && |stored| == |old(stored)| + count
        invariant cursor == old(cursor) && complete == old(complete)
      {
        assert p.events[..i + 1][..i] == p.events[..i];
        var e := p.events[i];
        if FindSource(stored, e.sourceId, 0).None? {
          stored := stored + [Resolve(stored, e)];
          count := count + 1;
        }
      }
      assert p.events[..|p.events|] == p.events;
      cursor := if p.cursor.Some? then p.cursor else cursor;
      complete := p.complete;
      return Some(count);
    }
  }
}
