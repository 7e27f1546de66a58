/**
 The artifact byte counter (convex/agents/connectedAgents.ts): each workspace has a usage row that is
 computed on first use and then kept by the artifact mutations one change at a time.
 */
module Artifacts {
  import opened Common

  const GROUP_LIMIT: nat := 10000

  /** `Other` is any further status a caller may create an artifact with. */
  datatype Status = PendingUpload | Scanning | Clean | Linked | Rejected | Deleted | Other(name: string)

  /** Artifacts are known by their position. */
  datatype Artifact = Artifact(workspace: string, size: nat, status: Status)

  datatype World = World(artifacts: seq<Artifact>, usage: map<string, int>)

  predicate Active(s: Status) {
    s.PendingUpload? || s.Scanning? || s.Clean? || s.Linked?
  }

  function Weight(a: Artifact, workspace: string): nat {
    if a.workspace == workspace && Active(a.status) then a.size else 0
  }

  /** The bytes a workspace's active artifacts take up. */
  function Recount(artifacts: seq<Artifact>, workspace: string): nat
    decreases |artifacts|
  {
    if artifacts == [] then 0 else Recount(artifacts[..|artifacts| - 1], workspace) + Weight(artifacts[|artifacts| - 1], workspace)
  }

  function Group(artifacts: seq<Artifact>, workspace: string, s: Status): set<nat> {
    set i: nat | i < |artifacts| && artifacts[i].workspace == workspace && artifacts[i].status == s
  }

  predicate TooMany(artifacts: seq<Artifact>, workspace: string) {
    || |Group(artifacts, workspace, PendingUpload)| > GROUP_LIMIT
    || |Group(artifacts, workspace, Scanning)| > GROUP_LIMIT
    || |Group(artifacts, workspace, Clean)| > GROUP_LIMIT
    || |Group(artifacts, workspace, Linked)| > GROUP_LIMIT
  }

  /** The usage row, computed now if there is none; none when there are too many artifacts to count. */
  function PolicyUsage(w: World, workspace: string): Option<World> {
    if workspace in w.usage then Some(w)
    else if TooMany(w.artifacts, workspace) then None
    else Some(w.(usage := w.usage[workspace := Recount(w.artifacts, workspace)]))
  }

  /** The position of the new artifact; none when the mutation throws. */
  function Create(w: World, workspace: string, size: nat, status: Status, limit: Option<int>): (World, Option<nat>) {
    match PolicyUsage(w, workspace)
    case None => (w, None)
    case Some(w1) =>
      if workspace !in w1.usage || (limit.Some? && w1.usage[workspace] + size > limit.value) then (w, None)
      else
        (World(w1.artifacts + [Artifact(workspace, size, status)], w1.usage[workspace := w1.usage[workspace] + size]),
         Some(|w1.artifacts|))
  }

  function SetStatus(w: World, i: nat, s: Status): World
    requires i < |w.artifacts|
  {
    w.(artifacts := w.artifacts[i := w.artifacts[i].(status := s)])
  }

  function Subtract(w: World, workspace: string, size: nat): World {
    if workspace !in w.usage then w else w.(usage := w.usage[workspace := Max(0, w.usage[workspace] - size)])
  }

  /** The scan's verdict; only a rejected artifact is taken off the counter. */
  function Finalize(w: World, i: nat, clean: bool): (World, bool) {
    if i >= |w.artifacts| || !(w.artifacts[i].status.PendingUpload? || w.artifacts[i].status.Scanning?) then (w, false)
    else if clean then (SetStatus(w, i, Clean), true)
    else
      var a := w.artifacts[i];
      match PolicyUsage(w, a.workspace)
      case None => (w, false)
      case Some(w1) => (Subtract(SetStatus(w1, i, Rejected), a.workspace, a.size), true)
  }

  function MarkDeleted(w: World, i: nat): (World, bool) {
    if i >= |w.artifacts| || w.artifacts[i].status.Deleted? then (w, false)
    else if !Active(w.artifacts[i].status) then (SetStatus(w, i, Deleted), true)
    else
      var a := w.artifacts[i];
      match PolicyUsage(w, a.workspace)
      case None => (w, false)
      case Some(w1) => (Subtract(SetStatus(w1, i, Deleted), a.workspace, a.size), true)
  }

  /** An event refers to the artifact. */
  function Link(w: World, i: nat): (World, bool) {
    if i >= |w.artifacts| || !(w.artifacts[i].status.Clean? || w.artifacts[i].status.Linked?) then (w, false)
    else (SetStatus(w, i, Linked), true)
  }

  /** A workspace is purged with everything it has. */
  function Purge(w: World, workspace: string): World {
    World(Others(w.artifacts, workspace), w.usage - {workspace})
  }

  function Others(artifacts: seq<Artifact>, workspace: string): seq<Artifact>
    decreases |artifacts|
  {
    if artifacts == [] then []
    else
      var last := artifacts[|artifacts| - 1];
      Others(artifacts[..|artifacts| - 1], workspace) + if last.workspace == workspace then [] else [last]
  }

  // ----- sums ----------------------------------------------------------------------------------------

  lemma {:induction false} RecountUpdate(artifacts: seq<Artifact>, i: nat, a: Artifact, workspace: string)
    requires i < |artifacts|
    ensures Recount(artifacts[i := a], workspace) == Recount(artifacts, workspace) - Weight(artifacts[i], workspace) + Weight(a, workspace)
    ensures Recount(artifacts, workspace) >= Weight(artifacts[i], workspace)
    decreases |artifacts|
  {
    var n := |artifacts| - 1;
    if i == n {
      assert artifacts[i := a][..n] == artifacts[..n];
    } else {
      assert artifacts[i := a][..n] == artifacts[..n][i := a];
      RecountUpdate(artifacts[..n], i, a, workspace);
    }
  }

  lemma RecountAppend(artifacts: seq<Artifact>, a: Artifact, workspace: string)
    ensures Recount(artifacts + [a], workspace) == Recount(artifacts, workspace) + Weight(a, workspace)
  {
    assert (artifacts + [a])[..|artifacts|] == artifacts;
  }

  lemma {:induction false} RecountOthers(artifacts: seq<Artifact>, gone: string, workspace: string)
    ensures Recount(Others(artifacts, gone), workspace) == if workspace == gone then 0 else Recount(artifacts, workspace)
    decreases |artifacts|
  {
    if artifacts != [] {
      var front, last := artifacts[..|artifacts| - 1], artifacts[|artifacts| - 1];
      RecountOthers(front, gone, workspace);
      if last.workspace == gone {
        assert Others(artifacts, gone) == Others(front, gone);
      } else {
        RecountAppend(Others(front, gone), last, workspace);
      }
    }
  }

  // ----- the counter equals the recount ------------------------------------------------------------------

  /** Wherever a usage row exists it is the recount. */
  ghost predicate Exact(w: World) {
    forall k :: k in w.usage ==> w.usage[k] == Recount(w.artifacts, k)
  }

  lemma UsageIsExact(w: World, workspace: string)
    requires Exact(w) && PolicyUsage(w, workspace).Some?
    ensures var w1 := PolicyUsage(w, workspace).value;
            Exact(w1) && workspace in w1.usage && w1.artifacts == w.artifacts && w1.usage[workspace] == Recount(w.artifacts, workspace)
  {}

  /**
   Creating an artifact counts its bytes whatever status it is created with, so the counter stays exact
   exactly when that status is an active one (or the artifact is empty).
   */
  lemma CreateIsExactlyRight(w: World, workspace: string, size: nat, status: Status, limit: Option<int>)
    requires Exact(w) && Create(w, workspace, size, status, limit).1.Some?
    ensures Exact(Create(w, workspace, size, status, limit).0) <==> Active(status) || size == 0
  {
    var w', a := Create(w, workspace, size, status, limit).0, Artifact(workspace, size, status);
    UsageIsExact(w, workspace);
    forall k: string
      ensures Recount(w'.artifacts, k) == Recount(w.artifacts, k) + Weight(a, k)
    {
      RecountAppend(w.artifacts, a, k);
    }
    assert w'.usage[workspace] == Recount(w.artifacts, workspace) + size;
  }

  /** The failing case: an artifact created as rejected is counted though it takes up nothing. */
  lemma RejectedOnArrivalIsCounted()
    ensures var (w, at) := Create(World([], map[]), "ws", 7, Rejected, None);
            at == Some(0) && w.usage["ws"] == 7 && Recount(w.artifacts, "ws") == 0
  {
    var none: seq<Artifact> := [];
    assert Group(none, "ws", PendingUpload) == {} && Group(none, "ws", Scanning) == {};
    assert Group(none, "ws", Clean) == {} && Group(none, "ws", Linked) == {};
    RecountAppend(none, Artifact("ws", 7, Rejected), "ws");
    assert none + [Artifact("ws", 7, Rejected)] == [Artifact("ws", 7, Rejected)];
  }

  /** Taking an active artifact off never meets the clamp at zero. */
  lemma RetireIsExact(w: World, i: nat, s: Status)
    requires Exact(w) && i < |w.artifacts| && Active(w.artifacts[i].status) && !Active(s) && w.artifacts[i].workspace in w.usage
    ensures w.usage[w.artifacts[i].workspace] - w.artifacts[i].size >= 0
    ensures Exact(Subtract(SetStatus(w, i, s), w.artifacts[i].workspace, w.artifacts[i].size))
  {
    forall k: string
      ensures Recount(SetStatus(w, i, s).artifacts, k) == Recount(w.artifacts, k) - Weight(w.artifacts[i], k)
      ensures Recount(w.artifacts, k) >= Weight(w.artifacts[i], k)
    {
      RecountUpdate(w.artifacts, i, w.artifacts[i].(status := s), k);
    }
  }

  lemma RelabelIsExact(w: World, i: nat, s: Status)
    requires Exact(w) && i < |w.artifacts| && (Active(w.artifacts[i].status) <==> Active(s))
    ensures Exact(SetStatus(w, i, s))
  {
    forall k: string
      ensures Recount(SetStatus(w, i, s).artifacts, k) == Recount(w.artifacts, k)
    {
      RecountUpdate(w.artifacts, i, w.artifacts[i].(status := s), k);
    }
  }

  // ----- what each mutation does -------------------------------------------------------------------------

  /** A workspace without a usage row has too many artifacts in one active status to count them. */
  predicate Uncountable(w: World, workspace: string) {
    workspace !in w.usage && TooMany(w.artifacts, workspace)
  }

  /** A usage row is there exactly unless the first count met more than ten thousand artifacts of one status. */
  lemma UncountableExactly(w: World, workspace: string)
    ensures PolicyUsage(w, workspace).None? <==>
              workspace !in w.usage && exists s :: Active(s) && |Group(w.artifacts, workspace, s)| > 10000
  {
    if s :| Active(s) && |Group(w.artifacts, workspace, s)| > 10000 {
      assert s == PendingUpload || s == Scanning || s == Clean || s == Linked;
    }
  }

  /** A scan's verdict falls on an uploaded or scanning artifact only: it becomes clean, or is rejected when its workspace can be counted. */
  lemma VerdictsExactly(w: World, i: nat, clean: bool)
    ensures var (w', ok) := Finalize(w, i, clean);
            && (ok <==> i < |w.artifacts| && (w.artifacts[i].status == PendingUpload || w.artifacts[i].status == Scanning)
                        && (clean || !Uncountable(w, w.artifacts[i].workspace)))
            && (!ok ==> w' == w)
            && (ok ==> w'.artifacts == w.artifacts[i := w.artifacts[i].(status := if clean then Clean else Rejected)]
                       && (clean ==> w'.usage == w.usage))
  {
    hide TooMany;
  }

  /** An artifact is deleted exactly once, and only while an active one can be counted off; only a clean or linked one is linked. */
  lemma DeletionsAndLinksExactly(w: World, i: nat)
    ensures var (w', ok) := MarkDeleted(w, i);
            && (ok <==> i < |w.artifacts| && w.artifacts[i].status != Deleted && (Active(w.artifacts[i].status) ==> !Uncountable(w, w.artifacts[i].workspace)))
            && (!ok ==> w' == w)
            && (ok ==> w'.artifacts == w.artifacts[i := w.artifacts[i].(status := Deleted)])
    ensures var (w', ok) := Link(w, i);
            && (ok <==> i < |w.artifacts| && (w.artifacts[i].status == Clean || w.artifacts[i].status == Linked))
            && w' == if ok then w.(artifacts := w.artifacts[i := w.artifacts[i].(status := Linked)]) else w
  {
    hide TooMany;
  }

  // ----- runs ------------------------------------------------------------------------------------------------

  datatype Action =
    | New(workspace: string, size: nat, status: Status, limit: Option<int>)
    | Verdict(artifact: nat, clean: bool)
    | Remove(removed: nat)
    | Refer(referred: nat)
    | PurgeAll(purged: string)

  function Step(w: World, a: Action): World {
    match a
    case New(workspace, size, status, limit) => Create(w, workspace, size, status, limit).0
    case Verdict(i, clean) => Finalize(w, i, clean).0
    case Remove(i) => MarkDeleted(w, i).0
    case Refer(i) => Link(w, i).0
    case PurgeAll(workspace) => Purge(w, workspace)
  }

  function Run(w: World, actions: seq<Action>): World
    decreases |actions|
  {
    if actions == [] then w else Run(Step(w, actions[0]), actions[1..])
  }

  predicate CreatesActive(a: Action) {
    a.New? ==> Active(a.status)
  }

  lemma StepKeepsExact(w: World, a: Action)
    requires Exact(w) && CreatesActive(a)
    ensures Exact(Step(w, a))
  {
    match a
    case New(workspace, size, status, limit) =>
      if Create(w, workspace, size, status, limit).1.Some? {
        CreateIsExactlyRight(w, workspace, size, status, limit);
      }
    case Verdict(i, clean) =>
      if Finalize(w, i, clean).1 {
        if clean {
          RelabelIsExact(w, i, Clean);
        } else {
          UsageIsExact(w, w.artifacts[i].workspace);
          RetireIsExact(PolicyUsage(w, w.artifacts[i].workspace).value, i, Rejected);
        }
      }
    case Remove(i) =>
      if MarkDeleted(w, i).1 {
        if Active(w.artifacts[i].status) {
          UsageIsExact(w, w.artifacts[i].workspace);
          RetireIsExact(PolicyUsage(w, w.artifacts[i].workspace).value, i, Deleted);
        } else {
          RelabelIsExact(w, i, Deleted);
        }
      }
    case Refer(i) =>
      if Link(w, i).1 {
        RelabelIsExact(w, i, Linked);
      }
    case PurgeAll(gone) =>
      forall k: string
        ensures Recount(Step(w, a).artifacts, k) == if k == gone then 0 else Recount(w.artifacts, k)
      {
        RecountOthers(w.artifacts, gone, k);
      }
  }

  /** The counter equals the recount in every run in which artifacts are created with an active status. */
  lemma {:induction false} CounterEqualsRecount(w: World, actions: seq<Action>, workspace: string)
    requires Exact(w) && forall k :: 0 <= k < |actions| ==> CreatesActive(actions[k])
    ensures var w' := Run(w, actions);
            Exact(w') && (workspace in w'.usage ==> w'.usage[workspace] == Recount(w'.artifacts, workspace))
    decreases |actions|
  {
    hide Step, CreatesActive;
    if actions != [] {
      assert CreatesActive(actions[0]);
      StepKeepsExact(w, actions[0]);
      CounterEqualsRecount(Step(w, actions[0]), actions[1..], workspace);
    }
  }

  /** The workspace byte limit therefore bounds the real bytes, when every creation is checked against it. */
  lemma {:induction false} LimitHolds(w: World, actions: seq<Action>, workspace: string, limit: nat)
    requires Exact(w) && Recount(w.artifacts, workspace) <= limit
    requires forall k :: 0 <= k < |actions| ==>
               CreatesActive(actions[k]) && (actions[k].New? && actions[k].workspace == workspace ==> actions[k].limit == Some(limit))
    ensures Recount(Run(w, actions).artifacts, workspace) <= limit
    decreases |actions|
  {
    if actions != [] {
      StepKeepsExact(w, actions[0]);
      StepKeepsLimit(w, actions[0], workspace, limit);
      LimitHolds(Step(w, actions[0]), actions[1..], workspace, limit);
    }
  }

  lemma NewKeepsLimit(w: World, ws: string, size: nat, status: Status, cap: Option<int>, workspace: string, limit: nat)
    requires Exact(w) && Recount(w.artifacts, workspace) <= limit && Active(status)
    requires ws == workspace ==> cap == Some(limit)
    ensures Recount(Create(w, ws, size, status, cap).0.artifacts, workspace) <= limit
  {
    hide Recount, TooMany;
    RecountAppend(w.artifacts, Artifact(ws, size, status), workspace);
  }

  /** No change of an artifact's status makes it count that did not count before. */
  lemma StatusKeepsLimit(w: World, a: Action, workspace: string)
    requires a.Verdict? || a.Remove? || a.Refer?
    ensures Recount(Step(w, a).artifacts, workspace) <= Recount(w.artifacts, workspace)
  {
    hide Recount, TooMany;
    match a
    case Verdict(i, clean) =>
      if i < |w.artifacts| {
        RecountUpdate(w.artifacts, i, w.artifacts[i].(status := if clean then Clean else Rejected), workspace);
      }
    case Remove(i) =>
      if i < |w.artifacts| {
        RecountUpdate(w.artifacts, i, w.artifacts[i].(status := Deleted), workspace);
      }
    case Refer(i) =>
      if i < |w.artifacts| {
        RecountUpdate(w.artifacts, i, w.artifacts[i].(status := Linked), workspace);
      }
  }

  lemma StepKeepsLimit(w: World, a: Action, workspace: string, limit: nat)
    requires Exact(w) && Recount(w.artifacts, workspace) <= limit && CreatesActive(a)
    requires a.New? && a.workspace == workspace ==> a.limit == Some(limit)
    ensures Recount(Step(w, a).artifacts, workspace) <= limit
  {
    hide Recount, Create, Finalize, MarkDeleted, Link, Others, Exact;
    match a
    case New(ws, size, status, cap) => NewKeepsLimit(w, ws, size, status, cap, workspace, limit);
    case PurgeAll(gone) => RecountOthers(w.artifacts, gone, workspace);
    case _ => StatusKeepsLimit(w, a, workspace);
  }

  // ----- the mutations as they run -----------------------------------------------------------------------------

  class Table {
    var artifacts: seq<Artifact>
    var usage: map<string, int>

    function State(): World
      reads this
    {
      World(artifacts, usage)
    }

    constructor ()
      ensures State() == World([], map[])
    {
      artifacts, usage := [], map[];
    }

    /** Reads the usage row, summing up the active artifacts when there is none. */
    method EnsureUsage(workspace: string) returns (ok: bool)
      modifies this`usage
      ensures ok <==> PolicyUsage(old(State()), workspace).Some?
      ensures State() == GetOr(PolicyUsage(old(State()), workspace), old(State()))
      ensures ok ==> workspace in usage
    {
      if workspace in usage {
        return true;
      }
      if TooMany(artifacts, workspace) {
        return false;
      }
      var bytes := 0;
      for i := 0 to |artifacts|
        invariant bytes == Recount(artifacts[..i], workspace)
      {
        assert artifacts[..i + 1][..i] == artifacts[..i];
        if artifacts[i].workspace == workspace && Active(artifacts[i].status) {
          bytes := bytes + artifacts[i].size;
        }
      }
      assert artifacts[..|artifacts|] == artifacts;
      usage := usage[workspace := bytes];
      return true;
    }

    method CreateArtifact(workspace: string, size: nat, status: Status, limit: Option<int>) returns (r: Option<nat>)
      modifies this
      ensures (State(), r) == Create(old(State()), workspace, size, status, limit)
    {
      var before := usage;
      var ok := EnsureUsage(workspace);
      if !ok {
        return None;
      }
      if limit.Some? && usage[workspace] + size > limit.value {
        usage := before;
        return None;
      }
      artifacts := artifacts + [Artifact(workspace, size, status)];
      usage := usage[workspace := usage[workspace] + size];
      return Some(|artifacts| - 1);
    }

    method FinalizeArtifact(i: nat, clean: bool) returns (ok: bool)
      modifies this
      ensures (State(), ok) == Finalize(old(State()), i, clean)
    {
      if i >= |artifacts| || !(artifacts[i].status.PendingUpload? || artifacts[i].status.Scanning?) {
        return false;
      }
      var a := artifacts[i];
      if !clean {
        ok := EnsureUsage(a.workspace);
        if !ok {
          return false;
        }
      }
      artifacts := artifacts[i := a.(status := if clean then Clean else Rejected)];
      if !clean {
        usage := usage[a.workspace := Max(0, usage[a.workspace] - a.size)];
      }
      return true;
    }

    method DeleteArtifact(i: nat) returns (ok: bool)
      modifies this
      ensures (State(), ok) == MarkDeleted(old(State()), i)
    {
      if i >= |artifacts| || artifacts[i].status.Deleted? {
        return false;
      }
      var a := artifacts[i];
      if Active(a.status) {
        ok := EnsureUsage(a.workspace);
        if !ok {
          return false;
        }
      }
      artifacts := artifacts[i := a.(status := Deleted)];
      if Active(a.status) {
        usage := usage[a.workspace := Max(0, usage[a.workspace] - a.size)];
      }
      return true;
    }

    method LinkArtifact(i: nat) returns (ok: bool)
      modifies this`artifacts
      ensures (State(), ok) == Link(old(State()), i)
    {
      if i >= |artifacts| || !(artifacts[i].status.Clean? || artifacts[i].status.Linked?) {
        return false;
      }
      artifacts := artifacts[i := artifacts[i].(status := Linked)];
      return true;
    }
  }
}
