/** How runs of the scheduler end: within a number of turns when a rank falls along every
    edge, and by a suspension that loses nothing of the frontier. */
module CanvasProgress {
  import opened PyValues
  import opened CanvasGraph
  import opened CanvasSpec
  import opened CanvasSafety

  // ---- termination ----

  /** In this turn the rank falls along every edge its components contribute, each component
      judged by its own report. */
  ghost predicate RankedTurn(g: Graph, o: Oracle, rank: Id -> nat, s: State)
    requires WellFormed(g) && s.idx <= |s.path|
  {
    Known(g, s.path[s.idx..]) ==>
      var p := AfterPrune(g, s).path;
      forall i, x | s.idx <= i < |p| && p[i] in g.cpn && x in Contributes(g, p[i], o.report(i)) ::
        rank(x) < rank(p[i])
  }

  /** So it does in each of the next `n` turns of the run. */
  ghost predicate RankedRun(g: Graph, o: Oracle, rank: Id -> nat, s: State, n: nat)
    requires WellFormed(g) && (s.phase.Running? ==> s.idx <= |s.path|)
    decreases n
  {
    n == 0 || !s.phase.Running? ||
      (RankedTurn(g, o, rank, s) && (StepKeepsIndex(g, o, s); RankedRun(g, o, rank, Step(g, o, s), n - 1)))
  }

  ghost predicate FrontierBelow(s: State, rank: Id -> nat, bound: nat) {
    s.idx <= |s.path| && forall j | s.idx <= j < |s.path| :: rank(s.path[j]) < bound
  }

  lemma StepLowersRank(g: Graph, o: Oracle, rank: Id -> nat, s: State, bound: nat)
    requires WellFormed(g) && s.phase.Running? && FrontierBelow(s, rank, bound) && RankedTurn(g, o, rank, s)
    requires Step(g, o, s).phase.Running?
    ensures bound > 0 && FrontierBelow(Step(g, o, s), rank, bound - 1)
  {
    hide WellFormed, Prune, PostRange, Contributes, StartedEvents;
    StepKeepsIndex(g, o, s);
    if s.idx < |s.path| && Known(g, s.path[s.idx..]) {
      var pending := s.path[s.idx..];
      var s1 := AfterPrune(g, s);
      var end := |s1.path|;
      PruneKnown(g, s.path[..s.idx], pending);
      PruneKeepsTheMet(g, s.path[..s.idx], pending);
      PostRangeFrame(g, o, s1, s.idx, end);
      PostRangeEdges(g, o, s1, s.idx, end);
      var p2 := PostRange(g, o, s1, s.idx, end).path;
      assert rank(s.path[s.idx]) < bound;
      forall j | end <= j < |p2| ensures rank(p2[j]) < bound - 1 {
        assert CameFrom(g, o, p2, s.idx, end, j);
        var i :| s.idx <= i < end && i < |p2| && p2[i] in g.cpn && p2[j] in Contributes(g, p2[i], o.report(i));
        assert p2[i] == s1.path[i] && s1.path[i] in pending;
        var k :| 0 <= k < |pending| && pending[k] == p2[i];
        assert rank(s.path[s.idx + k]) < bound;
      }
    }
  }

  /** A frontier of rank below `bound` is worked off within `bound` batches and one more turn,
      however often an id is repeated on the path. */
  lemma {:induction false} TerminatesWithinRank(g: Graph, o: Oracle, rank: Id -> nat, s: State, bound: nat)
    requires WellFormed(g) && FrontierBelow(s, rank, bound) && RankedRun(g, o, rank, s, bound + 1)
    ensures !RunSteps(g, o, s, bound + 1).phase.Running?
    decreases bound
  {
    hide WellFormed, RankedTurn, Step;
    if s.phase.Running? {
      StepKeepsIndex(g, o, s);
      var s' := Step(g, o, s);
      StoppedStays(g, o, s', bound);
      if s'.phase.Running? {
        StepLowersRank(g, o, rank, s, bound);
        TerminatesWithinRank(g, o, rank, s', bound - 1);
      }
    }
  }

  /** In particular a fresh run ends along whose turns the rank falls. */
  lemma FreshRunTerminates(g: Graph, o: Oracle, rank: Id -> nat, init: seq<Id>)
    requires WellFormed(g) && !IsResume(init) && RankedRun(g, o, rank, Start(init), rank(BEGIN) + 2)
    ensures !RunSteps(g, o, Start(init), rank(BEGIN) + 2).phase.Running?
  {
    hide WellFormed, RankedRun, RunSteps;
    TerminatesWithinRank(g, o, rank, Start(init), rank(BEGIN) + 1);
  }

  // ---- acyclic canvases ----

  /** The targets a categorize or switch has to choose from. */
  type Options = Id -> set<Id>

  /** The rank falls along every edge of the canvas: whatever a component contributes, as long as
      a router keeps to its own options. */
  ghost predicate Acyclic(g: Graph, options: Options, rank: Id -> nat)
    requires WellFormed(g)
  {
    forall id, r: Report, x | id in g.cpn && Chooses(g, options, id, r) && x in Contributes(g, id, r) ::
      rank(x) < rank(id)
  }

  /** A router's report names its own options only; of other components nothing is asked. */
  predicate Chooses(g: Graph, options: Options, id: Id, r: Report) {
    id in g.cpn && (g.cpn[id].kind.Categorize? || g.cpn[id].kind.Switch?) ==>
      forall y <- r.next :: y in options(id)
  }

  /** In each of the next `n` turns the routers of the batch keep to their options. */
  ghost predicate KeepsToOptions(g: Graph, o: Oracle, options: Options, s: State, n: nat)
    requires WellFormed(g) && (s.phase.Running? ==> s.idx <= |s.path|)
    decreases n
  {
    n == 0 || !s.phase.Running? ||
      (&& (Known(g, s.path[s.idx..]) ==>
             forall i | s.idx <= i < |AfterPrune(g, s).path| ::
               Chooses(g, options, AfterPrune(g, s).path[i], o.report(i)))
       && (StepKeepsIndex(g, o, s); KeepsToOptions(g, o, options, Step(g, o, s), n - 1)))
  }

  lemma {:induction false} AcyclicRunIsRanked(
    g: Graph, o: Oracle, options: Options, rank: Id -> nat, s: State, n: nat)
    requires WellFormed(g) && (s.phase.Running? ==> s.idx <= |s.path|)
    requires Acyclic(g, options, rank) && KeepsToOptions(g, o, options, s, n)
    ensures RankedRun(g, o, rank, s, n)
    decreases n
  {
    hide WellFormed, Contributes, Chooses, Step, AfterPrune;
    if n > 0 && s.phase.Running? {
      StepKeepsIndex(g, o, s);
      AcyclicRunIsRanked(g, o, options, rank, Step(g, o, s), n - 1);
    }
  }

  /** A run of an acyclic canvas ends, however its routers choose among their options, one behind
      the other or not: within the ranks it starts below and one more turn. */
  lemma AcyclicRunTerminates(g: Graph, o: Oracle, options: Options, rank: Id -> nat, init: seq<Id>, bound: nat)
    requires WellFormed(g) && Acyclic(g, options, rank) && FrontierBelow(Start(init), rank, bound)
    requires KeepsToOptions(g, o, options, Start(init), bound + 1)
    ensures !RunSteps(g, o, Start(init), bound + 1).phase.Running?
  {
    hide WellFormed, Acyclic, KeepsToOptions, RankedRun, RunSteps;
    AcyclicRunIsRanked(g, o, options, rank, Start(init), bound + 1);
    TerminatesWithinRank(g, o, rank, Start(init), bound);
  }

  /** A fresh one. */
  lemma AcyclicCanvasTerminates(g: Graph, o: Oracle, options: Options, rank: Id -> nat, init: seq<Id>)
    requires WellFormed(g) && !IsResume(init) && Acyclic(g, options, rank)
    requires KeepsToOptions(g, o, options, Start(init), rank(BEGIN) + 2)
    ensures !RunSteps(g, o, Start(init), rank(BEGIN) + 2).phase.Running?
  {
    hide WellFormed, Acyclic, KeepsToOptions, RunSteps;
    AcyclicRunTerminates(g, o, options, rank, init, rank(BEGIN) + 1);
  }

  function Highest(rank: Id -> nat, path: seq<Id>): (r: nat)
    ensures forall id <- path :: rank(id) <= r
  {
    if path == [] then 0
    else
      var r := Highest(rank, path[1..]);
      assert path == [path[0]] + path[1..];
      if rank(path[0]) > r then rank(path[0]) else r
  }

  /** A resumed one: the highest rank on the saved path counts. */
  lemma ResumedCanvasTerminates(g: Graph, o: Oracle, options: Options, rank: Id -> nat, init: seq<Id>)
    requires WellFormed(g) && IsResume(init) && Acyclic(g, options, rank)
    requires KeepsToOptions(g, o, options, Start(init), Highest(rank, init) + 2)
    ensures !RunSteps(g, o, Start(init), Highest(rank, init) + 2).phase.Running?
  {
    hide WellFormed, Acyclic, KeepsToOptions, RunSteps, Highest;
    forall j | 0 <= j < |init| ensures rank(init[j]) < Highest(rank, init) + 1 {
      assert init[j] in init;
    }
    AcyclicRunTerminates(g, o, options, rank, init, Highest(rank, init) + 1);
  }

  // ---- suspension and resumption ----

  lemma {:induction false} FilteredConcat(g: Graph, a: seq<Id>, b: seq<Id>, fillUps: bool)
    ensures Filtered(g, a + b, fillUps) == Filtered(g, a, fillUps) + Filtered(g, b, fillUps)
  {
    if a == [] {
      assert a + b == b;
    } else {
      assert (a + b)[1..] == a[1..] + b;
      FilteredConcat(g, a[1..], b, fillUps);
    }
  }

  lemma {:induction false} FilteredMembers(g: Graph, ids: seq<Id>, f: bool)
    ensures forall id <- Filtered(g, ids, f) :: id in ids && id in g.cpn && IsFillUp(g, id) == f
  {
    if ids != [] {
      FilteredMembers(g, ids[1..], f);
    }
  }

  lemma {:induction false} FilteredUniform(g: Graph, ids: seq<Id>, f: bool)
    requires forall id <- ids :: id in g.cpn && IsFillUp(g, id) == f
    ensures Filtered(g, ids, f) == ids && Filtered(g, ids, !f) == []
  {
    if ids != [] {
      assert ids == [ids[0]] + ids[1..];
      assert ids[0] in ids;
      FilteredUniform(g, ids[1..], f);
    }
  }

  lemma {:induction false} PartitionKeepsAll(g: Graph, ids: seq<Id>)
    requires Known(g, ids)
    ensures multiset(FillUpsFirst(g, ids)) == multiset(ids)
  {
    if ids != [] {
      assert ids == [ids[0]] + ids[1..];
      assert ids[0] in ids;
      PartitionKeepsAll(g, ids[1..]);
    }
  }

  lemma {:induction false} PartitionKeepsKnown(g: Graph, ids: seq<Id>, x: Id)
    ensures x in FillUpsFirst(g, ids) <==> x in ids && x in g.cpn
  {
    if ids != [] {
      assert ids == [ids[0]] + ids[1..];
      PartitionKeepsKnown(g, ids[1..], x);
    }
  }

  /** The first `k` ids are the fill-ups. */
  ghost predicate SplitAt(g: Graph, saved: seq<Id>, k: nat) {
    && k <= |saved|
    && (forall j | 0 <= j < k :: IsFillUp(g, saved[j]))
    && (forall j | k <= j < |saved| :: !IsFillUp(g, saved[j]))
  }

  /** Fill-ups first, both parts in their old order, all ids known. */
  ghost predicate IsStablePartition(g: Graph, saved: seq<Id>, frontier: seq<Id>) {
    && (exists k :: SplitAt(g, saved, k))
    && Filtered(g, saved, true) == Filtered(g, frontier, true)
    && Filtered(g, saved, false) == Filtered(g, frontier, false)
    && Known(g, saved)
  }

  lemma FillUpsFirstIsStable(g: Graph, frontier: seq<Id>)
    ensures IsStablePartition(g, FillUpsFirst(g, frontier), frontier)
  {
    var a, b := Filtered(g, frontier, true), Filtered(g, frontier, false);
    FilteredMembers(g, frontier, true);
    FilteredMembers(g, frontier, false);
    hide Filtered;
    FilteredUniform(g, a, true);
    FilteredUniform(g, b, false);
    FilteredConcat(g, a, b, true);
    FilteredConcat(g, a, b, false);
    assert a + [] == a && [] + b == b;
    var saved := a + b;
    forall j | 0 <= j < |saved| ensures IsFillUp(g, saved[j]) <==> j < |a| {
      if j < |a| {
        assert saved[j] in a;
      } else {
        assert saved[j] == b[j - |a|];
        assert saved[j] in b;
      }
    }
    assert SplitAt(g, saved, |a|);
  }

  lemma {:induction false} SameKnownIds(g: Graph, frontier: seq<Id>)
    ensures ResetIds(g, FillUpsFirst(g, frontier)) == ResetIds(g, frontier)
  {
    forall x ensures x in FillUpsFirst(g, frontier) <==> x in frontier && x in g.cpn {
      PartitionKeepsKnown(g, frontier, x);
    }
  }

  lemma HeadIsFillUp(g: Graph, frontier: seq<Id>)
    requires exists id <- frontier :: IsFillUp(g, id)
    ensures FillUpsFirst(g, frontier) != [] && IsFillUp(g, FillUpsFirst(g, frontier)[0])
  {
    FilteredFillUps(g, frontier);
    FilteredMembers(g, frontier, true);
    hide Filtered;
    var a := Filtered(g, frontier, true);
    assert a[0] in a;
  }

  lemma SuspendedPath(g: Graph, o: Oracle, s: State)
    requires WellFormed(g) && s.phase.Running? && s.idx <= |s.path| && !s.failed
    requires Step(g, o, s).phase.Suspended?
    ensures s.idx < |s.path| && Known(g, s.path[s.idx..])
    ensures var (p, end) := BatchPath(g, o, s);
      Step(g, o, s).path == FillUpsFirst(g, p[end..]) && exists id <- p[end..] :: IsFillUp(g, id)
  {
    hide WellFormed, Prune, PostRange, Contributes, StartedEvents, Filtered;
    var s1 := AfterPrune(g, s);
    PruneKnown(g, s.path[..s.idx], s.path[s.idx..]);
    assert s1.path[s.idx..|s1.path|] == s1.path[s.idx..];
    PostRangeFrame(g, o, s1, s.idx, |s1.path|);
    assert BatchPath(g, o, s) == (PostRange(g, o, s1, s.idx, |s1.path|).path, |s1.path|);
  }

  /** The edge from entry `i` of the batch to `x` is followed in the batch or saved. */
  ghost predicate FollowedOrSaved(p: seq<Id>, i: nat, end: nat, saved: seq<Id>, x: Id)
    requires i <= end <= |p|
  {
    x in p[i..end] || x in saved
  }

  /** A suspension loses nothing: what it saves is all that the batch contributed, fill-ups first.
      Every edge of the batch to a known component was followed in the batch or is saved. */
  lemma SuspensionSavesFrontier(g: Graph, o: Oracle, s: State)
    requires WellFormed(g) && s.phase.Running? && s.idx <= |s.path| && !s.failed
    requires Step(g, o, s).phase.Suspended?
    ensures Known(g, s.path[s.idx..])
    ensures var (p, end) := BatchPath(g, o, s);
      var frontier := p[end..];
      var saved := Step(g, o, s).path;
      && saved == FillUpsFirst(g, frontier)
      && IsStablePartition(g, saved, frontier)
      && (Known(g, frontier) ==> multiset(saved) == multiset(frontier))
      && saved != [] && IsFillUp(g, saved[0])
      && ResetIds(g, saved) == ResetIds(g, frontier)
      && (forall i, x | s.idx <= i < end && p[i] in g.cpn && x in Contributes(g, p[i], o.report(i)) && x in g.cpn ::
            FollowedOrSaved(p, i, end, saved, x))
      && forall j | end <= j < |p| :: CameFrom(g, o, p, s.idx, end, j)
  {
    hide WellFormed, Step, BatchPath, Contributes, FillUpsFirst, IsStablePartition, CameFrom, ResetIds;
    SuspendedPath(g, o, s);
    BatchFollowsEveryEdge(g, o, s);
    var (p, end) := BatchPath(g, o, s);
    var frontier := p[end..];
    FillUpsFirstIsStable(g, frontier);
    HeadIsFillUp(g, frontier);
    SameKnownIds(g, frontier);
    if Known(g, frontier) {
      PartitionKeepsAll(g, frontier);
    }
    forall i, x | s.idx <= i < end && p[i] in g.cpn && x in Contributes(g, p[i], o.report(i)) && x in g.cpn
      ensures FollowedOrSaved(p, i, end, Step(g, o, s).path, x)
    {
      assert Followed(g, o, p, i);
      assert p[i..] == p[i..end] + frontier;
      PartitionKeepsKnown(g, frontier, x);
    }
  }

  /** Fill-up ids carry the name of their kind, as the editor generates them. */
  ghost predicate FillUpsNamed(g: Graph) {
    forall id | IsFillUp(g, id) :: LooksLikeFillUp(id)
  }

  /** The next run resumes: no begin is added, no id is lost from the first batch, and only the
      saved components are reset. */
  lemma ResumptionRunsSavedFrontier(g: Graph, o: Oracle, s: State)
    requires WellFormed(g) && s.phase.Running? && s.idx <= |s.path| && !s.failed
    requires Step(g, o, s).phase.Suspended? && FillUpsNamed(g)
    ensures var saved := Step(g, o, s).path;
      && IsResume(saved)
      && Start(saved).path == saved && Start(saved).idx == 0
      && Known(g, Start(saved).path[0..])
      && AfterPrune(g, Start(saved)).path == saved
      && forall id :: id in ResetIds(g, saved) <==> id in saved
  {
    hide WellFormed, Step, BatchPath;
    SuspensionSavesFrontier(g, o, s);
    var saved := Step(g, o, s).path;
    assert saved[0..] == saved && saved[..0] + saved == saved;
    ResumePrunesNothing(g, [], saved);
  }

  /** The first fill-up the turn put behind its batch. */
  function FirstFillUp(g: Graph, frontier: seq<Id>): (r: Option<Id>)
    ensures r.Some? <==> exists id <- frontier :: IsFillUp(g, id)
  {
    if frontier == [] then None
    else if IsFillUp(g, frontier[0]) then assert frontier[0] in frontier; Some(frontier[0])
    else
      assert frontier == [frontier[0]] + frontier[1..];
      FirstFillUp(g, frontier[1..])
  }

  lemma {:induction false} FirstIsFirst(g: Graph, frontier: seq<Id>)
    ensures FirstFillUp(g, frontier).None? ==> Filtered(g, frontier, true) == []
    ensures FirstFillUp(g, frontier).Some? ==>
      Filtered(g, frontier, true) != [] && Filtered(g, frontier, true)[0] == FirstFillUp(g, frontier).value
  {
    if frontier != [] && !IsFillUp(g, frontier[0]) {
      FirstIsFirst(g, frontier[1..]);
    }
  }

  /** A suspended run is resumed from its saved path if and only if the id of the first fill-up
      among what the last batch contributed carries the kind name; otherwise the next run starts
      a new begin behind that path. */
  lemma ResumesIffNamed(g: Graph, o: Oracle, s: State)
    requires WellFormed(g) && s.phase.Running? && s.idx <= |s.path| && !s.failed
    requires Step(g, o, s).phase.Suspended?
    ensures s.idx <= |s.path| && Known(g, s.path[s.idx..])
    ensures var (p, end) := BatchPath(g, o, s);
      var first := FirstFillUp(g, p[end..]);
      var saved := Step(g, o, s).path;
      && first.Some?
      && (Start(saved) == State(saved, 0, [], false, [], Running) <==> LooksLikeFillUp(first.value))
      && (Start(saved) == State(saved + [BEGIN], |saved|, [], false, [], Running) <==> !LooksLikeFillUp(first.value))
  {
    SuspendedPath(g, o, s);
    hide WellFormed, Step, BatchPath, LooksLikeFillUp, Filtered;
    var (p, end) := BatchPath(g, o, s);
    FirstIsFirst(g, p[end..]);
    var saved := Step(g, o, s).path;
    assert saved[0] == FirstFillUp(g, p[end..]).value;
    assert |saved + [BEGIN]| > |saved|;
  }
}
