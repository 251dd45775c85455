/** The scheduler cannot tell a renamed canvas from the original: for a renaming that is
    injective on the component ids, every run of the renamed canvas is the renamed run. */
module CanvasRenaming {
  import opened PyValues
  import opened CanvasGraph
  import opened CanvasSpec

  type Renaming = Id -> Id

  // ---- renaming everything a run is made of ----

  function MapIds(f: Renaming, ids: seq<Id>): (r: seq<Id>)
    ensures |r| == |ids| && forall i :: 0 <= i < |ids| ==> r[i] == f(ids[i])
  {
    seq(|ids|, i requires 0 <= i < |ids| => f(ids[i]))
  }

  function MapOption(f: Renaming, id: Option<Id>): Option<Id> {
    if id.Some? then Some(f(id.value)) else None
  }

  /** The empty string in a dependency list is no reference. */
  function MapDeps(f: Renaming, deps: seq<Id>): (r: seq<Id>)
    ensures |r| == |deps|
  {
    seq(|deps|, i requires 0 <= i < |deps| => if deps[i] == "" then "" else f(deps[i]))
  }

  function MapComponent(f: Renaming, c: Component): Component {
    Component(c.kind, MapDeps(f, c.deps), MapIds(f, c.downstream), MapOption(f, c.parent),
              Handler(MapIds(f, c.handler.goto), c.handler.hasDefault))
  }

  ghost function MapReport(f: Renaming, r: Report): Report {
    Report(r.failed, set id | id in r.streaming :: f(id), r.ended, MapIds(f, r.next))
  }

  ghost function MapOracle(f: Renaming, o: Oracle): Oracle {
    Oracle((i: nat) => MapReport(f, o.report(i)), o.asks)
  }

  function MapEvent(f: Renaming, e: Event): Event {
    match e
    case NodeStarted(id) => NodeStarted(f(id))
    case MessageDone(id) => MessageDone(f(id))
    case DefaultMessage(id) => DefaultMessage(f(id))
    case NodeFinished(id, late) => NodeFinished(f(id), late)
    case ContainerFinished(id) => ContainerFinished(f(id))
    case UserInputs => UserInputs
    case WorkflowFinished(id) => WorkflowFinished(f(id))
  }

  function MapEvents(f: Renaming, es: seq<Event>): (r: seq<Event>)
    ensures |r| == |es| && forall i :: 0 <= i < |es| ==> r[i] == MapEvent(f, es[i])
  {
    seq(|es|, i requires 0 <= i < |es| => MapEvent(f, es[i]))
  }

  function MapState(f: Renaming, s: State): State {
    State(MapIds(f, s.path), s.idx, MapIds(f, s.partials), s.failed, MapEvents(f, s.events), s.phase)
  }

  // ---- when two canvases are renamings of each other ----

  ghost predicate InjectiveOn(f: Renaming, ids: set<Id>) {
    forall a, b | a in ids && b in ids && f(a) == f(b) :: a == b
  }

  /** `h` is `g` with every id renamed, in the same dictionary order. */
  ghost predicate IsRenamed(f: Renaming, g: Graph, h: Graph) {
    && h.order == MapIds(f, g.order)
    && (forall id <- g.cpn :: f(id) in h.cpn && h.cpn[f(id)] == MapComponent(f, g.cpn[id]))
    && (forall id' <- h.cpn :: exists id <- g.cpn :: f(id) == id')
  }

  /** A renaming the scheduler cannot see. */
  ghost predicate IsFaithful(f: Renaming, g: Graph) {
    && InjectiveOn(f, g.cpn.Keys)
    && f(BEGIN) == BEGIN
    && (forall id <- g.cpn :: f(id) != "" && (LooksLikeFillUp(f(id)) <==> LooksLikeFillUp(id)))
  }

  /** No id in the canvas or in a report dangles. */
  ghost predicate NoDangling(g: Graph, o: Oracle)
    requires WellFormed(g)
  {
    && (forall id <- g.cpn :: forall d <- g.cpn[id].deps :: d == "" || d in g.cpn)
    && (forall id, i: nat, x | id in g.cpn && x in Contributes(g, id, o.report(i)) :: x in g.cpn)
    && (forall i: nat, x | x in o.report(i).streaming :: x in g.cpn)
    && "" !in g.cpn
  }

  // ---- sequences of ids ----

  lemma MapIdsConcat(f: Renaming, a: seq<Id>, b: seq<Id>)
    ensures MapIds(f, a + b) == MapIds(f, a) + MapIds(f, b)
  {
  }

  lemma MapIdsSlice(f: Renaming, a: seq<Id>, i: nat, j: nat)
    requires i <= j <= |a|
    ensures MapIds(f, a)[i..j] == MapIds(f, a[i..j])
  {
  }

  lemma MapIdsMember(f: Renaming, g: Graph, ids: seq<Id>, x: Id)
    requires InjectiveOn(f, g.cpn.Keys) && Known(g, ids) && x in g.cpn
    ensures f(x) in MapIds(f, ids) <==> x in ids
  {
    if f(x) in MapIds(f, ids) {
      var k :| 0 <= k < |ids| && MapIds(f, ids)[k] == f(x);
      assert ids[k] in ids;
    }
    if x in ids {
      var k :| 0 <= k < |ids| && ids[k] == x;
      assert MapIds(f, ids)[k] == f(x);
    }
  }

  lemma RenamedKnown(f: Renaming, g: Graph, h: Graph, ids: seq<Id>)
    requires IsRenamed(f, g, h) && Known(g, ids)
    ensures Known(h, MapIds(f, ids))
  {
    forall y <- MapIds(f, ids) ensures y in h.cpn {
      var k :| 0 <= k < |ids| && MapIds(f, ids)[k] == y;
      assert ids[k] in ids;
    }
  }

  // ---- the pop loop ----

  lemma DepsRenamed(f: Renaming, g: Graph, before: seq<Id>, deps: seq<Id>)
    requires IsFaithful(f, g) && Known(g, before) && forall d <- deps :: d == "" || d in g.cpn
    ensures (forall d <- MapDeps(f, deps) :: d == "" || d in MapIds(f, before))
       <==> (forall d <- deps :: d == "" || d in before)
  {
    hide MapIds, Known, LooksLikeFillUp;
    var mapped := MapDeps(f, deps);
    forall k | 0 <= k < |deps|
      ensures (mapped[k] == "" || mapped[k] in MapIds(f, before)) <==> (deps[k] == "" || deps[k] in before)
    {
      assert deps[k] in deps;
      if deps[k] != "" {
        MapIdsMember(f, g, before, deps[k]);
      }
    }
    assert (forall d <- mapped :: d == "" || d in MapIds(f, before))
      <==> (forall k | 0 <= k < |deps| :: mapped[k] == "" || mapped[k] in MapIds(f, before));
    assert (forall d <- deps :: d == "" || d in before)
      <==> (forall k | 0 <= k < |deps| :: deps[k] == "" || deps[k] in before);
  }

  lemma StaysRenamed(f: Renaming, g: Graph, h: Graph, before: seq<Id>, id: Id)
    requires IsRenamed(f, g, h) && IsFaithful(f, g) && "" !in g.cpn
    requires id in g.cpn && Known(g, before)
    requires forall d <- g.cpn[id].deps :: d == "" || d in g.cpn
    ensures f(id) in h.cpn && (Stays(h, MapIds(f, before), f(id)) <==> Stays(g, before, id))
  {
    ComponentRenamed(f, g, h, id);
    hide IsRenamed, LooksLikeFillUp, MapDeps;
    var first := (before + [id])[0];
    assert first in g.cpn by {
      if before != [] { assert before[0] in before; }
    }
    assert (MapIds(f, before) + [f(id)])[0] == f(first);
    DepsRenamed(f, g, before, g.cpn[id].deps);
  }

  lemma {:induction false} PruneRenamed(f: Renaming, g: Graph, h: Graph, before: seq<Id>, pending: seq<Id>)
    requires IsRenamed(f, g, h) && IsFaithful(f, g) && "" !in g.cpn
    requires Known(g, before) && Known(g, pending)
    requires forall id <- g.cpn :: forall d <- g.cpn[id].deps :: d == "" || d in g.cpn
    ensures Known(h, MapIds(f, pending))
    ensures Prune(h, MapIds(f, before), MapIds(f, pending)) == MapIds(f, Prune(g, before, pending))
    ensures Known(g, Prune(g, before, pending))
    decreases |pending|
  {
    hide Stays, IsFaithful;
    RenamedKnown(f, g, h, pending);
    if pending != [] {
      var id, rest := pending[0], pending[1..];
      assert id in pending;
      StaysRenamed(f, g, h, before, id);
      var b := if Stays(g, before, id) then before + [id] else before;
      assert MapIds(f, before + [id]) == MapIds(f, before) + [f(id)];
      assert MapIds(f, pending)[1..] == MapIds(f, rest);
      PruneRenamed(f, g, h, b, rest);
    }
  }

  // ---- successors ----

  lemma ComponentRenamed(f: Renaming, g: Graph, h: Graph, id: Id)
    requires IsRenamed(f, g, h) && id in g.cpn
    ensures f(id) in h.cpn && h.cpn[f(id)] == MapComponent(f, g.cpn[id])
  {
  }

  lemma StartsRenamed(f: Renaming, g: Graph, h: Graph, id: Id, container: Id)
    requires IsRenamed(f, g, h) && InjectiveOn(f, g.cpn.Keys) && id in g.cpn && container in g.cpn
    requires g.cpn[id].parent.Some? ==> g.cpn[id].parent.value in g.cpn
    ensures StartsContainer(h, f(id), f(container)) <==> StartsContainer(g, id, container)
  {
    ComponentRenamed(f, g, h, id);
    ComponentRenamed(f, g, h, container);
    hide IsRenamed;
    if g.cpn[id].parent.Some? {
      assert f(g.cpn[id].parent.value) == f(container) <==> g.cpn[id].parent.value == container;
    }
  }

  lemma {:induction false} FirstStartRenamed(f: Renaming, g: Graph, h: Graph, ids: seq<Id>, container: Id)
    requires WellFormed(g) && IsRenamed(f, g, h) && InjectiveOn(f, g.cpn.Keys)
    requires Known(g, ids) && container in g.cpn
    ensures FirstStart(h, MapIds(f, ids), f(container)) == MapOption(f, FirstStart(g, ids, container))
    decreases |ids|
  {
    hide IsRenamed, WellFormed, StartsContainer, InjectiveOn;
    if ids != [] {
      assert ids[0] in ids;
      WellFormedAt(g, ids[0]);
      StartsRenamed(f, g, h, ids[0], container);
      assert MapIds(f, ids)[1..] == MapIds(f, ids[1..]);
      FirstStartRenamed(f, g, h, ids[1..], container);
    }
  }

  lemma GetStartRenamed(f: Renaming, g: Graph, h: Graph, container: Id)
    requires WellFormed(g) && IsRenamed(f, g, h) && InjectiveOn(f, g.cpn.Keys) && container in g.cpn
    ensures GetStart(h, f(container)) == MapOption(f, GetStart(g, container))
  {
    OrderCovers(g);
    FirstStartRenamed(f, g, h, g.order, container);
  }

  lemma MapIdsContains(f: Renaming, ids: seq<Id>, y: Id)
    ensures y in MapIds(f, ids) <==> exists x <- ids :: f(x) == y
  {
    if y in MapIds(f, ids) {
      var k :| 0 <= k < |ids| && MapIds(f, ids)[k] == y;
      assert ids[k] in ids;
    }
    if x :| x in ids && f(x) == y {
      var k :| 0 <= k < |ids| && ids[k] == x;
      assert MapIds(f, ids)[k] == y;
    }
  }

  lemma OrderRenamed(f: Renaming, g: Graph, h: Graph, id': Id)
    requires WellFormed(g) && IsRenamed(f, g, h)
    ensures id' in h.order <==> id' in h.cpn
  {
    OrderCovers(g);
    MapIdsContains(f, g.order, id');
    hide WellFormed, MapIds, MapComponent;
  }

  lemma PlaceRenamed(f: Renaming, g: Graph, h: Graph, id: Id)
    requires WellFormed(g) && IsRenamed(f, g, h) && InjectiveOn(f, g.cpn.Keys) && id in g.cpn
    ensures f(id) in h.cpn && Placed(h, f(id))
  {
    GetStartRenamed(f, g, h, id);
    ComponentRenamed(f, g, h, id);
    assert Placed(g, id);
    hide WellFormed, GetStart;
    if g.cpn[id].parent.Some? {
      ComponentRenamed(f, g, h, g.cpn[id].parent.value);
    }
  }

  lemma WellFormedRenamed(f: Renaming, g: Graph, h: Graph)
    requires WellFormed(g) && IsRenamed(f, g, h) && IsFaithful(f, g)
    ensures WellFormed(h)
  {
    hide GetStart, MapComponent, MapIds, Placed;
    forall id' ensures id' in h.order <==> id' in h.cpn {
      OrderRenamed(f, g, h, id');
    }
    forall id' <- h.cpn ensures Placed(h, id') {
      var id :| id in g.cpn && f(id) == id';
      PlaceRenamed(f, g, h, id);
    }
    BeginRenamed(f, g, h);
  }

  lemma BeginRenamed(f: Renaming, g: Graph, h: Graph)
    requires WellFormed(g) && IsRenamed(f, g, h) && IsFaithful(f, g)
    ensures BEGIN in h.cpn && h.cpn[BEGIN].kind.Begin?
  {
    ComponentRenamed(f, g, h, BEGIN);
  }

  lemma ContributesRenamed(f: Renaming, g: Graph, h: Graph, id: Id, r: Report)
    requires WellFormed(g) && WellFormed(h) && IsRenamed(f, g, h) && IsFaithful(f, g) && id in g.cpn
    ensures f(id) in h.cpn && h.cpn[f(id)] == MapComponent(f, g.cpn[id])
    ensures Successors(h, f(id), MapReport(f, r)) == MapIds(f, Successors(g, id, r))
    ensures TakesGoto(h, f(id), MapReport(f, r)) == TakesGoto(g, id, r)
    ensures Unhandled(h, f(id), MapReport(f, r)) == Unhandled(g, id, r)
  {
    ComponentRenamed(f, g, h, id);
    FieldsRenamed(f, g, h, id);
    hide MapComponent;
    SuccessorsRenamed(f, g, h, id, r);
  }

  /** The fields of a renamed component the scheduler reads. */
  lemma FieldsRenamed(f: Renaming, g: Graph, h: Graph, id: Id)
    requires IsRenamed(f, g, h) && id in g.cpn
    ensures f(id) in h.cpn
    ensures var c, c' := g.cpn[id], h.cpn[f(id)];
      && c'.kind == c.kind && c'.downstream == MapIds(f, c.downstream)
      && c'.parent == MapOption(f, c.parent)
      && c'.handler.goto == MapIds(f, c.handler.goto) && c'.handler.hasDefault == c.handler.hasDefault
  {
    ComponentRenamed(f, g, h, id);
  }

  lemma SuccessorsRenamed(f: Renaming, g: Graph, h: Graph, id: Id, r: Report)
    requires WellFormed(g) && WellFormed(h) && IsRenamed(f, g, h) && InjectiveOn(f, g.cpn.Keys)
    requires id in g.cpn && f(id) in h.cpn
    ensures Successors(h, f(id), MapReport(f, r)) == MapIds(f, Successors(g, id, r))
  {
    hide WellFormed, GetStart, IsRenamed, InjectiveOn, MapIds;
    FieldsRenamed(f, g, h, id);
    WellFormedAt(g, id);
    WellFormedAt(h, f(id));
    var c := g.cpn[id];
    if IsContainer(c.kind) {
      GetStartRenamed(f, g, h, id);
      MapOne(f, GetStart(g, id).value);
    }
    if c.parent.Some? {
      GetStartRenamed(f, g, h, c.parent.value);
      FieldsRenamed(f, g, h, c.parent.value);
      MapOne(f, GetStart(g, c.parent.value).value);
    }
    assert MapReport(f, r).ended == r.ended && MapReport(f, r).next == MapIds(f, r.next);
  }

  lemma MapOne(f: Renaming, id: Id)
    ensures MapIds(f, [id]) == [f(id)]
  {
  }

  // ---- post-processing ----

  /** All that one renamed step relies on, and keeps. */
  ghost predicate Renames(f: Renaming, g: Graph, h: Graph) {
    WellFormed(g) && WellFormed(h) && IsRenamed(f, g, h) && IsFaithful(f, g)
  }

  /** The state mentions components only. */
  ghost predicate Clean(g: Graph, s: State) {
    Known(g, s.path) && Known(g, s.partials)
  }

  ghost predicate CleanReport(g: Graph, r: Report) {
    forall x <- r.streaming :: x in g.cpn
  }

  lemma StreamingRenamed(f: Renaming, g: Graph, r: Report, id: Id)
    requires InjectiveOn(f, g.cpn.Keys) && CleanReport(g, r) && id in g.cpn
    ensures f(id) in MapReport(f, r).streaming <==> id in r.streaming
  {
  }

  lemma {:induction false} DrainRenamed(f: Renaming, g: Graph, partials: seq<Id>, r: Report)
    requires InjectiveOn(f, g.cpn.Keys) && CleanReport(g, r) && Known(g, partials)
    ensures DrainCount(MapIds(f, partials), MapReport(f, r).streaming) == DrainCount(partials, r.streaming)
    decreases |partials|
  {
    hide InjectiveOn, MapReport;
    if partials != [] {
      assert partials[0] in partials;
      StreamingRenamed(f, g, r, partials[0]);
      assert MapIds(f, partials)[1..] == MapIds(f, partials[1..]);
      DrainRenamed(f, g, partials[1..], r);
    }
  }

  lemma {:induction false} ExtendRenamed(f: Renaming, g: Graph, path: seq<Id>, ids: seq<Id>)
    requires InjectiveOn(f, g.cpn.Keys) && path != [] && Known(g, path) && Known(g, ids)
    ensures ExtendPath(MapIds(f, path), MapIds(f, ids)) == MapIds(f, ExtendPath(path, ids))
    ensures Known(g, ExtendPath(path, ids))
    decreases |ids|
  {
    if ids != [] {
      assert ids[0] in ids && path[|path| - 1] in path;
      var p := AppendPath(path, ids[0]);
      assert AppendPath(MapIds(f, path), f(ids[0])) == MapIds(f, p);
      assert MapIds(f, ids)[1..] == MapIds(f, ids[1..]);
      ExtendRenamed(f, g, p, ids[1..]);
    }
  }

  lemma MapEventsConcat(f: Renaming, a: seq<Event>, b: seq<Event>)
    ensures MapEvents(f, a + b) == MapEvents(f, a) + MapEvents(f, b)
  {
  }

  lemma MapEventsOne(f: Renaming, a: seq<Event>, e: Event)
    ensures MapEvents(f, a + [e]) == MapEvents(f, a) + [MapEvent(f, e)]
  {
  }

  lemma ReportFields(f: Renaming, r: Report)
    ensures MapReport(f, r).failed == r.failed && MapReport(f, r).ended == r.ended
    ensures MapReport(f, r).next == MapIds(f, r.next)
  {
  }

  lemma KnownConcat(g: Graph, a: seq<Id>, b: seq<Id>)
    requires Known(g, a) && Known(g, b)
    ensures Known(g, a + b)
  {
  }

  lemma KnownSlice(g: Graph, a: seq<Id>, i: nat, j: nat)
    requires Known(g, a) && i <= j <= |a|
    ensures Known(g, a[i..j])
  {
    forall x <- a[i..j] ensures x in g.cpn {
      assert x in a;
    }
  }

  lemma LateEventsRenamed(f: Renaming, ids: seq<Id>)
    ensures MapEvents(f, LateEvents(ids)) == LateEvents(MapIds(f, ids))
  {
  }

  lemma MessageRenamed(f: Renaming, g: Graph, h: Graph, s: State, id: Id, r: Report)
    requires Renames(f, g, h) && Clean(g, s) && CleanReport(g, r) && id in g.cpn && f(id) in h.cpn
    ensures AfterMessage(h, MapState(f, s), f(id), MapReport(f, r)) == MapState(f, AfterMessage(g, s, id, r))
    ensures Clean(g, AfterMessage(g, s, id, r))
  {
    hide WellFormed, IsRenamed, InjectiveOn, DrainCount, MapReport, MapIds, MapEvents, LateEvents, Known;
    FieldsRenamed(f, g, h, id);
    DrainRenamed(f, g, s.partials, r);
    var n := DrainCount(s.partials, r.streaming);
    var done := s.partials[..n];
    MapIdsSlice(f, s.partials, 0, n);
    MapIdsSlice(f, s.partials, n, |s.partials|);
    KnownSlice(g, s.partials, n, |s.partials|);
    assert s.partials[0..n] == done && s.partials[n..|s.partials|] == s.partials[n..];
    var mapped := MapIds(f, s.partials);
    assert mapped[0..n] == mapped[..n] && mapped[n..|s.partials|] == mapped[n..];
    MapEventsOne(f, s.events, MessageDone(id));
    MapEventsConcat(f, s.events + [MessageDone(id)], LateEvents(done));
    LateEventsRenamed(f, done);
  }

  lemma ErrorRenamed(f: Renaming, g: Graph, h: Graph, s: State, id: Id, r: Report)
    requires Renames(f, g, h) && Clean(g, s) && id in g.cpn && f(id) in h.cpn
    requires TakesGoto(g, id, r) ==> Known(g, g.cpn[id].handler.goto)
    ensures AfterError(h, MapState(f, s), f(id), MapReport(f, r)) == MapState(f, AfterError(g, s, id, r))
    ensures Clean(g, AfterError(g, s, id, r))
  {
    hide WellFormed, IsRenamed, IsFaithful, MapReport, MapIds, MapEvents, Known;
    ReportFields(f, r);
    FieldsRenamed(f, g, h, id);
    var goto := g.cpn[id].handler.goto;
    assert MapIds(f, goto) == [] <==> goto == [];
    MapIdsConcat(f, s.path, goto);
    if TakesGoto(g, id, r) {
      KnownConcat(g, s.path, goto);
    }
    MapEventsOne(f, s.events, DefaultMessage(id));
  }

  lemma FinishRenamed(f: Renaming, g: Graph, h: Graph, s: State, id: Id, r: Report)
    requires Renames(f, g, h) && Clean(g, s) && CleanReport(g, r) && id in g.cpn && f(id) in h.cpn
    ensures AfterFinish(h, MapState(f, s), f(id), MapReport(f, r)) == MapState(f, AfterFinish(g, s, id, r))
    ensures Clean(g, AfterFinish(g, s, id, r))
  {
    hide WellFormed, IsRenamed, InjectiveOn, MapReport, MapIds, MapEvents, Known;
    FieldsRenamed(f, g, h, id);
    StreamingRenamed(f, g, r, id);
    MapIdsConcat(f, s.partials, [id]);
    MapOne(f, id);
    assert Known(g, [id]) by { KnownOne(g, id); }
    KnownConcat(g, s.partials, [id]);
    MapEventsOne(f, s.events, NodeFinished(id, false));
  }

  lemma KnownOne(g: Graph, id: Id)
    requires id in g.cpn
    ensures Known(g, [id])
  {
  }

  lemma FollowRenamed(f: Renaming, g: Graph, h: Graph, s: State, id: Id, r: Report)
    requires Renames(f, g, h) && Clean(g, s) && s.path != [] && id in g.cpn && f(id) in h.cpn
    requires !TakesGoto(g, id, r) ==> Known(g, Successors(g, id, r))
    ensures AfterSuccessors(h, MapState(f, s), f(id), MapReport(f, r)) == MapState(f, AfterSuccessors(g, s, id, r))
    ensures Clean(g, AfterSuccessors(g, s, id, r))
  {
    hide WellFormed, IsRenamed, InjectiveOn, Successors, ExtendPath, MapReport, MapIds, MapEvents, Known, TakesGoto;
    ReportFields(f, r);
    FieldsRenamed(f, g, h, id);
    ContributesRenamed(f, g, h, id, r);
    WellFormedAt(g, id);
    if !TakesGoto(g, id, r) {
      ExtendRenamed(f, g, s.path, Successors(g, id, r));
    }
    if g.cpn[id].parent.Some? {
      MapEventsOne(f, s.events, ContainerFinished(g.cpn[id].parent.value));
    }
  }

  lemma NodeRenamed(f: Renaming, g: Graph, h: Graph, o: Oracle, s: State, i: nat)
    requires Renames(f, g, h) && NoDangling(g, o) && Clean(g, s) && i < |s.path|
    ensures s.path[i] in g.cpn && f(s.path[i]) in h.cpn
    ensures PostNode(h, MapState(f, s), i, MapOracle(f, o).report(i)) == MapState(f, PostNode(g, s, i, o.report(i)))
    ensures Clean(g, PostNode(g, s, i, o.report(i)))
  {
    var id, r := s.path[i], o.report(i);
    assert id in s.path;
    FieldsRenamed(f, g, h, id);
    ContributionsKnown(g, o, id, i);
    assert CleanReport(g, r);
    hide WellFormed, IsRenamed, IsFaithful, NoDangling, Clean, CleanReport, MapReport;
    hide AfterMessage, AfterError, AfterFinish, AfterSuccessors, Successors;
    assert MapOracle(f, o).report(i) == MapReport(f, r);
    MessageRenamed(f, g, h, s, id, r);
    var s1 := AfterMessage(g, s, id, r);
    ErrorRenamed(f, g, h, s1, id, r);
    var s2 := AfterError(g, s1, id, r);
    FinishRenamed(f, g, h, s2, id, r);
    var s3 := AfterFinish(g, s2, id, r);
    FollowRenamed(f, g, h, s3, id, r);
  }

  lemma ContributionsKnown(g: Graph, o: Oracle, id: Id, i: nat)
    requires WellFormed(g) && NoDangling(g, o) && id in g.cpn
    ensures Known(g, Contributes(g, id, o.report(i)))
    ensures CleanReport(g, o.report(i))
  {
    hide WellFormed, Contributes;
  }

  lemma {:induction false} RangeRenamed(f: Renaming, g: Graph, h: Graph, o: Oracle, s: State, i: nat, end: nat)
    requires Renames(f, g, h) && NoDangling(g, o) && Clean(g, s) && i <= end <= |s.path|
    ensures Known(g, s.path[i..end]) && Known(h, MapIds(f, s.path)[i..end])
    ensures PostRange(h, MapOracle(f, o), MapState(f, s), i, end) == MapState(f, PostRange(g, o, s, i, end))
    ensures Clean(g, PostRange(g, o, s, i, end))
    decreases end - i
  {
    hide WellFormed, IsRenamed, IsFaithful, NoDangling, PostNode, PostRange, MapOracle;
    RenamedSlice(f, g, h, s.path, i, end);
    if i == end {
      PostRangeEmpty(g, o, s, i);
      PostRangeEmpty(h, MapOracle(f, o), MapState(f, s), i);
    } else {
      PostRangeUnfold(g, o, s, i, end);
      PostRangeUnfold(h, MapOracle(f, o), MapState(f, s), i, end);
      NodeRenamed(f, g, h, o, s, i);
      RangeRenamed(f, g, h, o, PostNode(g, s, i, o.report(i)), i + 1, end);
    }
  }

  lemma RenamedSlice(f: Renaming, g: Graph, h: Graph, path: seq<Id>, i: nat, end: nat)
    requires IsRenamed(f, g, h) && Known(g, path) && i <= end <= |path|
    ensures Known(g, path[i..end]) && Known(h, MapIds(f, path)[i..end])
  {
    forall x <- path[i..end] ensures x in g.cpn {
      assert x in path;
    }
    RenamedKnown(f, g, h, path[i..end]);
    MapIdsSlice(f, path, i, end);
  }

  // ---- the outer loop ----

  lemma PruneStepRenamed(f: Renaming, g: Graph, h: Graph, o: Oracle, s: State)
    requires Renames(f, g, h) && NoDangling(g, o) && Clean(g, s) && s.idx <= |s.path|
    ensures Known(g, s.path[s.idx..]) && Known(h, MapIds(f, s.path)[s.idx..])
    ensures AfterPrune(h, MapState(f, s)) == MapState(f, AfterPrune(g, s))
    ensures Clean(g, AfterPrune(g, s))
  {
    hide WellFormed, IsRenamed, IsFaithful, NoDangling, Prune, MapIds, MapEvents, StartedEvents, Known;
    var before, pending := s.path[..s.idx], s.path[s.idx..];
    assert s.path[0..s.idx] == before && s.path[s.idx..|s.path|] == pending;
    KnownSlice(g, s.path, 0, s.idx);
    RenamedSlice(f, g, h, s.path, s.idx, |s.path|);
    DepsKnown(g, o);
    PruneRenamed(f, g, h, before, pending);
    MapIdsSlice(f, s.path, 0, s.idx);
    MapIdsSlice(f, s.path, s.idx, |s.path|);
    var mapped := MapIds(f, s.path);
    assert mapped[0..s.idx] == mapped[..s.idx] && mapped[s.idx..|s.path|] == mapped[s.idx..];
    StartedEventsRenamed(f, pending);
    MapEventsConcat(f, s.events, StartedEvents(pending));
  }

  lemma StartedEventsRenamed(f: Renaming, ids: seq<Id>)
    ensures MapEvents(f, StartedEvents(ids)) == StartedEvents(MapIds(f, ids))
  {
  }

  lemma DepsKnown(g: Graph, o: Oracle)
    requires WellFormed(g) && NoDangling(g, o)
    ensures forall id <- g.cpn :: forall d <- g.cpn[id].deps :: d == "" || d in g.cpn
    ensures "" !in g.cpn
  {
    hide WellFormed, Contributes;
  }

  lemma {:induction false} FilteredRenamed(f: Renaming, g: Graph, h: Graph, ids: seq<Id>, fillUps: bool)
    requires IsRenamed(f, g, h) && Known(g, ids)
    ensures Filtered(h, MapIds(f, ids), fillUps) == MapIds(f, Filtered(g, ids, fillUps))
    decreases |ids|
  {
    hide IsRenamed;
    if ids != [] {
      assert ids[0] in ids;
      FieldsRenamed(f, g, h, ids[0]);
      assert MapIds(f, ids)[1..] == MapIds(f, ids[1..]);
      FilteredRenamed(f, g, h, ids[1..], fillUps);
    }
  }

  lemma FrontierRenamed(f: Renaming, g: Graph, h: Graph, frontier: seq<Id>)
    requires IsRenamed(f, g, h) && Known(g, frontier)
    ensures FillUpsFirst(h, MapIds(f, frontier)) == MapIds(f, FillUpsFirst(g, frontier))
    ensures (exists id <- MapIds(f, frontier) :: IsFillUp(h, id)) <==> (exists id <- frontier :: IsFillUp(g, id))
  {
    hide IsRenamed, Filtered, MapIds, Known, IsFillUp;
    FilteredRenamed(f, g, h, frontier, true);
    FilteredRenamed(f, g, h, frontier, false);
    FilteredFillUps(g, frontier);
    FilteredFillUps(h, MapIds(f, frontier));
    assert MapIds(f, Filtered(g, frontier, true)) == [] <==> Filtered(g, frontier, true) == [];
    MapIdsConcat(f, Filtered(g, frontier, true), Filtered(g, frontier, false));
  }

  lemma SettleRenamed(f: Renaming, g: Graph, h: Graph, o: Oracle, s: State, end: nat)
    requires Renames(f, g, h) && Clean(g, s) && s.idx <= |s.path| && end <= |s.path|
    ensures Settle(h, MapOracle(f, o), MapState(f, s), end) == MapState(f, Settle(g, o, s, end))
    ensures Settle(g, o, s, end).phase.Running? ==> Clean(g, Settle(g, o, s, end))
  {
    hide WellFormed, IsRenamed, IsFaithful, FillUpsFirst, MapIds, MapEvents, Known, IsFillUp;
    var frontier := s.path[end..];
    var mapped := MapIds(f, s.path);
    assert s.path[end..|s.path|] == frontier && s.path[0..s.idx] == s.path[..s.idx];
    assert mapped[0..s.idx] == mapped[..s.idx] && mapped[end..|s.path|] == mapped[end..];
    KnownSlice(g, s.path, end, |s.path|);
    MapIdsSlice(f, s.path, 0, s.idx);
    MapIdsSlice(f, s.path, end, |s.path|);
    FrontierRenamed(f, g, h, frontier);
    MapEventsOne(f, s.events, UserInputs);
    assert MapOracle(f, o).asks(end) == o.asks(end);
  }

  lemma StepRenamed(f: Renaming, g: Graph, h: Graph, o: Oracle, s: State)
    requires Renames(f, g, h) && NoDangling(g, o) && Clean(g, s)
    requires s.phase.Running? && s.idx <= |s.path|
    ensures Step(h, MapOracle(f, o), MapState(f, s)) == MapState(f, Step(g, o, s))
    ensures Step(g, o, s).phase.Running? ==> Clean(g, Step(g, o, s))
  {
    hide WellFormed, IsRenamed, IsFaithful, NoDangling, MapOracle, Prune, PostRange, Settle, StartedEvents, Clean;
    PruneStepRenamed(f, g, h, o, s);
    if s.idx == |s.path| {
      if s.path != [] {
        MapEventsOne(f, s.events, WorkflowFinished(s.path[|s.path| - 1]));
      }
      assert MapEvents(f, s.events) + [] == MapEvents(f, s.events) && s.events + [] == s.events;
    } else {
      PruneKnown(g, s.path[..s.idx], s.path[s.idx..]);
      var s1 := AfterPrune(g, s);
      PostRangeFrame(g, o, s1, s.idx, |s1.path|);
      RangeRenamed(f, g, h, o, s1, s.idx, |s1.path|);
      SettleRenamed(f, g, h, o, PostRange(g, o, s1, s.idx, |s1.path|), |s1.path|);
    }
  }

  lemma {:induction false} StepsRenamed(f: Renaming, g: Graph, h: Graph, o: Oracle, s: State, n: nat)
    requires Renames(f, g, h) && NoDangling(g, o) && (s.phase.Running? ==> Clean(g, s) && s.idx <= |s.path|)
    ensures RunSteps(h, MapOracle(f, o), MapState(f, s), n) == MapState(f, RunSteps(g, o, s, n))
    decreases n
  {
    hide WellFormed, IsRenamed, IsFaithful, NoDangling, MapOracle, Step, Clean;
    if n > 0 && s.phase.Running? {
      StepKeepsIndex(g, o, s);
      StepRenamed(f, g, h, o, s);
      StepsRenamed(f, g, h, o, Step(g, o, s), n - 1);
    }
  }

  /** Running the renamed canvas, with the reports renamed along, is renaming the run: for any
      saved path of components, any reports, and any number of turns. */
  lemma RunsAreRenamed(f: Renaming, g: Graph, h: Graph, o: Oracle, path: seq<Id>, n: nat)
    requires WellFormed(g) && IsRenamed(f, g, h) && IsFaithful(f, g)
    requires NoDangling(g, o) && Known(g, path)
    ensures WellFormed(h)
    ensures Start(MapIds(f, path)) == MapState(f, Start(path))
    ensures RunSteps(h, MapOracle(f, o), Start(MapIds(f, path)), n) == MapState(f, RunSteps(g, o, Start(path), n))
  {
    WellFormedRenamed(f, g, h);
    StartRenamed(f, g, path);
    hide WellFormed, IsRenamed, NoDangling, MapOracle, RunSteps;
    StepsRenamed(f, g, h, o, Start(path), n);
  }

  lemma StartRenamed(f: Renaming, g: Graph, path: seq<Id>)
    requires WellFormed(g) && IsFaithful(f, g) && Known(g, path)
    ensures Start(MapIds(f, path)) == MapState(f, Start(path))
    ensures Clean(g, Start(path))
  {
    if path != [] {
      assert path[0] in path;
    }
    assert MapIds(f, path + [BEGIN]) == MapIds(f, path) + [BEGIN];
    assert MapEvents(f, []) == [] && MapIds(f, []) == [];
  }
}
