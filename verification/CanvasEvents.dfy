/** What a run reports and where it goes, written out: the events of one component and of one turn,
    the edges by kind of component, and when a turn fails, suspends or finishes (agent/canvas.py). */
module CanvasEvents {
  import opened Text
  import opened PyValues
  import opened CanvasGraph
  import opened CanvasSpec
  import opened CanvasSafety
  import opened CanvasPaths

  // ---- one component ----

  /** `n` of the queued partials are ready: up to the first that still streams. */
  predicate ReadyAre(partials: seq<Id>, streaming: set<Id>, n: nat) {
    && n <= |partials| && (forall k | 0 <= k < n :: partials[k] !in streaming)
    && (n < |partials| ==> partials[n] in streaming)
  }

  lemma {:induction false} DrainIsReady(partials: seq<Id>, streaming: set<Id>)
    ensures ReadyAre(partials, streaming, DrainCount(partials, streaming))
    ensures forall n: nat | ReadyAre(partials, streaming, n) :: n == DrainCount(partials, streaming)
  {
    if partials != [] && partials[0] !in streaming {
      DrainIsReady(partials[1..], streaming);
      forall n: nat | ReadyAre(partials, streaming, n) ensures n == DrainCount(partials, streaming) {
        assert n > 0;
        assert ReadyAre(partials[1..], streaming, n - 1);
      }
    }
  }

  /** Nobody handles the failure of this component. */
  predicate FailsRun(g: Graph, id: Id, r: Report)
    requires id in g.cpn
  {
    r.failed && g.cpn[id].handler == Handler([], false)
  }

  /** Its content is an unread stream, to be reported when it is read. */
  predicate Waits(g: Graph, id: Id, r: Report, failed: bool)
    requires id in g.cpn
  {
    var kind := g.cpn[id].kind;
    && kind != Iteration && kind != Loop && kind != Message && id in r.streaming
    && !failed && !FailsRun(g, id, r)
  }

  /** The events of one component, in order: its message and the ready partials, the default for a
      handled failure, its own end unless it waits, and the end of the container it closed. */
  lemma EventsOfNode(g: Graph, s: State, i: nat, r: Report, n: nat)
    requires WellFormed(g) && i < |s.path| && s.path[i] in g.cpn && ReadyAre(s.partials, r.streaming, n)
    ensures var id := s.path[i];
      var c := g.cpn[id];
      var t := PostNode(g, s, i, r);
      var late := seq(n, k requires 0 <= k < n => NodeFinished(s.partials[k], true));
      && t.events == s.events
           + (if c.kind == Message then [MessageDone(id)] + late else [])
           + (if r.failed && c.handler.goto == [] && c.handler.hasDefault then [DefaultMessage(id)] else [])
           + (if c.kind != Iteration && c.kind != Loop && !Waits(g, id, r, s.failed) then [NodeFinished(id, false)] else [])
           + (if (c.kind == IterationItem || c.kind == LoopItem) && r.ended then [ContainerFinished(c.parent.value)] else [])
      && t.partials == (if c.kind == Message then s.partials[n..] else s.partials)
           + (if Waits(g, id, r, s.failed) then [id] else [])
      && t.failed == (s.failed || FailsRun(g, id, r))
  {
    var id := s.path[i];
    var c := g.cpn[id];
    DrainIsReady(s.partials, r.streaming);
    hide WellFormed, Successors, ExtendPath, DrainCount, ReadyAre;
    assert LateEvents(s.partials[..n]) == seq(n, k requires 0 <= k < n => NodeFinished(s.partials[k], true));
    MessageEvents(g, s, id, r);
    hide LateEvents, AfterMessage;
    var s1 := AfterMessage(g, s, id, r);
    ErrorEvents(g, s1, id, r);
    var s2 := AfterError(g, s1, id, r);
    FinishEvents(g, s2, id, r);
    var s3 := AfterFinish(g, s2, id, r);
    SuccessorEvents(g, s3, id, r);
    hide AfterError, AfterFinish, AfterSuccessors, TakesGoto, Unhandled, FailsRun, Waits;
  }

  lemma MessageEvents(g: Graph, s: State, id: Id, r: Report)
    requires id in g.cpn
    ensures var n := DrainCount(s.partials, r.streaming);
      var t := AfterMessage(g, s, id, r);
      && t.events == s.events + (if g.cpn[id].kind == Message then [MessageDone(id)] + LateEvents(s.partials[..n]) else [])
      && t.partials == if g.cpn[id].kind == Message then s.partials[n..] else s.partials
  {
  }

  lemma ErrorEvents(g: Graph, s: State, id: Id, r: Report)
    requires id in g.cpn
    ensures var t := AfterError(g, s, id, r);
      var h := g.cpn[id].handler;
      && t.events == s.events + (if r.failed && h.goto == [] && h.hasDefault then [DefaultMessage(id)] else [])
      && t.partials == s.partials && t.failed == (s.failed || FailsRun(g, id, r))
  {
  }

  lemma FinishEvents(g: Graph, s: State, id: Id, r: Report)
    requires id in g.cpn && (FailsRun(g, id, r) ==> s.failed)
    ensures var t := AfterFinish(g, s, id, r);
      var kind := g.cpn[id].kind;
      && t.events == s.events
           + (if kind != Iteration && kind != Loop && !Waits(g, id, r, s.failed) then [NodeFinished(id, false)] else [])
      && t.partials == s.partials + (if Waits(g, id, r, s.failed) then [id] else [])
  {
  }

  lemma SuccessorEvents(g: Graph, s: State, id: Id, r: Report)
    requires WellFormed(g) && id in g.cpn && s.path != []
    ensures var t := AfterSuccessors(g, s, id, r);
      var c := g.cpn[id];
      && t.partials == s.partials
      && t.events == s.events
           + (if (c.kind == IterationItem || c.kind == LoopItem) && r.ended then [ContainerFinished(c.parent.value)] else [])
  {
    WellFormedAt(g, id);
    hide WellFormed, Successors, ExtendPath;
  }

  // ---- edges by kind ----

  /** The first component inside the container that is its item: of an iteration an iteration item,
      of a loop a loop item. */
  ghost predicate IsStartOf(g: Graph, start: Id, container: Id) {
    exists i | 0 <= i < |g.order| :: g.order[i] == start && StartsAt(g, container, i)
      && forall j | 0 <= j < i :: !StartsAt(g, container, j)
  }

  predicate StartsAt(g: Graph, container: Id, i: nat) {
    && i < |g.order| && g.order[i] in g.cpn && container in g.cpn
    && g.cpn[g.order[i]].parent == Some(container)
    && ((g.cpn[container].kind == Iteration && g.cpn[g.order[i]].kind == IterationItem)
        || (g.cpn[container].kind == Loop && g.cpn[g.order[i]].kind == LoopItem))
  }

  lemma {:induction false} FirstStartIs(g: Graph, container: Id, n: nat)
    requires n <= |g.order| && (forall j | 0 <= j < n :: !StartsAt(g, container, j))
    ensures FirstStart(g, g.order[n..], container).Some? ==> IsStartOf(g, FirstStart(g, g.order[n..], container).value, container)
    decreases |g.order| - n
  {
    if n < |g.order| {
      assert g.order[n..][0] == g.order[n] && g.order[n..][1..] == g.order[n + 1..];
      if !StartsAt(g, container, n) {
        FirstStartIs(g, container, n + 1);
      }
    }
  }

  lemma StartIs(g: Graph, container: Id)
    requires GetStart(g, container).Some?
    ensures IsStartOf(g, GetStart(g, container).value, container)
  {
    assert g.order[0..] == g.order;
    FirstStartIs(g, container, 0);
  }

  /** What follows a component: its goto targets after a failure it has some for; otherwise an ended
      item leaves its container, a router goes where it chose, a container starts its item, an exit
      leaves its loop, and the last component inside a container goes back to the item. */
  lemma EdgesByKind(g: Graph, id: Id, r: Report)
    requires WellFormed(g) && id in g.cpn
    ensures var c := g.cpn[id];
      var edges := Contributes(g, id, r);
      if r.failed && c.handler.goto != [] then edges == c.handler.goto
      else if (c.kind == IterationItem || c.kind == LoopItem) && r.ended then
        edges == g.cpn[c.parent.value].downstream
      else if c.kind == Categorize || c.kind == Switch then edges == r.next
      else if c.kind == Iteration || c.kind == Loop then |edges| == 1 && IsStartOf(g, edges[0], id)
      else if c.kind == ExitLoop && g.cpn[c.parent.value].kind == Loop then
        edges == g.cpn[c.parent.value].downstream
      else if c.downstream == [] && c.parent.Some? then |edges| == 1 && IsStartOf(g, edges[0], c.parent.value)
      else edges == c.downstream
  {
    WellFormedAt(g, id);
    var c := g.cpn[id];
    if c.kind.Iteration? || c.kind.Loop? {
      StartIs(g, id);
    }
    if c.parent.Some? {
      StartIs(g, c.parent.value);
    }
    hide WellFormed, GetStart, IsStartOf;
  }

  // ---- one turn ----

  lemma NodeEventsGrow(g: Graph, s: State, i: nat, r: Report)
    requires WellFormed(g) && i < |s.path| && s.path[i] in g.cpn
    ensures s.events <= PostNode(g, s, i, r).events
    ensures PostNode(g, s, i, r).failed == (s.failed || FailsRun(g, s.path[i], r))
  {
    DrainIsReady(s.partials, r.streaming);
    EventsOfNode(g, s, i, r, DrainCount(s.partials, r.streaming));
    hide WellFormed, PostNode, Waits, FailsRun;
  }

  lemma {:induction false} RangeEventsGrow(g: Graph, o: Oracle, s: State, i: nat, end: nat)
    requires WellFormed(g) && i <= end <= |s.path| && Known(g, s.path[i..end])
    ensures s.events <= PostRange(g, o, s, i, end).events
    ensures PostRange(g, o, s, i, end).failed
       <==> s.failed || exists k | i <= k < end && s.path[k] in g.cpn :: FailsRun(g, s.path[k], o.report(k))
    decreases end - i
  {
    hide WellFormed, PostNode, PostRange, FailsRun;
    if i == end {
      PostRangeEmpty(g, o, s, i);
    } else {
      PostRangeUnfold(g, o, s, i, end);
      NodeEventsGrow(g, s, i, o.report(i));
      var t := PostNode(g, s, i, o.report(i));
      RangeEventsGrow(g, o, t, i + 1, end);
      assert forall k | i <= k < end :: t.path[k] == s.path[k];
    }
  }

  /** Entry `k` of the batch failed and had neither a goto nor a default. */
  ghost predicate FailsAt(g: Graph, o: Oracle, s: State, k: nat)
    requires HasBatch(g, s)
  {
    && s.idx <= k < |AfterPrune(g, s).path| && AfterPrune(g, s).path[k] in g.cpn
    && FailsRun(g, AfterPrune(g, s).path[k], o.report(k))
  }

  /** A turn over a batch announces its pending components first, in order, and fails if and only if
      one of those that run fails unhandled; it suspends if and only if it does not fail and a fill-up
      stands behind the batch that still asks for inputs. */
  lemma TurnOfBatch(g: Graph, o: Oracle, s: State)
    requires WellFormed(g) && s.phase.Running? && s.idx < |s.path| && HasBatch(g, s)
    ensures var (p, end) := BatchPath(g, o, s);
      var t := Step(g, o, s);
      var failed := s.failed || exists k: nat :: FailsAt(g, o, s, k);
      var asks := (exists id <- p[end..] :: id in g.cpn && g.cpn[id].kind == UserFillUp) && o.asks(end);
      && |t.events| >= |s.events| + |s.path| - s.idx
      && (forall k | 0 <= k < |s.events| :: t.events[k] == s.events[k])
      && (forall k | s.idx <= k < |s.path| :: t.events[|s.events| + k - s.idx] == NodeStarted(s.path[k]))
      && (t.phase == Failed <==> failed)
      && (t.phase == Suspended <==> !failed && asks)
      && (t.phase == Running <==> !failed && !asks)
      && (t.phase == Suspended ==> t.events[|t.events| - 1] == UserInputs)
  {
    hide WellFormed, Step, AfterPrune, FailsAt, BatchPath, StateAt, Settle, StartedEvents;
    BatchProcessed(g, o, s);
    var (p, end) := BatchPath(g, o, s);
    var s2 := StateAt(g, o, s, end);
    StartedFirst(s.events, s.path[s.idx..], s2.events);
    assert forall k | s.idx <= k < |s.path| :: s.path[k] == s.path[s.idx..][k - s.idx];
    SettleSays(g, o, s2, end);
  }

  /** The state after the post-processing of the batch, which the turn then settles. */
  lemma BatchProcessed(g: Graph, o: Oracle, s: State)
    requires WellFormed(g) && s.phase.Running? && s.idx < |s.path| && HasBatch(g, s)
    ensures BatchPath(g, o, s).1 == |AfterPrune(g, s).path|
    ensures var (p, end) := BatchPath(g, o, s);
      var t := StateAt(g, o, s, end);
      && t.path == p && t.idx == s.idx <= |p| && t.phase.Running?
      && s.events + StartedEvents(s.path[s.idx..]) <= t.events
      && (t.failed <==> s.failed || exists k: nat :: FailsAt(g, o, s, k))
      && Step(g, o, s) == Settle(g, o, t, end)
  {
    hide WellFormed, Prune, PostRange, FillUpsFirst, FailsRun, StartedEvents, Settle;
    var s1 := AfterPrune(g, s);
    var end := |s1.path|;
    PruneKnown(g, s.path[..s.idx], s.path[s.idx..]);
    assert s1.path[s.idx..end] == s1.path[s.idx..];
    PostRangeFrame(g, o, s1, s.idx, end);
    RangeEventsGrow(g, o, s1, s.idx, end);
    SomeFails(g, o, s);
    hide AfterPrune, FailsAt;
  }

  lemma SomeFails(g: Graph, o: Oracle, s: State)
    requires HasBatch(g, s)
    ensures (exists k: nat :: FailsAt(g, o, s, k))
      <==> exists k | s.idx <= k < |AfterPrune(g, s).path| && AfterPrune(g, s).path[k] in g.cpn ::
             FailsRun(g, AfterPrune(g, s).path[k], o.report(k))
  {
    hide FailsRun, AfterPrune;
    if k :| s.idx <= k < |AfterPrune(g, s).path| && AfterPrune(g, s).path[k] in g.cpn
            && FailsRun(g, AfterPrune(g, s).path[k], o.report(k)) {
      assert FailsAt(g, o, s, k);
    }
  }

  lemma StartedFirst(events: seq<Event>, ids: seq<Id>, after: seq<Event>)
    requires events + StartedEvents(ids) <= after
    ensures |after| >= |events| + |ids|
    ensures forall k | 0 <= k < |events| :: after[k] == events[k]
    ensures forall k | 0 <= k < |ids| :: after[|events| + k] == NodeStarted(ids[k])
  {
    var whole := events + StartedEvents(ids);
    forall k | 0 <= k < |whole| ensures after[k] == whole[k] {
    }
    forall k | 0 <= k < |ids| ensures after[|events| + k] == NodeStarted(ids[k]) {
      assert whole[|events| + k] == StartedEvents(ids)[k];
    }
  }

  lemma SettleSays(g: Graph, o: Oracle, s: State, end: nat)
    requires s.phase.Running? && s.idx <= |s.path| && end <= |s.path|
    ensures var t := Settle(g, o, s, end);
      var asks := (exists id <- s.path[end..] :: id in g.cpn && g.cpn[id].kind == UserFillUp) && o.asks(end);
      && s.events <= t.events
      && (t.phase == Failed <==> s.failed) && (t.phase == Suspended <==> !s.failed && asks)
      && (t.phase == Running <==> !s.failed && !asks)
      && (t.phase == Suspended ==> t.events == s.events + [UserInputs])
  {
    hide FillUpsFirst;
  }

  /** A turn that finds nothing pending finishes the run and reports the last component of the path,
      and no other turn does. */
  lemma TurnAtTheEnd(g: Graph, o: Oracle, s: State)
    requires WellFormed(g) && s.phase.Running? && s.idx <= |s.path|
    ensures Step(g, o, s).phase == Finished <==> s.idx == |s.path|
    ensures s.idx == |s.path| && s.path != [] ==>
      Step(g, o, s).events == s.events + [WorkflowFinished(s.path[|s.path| - 1])]
  {
    if s.idx < |s.path| && HasBatch(g, s) {
      hide WellFormed, Step, BatchPath;
      TurnOfBatch(g, o, s);
    } else {
      hide WellFormed, KnownPrefix;
    }
  }

  /** One that finds an unknown id crashes after announcing those before the first. */
  lemma TurnOfUnknown(g: Graph, o: Oracle, s: State, k: nat)
    requires WellFormed(g) && s.phase.Running? && s.idx <= k < |s.path|
    requires s.path[k] !in g.cpn && forall j | s.idx <= j < k :: s.path[j] in g.cpn
    ensures var t := Step(g, o, s);
      && t.phase == Crashed && t.path == s.path && |t.events| == |s.events| + k - s.idx
      && (forall j | 0 <= j < |s.events| :: t.events[j] == s.events[j])
      && forall j | s.idx <= j < k :: t.events[|s.events| + j - s.idx] == NodeStarted(s.path[j])
  {
    hide WellFormed, Step, KnownPrefix, StartedEvents;
    var pending := s.path[s.idx..];
    assert pending[k - s.idx] == s.path[k] && pending[k - s.idx] in pending;
    assert forall j | s.idx <= j < k :: pending[j - s.idx] == s.path[j];
    KnownPrefixIs(g, pending, k - s.idx);
    UnknownCrashes(g, o, s);
    StartedFirst(s.events, pending[..k - s.idx], Step(g, o, s).events);
    assert |StartedEvents(pending[..k - s.idx])| == k - s.idx by { StartedLength(pending[..k - s.idx]); }
  }

  lemma StartedLength(ids: seq<Id>)
    ensures |StartedEvents(ids)| == |ids|
  {
  }

  lemma UnknownCrashes(g: Graph, o: Oracle, s: State)
    requires WellFormed(g) && s.phase.Running? && s.idx < |s.path| && !HasBatch(g, s)
    ensures Step(g, o, s) == s.(phase := Crashed, events := s.events + StartedEvents(KnownPrefix(g, s.path[s.idx..])))
  {
    hide WellFormed, KnownPrefix, StartedEvents;
  }

  lemma {:induction false} KnownPrefixIs(g: Graph, ids: seq<Id>, n: nat)
    requires n < |ids| && ids[n] !in g.cpn && forall j | 0 <= j < n :: ids[j] in g.cpn
    ensures KnownPrefix(g, ids) == ids[..n]
  {
    if n > 0 {
      KnownPrefixIs(g, ids[1..], n - 1);
      assert ids[..n] == [ids[0]] + ids[1..][..n - 1];
    }
  }

  // ---- names ----

  const FILL_UP: string := "userfillup"

  predicate SpellsAt(id: Id, i: nat) {
    i + |FILL_UP| <= |id| && SameLetters(id[i..i + |FILL_UP|], FILL_UP)
  }

  /** An id looks like a fill-up if the name of the kind stands in it, in upper or lower case. */
  lemma LooksAreNames(id: Id)
    ensures LooksLikeFillUp(id) <==> exists i: nat :: SpellsAt(id, i)
  {
    hide SameLetters, FILL_UP, Lower;
    LowerFillUp();
    forall i: nat ensures OccursAt(FILL_UP, Lower(id), i) <==> SpellsAt(id, i) {
      if i + |FILL_UP| <= |id| {
        LowerIs(id[i..i + |FILL_UP|], FILL_UP);
        assert Lower(id)[i..i + |FILL_UP|] == Lower(id[i..i + |FILL_UP|]);
      }
    }
    if i: nat :| SpellsAt(id, i) {
      assert OccursAt(FILL_UP, Lower(id), i);
    }
  }

  lemma LowerFillUp()
    ensures Lower(FILL_UP) == FILL_UP
    ensures forall id :: LooksLikeFillUp(id) <==> Occurs(FILL_UP, Lower(id))
  {
  }
}
