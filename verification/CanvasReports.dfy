/** Conservation of node-finished events: every processed component is reported at once, or
    queued and reported later in first-in-first-out order, never both and never twice. */
module CanvasReports {
  import opened CanvasGraph
  import opened CanvasSpec
  import opened CanvasSafety

  /** Components reported from the queue, in the order of their events. */
  function LateIds(events: seq<Event>): seq<Id> {
    if events == [] then []
    else (if events[0].NodeFinished? && events[0].late then [events[0].id] else []) + LateIds(events[1..])
  }

  /** Components reported when they were processed. */
  function PromptIds(events: seq<Event>): seq<Id> {
    if events == [] then []
    else (if events[0].NodeFinished? && !events[0].late then [events[0].id] else []) + PromptIds(events[1..])
  }

  lemma {:induction false} LateConcat(a: seq<Event>, b: seq<Event>)
    ensures LateIds(a + b) == LateIds(a) + LateIds(b)
  {
    if a == [] {
      assert a + b == b;
    } else {
      assert (a + b)[0] == a[0] && (a + b)[1..] == a[1..] + b;
      LateConcat(a[1..], b);
    }
  }

  lemma {:induction false} PromptConcat(a: seq<Event>, b: seq<Event>)
    ensures PromptIds(a + b) == PromptIds(a) + PromptIds(b)
  {
    if a == [] {
      assert a + b == b;
    } else {
      assert (a + b)[0] == a[0] && (a + b)[1..] == a[1..] + b;
      PromptConcat(a[1..], b);
    }
  }

  lemma IdsConcat(a: seq<Event>, b: seq<Event>)
    ensures LateIds(a + b) == LateIds(a) + LateIds(b)
    ensures PromptIds(a + b) == PromptIds(a) + PromptIds(b)
  {
    LateConcat(a, b);
    PromptConcat(a, b);
  }

  lemma {:induction false} LateEventsAreLate(ids: seq<Id>)
    ensures LateIds(LateEvents(ids)) == ids && PromptIds(LateEvents(ids)) == []
  {
    if ids != [] {
      assert LateEvents(ids)[1..] == LateEvents(ids[1..]);
      LateEventsAreLate(ids[1..]);
    }
  }

  lemma {:induction false} StartedEventsReportNothing(ids: seq<Id>)
    ensures LateIds(StartedEvents(ids)) == [] && PromptIds(StartedEvents(ids)) == []
  {
    if ids != [] {
      assert StartedEvents(ids)[1..] == StartedEvents(ids[1..]);
      StartedEventsReportNothing(ids[1..]);
    }
  }

  lemma OneEvent(e: Event)
    ensures LateIds([e]) == if e.NodeFinished? && e.late then [e.id] else []
    ensures PromptIds([e]) == if e.NodeFinished? && !e.late then [e.id] else []
  {
    assert [e][1..] == [];
  }

  // ---- what should be reported, from the path and the reports alone ----

  /** Has an unhandled failure stopped the run by the time index `k` is reported? */
  predicate FailedBy(g: Graph, o: Oracle, path: seq<Id>, failed: bool, k: nat)
    requires k < |path| && path[k] in g.cpn
  {
    failed || Unhandled(g, path[k], o.report(k))
  }

  /** The components of `path[i..end]` that go to the queue, in order. */
  function Queued(g: Graph, o: Oracle, path: seq<Id>, i: nat, end: nat, failed: bool): seq<Id>
    requires i <= end <= |path| && Known(g, path[i..end])
    decreases end - i
  {
    if i == end then []
    else
      assert path[i] == path[i..end][0] && path[i + 1..end] == path[i..end][1..];
      var f := FailedBy(g, o, path, failed, i);
      (if IsDeferred(g, path[i], o.report(i), f) then [path[i]] else []) + Queued(g, o, path, i + 1, end, f)
  }

  /** The components of `path[i..end]` that are reported at once, in order. */
  function Reported(g: Graph, o: Oracle, path: seq<Id>, i: nat, end: nat, failed: bool): seq<Id>
    requires i <= end <= |path| && Known(g, path[i..end])
    decreases end - i
  {
    if i == end then []
    else
      assert path[i] == path[i..end][0] && path[i + 1..end] == path[i..end][1..];
      var f := FailedBy(g, o, path, failed, i);
      (if !IsContainer(g.cpn[path[i]].kind) && !IsDeferred(g, path[i], o.report(i), f) then [path[i]] else [])
      + Reported(g, o, path, i + 1, end, f)
  }

  function NonContainers(g: Graph, ids: seq<Id>): nat
    requires Known(g, ids)
  {
    if ids == [] then 0
    else assert ids[0] in ids;
         (if IsContainer(g.cpn[ids[0]].kind) then 0 else 1) + NonContainers(g, ids[1..])
  }

  /** The two lists split the non-containers between them. */
  lemma {:induction false} QueuedOrReported(g: Graph, o: Oracle, path: seq<Id>, i: nat, end: nat, failed: bool)
    requires i <= end <= |path| && Known(g, path[i..end])
    ensures |Queued(g, o, path, i, end, failed)| + |Reported(g, o, path, i, end, failed)|
         == NonContainers(g, path[i..end])
    decreases end - i
  {
    if i < end {
      assert path[i] == path[i..end][0] && path[i + 1..end] == path[i..end][1..];
      QueuedOrReported(g, o, path, i + 1, end, FailedBy(g, o, path, failed, i));
    }
  }

  // ---- one component ----

  lemma MessageConserves(g: Graph, s: State, id: Id, r: Report)
    requires id in g.cpn
    ensures var s' := AfterMessage(g, s, id, r);
      && LateIds(s'.events) + s'.partials == LateIds(s.events) + s.partials
      && PromptIds(s'.events) == PromptIds(s.events)
  {
    hide LateIds, PromptIds, LateEvents, DrainCount;
    if g.cpn[id].kind.Message? {
      var n := DrainCount(s.partials, r.streaming);
      var done := s.partials[..n];
      IdsConcat(s.events + [MessageDone(id)], LateEvents(done));
      IdsConcat(s.events, [MessageDone(id)]);
      OneEvent(MessageDone(id));
      LateEventsAreLate(done);
      assert s.partials == done + s.partials[n..];
    }
  }

  lemma ErrorConserves(g: Graph, s: State, id: Id, r: Report)
    requires id in g.cpn
    ensures var s' := AfterError(g, s, id, r);
      && LateIds(s'.events) == LateIds(s.events) && PromptIds(s'.events) == PromptIds(s.events)
  {
    IdsConcat(s.events, [DefaultMessage(id)]);
    OneEvent(DefaultMessage(id));
  }

  lemma FinishConserves(g: Graph, s: State, id: Id, r: Report)
    requires id in g.cpn
    ensures var s' := AfterFinish(g, s, id, r); var deferred := IsDeferred(g, id, r, s.failed);
      && LateIds(s'.events) + s'.partials
         == LateIds(s.events) + s.partials + (if deferred then [id] else [])
      && PromptIds(s'.events)
         == PromptIds(s.events) + (if !IsContainer(g.cpn[id].kind) && !deferred then [id] else [])
  {
    hide LateIds, PromptIds;
    IdsConcat(s.events, [NodeFinished(id, false)]);
    OneEvent(NodeFinished(id, false));
    assert LateIds(s.events) + [] == LateIds(s.events) && PromptIds(s.events) + [] == PromptIds(s.events);
    assert LateIds(s.events) + (s.partials + [id]) == LateIds(s.events) + s.partials + [id];
    assert LateIds(s.events) + s.partials + [] == LateIds(s.events) + s.partials;
  }

  lemma SuccessorsConserve(g: Graph, s: State, id: Id, r: Report)
    requires WellFormed(g) && id in g.cpn && s.path != []
    ensures var s' := AfterSuccessors(g, s, id, r);
      && LateIds(s'.events) == LateIds(s.events) && PromptIds(s'.events) == PromptIds(s.events)
  {
    WellFormedAt(g, id);
    hide WellFormed, Successors, ExtendPath;
    if IsItem(g.cpn[id].kind) {
      IdsConcat(s.events, [ContainerFinished(g.cpn[id].parent.value)]);
      OneEvent(ContainerFinished(g.cpn[id].parent.value));
    }
  }

  lemma NodeConserves(g: Graph, o: Oracle, s: State, i: nat)
    requires WellFormed(g) && i < |s.path| && s.path[i] in g.cpn
    ensures var s' := PostNode(g, s, i, o.report(i));
      var f := FailedBy(g, o, s.path, s.failed, i);
      var deferred := IsDeferred(g, s.path[i], o.report(i), f);
      && s'.failed == f
      && LateIds(s'.events) + s'.partials
         == LateIds(s.events) + s.partials + (if deferred then [s.path[i]] else [])
      && PromptIds(s'.events)
         == PromptIds(s.events)
            + (if !IsContainer(g.cpn[s.path[i]].kind) && !deferred then [s.path[i]] else [])
  {
    hide WellFormed, AfterMessage, AfterError, AfterFinish, AfterSuccessors, LateIds, PromptIds;
    var id, r := s.path[i], o.report(i);
    var s1 := AfterMessage(g, s, id, r);
    var s2 := AfterError(g, s1, id, r);
    var s3 := AfterFinish(g, s2, id, r);
    MessageConserves(g, s, id, r);
    ErrorConserves(g, s1, id, r);
    FinishConserves(g, s2, id, r);
    SuccessorsConserve(g, s3, id, r);
  }

  // ---- a batch, up to any point ----

  lemma {:induction false} RangeConserves(g: Graph, o: Oracle, s: State, i: nat, end: nat)
    requires WellFormed(g) && i <= end <= |s.path| && Known(g, s.path[i..end])
    ensures var s' := PostRange(g, o, s, i, end);
      && LateIds(s'.events) + s'.partials
         == LateIds(s.events) + s.partials + Queued(g, o, s.path, i, end, s.failed)
      && PromptIds(s'.events) == PromptIds(s.events) + Reported(g, o, s.path, i, end, s.failed)
    decreases end - i
  {
    hide WellFormed, PostNode, PostRange, LateIds, PromptIds, IsDeferred, Unhandled, Queued, Reported;
    if i < end {
      PostRangeUnfold(g, o, s, i, end);
      var s' := PostNode(g, s, i, o.report(i));
      NodeConserves(g, o, s, i);
      RangeConserves(g, o, s', i + 1, end);
      assert s.path[i + 1..end] == s.path[i..end][1..];
      SamePathSameLists(g, o, s'.path, s.path, i + 1, end, s'.failed);
      Unfold(g, o, s.path, i, end, s.failed);
    } else {
      PostRangeEmpty(g, o, s, i);
      NothingListed(g, o, s.path, i, s.failed);
    }
  }

  lemma {:induction false} SamePathSameLists(
    g: Graph, o: Oracle, p: seq<Id>, p': seq<Id>, i: nat, end: nat, failed: bool)
    requires i <= end && end <= |p| && end <= |p'| && p[i..end] == p'[i..end] && Known(g, p[i..end])
    ensures Queued(g, o, p, i, end, failed) == Queued(g, o, p', i, end, failed)
    ensures Reported(g, o, p, i, end, failed) == Reported(g, o, p', i, end, failed)
    decreases end - i
  {
    hide IsDeferred, Unhandled;
    if i < end {
      assert p[i] == p[i..end][0] && p'[i] == p'[i..end][0];
      assert p[i + 1..end] == p[i..end][1..] && p'[i + 1..end] == p'[i..end][1..];
      SamePathSameLists(g, o, p, p', i + 1, end, FailedBy(g, o, p, failed, i));
    }
  }

  // ---- whole runs ----

  lemma Unfold(g: Graph, o: Oracle, path: seq<Id>, i: nat, end: nat, failed: bool)
    requires i < end <= |path| && Known(g, path[i..end])
    ensures path[i] in g.cpn && Known(g, path[i + 1..end])
    ensures var f := FailedBy(g, o, path, failed, i);
      && Queued(g, o, path, i, end, failed)
         == (if IsDeferred(g, path[i], o.report(i), f) then [path[i]] else []) + Queued(g, o, path, i + 1, end, f)
      && Reported(g, o, path, i, end, failed)
         == (if !IsContainer(g.cpn[path[i]].kind) && !IsDeferred(g, path[i], o.report(i), f) then [path[i]] else [])
            + Reported(g, o, path, i + 1, end, f)
  {
    assert path[i] == path[i..end][0] && path[i + 1..end] == path[i..end][1..];
  }

  lemma {:induction false} ListsJoin(
    g: Graph, o: Oracle, path: seq<Id>, i: nat, mid: nat, end: nat)
    requires i <= mid <= end <= |path| && Known(g, path[i..end])
    requires !AnyUnhandled(g, o, path, i, mid)
    ensures Known(g, path[i..mid]) && Known(g, path[mid..end])
    ensures Queued(g, o, path, i, end, false)
         == Queued(g, o, path, i, mid, false) + Queued(g, o, path, mid, end, false)
    ensures Reported(g, o, path, i, end, false)
         == Reported(g, o, path, i, mid, false) + Reported(g, o, path, mid, end, false)
    decreases mid - i
  {
    hide IsDeferred, Unhandled, Queued, Reported;
    assert path[i..mid] == path[i..end][..mid - i] && path[mid..end] == path[i..end][mid - i..];
    if i < mid {
      Unfold(g, o, path, i, end, false);
      Unfold(g, o, path, i, mid, false);
      ListsJoin(g, o, path, i + 1, mid, end);
    } else {
      NothingListed(g, o, path, i, false);
    }
  }

  lemma NothingListed(g: Graph, o: Oracle, path: seq<Id>, i: nat, failed: bool)
    requires i <= |path|
    ensures Known(g, path[i..i])
    ensures Queued(g, o, path, i, i, failed) == [] && Reported(g, o, path, i, i, failed) == []
  {
  }

  /** The account of everything processed below index `m`. */
  ghost predicate Balanced(g: Graph, o: Oracle, init: seq<Id>, s: State, m: nat) {
    && From(init) <= m <= |s.path| && Known(g, s.path[From(init)..m])
    && LateIds(s.events) + s.partials == Queued(g, o, s.path, From(init), m, false)
    && PromptIds(s.events) == Reported(g, o, s.path, From(init), m, false)
  }

  lemma StartBalanced(g: Graph, o: Oracle, init: seq<Id>)
    ensures Balanced(g, o, init, Start(init), From(init))
  {
  }

  /** At every point inside a batch the account of the run is balanced. */
  lemma BatchBalanced(g: Graph, o: Oracle, init: seq<Id>, s: State, m: nat)
    requires WellFormed(g) && Inv(g, o, init, s) && s.phase.Running? && Balanced(g, o, init, s, s.idx)
    requires Known(g, s.path[s.idx..]) && s.idx <= m <= |AfterPrune(g, s).path|
    ensures Known(g, AfterPrune(g, s).path[s.idx..m])
    ensures Balanced(g, o, init, PostRange(g, o, AfterPrune(g, s), s.idx, m), m)
  {
    hide WellFormed, PostRange, Prune, Inv, Queued, Reported, LateIds, PromptIds, StartedEvents, AnyUnhandled;
    InvFacts(g, o, init, s);
    var s1 := AfterPrune(g, s);
    var p1 := s1.path;
    PruneKnown(g, s.path[..s.idx], s.path[s.idx..]);
    assert p1[s.idx..m] == p1[s.idx..][..m - s.idx];
    RangeConserves(g, o, s1, s.idx, m);
    PostRangeFrame(g, o, s1, s.idx, m);
    var s2 := PostRange(g, o, s1, s.idx, m);
    IdsConcat(s.events, StartedEvents(s.path[s.idx..]));
    StartedEventsReportNothing(s.path[s.idx..]);
    var f := From(init);
    assert p1[f..s.idx] == p1[..s.idx][f..] == s.path[..s.idx][f..] == s.path[f..s.idx];
    assert p1[f..m] == p1[f..s.idx] + p1[s.idx..m];
    SamePathSameLists(g, o, s.path, p1, f, s.idx, false);
    assert !AnyUnhandled(g, o, p1, f, s.idx) by {
      SameHandling(g, o, s.path, p1, f, s.idx);
    }
    ListsJoin(g, o, p1, f, s.idx, m);
    assert s2.path[f..m] == p1[f..m];
    SamePathSameLists(g, o, p1, s2.path, f, m, false);
  }

  lemma InvFacts(g: Graph, o: Oracle, init: seq<Id>, s: State)
    requires WellFormed(g) && Inv(g, o, init, s)
    ensures From(init) <= s.idx <= |s.path| && !AnyUnhandled(g, o, s.path, From(init), s.idx)
    ensures s.phase.Running? ==> !s.failed
  {
  }

  lemma SameHandling(g: Graph, o: Oracle, p: seq<Id>, p': seq<Id>, from: nat, end: nat)
    requires from <= end && end <= |p| && end <= |p'| && p[from..end] == p'[from..end]
    requires !AnyUnhandled(g, o, p, from, end)
    ensures !AnyUnhandled(g, o, p', from, end)
  {
    hide Unhandled;
    forall k | from <= k < end && k < |p'| && p'[k] in g.cpn
      ensures !Unhandled(g, p'[k], o.report(k))
    {
      assert p'[k] == p'[from..end][k - from] == p[from..end][k - from] == p[k];
    }
  }

  lemma StepBalanced(g: Graph, o: Oracle, init: seq<Id>, s: State)
    requires WellFormed(g) && Inv(g, o, init, s) && s.phase.Running? && Balanced(g, o, init, s, s.idx)
    requires Step(g, o, s).phase.Running? || Step(g, o, s).phase.Finished?
    ensures Balanced(g, o, init, Step(g, o, s), Step(g, o, s).idx)
  {
    hide WellFormed, Prune, PostRange, Inv, Queued, Reported, LateIds, PromptIds, StartedEvents;
    InvFacts(g, o, init, s);
    if s.idx == |s.path| {
      if s.path != [] {
        IdsConcat(s.events, [WorkflowFinished(s.path[|s.path| - 1])]);
        OneEvent(WorkflowFinished(s.path[|s.path| - 1]));
      }
      assert s.events + [] == s.events;
    } else {
      PruneKnown(g, s.path[..s.idx], s.path[s.idx..]);
      BatchBalanced(g, o, init, s, |AfterPrune(g, s).path|);
    }
  }

  /** Conservation over a run of any length: the ids reported late, followed by those still
      queued, are exactly the queued ids in queueing order; the others were reported when they
      were processed; together that is every processed non-container once. */
  lemma {:induction false} ReportsAreConserved(g: Graph, o: Oracle, init: seq<Id>, s: State, n: nat)
    requires WellFormed(g) && Inv(g, o, init, s) && Balanced(g, o, init, s, s.idx)
    requires var e := RunSteps(g, o, s, n); e.phase.Running? || e.phase.Finished?
    ensures var e := RunSteps(g, o, s, n);
      && Balanced(g, o, init, e, e.idx)
      && |LateIds(e.events)| + |PromptIds(e.events)| + |e.partials| == NonContainers(g, e.path[From(init)..e.idx])
    decreases n
  {
    hide WellFormed, Inv, Step, Queued, Reported, LateIds, PromptIds, NonContainers;
    InvIndex(g, o, init, s);
    var e := RunSteps(g, o, s, n);
    if n > 0 && s.phase.Running? {
      StepKeepsIndex(g, o, s);
      var s' := Step(g, o, s);
      StoppedStays(g, o, s', n - 1);
      StepKeepsInv(g, o, init, s);
      StepBalanced(g, o, init, s);
      ReportsAreConserved(g, o, init, s', n - 1);
    } else {
      BalancedCounts(g, o, init, s, s.idx);
    }
  }

  // ---- from the start of a run, at every point of it ----

  /** The account in numbers: what was reported and what is queued are together the processed
      components that are no containers. */
  lemma BalancedCounts(g: Graph, o: Oracle, init: seq<Id>, s: State, m: nat)
    requires Balanced(g, o, init, s, m)
    ensures |LateIds(s.events)| + |PromptIds(s.events)| + |s.partials| == NonContainers(g, s.path[From(init)..m])
  {
    hide Queued, Reported, LateIds, PromptIds, NonContainers;
    QueuedOrReported(g, o, s.path, From(init), m, false);
    assert |LateIds(s.events) + s.partials| == |LateIds(s.events)| + |s.partials|;
  }

  /** Between the turns of any run, and when it finishes. What a finished run has still queued is
      never reported. */
  lemma ReportsOfRun(g: Graph, o: Oracle, init: seq<Id>, n: nat)
    requires WellFormed(g)
    requires var e := RunSteps(g, o, Start(init), n); e.phase.Running? || e.phase.Finished?
    ensures var e := RunSteps(g, o, Start(init), n);
      && Balanced(g, o, init, e, e.idx)
      && |LateIds(e.events)| + |PromptIds(e.events)| + |e.partials| == NonContainers(g, e.path[From(init)..e.idx])
      && (e.phase.Finished? ==> forall k: nat :: RunSteps(g, o, e, k) == e)
  {
    hide WellFormed, Inv, Balanced, RunSteps, NonContainers, LateIds, PromptIds;
    StartInv(g, o, init);
    StartBalanced(g, o, init);
    ReportsAreConserved(g, o, init, Start(init), n);
    var e := RunSteps(g, o, Start(init), n);
    if e.phase.Finished? {
      forall k: nat ensures RunSteps(g, o, e, k) == e {
        StoppedStays(g, o, e, k);
      }
    }
  }

  /** Inside any batch of any run, whatever the turn will end in. */
  lemma ReportsInBatch(g: Graph, o: Oracle, init: seq<Id>, n: nat, m: nat)
    requires WellFormed(g) && RunSteps(g, o, Start(init), n).phase.Running?
    requires var s := RunSteps(g, o, Start(init), n);
      s.idx <= |s.path| && Known(g, s.path[s.idx..]) && s.idx <= m <= |AfterPrune(g, s).path|
    ensures var s := RunSteps(g, o, Start(init), n);
      && Known(g, AfterPrune(g, s).path[s.idx..m])
      && var t := PostRange(g, o, AfterPrune(g, s), s.idx, m);
         && Balanced(g, o, init, t, m)
         && |LateIds(t.events)| + |PromptIds(t.events)| + |t.partials| == NonContainers(g, t.path[From(init)..m])
  {
    hide WellFormed, Inv, Balanced, RunSteps, PostRange, AfterPrune, NonContainers, LateIds, PromptIds;
    ReportsOfRun(g, o, init, n);
    StartInv(g, o, init);
    RunInv(g, o, init, Start(init), n);
    var s := RunSteps(g, o, Start(init), n);
    BatchBalanced(g, o, init, s, m);
    BalancedCounts(g, o, init, PostRange(g, o, AfterPrune(g, s), s.idx, m), m);
  }

  /** A run that fails or suspends: the account over everything it processed, the last batch
      included. What is still queued then is never reported. */
  lemma ReportsAtTheEnd(g: Graph, o: Oracle, init: seq<Id>, n: nat)
    requires WellFormed(g) && RunSteps(g, o, Start(init), n).phase.Running?
    requires var s := RunSteps(g, o, Start(init), n);
      s.idx <= |s.path| && (Step(g, o, s).phase.Failed? || Step(g, o, s).phase.Suspended?)
    ensures var s := RunSteps(g, o, Start(init), n);
      && Known(g, s.path[s.idx..])
      && var end := |AfterPrune(g, s).path|;
         && s.idx <= end && Known(g, AfterPrune(g, s).path[s.idx..end])
         && var e, p := Step(g, o, s), PostRange(g, o, AfterPrune(g, s), s.idx, end).path;
            && From(init) <= end <= |p| && Known(g, p[From(init)..end])
            && LateIds(e.events) + e.partials == Queued(g, o, p, From(init), end, false)
            && PromptIds(e.events) == Reported(g, o, p, From(init), end, false)
            && |LateIds(e.events)| + |PromptIds(e.events)| + |e.partials| == NonContainers(g, p[From(init)..end])
            && forall k: nat :: RunSteps(g, o, e, k) == e
  {
    hide WellFormed, Inv, RunSteps, PostRange, Prune, NonContainers, LateIds, PromptIds, Queued, Reported, FillUpsFirst;
    var s := RunSteps(g, o, Start(init), n);
    PruneKnown(g, s.path[..s.idx], s.path[s.idx..]);
    var end := |AfterPrune(g, s).path|;
    ReportsInBatch(g, o, init, n, end);
    var t := PostRange(g, o, AfterPrune(g, s), s.idx, end);
    IdsConcat(t.events, [UserInputs]);
    OneEvent(UserInputs);
    var e := Step(g, o, s);
    forall k: nat ensures RunSteps(g, o, e, k) == e {
      StoppedStays(g, o, e, k);
    }
  }
}
