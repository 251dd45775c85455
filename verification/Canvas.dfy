/** The canvas object and its run loop (agent/canvas.py), changing its path in place; every
    method is proved against the state machine of CanvasSpec. */
module Canvas {
  import opened CanvasGraph
  import opened CanvasSpec

  class Canvas {
    const g: Graph
    var path: seq<Id>
    var error: bool
    // The run's own variables, shared by its inner functions
    var partials: seq<Id>
    var events: seq<Event>

    constructor (g: Graph, path: seq<Id>)
      ensures this.g == g && this.path == path && !error && partials == [] && events == []
    {
      this.g := g;
      this.path := path;
      error, partials, events := false, [], [];
    }

    ghost function View(idx: nat, phase: Phase): State
      reads this
    {
      State(path, idx, partials, error, events, phase)
    }

    /** The pop loop of `_run_batch`; returns the ids it hands to the thread pool. */
    method RunBatch(from: nat) returns (invoked: seq<Id>)
      requires from <= |path| && Known(g, path[from..])
      modifies `path
      ensures path == Prune(g, old(path)[..from], old(path)[from..])
      ensures from <= |path| && invoked == path[from..]
    {
      invoked := [];
      var i, t := from, |path|;
      while i < t
        invariant from <= i <= t == |path|
        invariant Known(g, path[i..])
        invariant Prune(g, path[..i], path[i..]) == Prune(g, old(path)[..from], old(path)[from..])
        invariant invoked == path[from..i]
        decreases t - i
      {
        ghost var before, pending := path[..i], path[i..];
        var id := path[i];
        assert id == pending[0] && id in pending;
        var c := g.cpn[id];
        var pop := false;
        if !c.kind.Begin? && !c.kind.UserFillUp? {
          pop := HasUnmet(c.deps, i);
        }
        assert pop <==> !Stays(g, before, id) by {
          assert (before + [id])[0] == path[0];
        }
        if pop {
          path := path[..i] + path[i + 1..];
          t := t - 1;
          assert path[..i] == before && path[i..] == pending[1..];
        } else {
          invoked := invoked + [id];
          i := i + 1;
          assert path[..i] == before + [id] && path[i..] == pending[1..];
        }
      }
      assert path[..i] == path && path[i..] == [];
    }

    /** The inner for loop over the input elements. */
    method HasUnmet(deps: seq<Id>, i: nat) returns (unmet: bool)
      requires i < |path|
      ensures unmet <==>
        !LooksLikeFillUp(path[0]) && exists d <- deps :: d != "" && d !in path[..i]
    {
      for k := 0 to |deps|
        invariant forall j :: 0 <= j < k ==>
          !(deps[j] != "" && deps[j] !in path[..i] && !LooksLikeFillUp(path[0]))
      {
        if deps[k] != "" && deps[k] !in path[..i] && !LooksLikeFillUp(path[0]) {
          return true;
        }
      }
      unmet := false;
    }

    /** `while partials`: report the queue up to its first unread stream. */
    method Drain(streaming: set<Id>)
      modifies `partials, `events
      ensures var n := DrainCount(old(partials), streaming);
        && partials == old(partials)[n..]
        && events == old(events) + LateEvents(old(partials)[..n])
    {
      ghost var done := 0;
      ghost var queue := partials;
      while partials != []
        invariant 0 <= done <= |queue| && partials == queue[done..]
        invariant done + DrainCount(queue[done..], streaming) == DrainCount(queue, streaming)
        invariant events == old(events) + LateEvents(queue[..done])
        decreases |partials|
      {
        if partials[0] in streaming {
          break;
        }
        events := events + [NodeFinished(partials[0], true)];
        partials := partials[1..];
        assert queue[done..][1..] == queue[done + 1..];
        assert LateEvents(queue[..done + 1]) == LateEvents(queue[..done]) + [NodeFinished(queue[done], true)];
        done := done + 1;
      }
    }

    method Append(otherBranch: bool, id: Id)
      requires path != []
      modifies `path
      ensures path == if otherBranch then old(path) else AppendPath(old(path), id)
      ensures path == if otherBranch || old(path)[|old(path)| - 1] == id then old(path) else old(path) + [id]
    {
      if otherBranch {
        return;
      }
      if path[|path| - 1] == id {
        return;
      }
      path := path + [id];
    }

    method Extend(otherBranch: bool, ids: seq<Id>)
      requires path != []
      modifies `path
      ensures path == if otherBranch then old(path) else ExtendPath(old(path), ids)
    {
      if otherBranch {
        return;
      }
      assert ids[0..] == ids;
      for k := 0 to |ids|
        invariant path != []
        invariant ExtendPath(path, ids[k..]) == ExtendPath(old(path), ids)
      {
        assert ids[k..][1..] == ids[k + 1..];
        Append(otherBranch, ids[k]);
      }
    }

    /** The message part: its events, then the waiting partials. */
    method SendMessage(id: Id, r: Report, ghost idx: nat, ghost phase: Phase)
      requires id in g.cpn
      modifies `partials, `events
      ensures View(idx, phase) == AfterMessage(g, old(View(idx, phase)), id, r)
    {
      if g.cpn[id].kind.Message? {
        events := events + [MessageDone(id)];
        Drain(r.streaming);
      }
    }

    method HandleError(id: Id, r: Report, ghost idx: nat, ghost phase: Phase) returns (otherBranch: bool)
      requires id in g.cpn
      modifies `path, `error, `events
      ensures View(idx, phase) == AfterError(g, old(View(idx, phase)), id, r)
      ensures otherBranch == TakesGoto(g, id, r)
    {
      otherBranch := false;
      if r.failed {
        var ex := g.cpn[id].handler;
        if ex.goto != [] {
          path := path + ex.goto;
          otherBranch := true;
        } else if ex.hasDefault {
          events := events + [DefaultMessage(id)];
        } else {
          error := true;
        }
      }
    }

    method ReportFinished(id: Id, r: Report, ghost idx: nat, ghost phase: Phase)
      requires id in g.cpn
      modifies `partials, `events
      ensures View(idx, phase) == AfterFinish(g, old(View(idx, phase)), id, r)
    {
      var kind := g.cpn[id].kind;
      if !IsContainer(kind) {
        if !kind.Message? && id in r.streaming {
          if error {
            events := events + [NodeFinished(id, false)];
          } else {
            partials := partials + [id];
          }
        } else {
          events := events + [NodeFinished(id, false)];
        }
      }
    }

    /** The elif chain that picks the successors. */
    method FollowEdges(id: Id, r: Report, otherBranch: bool)
      requires WellFormed(g) && id in g.cpn && path != []
      modifies `path
      ensures path == if otherBranch then old(path) else ExtendPath(old(path), Successors(g, id, r))
    {
      WellFormedAt(g, id);
      hide WellFormed, GetStart, ExtendPath, AppendPath;
      var c := g.cpn[id];
      if IsItem(c.kind) && r.ended {
        Extend(otherBranch, g.cpn[c.parent.value].downstream);
      } else if c.kind.Categorize? || c.kind.Switch? {
        Extend(otherBranch, r.next);
      } else if IsContainer(c.kind) {
        ExtendOne(path, GetStart(g, id).value);
        Append(otherBranch, GetStart(g, id).value);
      } else if c.kind.ExitLoop? && g.cpn[c.parent.value].kind.Loop? {
        Extend(otherBranch, g.cpn[c.parent.value].downstream);
      } else if c.downstream == [] && c.parent.Some? {
        ExtendOne(path, GetStart(g, c.parent.value).value);
        Append(otherBranch, GetStart(g, c.parent.value).value);
      } else {
        Extend(otherBranch, c.downstream);
      }
    }

    /** An ended item reports its container before the edges are followed. */
    method FinishNode(id: Id, r: Report, otherBranch: bool, ghost idx: nat, ghost phase: Phase)
      requires WellFormed(g) && id in g.cpn && path != [] && otherBranch == TakesGoto(g, id, r)
      modifies `path, `events
      ensures View(idx, phase) == AfterSuccessors(g, old(View(idx, phase)), id, r)
    {
      WellFormedAt(g, id);
      hide WellFormed, Successors, ExtendPath;
      if IsItem(g.cpn[id].kind) && r.ended {
        events := events + [ContainerFinished(g.cpn[id].parent.value)];
      }
      FollowEdges(id, r, otherBranch);
    }

    static lemma ExtendOne(path: seq<Id>, id: Id)
      requires path != []
      ensures ExtendPath(path, [id]) == AppendPath(path, id)
    {
      assert [id][1..] == [];
      assert ExtendPath(AppendPath(path, id), []) == AppendPath(path, id);
    }

    method PostOne(i: nat, r: Report, ghost idx: nat)
      requires WellFormed(g) && i < |path| && path[i] in g.cpn
      modifies this
      ensures View(idx, Running) == PostNode(g, old(View(idx, Running)), i, r)
    {
      hide WellFormed, AfterMessage, AfterError, AfterFinish, AfterSuccessors;
      var id := path[i];
      SendMessage(id, r, idx, Running);
      var otherBranch := HandleError(id, r, idx, Running);
      ReportFinished(id, r, idx, Running);
      FinishNode(id, r, otherBranch, idx, Running);
    }

    /** Post-processing of the batch `path[idx..t]`. */
    method PostProcess(o: Oracle, idx: nat, t: nat)
      requires WellFormed(g) && idx <= t <= |path| && Known(g, path[idx..t])
      modifies this
      ensures View(idx, Running) == PostRange(g, o, old(View(idx, Running)), idx, t)
    {
      hide WellFormed, PostNode, PostRange;
      ghost var start := View(idx, Running);
      for i := idx to t
        invariant t <= |path| && Known(g, path[i..t])
        invariant PostRange(g, o, View(idx, Running), i, t) == PostRange(g, o, start, idx, t)
      {
        PostRangeUnfold(g, o, View(idx, Running), i, t);
        PostOne(i, o.report(i), idx);
      }
      PostRangeEmpty(g, o, View(idx, Running), t);
    }

    /** The "node_started" loop, which is where an unknown id raises. */
    method AnnounceBatch(idx: nat) returns (known: bool)
      requires idx <= |path|
      modifies `events
      ensures known == Known(g, path[idx..])
      ensures events == old(events) + StartedEvents(if known then path[idx..] else KnownPrefix(g, path[idx..]))
    {
      hide KnownPrefix, StartedEvents;
      known := true;
      ghost var pending := path[idx..];
      NoneStarted();
      assert path[idx..idx] == [];
      for i := idx to |path|
        invariant events == old(events) + StartedEvents(path[idx..i])
        invariant Known(g, path[idx..i])
        invariant KnownPrefix(g, pending) == path[idx..i] + KnownPrefix(g, path[i..])
      {
        assert path[idx..i + 1] == path[idx..i] + [path[i]];
        KnownUnfolds(g, path[i..]);
        if path[i] !in g.cpn {
          assert path[i] == pending[i - idx];
          assert path[idx..i] + [] == path[idx..i];
          return false;
        }
        assert path[i..][1..] == path[i + 1..];
        assert path[idx..i] + ([path[i]] + KnownPrefix(g, path[i + 1..])) == path[idx..i + 1] + KnownPrefix(g, path[i + 1..]);
        events := events + [NodeStarted(path[i])];
        OneStarted(path[idx..i], path[i]);
      }
      assert path[idx..|path|] == path[idx..];
    }

    static lemma NoneStarted()
      ensures StartedEvents([]) == []
    {
    }

    static lemma OneStarted(ids: seq<Id>, id: Id)
      ensures StartedEvents(ids + [id]) == StartedEvents(ids) + [NodeStarted(id)]
    {
    }

    static lemma KnownUnfolds(g: Graph, ids: seq<Id>)
      requires ids != []
      ensures KnownPrefix(g, ids) == if ids[0] !in g.cpn then [] else [ids[0]] + KnownPrefix(g, ids[1..])
    {
    }

    static lemma FilteredUnfolds(g: Graph, ids: seq<Id>, fillUps: bool)
      requires ids != []
      ensures Filtered(g, ids, fillUps)
           == (if ids[0] in g.cpn && IsFillUp(g, ids[0]) == fillUps then [ids[0]] else []) + Filtered(g, ids[1..], fillUps)
    {
    }

    static lemma FilteredNothing(g: Graph, fillUps: bool)
      ensures Filtered(g, [], fillUps) == []
    {
    }

    /** One list comprehension over the frontier: the fill-ups in it, or the other known ids. */
    method Select(idx: nat, fillUps: bool) returns (ids: seq<Id>)
      requires idx <= |path|
      ensures ids == Filtered(g, path[idx..], fillUps)
    {
      hide Filtered, IsFillUp;
      ids := [];
      ghost var frontier := path[idx..];
      for i := idx to |path|
        invariant ids + Filtered(g, path[i..], fillUps) == Filtered(g, frontier, fillUps)
      {
        FilteredUnfolds(g, path[i..], fillUps);
        assert path[i..][0] == path[i] && path[i..][1..] == path[i + 1..];
        var rest := Filtered(g, path[i + 1..], fillUps);
        if path[i] in g.cpn && IsFillUp(g, path[i]) == fillUps {
          assert ids + ([path[i]] + rest) == ids + [path[i]] + rest;
          ids := ids + [path[i]];
        } else {
          assert [] + rest == rest;
        }
      }
      FilteredNothing(g, fillUps);
    }

    /** What follows a batch: break, suspend, or go on. */
    method SettleBatch(o: Oracle, idx: nat, t: nat) returns (idx': nat, phase: Phase)
      requires idx <= |path| && t <= |path|
      modifies `path, `events
      ensures View(idx', phase) == Settle(g, o, old(View(idx, Running)), t)
      ensures phase.Running? ==> idx' == t && path == old(path) && !error
    {
      hide Filtered;
      if error {
        path := path[..idx];
        return idx, Failed;
      }
      var fillUps := Select(t, true);
      FilteredFillUps(g, path[t..]);
      if fillUps != [] && o.asks(t) {
        var rest := Select(t, false);
        path := fillUps + rest;
        events := events + [UserInputs];
        return t, Suspended;
      }
      return t, Running;
    }

    /** One turn of the outer while loop, its exit included. */
    method Turn(o: Oracle, idx: nat) returns (idx': nat, phase: Phase)
      requires WellFormed(g) && idx <= |path| && !error
      modifies this
      ensures View(idx', phase) == Step(g, o, old(View(idx, Running)))
      ensures phase.Running? ==> idx' <= |path| && !error
    {
      hide Prune, PostRange, Settle, StartedEvents, KnownPrefix, WellFormed;
      if idx >= |path| {
        if path != [] {
          events := events + [WorkflowFinished(path[|path| - 1])];
        }
        return idx, Finished;
      }
      ghost var s := View(idx, Running);
      var known := AnnounceBatch(idx);
      if !known {
        return idx, Crashed;
      }
      PruneKnown(g, path[..idx], path[idx..]);
      var _ := RunBatch(idx);
      assert View(idx, Running) == AfterPrune(g, s);
      var t := |path|;
      assert path[idx..t] == path[idx..];
      PostRangeFrame(g, o, View(idx, Running), idx, t);
      PostProcess(o, idx, t);
      idx', phase := SettleBatch(o, idx, t);
    }

    /** The reset loop at the head of `_run_impl`. */
    method ResetOutputs() returns (reset: set<Id>)
      requires WellFormed(g)
      ensures reset == ResetIds(g, path)
    {
      hide WellFormed;
      var pathSet := set id <- path;
      reset := {};
      for i := 0 to |g.order|
        invariant reset == set id <- g.order[..i] | id in path
      {
        assert g.order[..i + 1] == g.order[..i] + [g.order[i]];
        if g.order[i] in pathSet {
          reset := reset + {g.order[i]};
        }
      }
      OrderCovers(g);
      assert g.order[..|g.order|] == g.order;
    }

    /** `_run_impl`. The source loops until the run ends; `fuel` bounds the turns. */
    method Run(o: Oracle, fuel: nat) returns (idx: nat, phase: Phase, reset: set<Id>)
      requires WellFormed(g)
      modifies this
      ensures reset == ResetIds(g, old(path))
      ensures View(idx, phase) == RunSteps(g, o, Start(old(path)), fuel)
    {
      hide WellFormed, Step, ResetIds;
      reset := ResetOutputs();
      var resume := path != [] && LooksLikeFillUp(path[0]);
      if !resume {
        path := path + [BEGIN];
      }
      error, partials, events := false, [], [];
      idx := if resume then 0 else |path| - 1;
      phase := Running;
      for turn := 0 to fuel
        invariant phase.Running? ==> idx <= |path| && !error
        invariant RunSteps(g, o, View(idx, phase), fuel - turn) == RunSteps(g, o, Start(old(path)), fuel)
      {
        if !phase.Running? {
          break;
        }
        idx, phase := Turn(o, idx);
      }
    }
  }
}
