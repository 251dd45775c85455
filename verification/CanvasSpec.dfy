/** One run of the scheduler as a state machine: the functions that the methods of class
    Canvas are proved against. */
module CanvasSpec {
  import opened CanvasGraph

  datatype Event =
    | NodeStarted(id: Id)
    | MessageDone(id: Id)                 // "message" events and "message_end"
    | DefaultMessage(id: Id)              // the exception default, as a message
    | NodeFinished(id: Id, late: bool)    // late: taken from the queue of partials
    | ContainerFinished(id: Id)           // node_finished for the parent of an ended item
    | UserInputs
    | WorkflowFinished(id: Id)

  datatype Phase = Running | Finished | Failed | Suspended | Crashed

  datatype State = State(
    path: seq<Id>, idx: nat, partials: seq<Id>, failed: bool, events: seq<Event>, phase: Phase)

  // ---- batch execution: the in-place pop loop ----

  /** May `id` stay when it comes right behind `before`? */
  predicate Stays(g: Graph, before: seq<Id>, id: Id)
    requires id in g.cpn
  {
    var c := g.cpn[id];
    || c.kind.Begin? || c.kind.UserFillUp?
    || LooksLikeFillUp((before + [id])[0])
    || forall d <- c.deps :: d == "" || d in before
  }

  /** Left fold over the pending ids: each is kept only if it may stay behind those kept so far. */
  function Prune(g: Graph, before: seq<Id>, pending: seq<Id>): seq<Id>
    requires forall id <- pending :: id in g.cpn
    decreases |pending|
  {
    if pending == [] then before
    else assert pending[0] in pending;
         Prune(g, if Stays(g, before, pending[0]) then before + [pending[0]] else before, pending[1..])
  }

  // ---- post-processing of one component ----

  /** `_append_path`: never the same id twice in a row. */
  function AppendPath(path: seq<Id>, id: Id): seq<Id>
    requires path != []
  {
    if path[|path| - 1] == id then path else path + [id]
  }

  function ExtendPath(path: seq<Id>, ids: seq<Id>): (r: seq<Id>)
    requires path != []
    ensures path <= r
    decreases |ids|
  {
    if ids == [] then path else ExtendPath(AppendPath(path, ids[0]), ids[1..])
  }

  /** How many queued partials the drain loop reports: up to the first that still streams. */
  function DrainCount(partials: seq<Id>, streaming: set<Id>): (n: nat)
    ensures n <= |partials|
  {
    if partials == [] || partials[0] in streaming then 0 else 1 + DrainCount(partials[1..], streaming)
  }

  function LateEvents(ids: seq<Id>): (r: seq<Event>)
    ensures |r| == |ids|
  {
    seq(|ids|, i requires 0 <= i < |ids| => NodeFinished(ids[i], true))
  }

  function AfterMessage(g: Graph, s: State, id: Id, r: Report): (s': State)
    requires id in g.cpn
    ensures s'.path == s.path && s'.idx == s.idx && s'.failed == s.failed && s'.phase == s.phase
  {
    if !g.cpn[id].kind.Message? then s
    else
      var n := DrainCount(s.partials, r.streaming);
      s.(events := s.events + [MessageDone(id)] + LateEvents(s.partials[..n]), partials := s.partials[n..])
  }

  function AfterError(g: Graph, s: State, id: Id, r: Report): (s': State)
    requires id in g.cpn
    ensures s'.path == if TakesGoto(g, id, r) then s.path + g.cpn[id].handler.goto else s.path
    ensures s'.failed == (s.failed || Unhandled(g, id, r))
    ensures s'.idx == s.idx && s'.partials == s.partials && s'.phase == s.phase
  {
    if TakesGoto(g, id, r) then s.(path := s.path + g.cpn[id].handler.goto)
    else if !r.failed then s
    else if g.cpn[id].handler.hasDefault then s.(events := s.events + [DefaultMessage(id)])
    else s.(failed := true)
  }

  /** A component whose content is an unread stream is reported later, unless the run failed. */
  predicate IsDeferred(g: Graph, id: Id, r: Report, failed: bool)
    requires id in g.cpn
  {
    !IsContainer(g.cpn[id].kind) && !g.cpn[id].kind.Message? && id in r.streaming && !failed
  }

  function AfterFinish(g: Graph, s: State, id: Id, r: Report): (s': State)
    requires id in g.cpn
    ensures s'.path == s.path && s'.idx == s.idx && s'.failed == s.failed && s'.phase == s.phase
  {
    if IsContainer(g.cpn[id].kind) then s
    else if IsDeferred(g, id, r, s.failed) then s.(partials := s.partials + [id])
    else s.(events := s.events + [NodeFinished(id, false)])
  }

  function AfterSuccessors(g: Graph, s: State, id: Id, r: Report): (s': State)
    requires WellFormed(g) && id in g.cpn && s.path != []
    ensures s'.path == if TakesGoto(g, id, r) then s.path else ExtendPath(s.path, Successors(g, id, r))
    ensures s'.idx == s.idx && s'.failed == s.failed && s'.partials == s.partials && s'.phase == s.phase
  {
    var s1 := if IsItem(g.cpn[id].kind) && r.ended
              then s.(events := s.events + [ContainerFinished(g.cpn[id].parent.value)]) else s;
    if TakesGoto(g, id, r) then s1 else s1.(path := ExtendPath(s1.path, Successors(g, id, r)))
  }

  function PostNode(g: Graph, s: State, i: nat, r: Report): State
    requires WellFormed(g) && i < |s.path| && s.path[i] in g.cpn
  {
    var id := s.path[i];
    AfterSuccessors(g, AfterFinish(g, AfterError(g, AfterMessage(g, s, id, r), id, r), id, r), id, r)
  }

  /** Post-processing only ever appends to the path. */
  lemma PostNodeAppends(g: Graph, s: State, i: nat, r: Report)
    requires WellFormed(g) && i < |s.path| && s.path[i] in g.cpn
    ensures s.path <= PostNode(g, s, i, r).path
    ensures PostNode(g, s, i, r).path
         == if TakesGoto(g, s.path[i], r) then s.path + g.cpn[s.path[i]].handler.goto
            else ExtendPath(s.path, Contributes(g, s.path[i], r))
    ensures PostNode(g, s, i, r).idx == s.idx && PostNode(g, s, i, r).phase == s.phase
    ensures PostNode(g, s, i, r).failed == (s.failed || Unhandled(g, s.path[i], r))
  {
    hide WellFormed, AfterMessage, AfterError, AfterFinish, AfterSuccessors, Successors;
  }

  predicate Known(g: Graph, ids: seq<Id>) {
    forall id <- ids :: id in g.cpn
  }

  function PostRange(g: Graph, o: Oracle, s: State, i: nat, end: nat): State
    requires WellFormed(g) && i <= end <= |s.path| && Known(g, s.path[i..end])
    decreases end - i
  {
    if i == end then s
    else
      hide PostNode;
      assert s.path[i] == s.path[i..end][0];
      PostNodeAppends(g, s, i, o.report(i));
      var s' := PostNode(g, s, i, o.report(i));
      assert s'.path[i + 1..end] == s.path[i..end][1..];
      PostRange(g, o, s', i + 1, end)
  }

  lemma PostRangeEmpty(g: Graph, o: Oracle, s: State, i: nat)
    requires WellFormed(g) && i <= |s.path|
    ensures Known(g, s.path[i..i]) && PostRange(g, o, s, i, i) == s
  {
  }

  lemma PostRangeUnfold(g: Graph, o: Oracle, s: State, i: nat, end: nat)
    requires WellFormed(g) && i < end <= |s.path| && Known(g, s.path[i..end])
    ensures s.path[i] in g.cpn
    ensures var s' := PostNode(g, s, i, o.report(i));
      && s.path <= s'.path && Known(g, s'.path[i + 1..end])
      && PostRange(g, o, s, i, end) == PostRange(g, o, s', i + 1, end)
  {
    hide PostNode, WellFormed;
    assert s.path[i] == s.path[i..end][0];
    PostNodeAppends(g, s, i, o.report(i));
    assert PostNode(g, s, i, o.report(i)).path[i + 1..end] == s.path[i..end][1..];
  }

  // ---- the outer loop ----

  /** `_run_impl` up to its loop: a saved frontier that starts with a fill-up is resumed, any
      other path gets "begin" appended and starts there. */
  predicate IsResume(path: seq<Id>) {
    path != [] && LooksLikeFillUp(path[0])
  }

  function Start(path: seq<Id>): State {
    if IsResume(path) then State(path, 0, [], false, [], Running)
    else State(path + [BEGIN], |path|, [], false, [], Running)
  }

  /** The components whose outputs are reset when a run begins: those on its path. */
  function ResetIds(g: Graph, path: seq<Id>): set<Id> {
    set id <- path | id in g.cpn
  }

  function StartedEvents(ids: seq<Id>): seq<Event> {
    seq(|ids|, i requires 0 <= i < |ids| => NodeStarted(ids[i]))
  }

  /** The ids before the first unknown one. */
  function KnownPrefix(g: Graph, ids: seq<Id>): seq<Id> {
    if ids == [] || ids[0] !in g.cpn then [] else [ids[0]] + KnownPrefix(g, ids[1..])
  }

  predicate IsFillUp(g: Graph, id: Id) {
    id in g.cpn && g.cpn[id].kind.UserFillUp?
  }

  function Filtered(g: Graph, ids: seq<Id>, fillUps: bool): seq<Id> {
    if ids == [] then []
    else (if ids[0] in g.cpn && IsFillUp(g, ids[0]) == fillUps then [ids[0]] else [])
         + Filtered(g, ids[1..], fillUps)
  }

  /** The saved path: fill-ups first, then the other known ids. */
  function FillUpsFirst(g: Graph, frontier: seq<Id>): seq<Id> {
    Filtered(g, frontier, true) + Filtered(g, frontier, false)
  }

  lemma FilteredFillUps(g: Graph, ids: seq<Id>)
    ensures Filtered(g, ids, true) != [] <==> exists id <- ids :: IsFillUp(g, id)
  {
    if ids != [] {
      FilteredFillUps(g, ids[1..]);
      assert ids == [ids[0]] + ids[1..];
    }
  }

  function AfterPrune(g: Graph, s: State): State
    requires s.idx <= |s.path| && Known(g, s.path[s.idx..])
  {
    var pending := s.path[s.idx..];
    s.(path := Prune(g, s.path[..s.idx], pending), events := s.events + StartedEvents(pending))
  }

  /** After a batch: stop on an error, suspend on an unfilled fill-up, or go on. */
  function Settle(g: Graph, o: Oracle, s: State, end: nat): State
    requires s.idx <= |s.path| && end <= |s.path|
  {
    if s.failed then s.(path := s.path[..s.idx], phase := Failed)
    else
      var frontier := s.path[end..];
      if (exists id <- frontier :: IsFillUp(g, id)) && o.asks(end)
      then s.(idx := end, path := FillUpsFirst(g, frontier), events := s.events + [UserInputs], phase := Suspended)
      else s.(idx := end)
  }

  lemma PruneKnown(g: Graph, before: seq<Id>, pending: seq<Id>)
    requires Known(g, pending)
    ensures before <= Prune(g, before, pending)
    ensures Known(g, Prune(g, before, pending)[|before|..])
    decreases |pending|
  {
    if pending != [] {
      assert pending[0] in pending;
      var b := if Stays(g, before, pending[0]) then before + [pending[0]] else before;
      PruneKnown(g, b, pending[1..]);
      var r := Prune(g, before, pending);
      assert r[|before|..] == r[|before|..|b|] + r[|b|..];
    }
  }

  lemma {:induction false} PostRangeFrame(g: Graph, o: Oracle, s: State, i: nat, end: nat)
    requires WellFormed(g) && i <= end <= |s.path| && Known(g, s.path[i..end])
    ensures s.path <= PostRange(g, o, s, i, end).path
    ensures PostRange(g, o, s, i, end).idx == s.idx && PostRange(g, o, s, i, end).phase == s.phase
    decreases end - i
  {
    hide WellFormed, PostNode;
    if i < end {
      assert s.path[i] == s.path[i..end][0];
      PostNodeAppends(g, s, i, o.report(i));
      var s' := PostNode(g, s, i, o.report(i));
      assert s'.path[i + 1..end] == s.path[i..end][1..];
      PostRangeFrame(g, o, s', i + 1, end);
    }
  }

  /** One turn of the outer loop. */
  function Step(g: Graph, o: Oracle, s: State): State
    requires WellFormed(g) && s.phase.Running? && s.idx <= |s.path|
  {
    if s.idx == |s.path| then
      s.(phase := Finished,
         events := s.events + if s.path == [] then [] else [WorkflowFinished(s.path[|s.path| - 1])])
    else if !Known(g, s.path[s.idx..]) then
      s.(phase := Crashed, events := s.events + StartedEvents(KnownPrefix(g, s.path[s.idx..])))
    else
      PruneKnown(g, s.path[..s.idx], s.path[s.idx..]);
      var s1 := AfterPrune(g, s);
      PostRangeFrame(g, o, s1, s.idx, |s1.path|);
      var s2 := PostRange(g, o, s1, s.idx, |s1.path|);
      Settle(g, o, s2, |s1.path|)
  }

  lemma StepKeepsIndex(g: Graph, o: Oracle, s: State)
    requires WellFormed(g) && s.phase.Running? && s.idx <= |s.path|
    ensures Step(g, o, s).phase.Running? ==> Step(g, o, s).idx <= |Step(g, o, s).path|
  {
    hide WellFormed, Prune, PostRange, FillUpsFirst, StartedEvents;
    if s.idx < |s.path| && Known(g, s.path[s.idx..]) {
      PruneKnown(g, s.path[..s.idx], s.path[s.idx..]);
      var s1 := AfterPrune(g, s);
      PostRangeFrame(g, o, s1, s.idx, |s1.path|);
    }
  }

  /** At most `n` turns. */
  function RunSteps(g: Graph, o: Oracle, s: State, n: nat): State
    requires WellFormed(g) && (s.phase.Running? ==> s.idx <= |s.path|)
    decreases n
  {
    if n == 0 || !s.phase.Running? then s
    else StepKeepsIndex(g, o, s); RunSteps(g, o, Step(g, o, s), n - 1)
  }
}
