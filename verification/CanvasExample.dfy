/** Small canvases: two routers in sequence, to which the termination theorem applies, a fill-up
    whose id does not carry its kind, which is not resumed, and two branches that meet. */
module CanvasExample {
  import opened PyValues
  import opened CanvasGraph
  import opened CanvasSpec
  import opened CanvasProgress

  function Component0(kind: Kind, downstream: seq<Id>): Component {
    Component(kind, [], downstream, None, Handler([], false))
  }

  /** A turn over one component that does not fail, with successors that differ from it and from
      one another. */
  ghost predicate Quiet(g: Graph, s: State, r: Report, next: seq<Id>)
    requires WellFormed(g)
  {
    && s.phase.Running? && !s.failed && s.idx + 1 == |s.path|
    && var id := s.path[s.idx];
       && id in g.cpn && g.cpn[id].deps == [] && !r.failed
       && Successors(g, id, r) == next && ExtendPath(s.path, next) == s.path + next
  }

  lemma QuietPrune(g: Graph, s: State, r: Report, next: seq<Id>)
    requires WellFormed(g) && Quiet(g, s, r, next)
    ensures Known(g, s.path[s.idx..]) && AfterPrune(g, s).path == s.path
  {
    hide Successors, WellFormed, ExtendPath;
    var before, id := s.path[..s.idx], s.path[s.idx];
    assert s.path[s.idx..] == [id] && [id][1..] == [] && before + [id] == s.path;
    assert Stays(g, before, id);
    assert Prune(g, before, [id]) == Prune(g, before + [id], []);
  }

  /** What such a turn does: it goes on with the successors, or suspends on them. */
  lemma QuietTurn(g: Graph, o: Oracle, s: State, next: seq<Id>)
    requires WellFormed(g) && s.idx < |s.path| && Quiet(g, s, o.report(s.idx), next)
    ensures Known(g, s.path[s.idx..]) && AfterPrune(g, s).path == s.path
    ensures var t := Step(g, o, s);
      if (exists id <- next :: IsFillUp(g, id)) && o.asks(|s.path|)
      then t.phase.Suspended? && t.path == FillUpsFirst(g, next)
      else t.phase.Running? && !t.failed && t.path == s.path + next && t.idx == |s.path|
  {
    hide Successors, WellFormed, PostNode, StartedEvents, ExtendPath, FillUpsFirst;
    var r, n := o.report(s.idx), |s.path|;
    QuietPrune(g, s, r, next);
    var s1 := AfterPrune(g, s);
    PostNodeAppends(g, s1, s.idx, r);
    assert s1.path[s.idx..n] == s.path[s.idx..];
    PostRangeUnfold(g, o, s1, s.idx, n);
    var s2 := PostNode(g, s1, s.idx, r);
    PostRangeEmpty(g, o, s2, n);
    assert s2.path[n..] == next;
  }

  lemma ExtendDistinct(path: seq<Id>, next: seq<Id>)
    requires path != [] && |next| <= 2 && (next != [] ==> next[0] != path[|path| - 1])
    requires |next| == 2 ==> next[0] != next[1]
    ensures ExtendPath(path, next) == path + next
  {
    if next != [] {
      var p := AppendPath(path, next[0]);
      assert p == path + [next[0]];
      if |next| == 2 {
        assert next[1..] == [next[1]] && next[1..][1..] == [];
        assert ExtendPath(p, next[1..]) == ExtendPath(AppendPath(p, next[1]), []);
      } else {
        assert next[1..] == [];
      }
    }
  }

  // ---- turns over two components ----

  lemma ExtendTwice(path: seq<Id>, a: seq<Id>, b: seq<Id>)
    requires path != []
    ensures ExtendPath(ExtendPath(path, a), b) == ExtendPath(path, a + b)
    decreases |a|
  {
    if a == [] {
      assert a + b == b;
    } else {
      assert (a + b)[1..] == a[1..] + b;
      ExtendTwice(AppendPath(path, a[0]), a[1..], b);
    }
  }

  /** Two components without dependencies, and what they put behind themselves. */
  ghost predicate Pair(g: Graph, o: Oracle, s: State, next: seq<Id>)
    requires WellFormed(g)
  {
    && s.phase.Running? && !s.failed && s.idx + 2 == |s.path|
    && var a, b := s.path[s.idx], s.path[s.idx + 1];
       && a in g.cpn && b in g.cpn && g.cpn[a].deps == [] && g.cpn[b].deps == []
       && !o.report(s.idx).failed && !o.report(s.idx + 1).failed
       && var both := Successors(g, a, o.report(s.idx)) + Successors(g, b, o.report(s.idx + 1));
          ExtendPath(s.path, both) == s.path + next && forall id <- next :: !IsFillUp(g, id)
  }

  lemma PairPrune(g: Graph, o: Oracle, s: State, next: seq<Id>)
    requires WellFormed(g) && Pair(g, o, s, next)
    ensures Known(g, s.path[s.idx..]) && AfterPrune(g, s).path == s.path
  {
    hide Successors, WellFormed;
    var before, a, b := s.path[..s.idx], s.path[s.idx], s.path[s.idx + 1];
    var pending := s.path[s.idx..];
    assert pending == [a, b] && pending[1..] == [b] && [b][1..] == [];
    assert before + [a] + [b] == s.path;
    assert Stays(g, before, a) && Stays(g, before + [a], b);
    assert Prune(g, before, pending) == Prune(g, before + [a], [b]) == Prune(g, before + [a] + [b], []);
  }

  lemma PairPost(g: Graph, o: Oracle, s: State, next: seq<Id>)
    requires WellFormed(g) && Pair(g, o, s, next) && Known(g, s.path[s.idx..|s.path|])
    ensures var t := PostRange(g, o, s, s.idx, |s.path|);
      t.phase.Running? && !t.failed && t.path == s.path + next && t.idx == s.idx
  {
    hide Successors, WellFormed, PostNode, PostRange, ExtendPath, IsFillUp;
    var i, n := s.idx, |s.path|;
    PostRangeUnfold(g, o, s, i, n);
    PostNodeAppends(g, s, i, o.report(i));
    var s2 := PostNode(g, s, i, o.report(i));
    PostRangeUnfold(g, o, s2, i + 1, n);
    PostNodeAppends(g, s2, i + 1, o.report(i + 1));
    PostRangeEmpty(g, o, PostNode(g, s2, i + 1, o.report(i + 1)), n);
    ExtendTwice(s.path, Successors(g, s.path[i], o.report(i)), Successors(g, s.path[i + 1], o.report(i + 1)));
  }

  lemma PairTurn(g: Graph, o: Oracle, s: State, next: seq<Id>)
    requires WellFormed(g) && Pair(g, o, s, next)
    ensures Known(g, s.path[s.idx..]) && AfterPrune(g, s).path == s.path
    ensures var t := Step(g, o, s);
      t.phase.Running? && !t.failed && t.path == s.path + next && t.idx == |s.path|
  {
    hide Successors, WellFormed, PostRange, StartedEvents, IsFillUp, FillUpsFirst;
    PairPrune(g, o, s, next);
    var s1 := AfterPrune(g, s);
    assert s1.path[s.idx..|s.path|] == s.path[s.idx..];
    assert Pair(g, o, s1, next);
    PairPost(g, o, s1, next);
    assert (s.path + next)[|s.path|..] == next;
  }

  // ---- runs that follow a script ----

  /** Entry `i` of the script leads to the next one and to nothing else. */
  ghost predicate ScriptedAt(g: Graph, o: Oracle, script: seq<Id>, i: nat)
    requires WellFormed(g) && i < |script|
  {
    && script[i] in g.cpn && g.cpn[script[i]].deps == [] && !IsFillUp(g, script[i]) && !o.report(i).failed
    && Successors(g, script[i], o.report(i)) == (if i + 1 < |script| then [script[i + 1]] else [])
    && (i + 1 < |script| ==> script[i] != script[i + 1])
  }

  ghost predicate Scripted(g: Graph, o: Oracle, script: seq<Id>)
    requires WellFormed(g)
  {
    script != [] && script[0] == BEGIN && forall i | 0 <= i < |script| :: ScriptedAt(g, o, script, i)
  }

  /** The run has come to entry `idx` of the script, or to its end. */
  predicate OnScript(script: seq<Id>, s: State) {
    && s.phase.Running? && !s.failed && s.idx <= |script|
    && s.path == if s.idx < |script| then script[..s.idx + 1] else script
  }

  lemma ScriptedTurn(g: Graph, o: Oracle, script: seq<Id>, s: State)
    requires WellFormed(g) && Scripted(g, o, script) && OnScript(script, s) && s.idx < |script|
    ensures Known(g, s.path[s.idx..]) && AfterPrune(g, s).path == s.path
    ensures OnScript(script, Step(g, o, s)) && Step(g, o, s).idx == s.idx + 1
  {
    hide WellFormed, Step, AfterPrune, Successors, ExtendPath;
    var i := s.idx;
    assert ScriptedAt(g, o, script, i);
    var next := if i + 1 < |script| then [script[i + 1]] else [];
    ExtendDistinct(s.path, next);
    if i + 1 < |script| {
      assert ScriptedAt(g, o, script, i + 1);
    }
    QuietTurn(g, o, s, next);
  }

  lemma ScriptStarts(g: Graph, o: Oracle, script: seq<Id>)
    requires WellFormed(g) && Scripted(g, o, script)
    ensures OnScript(script, Start([])) && Start([]).idx == 0
  {
    assert [] + [BEGIN] == [BEGIN] == script[..1];
  }

  /** Such a run goes through its script. */
  lemma {:induction false} ScriptIsRun(g: Graph, o: Oracle, script: seq<Id>, s: State)
    requires WellFormed(g) && Scripted(g, o, script) && OnScript(script, s)
    ensures OnScript(script, RunSteps(g, o, s, |script| - s.idx))
    ensures RunSteps(g, o, s, |script| - s.idx).idx == |script|
    decreases |script| - s.idx
  {
    hide WellFormed, Scripted, Step;
    if s.idx < |script| {
      ScriptedTurn(g, o, script, s);
      ScriptIsRun(g, o, script, Step(g, o, s));
    }
  }

  /** Its routers keep to their options if those of the script do. */
  lemma {:induction false} ScriptKeepsToOptions(
    g: Graph, o: Oracle, options: Options, script: seq<Id>, s: State, n: nat)
    requires WellFormed(g) && Scripted(g, o, script) && OnScript(script, s)
    requires forall i | 0 <= i < |script| :: Chooses(g, options, script[i], o.report(i))
    ensures KeepsToOptions(g, o, options, s, n)
    decreases n
  {
    hide WellFormed, Step, AfterPrune, Chooses, Scripted;
    if n > 0 {
      StepKeepsIndex(g, o, s);
      if s.idx < |script| {
        ScriptedTurn(g, o, script, s);
        ScriptKeepsToOptions(g, o, options, script, Step(g, o, s), n - 1);
      } else {
        AtTheEnd(g, o, s);
      }
    }
  }

  lemma AtTheEnd(g: Graph, o: Oracle, s: State)
    requires WellFormed(g) && s.phase.Running? && s.idx == |s.path|
    ensures AfterPrune(g, s).path == s.path && Step(g, o, s).phase.Finished?
  {
    hide WellFormed;
    assert s.path[s.idx..] == [] && s.path[..s.idx] == s.path;
  }

  // ---- two routers in sequence ----

  const FIRST: Id := "switch:1"
  const SECOND: Id := "switch:2"
  const LAST: Id := "end"

  function Routers(): Graph {
    Graph([BEGIN, FIRST, SECOND, LAST],
          map[BEGIN := Component0(Begin, [FIRST]), FIRST := Component0(Switch, []),
              SECOND := Component0(Categorize, []), LAST := Component0(Plain, [])])
  }

  function RouterOptions(): Options {
    id => if id == FIRST then {SECOND, LAST} else if id == SECOND then {LAST} else {}
  }

  function RouterRank(): Id -> nat {
    id => if id == BEGIN then 3 else if id == FIRST then 2 else if id == SECOND then 1 else 0
  }

  /** The first router chooses the second, and the second the end. */
  function RouterReports(): Oracle {
    Oracle(i => Report(false, {}, false, if i == 1 then [SECOND] else if i == 2 then [LAST] else []), _ => false)
  }

  lemma NamesDiffer()
    ensures BEGIN != FIRST && BEGIN != SECOND && BEGIN != LAST
    ensures FIRST != SECOND && FIRST != LAST && SECOND != LAST
  {
    assert BEGIN[0] != FIRST[0] && FIRST[7] != SECOND[7] && LAST[0] != BEGIN[0];
  }

  lemma RoutersWellFormed()
    ensures WellFormed(Routers())
  {
    hide GetStart;
    NamesDiffer();
  }

  lemma RoutersAcyclic()
    requires WellFormed(Routers())
    ensures Acyclic(Routers(), RouterOptions(), RouterRank())
  {
    hide WellFormed, GetStart;
    NamesDiffer();
  }

  const RouterScript: seq<Id> := [BEGIN, FIRST, SECOND, LAST]

  lemma RoutersFollowScript()
    requires WellFormed(Routers())
    ensures Scripted(Routers(), RouterReports(), RouterScript)
    ensures forall i | 0 <= i < 4 :: Chooses(Routers(), RouterOptions(), RouterScript[i], RouterReports().report(i))
  {
    hide WellFormed, GetStart;
    NamesDiffer();
  }

  lemma RoutersTerminate()
    ensures WellFormed(Routers()) && Acyclic(Routers(), RouterOptions(), RouterRank())
    ensures KeepsToOptions(Routers(), RouterReports(), RouterOptions(), Start([]), 5)
    ensures SECOND in Contributes(Routers(), FIRST, RouterReports().report(1))
    ensures !RunSteps(Routers(), RouterReports(), Start([]), 5).phase.Running?
  {
    RoutersWellFormed();
    RoutersAcyclic();
    NamesDiffer();
    assert SECOND in Contributes(Routers(), FIRST, RouterReports().report(1));
    RoutersFollowScript();
    hide WellFormed, Acyclic, KeepsToOptions, RunSteps, Contributes, Scripted, Chooses, Routers, RouterReports, RouterOptions;
    ScriptStarts(Routers(), RouterReports(), RouterScript);
    ScriptKeepsToOptions(Routers(), RouterReports(), RouterOptions(), RouterScript, Start([]), 5);
    AcyclicCanvasTerminates(Routers(), RouterReports(), RouterOptions(), RouterRank(), []);
  }

  // ---- a fill-up by another name ----

  const ASK: Id := "ask"

  function Unnamed(): Graph {
    Graph([BEGIN, ASK], map[BEGIN := Component0(Begin, [ASK]), ASK := Component0(UserFillUp, [])])
  }

  function Asking(): Oracle {
    Oracle(_ => Report(false, {}, false, []), _ => true)
  }

  /** Its run suspends on the fill-up and saves it; the next run does not resume but runs a new
      begin behind it. */
  lemma UnnamedIsNotResumed()
    ensures WellFormed(Unnamed())
    ensures var s := Step(Unnamed(), Asking(), Start([]));
      && s.phase.Suspended? && s.path == [ASK] && !LooksLikeFillUp(ASK)
      && Start(s.path).path == [ASK, BEGIN] && Start(s.path).idx == 1
  {
    UnnamedWellFormed();
    assert Quiet(Unnamed(), Start([]), Asking().report(0), [ASK]) && IsFillUp(Unnamed(), ASK) by { UnnamedIsQuiet(); }
    TooShort(ASK);
    assert [ASK] + [BEGIN] == [ASK, BEGIN];
    assert Start([]).path == [BEGIN] && Start([]).idx == 0;
    hide WellFormed, Step, Quiet, Unnamed, LooksLikeFillUp;
    assert ASK in [ASK];
    FilteredUniform(Unnamed(), [ASK], true);
    assert [ASK] + [] == [ASK];
    QuietTurn(Unnamed(), Asking(), Start([]), [ASK]);
  }

  lemma UnnamedIsQuiet()
    requires WellFormed(Unnamed())
    ensures Quiet(Unnamed(), Start([]), Asking().report(0), [ASK]) && IsFillUp(Unnamed(), ASK)
  {
    hide WellFormed, GetStart;
    assert BEGIN[0] != ASK[0];
    assert [] + [BEGIN] == [BEGIN];
    ExtendDistinct([BEGIN], [ASK]);
  }

  lemma TooShort(id: Id)
    requires |id| < 10
    ensures !LooksLikeFillUp(id)
  {
    assert |"userfillup"| == 10;
  }

  lemma UnnamedWellFormed()
    ensures WellFormed(Unnamed())
  {
    hide GetStart;
    assert BEGIN[0] != ASK[0];
  }

  // ---- two branches that meet ----

  const LEFT: Id := "left"
  const RIGHT: Id := "right"
  const MEET: Id := "meet"

  function Meeting(): Graph {
    Graph([BEGIN, LEFT, RIGHT, MEET],
          map[BEGIN := Component0(Begin, [LEFT, RIGHT]), LEFT := Component0(Plain, [MEET]),
              RIGHT := Component0(Plain, [MEET]), MEET := Component0(Plain, [])])
  }

  function NoFailures(): Oracle {
    Oracle(_ => Report(false, {}, false, []), _ => false)
  }

  lemma MeetingNames()
    ensures BEGIN[0] == 'b' && LEFT[0] == 'l' && RIGHT[0] == 'r' && MEET[0] == 'm'
  {
  }

  lemma MeetingWellFormed()
    ensures WellFormed(Meeting())
  {
    MeetingNames();
    hide GetStart;
  }

  lemma MeetingEdges(id: Id)
    requires WellFormed(Meeting()) && id in Meeting().cpn
    ensures id in {BEGIN, LEFT, RIGHT, MEET} && Meeting().cpn[id].deps == [] && !IsFillUp(Meeting(), id)
    ensures Successors(Meeting(), id, NoFailures().report(0))
         == if id == BEGIN then [LEFT, RIGHT] else if id == MEET then [] else [MEET]
  {
    MeetingNames();
    hide GetStart, WellFormed;
  }

  lemma MeetingKeys()
    ensures Meeting().cpn.Keys == {BEGIN, LEFT, RIGHT, MEET}
    ensures BEGIN != LEFT && BEGIN != RIGHT && BEGIN != MEET && LEFT != RIGHT && LEFT != MEET && RIGHT != MEET
  {
    MeetingNames();
  }

  lemma StartsFresh()
    ensures Start([]) == State([BEGIN], 0, [], false, [], Running)
  {
    assert [] + [BEGIN] == [BEGIN];
  }

  lemma MeetingStarts(s: State)
    requires WellFormed(Meeting()) && s == Start([])
    ensures s.idx < |s.path| && s.path == [BEGIN] && s.phase.Running?
    ensures var t := Step(Meeting(), NoFailures(), s);
      t.phase.Running? && !t.failed && t.path == [BEGIN, LEFT, RIGHT] && t.idx == 1
  {
    StartsFresh();
    hide WellFormed, Start, Step, Meeting, Successors, IsFillUp, ExtendPath, BEGIN, LEFT, RIGHT, MEET;
    MeetingKeys();
    MeetingEdges(BEGIN);
    MeetingEdges(LEFT);
    MeetingEdges(RIGHT);
    ExtendDistinct(s.path, [LEFT, RIGHT]);
    QuietTurn(Meeting(), NoFailures(), s, [LEFT, RIGHT]);
    assert [BEGIN] + [LEFT, RIGHT] == [BEGIN, LEFT, RIGHT];
  }

  lemma MeetingMeets(s: State)
    requires WellFormed(Meeting()) && s.phase.Running? && !s.failed && s.path == [BEGIN, LEFT, RIGHT] && s.idx == 1
    ensures var t := Step(Meeting(), NoFailures(), s);
      t.phase.Running? && !t.failed && t.path == [BEGIN, LEFT, RIGHT, MEET] && t.idx == 3
  {
    hide WellFormed, Step, Meeting, Successors, IsFillUp, ExtendPath, BEGIN, LEFT, RIGHT, MEET;
    MeetingKeys();
    MeetingEdges(LEFT);
    MeetingEdges(RIGHT);
    MeetingEdges(MEET);
    MeetsLast(s.path, MEET);
    assert [MEET] + [MEET] == [MEET, MEET];
    PairTurn(Meeting(), NoFailures(), s, [MEET]);
    assert [BEGIN, LEFT, RIGHT] + [MEET] == [BEGIN, LEFT, RIGHT, MEET];
  }

  lemma MeetingEnds(s: State)
    requires WellFormed(Meeting()) && s.phase.Running? && !s.failed && s.path == [BEGIN, LEFT, RIGHT, MEET] && s.idx == 3
    ensures var t := Step(Meeting(), NoFailures(), s); t.phase.Running? && t.path == s.path && t.idx == 4
  {
    hide WellFormed, Step, Meeting, Successors, IsFillUp, ExtendPath, BEGIN, LEFT, RIGHT, MEET;
    MeetingKeys();
    MeetingEdges(MEET);
    ExtendDistinct(s.path, []);
    QuietTurn(Meeting(), NoFailures(), s, []);
  }

  /** Where two branches meet, the component is run once: its second predecessor finds it last on the
      path. */
  lemma BranchesMeetOnce()
    ensures WellFormed(Meeting())
    ensures var t := RunSteps(Meeting(), NoFailures(), Start([]), 3);
      t.phase.Running? && t.path == [BEGIN, LEFT, RIGHT, MEET] && t.idx == 4
  {
    MeetingWellFormed();
    hide WellFormed, Start, Step, RunSteps, Meeting, NoFailures, BEGIN, LEFT, RIGHT, MEET;
    var s := Start([]);
    MeetingStarts(s);
    MeetingMeets(Step(Meeting(), NoFailures(), s));
    MeetingEnds(Step(Meeting(), NoFailures(), Step(Meeting(), NoFailures(), s)));
    ThreeTurns(Meeting(), NoFailures(), s);
  }

  lemma MeetsLast(path: seq<Id>, id: Id)
    requires path != [] && path[|path| - 1] != id
    ensures ExtendPath(path, [id, id]) == path + [id]
  {
    ExtendDistinct(path, [id]);
    assert [id, id][1..] == [id] && [id][1..] == [];
    assert ExtendPath(path, [id, id]) == ExtendPath(AppendPath(path, id), [id]);
    assert ExtendPath(AppendPath(path, id), [id]) == ExtendPath(AppendPath(AppendPath(path, id), id), []);
  }

  lemma ThreeTurns(g: Graph, o: Oracle, s: State)
    requires WellFormed(g) && s.phase.Running? && s.idx <= |s.path|
    requires Step(g, o, s).phase.Running? && Step(g, o, s).idx <= |Step(g, o, s).path|
    requires Step(g, o, Step(g, o, s)).phase.Running?
    ensures var u := Step(g, o, Step(g, o, s));
      u.idx <= |u.path| && RunSteps(g, o, s, 3) == Step(g, o, u)
  {
    hide WellFormed, Step;
    StepKeepsIndex(g, o, s);
    var t := Step(g, o, s);
    StepKeepsIndex(g, o, t);
    var u := Step(g, o, t);
    StepKeepsIndex(g, o, u);
    assert RunSteps(g, o, u, 1) == RunSteps(g, o, Step(g, o, u), 0);
    assert RunSteps(g, o, t, 2) == RunSteps(g, o, u, 1);
  }
}
