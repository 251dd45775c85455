/** Canvases with loops: an iteration within an iteration, to which the termination theorems apply,
    and an iteration whose body forks into branches of different length, which never ends though
    its item keeps ending. */
module CanvasLoopExample {
  import opened PyValues
  import opened CanvasGraph
  import opened CanvasSpec
  import opened CanvasSafety
  import opened CanvasProgress
  import opened CanvasLoops
  import opened CanvasExample

  function Child(kind: Kind, parent: Id, downstream: seq<Id>): Component {
    Component(kind, [], downstream, Some(parent), Handler([], false))
  }

  function NoOptions(): Options {
    _ => {}
  }

  /** Without routers all options are kept to. */
  lemma NoRouters(g: Graph, o: Oracle, s: State, n: nat)
    requires WellFormed(g) && (s.phase.Running? ==> s.idx <= |s.path|)
    requires forall id <- g.cpn :: !g.cpn[id].kind.Categorize? && !g.cpn[id].kind.Switch?
    ensures KeepsToOptions(g, o, NoOptions(), s, n)
    decreases n
  {
    hide WellFormed, Step, AfterPrune;
    if n > 0 && s.phase.Running? {
      StepKeepsIndex(g, o, s);
      NoRouters(g, o, Step(g, o, s), n - 1);
    }
  }

  /** A run on a script ends its loops if the script says so. */
  lemma {:induction false} ScriptEndsLoops(g: Graph, o: Oracle, limit: Id -> nat, script: seq<Id>, s: State, n: nat)
    requires WellFormed(g) && Scripted(g, o, script) && OnScript(script, s)
    requires forall i | 0 <= i < |script| && GoesRound(g, script[i], o.report(i)) ::
      Streak(o, script, 0, i, script[i]) < limit(script[i])
    ensures EndsLoops(g, o, limit, 0, s, n)
    decreases n
  {
    hide WellFormed, Step, AfterPrune, Scripted, GoesRound, Streak;
    if n > 0 {
      StepKeepsIndex(g, o, s);
      if s.idx < |script| {
        ScriptedTurn(g, o, script, s);
        StreakSame(o, s.path, script, 0, s.idx, s.path[s.idx]);
        ScriptEndsLoops(g, o, limit, script, Step(g, o, s), n - 1);
      } else {
        AtTheEnd(g, o, s);
      }
    }
  }

  lemma SameVisits(p: seq<Id>, q: seq<Id>, i: nat, x: Id)
    requires i <= |p| && p <= q
    ensures Visits(p, 0, i, x) == Visits(q, 0, i, x)
  {
    assert p[0..i] == q[0..i];
  }

  lemma {:induction false} ScriptEndsInTime(g: Graph, o: Oracle, limit: Id -> nat, script: seq<Id>, s: State, n: nat)
    requires WellFormed(g) && Scripted(g, o, script) && OnScript(script, s)
    requires forall i | 0 <= i < |script| && GoesRound(g, script[i], o.report(i)) ::
      Visits(script, 0, i, script[i]) < limit(script[i])
    ensures EndsInTime(g, o, limit, 0, s, n)
    decreases n
  {
    hide WellFormed, Step, AfterPrune, Scripted, GoesRound, Visits;
    if n > 0 {
      StepKeepsIndex(g, o, s);
      if s.idx < |script| {
        ScriptedTurn(g, o, script, s);
        SameVisits(s.path, script, s.idx, s.path[s.idx]);
        ScriptEndsInTime(g, o, limit, script, Step(g, o, s), n - 1);
      } else {
        AtTheEnd(g, o, s);
      }
    }
  }

  // ---- an iteration within an iteration ----

  const OUTER: Id := "outer"
  const ITEM: Id := "item"
  const INNER: Id := "nested"
  const PART: Id := "part"
  const WORK: Id := "work"
  const THEN: Id := "then"
  const END: Id := "end"

  function Nested(): Graph {
    Graph([BEGIN, OUTER, ITEM, INNER, PART, WORK, THEN, END],
          map[BEGIN := Component0(Begin, [OUTER]),
              OUTER := Component0(Iteration, [END]),
              ITEM := Child(IterationItem, OUTER, [INNER]),
              INNER := Child(Iteration, OUTER, [THEN]),
              PART := Child(IterationItem, INNER, [WORK]),
              WORK := Child(Plain, INNER, []),
              THEN := Child(Plain, OUTER, []),
              END := Component0(Plain, [])])
  }

  function NestedRank(): Id -> nat {
    id => if id == BEGIN then 7 else if id == OUTER then 6 else if id == INNER then 5 else if id == WORK then 4
          else if id == PART then 3 else if id == THEN then 2 else if id == ITEM then 1 else 0
  }

  /** Each time the inner item is entered it goes round once, and the outer one does so twice. */
  const NestedScript: seq<Id> :=
    [BEGIN, OUTER, ITEM, INNER, PART, WORK, PART, THEN, ITEM, INNER, PART, WORK, PART, THEN, ITEM, END]

  function NestedReports(): Oracle {
    Oracle(i => Report(false, {}, i == 6 || i == 12 || i == 14, []), _ => false)
  }

  function NestedLimit(): Id -> nat {
    id => if id == ITEM then 2 else if id == PART then 1 else 0
  }

  /** The names differ, as their ranks do. */
  lemma NestedRanks()
    ensures var rank := NestedRank();
      && rank(BEGIN) == 7 && rank(OUTER) == 6 && rank(INNER) == 5 && rank(WORK) == 4
      && rank(PART) == 3 && rank(THEN) == 2 && rank(ITEM) == 1 && rank(END) == 0
  {
    assert BEGIN[0] == 'b' && OUTER[0] == 'o' && ITEM[0] == 'i' && INNER[0] == 'n';
    assert PART[0] == 'p' && WORK[0] == 'w' && THEN[0] == 't' && END[0] == 'e';
  }

  /** The components. */
  lemma NestedComponents()
    ensures var g := Nested();
      && g.order == [BEGIN, OUTER, ITEM, INNER, PART, WORK, THEN, END]
      && g.cpn.Keys == {BEGIN, OUTER, ITEM, INNER, PART, WORK, THEN, END}
      && g.cpn[BEGIN] == Component0(Begin, [OUTER]) && g.cpn[OUTER] == Component0(Iteration, [END])
      && g.cpn[ITEM] == Child(IterationItem, OUTER, [INNER]) && g.cpn[INNER] == Child(Iteration, OUTER, [THEN])
      && g.cpn[PART] == Child(IterationItem, INNER, [WORK]) && g.cpn[WORK] == Child(Plain, INNER, [])
      && g.cpn[THEN] == Child(Plain, OUTER, []) && g.cpn[END] == Component0(Plain, [])
  {
    NestedRanks();
    hide BEGIN, OUTER, ITEM, INNER, PART, WORK, THEN, END, NestedRank, Component0, Child;
  }

  lemma SkipStart(g: Graph, ids: seq<Id>, container: Id)
    requires ids != [] && !StartsContainer(g, ids[0], container)
    ensures FirstStart(g, ids, container) == FirstStart(g, ids[1..], container)
  {
  }

  lemma NestedStarts()
    ensures GetStart(Nested(), OUTER) == Some(ITEM) && GetStart(Nested(), INNER) == Some(PART)
  {
    NestedRanks();
    NestedComponents();
    hide BEGIN, OUTER, ITEM, INNER, PART, WORK, THEN, END, NestedRank, Nested, FirstStart;
    var g := Nested();
    SkipStart(g, g.order, OUTER);
    SkipStart(g, g.order[1..], OUTER);
    SkipStart(g, g.order, INNER);
    SkipStart(g, g.order[1..], INNER);
    SkipStart(g, g.order[1..][1..], INNER);
    SkipStart(g, g.order[1..][1..][1..], INNER);
    FindStart(g, g.order[1..][1..], OUTER);
    FindStart(g, g.order[1..][1..][1..][1..], INNER);
  }

  lemma FindStart(g: Graph, ids: seq<Id>, container: Id)
    requires ids != [] && StartsContainer(g, ids[0], container)
    ensures FirstStart(g, ids, container) == Some(ids[0])
  {
  }

  lemma NestedWellFormed()
    ensures WellFormed(Nested())
  {
    NestedRanks();
    NestedComponents();
    NestedStarts();
    hide BEGIN, OUTER, ITEM, INNER, PART, WORK, THEN, END, NestedRank, Nested, GetStart;
  }

  lemma NestedEdges(id: Id, r: Report)
    requires WellFormed(Nested()) && id in Nested().cpn
    ensures !TakesGoto(Nested(), id, r)
    ensures Successors(Nested(), id, r) ==
      if id == BEGIN then [OUTER] else if id == OUTER then [ITEM]
      else if id == ITEM then (if r.ended then [END] else [INNER])
      else if id == INNER then [PART]
      else if id == PART then (if r.ended then [THEN] else [WORK])
      else if id == WORK then [PART] else if id == THEN then [ITEM] else []
  {
    NestedRanks();
    NestedComponents();
    NestedStarts();
    hide BEGIN, OUTER, ITEM, INNER, PART, WORK, THEN, END, NestedRank, Nested, GetStart, WellFormed;
  }

  lemma NestedKinds(id: Id)
    requires id in Nested().cpn
    ensures id in {BEGIN, OUTER, ITEM, INNER, PART, WORK, THEN, END}
    ensures var c := Nested().cpn[id];
      && c.deps == [] && !IsFillUp(Nested(), id) && !c.kind.Categorize? && !c.kind.Switch?
      && (IsItem(c.kind) <==> id == ITEM || id == PART)
  {
    NestedRanks();
    NestedComponents();
    hide BEGIN, OUTER, ITEM, INNER, PART, WORK, THEN, END, NestedRank, Nested;
  }

  lemma NestedAt(i: nat)
    requires WellFormed(Nested()) && i < 16
    ensures NestedScript[i] in Nested().cpn
    ensures Successors(Nested(), NestedScript[i], NestedReports().report(i))
         == if i < 15 then [NestedScript[i + 1]] else []
    ensures i < 15 ==> NestedScript[i] != NestedScript[i + 1]
  {
    NestedRanks();
    NestedComponents();
    hide BEGIN, OUTER, ITEM, INNER, PART, WORK, THEN, END, NestedRank, Nested, WellFormed, Successors;
    NestedEdges(NestedScript[i], NestedReports().report(i));
  }

  lemma NestedFollowsScript()
    requires WellFormed(Nested())
    ensures Scripted(Nested(), NestedReports(), NestedScript)
  {
    forall i | 0 <= i < 16 ensures ScriptedAt(Nested(), NestedReports(), NestedScript, i) {
      NestedAt(i);
      NestedKinds(NestedScript[i]);
      hide Nested, WellFormed, Successors, IsFillUp, NestedScript, TakesGoto;
    }
  }

  lemma NestedEdge(id: Id, r: Report)
    requires WellFormed(Nested()) && id in Nested().cpn
    ensures |Contributes(Nested(), id, r)| <= 1
    ensures forall x <- Contributes(Nested(), id, r) ::
      NestedRank()(x) < NestedRank()(id) || GoesRound(Nested(), id, r)
  {
    NestedRanks();
    NestedKinds(id);
    NestedEdges(id, r);
    hide BEGIN, OUTER, ITEM, INNER, PART, WORK, THEN, END, NestedRank, Nested, WellFormed, Successors, TakesGoto,
      IsItem, IsFillUp;
  }

  lemma NestedFalls()
    requires WellFormed(Nested())
    ensures AcyclicButForRounds(Nested(), NoOptions(), NestedRank())
    ensures Unforked(Nested(), NestedReports())
  {
    hide Nested, WellFormed, Contributes, Chooses, NestedRank, GoesRound;
    forall id, r: Report | id in Nested().cpn
      ensures |Contributes(Nested(), id, r)| <= 1
      ensures forall x <- Contributes(Nested(), id, r) ::
        NestedRank()(x) < NestedRank()(id) || GoesRound(Nested(), id, r)
    {
      NestedEdge(id, r);
    }
  }

  /** Where the items of the script go round, after which streaks and how many visits. */
  lemma NestedStreaks()
    ensures Streak(NestedReports(), NestedScript, 0, 2, ITEM) == 0 && Streak(NestedReports(), NestedScript, 0, 8, ITEM) == 1
    ensures Streak(NestedReports(), NestedScript, 0, 4, PART) == 0 && Streak(NestedReports(), NestedScript, 0, 10, PART) == 0
  {
    NestedRanks();
    hide BEGIN, OUTER, ITEM, INNER, PART, WORK, THEN, END, NestedRank;
  }

  lemma NestedVisits()
    ensures Visits(NestedScript, 0, 2, ITEM) == 0 && Visits(NestedScript, 0, 8, ITEM) == 1
    ensures Visits(NestedScript, 0, 4, PART) == 0 && Visits(NestedScript, 0, 10, PART) == 2
  {
    NestedRanks();
    hide BEGIN, OUTER, ITEM, INNER, PART, WORK, THEN, END, NestedRank;
    assert NestedScript[0..2] == [BEGIN, OUTER];
    assert NestedScript[0..4] == [BEGIN, OUTER, ITEM, INNER];
    assert NestedScript[0..8] == [BEGIN, OUTER, ITEM, INNER, PART, WORK, PART, THEN];
    assert NestedScript[0..10] == [BEGIN, OUTER, ITEM, INNER, PART, WORK, PART, THEN, ITEM, INNER];
  }

  lemma NestedPlaces(i: nat)
    requires i < 16 && GoesRound(Nested(), NestedScript[i], NestedReports().report(i))
    ensures ((i == 2 || i == 8) && NestedScript[i] == ITEM) || ((i == 4 || i == 10) && NestedScript[i] == PART)
  {
    NestedRanks();
    NestedKinds(NestedScript[i]);
    hide BEGIN, OUTER, ITEM, INNER, PART, WORK, THEN, END, NestedRank, Nested, IsItem, IsFillUp;
  }

  lemma NestedRounds(i: nat)
    requires i < 16 && GoesRound(Nested(), NestedScript[i], NestedReports().report(i))
    ensures Streak(NestedReports(), NestedScript, 0, i, NestedScript[i]) < NestedLimit()(NestedScript[i])
    ensures Visits(NestedScript, 0, i, NestedScript[i]) < NestedTotal()(NestedScript[i])
  {
    NestedRanks();
    NestedStreaks();
    NestedVisits();
    NestedPlaces(i);
    hide BEGIN, OUTER, ITEM, INNER, PART, WORK, THEN, END, NestedRank, NestedReports, NestedScript, Streak, Visits;
  }

  /** All its visits in the run. */
  function NestedTotal(): Id -> nat {
    id => if id == ITEM then 2 else if id == PART then 3 else 0
  }

  /** For this run the limits are kept: those of each loop, and those of all of them together. */
  lemma NestedKeepsLimits(n: nat)
    requires WellFormed(Nested()) && Scripted(Nested(), NestedReports(), NestedScript)
    ensures KeepsToOptions(Nested(), NestedReports(), NoOptions(), Start([]), n)
    ensures EndsLoops(Nested(), NestedReports(), NestedLimit(), From([]), Start([]), n)
    ensures EndsInTime(Nested(), NestedReports(), NestedTotal(), From([]), Start([]), n)
  {
    var g, o := Nested(), NestedReports();
    hide From, WellFormed, Scripted, KeepsToOptions, EndsLoops, EndsInTime, Nested, NestedReports, NestedScript, NestedLimit,
      NestedTotal, GoesRound, Start, Streak, Visits, IsItem;
    FreshRun();
    forall id | id in g.cpn ensures !g.cpn[id].kind.Categorize? && !g.cpn[id].kind.Switch? {
      NestedKinds(id);
    }
    forall i | 0 <= i < 16 && GoesRound(g, NestedScript[i], o.report(i))
      ensures Streak(o, NestedScript, 0, i, NestedScript[i]) < NestedLimit()(NestedScript[i])
      ensures Visits(NestedScript, 0, i, NestedScript[i]) < NestedTotal()(NestedScript[i])
    {
      NestedRounds(i);
    }
    ScriptStarts(g, o, NestedScript);
    NoRouters(g, o, Start([]), n);
    ScriptEndsLoops(g, o, NestedLimit(), NestedScript, Start([]), n);
    ScriptEndsInTime(g, o, NestedTotal(), NestedScript, Start([]), n);
  }

  lemma FreshRun()
    ensures !IsResume([]) && From([]) == 0 && Start([]).phase.Running? && Start([]).idx == 0 && |Start([]).path| == 1
    ensures |NestedScript| == 16
  {
  }

  lemma NestedEnds(top: nat)
    requires forall id :: NestedRank()(id) < top
    requires WellFormed(Nested()) && Scripted(Nested(), NestedReports(), NestedScript)
    requires AcyclicButForRounds(Nested(), NoOptions(), NestedRank()) && Unforked(Nested(), NestedReports())
    ensures Ends(Nested(), NestedReports(), [])
  {
    hide WellFormed, KeepsToOptions, EndsLoops, EndsInTime, RunSteps, Scripted, AcyclicButForRounds, Unforked, Nested,
      NestedReports, NestedRank, NestedScript, NestedLimit, NestedTotal, NoOptions, Power, Allowance, IsResume, Start, BEGIN;
    FreshRun();
    var n := Power(Allowance(Nested(), NestedLimit()), top) * top + 1;
    NestedKeepsLimits(n);
    NestedLoopsTerminate(Nested(), NestedReports(), NoOptions(), NestedRank(), top, NestedLimit(), []);
  }

  lemma NestedRun()
    requires WellFormed(Nested()) && Scripted(Nested(), NestedReports(), NestedScript)
    ensures RunSteps(Nested(), NestedReports(), Start([]), |NestedScript|).path == NestedScript
  {
    hide IsResume, Start, BEGIN, WellFormed, RunSteps, Scripted, Nested, NestedReports, NestedScript;
    FreshRun();
    ScriptStarts(Nested(), NestedReports(), NestedScript);
    ScriptIsRun(Nested(), NestedReports(), NestedScript, Start([]));
  }

  /** The canvas and its run, in which both items go round more than once, meet the conditions of
      both termination theorems. */
  lemma NestedTerminates(n: nat)
    ensures WellFormed(Nested()) && Unforked(Nested(), NestedReports())
    ensures AcyclicButForRounds(Nested(), NoOptions(), NestedRank())
    ensures KeepsToOptions(Nested(), NestedReports(), NoOptions(), Start([]), n)
    ensures EndsLoops(Nested(), NestedReports(), NestedLimit(), From([]), Start([]), n)
    ensures EndsInTime(Nested(), NestedReports(), NestedTotal(), From([]), Start([]), n)
    ensures RunSteps(Nested(), NestedReports(), Start([]), |NestedScript|).path == NestedScript
    ensures Ends(Nested(), NestedReports(), [])
  {
    NestedWellFormed();
    assert forall id :: NestedRank()(id) < 8;
    hide WellFormed, KeepsToOptions, EndsLoops, EndsInTime, RunSteps, Scripted, AcyclicButForRounds, Unforked, Nested,
      NestedReports, NestedRank, NestedScript, NestedLimit, NestedTotal, NoOptions, Ends;
    NestedFalls();
    NestedFollowsScript();
    NestedKeepsLimits(n);
    NestedRun();
    NestedEnds(8);
  }
}
