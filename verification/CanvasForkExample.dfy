/** An iteration whose body forks into a short and a long branch: its item ends each of its loops
    after one round, and still the run never ends, because the long branch comes back to the item
    after that has ended and starts it again. */
module CanvasForkExample {
  import opened PyValues
  import opened CanvasGraph
  import opened CanvasSpec
  import opened CanvasSafety
  import opened CanvasProgress
  import opened CanvasLoops
  import opened CanvasExample
  import opened CanvasLoopExample

  const SHORT: Id := "short"
  const LONG: Id := "long"
  const MORE: Id := "more"

  function Forked(): Graph {
    Graph([BEGIN, OUTER, ITEM, SHORT, LONG, MORE, END],
          map[BEGIN := Component0(Begin, [OUTER]),
              OUTER := Component0(Iteration, [END]),
              ITEM := Child(IterationItem, OUTER, [SHORT, LONG]),
              SHORT := Child(Plain, OUTER, []),
              LONG := Child(Plain, OUTER, [MORE]),
              MORE := Child(Plain, OUTER, []),
              END := Component0(Plain, [])])
  }

  function ForkedRank(): Id -> nat {
    id => if id == BEGIN then 6 else if id == OUTER then 5 else if id == LONG then 4 else if id == MORE then 3
          else if id == SHORT then 2 else if id == ITEM then 1 else 0
  }

  /** The item goes round and ends in turn: it is visited at 2, 5, 8, 11 and so on. */
  function ForkedReports(): Oracle {
    Oracle(i => Report(false, {}, i % 6 == 5, []), _ => false)
  }

  function ForkedLimit(): Id -> nat {
    _ => 1
  }

  lemma ForkedRanks()
    ensures var rank := ForkedRank();
      && rank(BEGIN) == 6 && rank(OUTER) == 5 && rank(LONG) == 4 && rank(MORE) == 3
      && rank(SHORT) == 2 && rank(ITEM) == 1 && rank(END) == 0
  {
    assert BEGIN[0] == 'b' && OUTER[0] == 'o' && ITEM[0] == 'i' && SHORT[0] == 's';
    assert LONG[0] == 'l' && MORE[0] == 'm' && END[0] == 'e';
  }

  lemma ForkedComponents()
    ensures var g := Forked();
      && g.order == [BEGIN, OUTER, ITEM, SHORT, LONG, MORE, END]
      && g.cpn.Keys == {BEGIN, OUTER, ITEM, SHORT, LONG, MORE, END}
      && g.cpn[BEGIN] == Component0(Begin, [OUTER]) && g.cpn[OUTER] == Component0(Iteration, [END])
      && g.cpn[ITEM] == Child(IterationItem, OUTER, [SHORT, LONG]) && g.cpn[SHORT] == Child(Plain, OUTER, [])
      && g.cpn[LONG] == Child(Plain, OUTER, [MORE]) && g.cpn[MORE] == Child(Plain, OUTER, [])
      && g.cpn[END] == Component0(Plain, [])
  {
    ForkedRanks();
    hide BEGIN, OUTER, ITEM, SHORT, LONG, MORE, END, ForkedRank, Component0, Child;
  }

  lemma ForkedStart()
    ensures GetStart(Forked(), OUTER) == Some(ITEM)
  {
    ForkedRanks();
    ForkedComponents();
    hide BEGIN, OUTER, ITEM, SHORT, LONG, MORE, END, ForkedRank, Forked, FirstStart;
    var g := Forked();
    SkipStart(g, g.order, OUTER);
    SkipStart(g, g.order[1..], OUTER);
    FindStart(g, g.order[1..][1..], OUTER);
  }

  lemma ForkedWellFormed()
    ensures WellFormed(Forked())
  {
    ForkedRanks();
    ForkedComponents();
    ForkedStart();
    hide BEGIN, OUTER, ITEM, SHORT, LONG, MORE, END, ForkedRank, Forked, GetStart;
  }

  lemma ForkedEdges(id: Id, r: Report)
    requires WellFormed(Forked()) && id in Forked().cpn
    ensures !TakesGoto(Forked(), id, r)
    ensures Successors(Forked(), id, r) ==
      if id == BEGIN then [OUTER] else if id == OUTER then [ITEM]
      else if id == ITEM then (if r.ended then [END] else [SHORT, LONG])
      else if id == SHORT || id == MORE then [ITEM] else if id == LONG then [MORE] else []
  {
    ForkedRanks();
    ForkedComponents();
    ForkedStart();
    hide BEGIN, OUTER, ITEM, SHORT, LONG, MORE, END, ForkedRank, Forked, GetStart, WellFormed;
  }

  lemma ForkedKinds(id: Id)
    requires id in Forked().cpn
    ensures id in {BEGIN, OUTER, ITEM, SHORT, LONG, MORE, END}
    ensures var c := Forked().cpn[id];
      && c.deps == [] && !IsFillUp(Forked(), id) && !c.kind.Categorize? && !c.kind.Switch?
      && (IsItem(c.kind) <==> id == ITEM)
  {
    ForkedRanks();
    ForkedComponents();
    hide BEGIN, OUTER, ITEM, SHORT, LONG, MORE, END, ForkedRank, Forked;
  }

  lemma ForkedEdge(id: Id, r: Report)
    requires WellFormed(Forked()) && id in Forked().cpn
    ensures forall x <- Contributes(Forked(), id, r) ::
      ForkedRank()(x) < ForkedRank()(id) || GoesRound(Forked(), id, r)
  {
    ForkedRanks();
    ForkedKinds(id);
    ForkedEdges(id, r);
    hide BEGIN, OUTER, ITEM, SHORT, LONG, MORE, END, ForkedRank, Forked, WellFormed, Successors, TakesGoto, IsItem, IsFillUp;
  }

  lemma ForkedFalls()
    requires WellFormed(Forked())
    ensures AcyclicButForRounds(Forked(), NoOptions(), ForkedRank())
  {
    hide Forked, WellFormed, Contributes, Chooses, ForkedRank, GoesRound;
    forall id, r: Report | id in Forked().cpn
      ensures forall x <- Contributes(Forked(), id, r) ::
        ForkedRank()(x) < ForkedRank()(id) || GoesRound(Forked(), id, r)
    {
      ForkedEdge(id, r);
    }
  }

  // ---- the run ----

  /** From its fourth turn on the run repeats three batches. */
  function Batch(k: nat): seq<Id> {
    if k == 0 then [SHORT, LONG] else if k == 1 then [ITEM, MORE] else [END, ITEM]
  }

  /** The run is at batch `k`. Only behind the second one has the item just ended. */
  ghost predicate AtBatch(s: State, k: nat) {
    && k < 3 && s.phase.Running? && !s.failed && 3 <= s.idx && s.idx + 2 == |s.path| && s.path[s.idx..] == Batch(k)
    && s.idx % 6 == (if k == 0 then 3 else if k == 1 then 5 else 1)
    && Streak(ForkedReports(), s.path, 0, s.idx, ITEM) == (if k == 2 then 0 else 1)
  }

  function Following(k: nat): nat {
    if k == 2 then 0 else k + 1
  }

  lemma BatchLeadsOn(s: State, k: nat)
    requires WellFormed(Forked()) && AtBatch(s, k)
    ensures s.path[s.idx] in Forked().cpn && s.path[s.idx + 1] in Forked().cpn
    ensures Successors(Forked(), s.path[s.idx], ForkedReports().report(s.idx))
          + Successors(Forked(), s.path[s.idx + 1], ForkedReports().report(s.idx + 1)) == Batch(Following(k))
  {
    ForkedRanks();
    ForkedComponents();
    hide BEGIN, OUTER, ITEM, SHORT, LONG, MORE, END, ForkedRank, Forked, WellFormed, Successors, Streak;
    var a, b := s.path[s.idx], s.path[s.idx + 1];
    assert a == s.path[s.idx..][0] && b == s.path[s.idx..][1];
    ForkedEdges(a, ForkedReports().report(s.idx));
    ForkedEdges(b, ForkedReports().report(s.idx + 1));
  }

  lemma BatchIds(k: nat)
    ensures |Batch(k)| == 2 && Batch(k)[0] != Batch(k)[1]
    ensures forall id <- Batch(k) :: id in Forked().cpn && Forked().cpn[id].deps == [] && !IsFillUp(Forked(), id)
    ensures k < 3 ==> Batch(k)[1] != Batch(Following(k))[0]
  {
    ForkedRanks();
    ForkedComponents();
    hide BEGIN, OUTER, ITEM, SHORT, LONG, MORE, END, ForkedRank, Forked, IsFillUp;
    forall id <- Batch(k) ensures id in Forked().cpn && Forked().cpn[id].deps == [] && !IsFillUp(Forked(), id) {
      ForkedKinds(id);
    }
  }

  lemma AtBatchShape(s: State, k: nat)
    requires AtBatch(s, k)
    ensures k < 3 && s.phase.Running? && !s.failed && s.idx + 2 == |s.path|
    ensures s.path[s.idx] in Batch(k) && s.path[s.idx + 1] in Batch(k) && s.path[s.idx + 1] == Batch(k)[1]
  {
    hide Batch, Streak;
    assert s.path[s.idx] == s.path[s.idx..][0] && s.path[s.idx + 1] == s.path[s.idx..][1];
  }

  lemma NothingFails(i: nat)
    ensures !ForkedReports().report(i).failed
  {
  }

  lemma BatchIsPair(s: State, k: nat)
    requires WellFormed(Forked()) && AtBatch(s, k)
    ensures Pair(Forked(), ForkedReports(), s, Batch(Following(k)))
  {
    hide Forked, ForkedReports, WellFormed, Successors, Streak, IsFillUp, ExtendPath, Batch, Following, AtBatch, BEGIN, ITEM;
    BatchLeadsOn(s, k);
    AtBatchShape(s, k);
    BatchIds(k);
    BatchIds(Following(k));
    NothingFails(s.idx);
    NothingFails(s.idx + 1);
    ExtendDistinct(s.path, Batch(Following(k)));
  }

  lemma StreakNext(s: State, t: State, k: nat)
    requires AtBatch(s, k) && s.path <= t.path
    ensures Streak(ForkedReports(), t.path, 0, s.idx + 2, ITEM) == (if Following(k) == 2 then 0 else 1)
    ensures Streak(ForkedReports(), s.path, 0, s.idx + 1, ITEM) == (if k == 0 then 1 else 0)
  {
    ForkedRanks();
    hide BEGIN, OUTER, ITEM, SHORT, LONG, MORE, END, ForkedRank;
    var o, i := ForkedReports(), s.idx;
    assert s.path[i] == s.path[i..][0] && s.path[i + 1] == s.path[i..][1];
    StreakSame(o, s.path, t.path, 0, i, ITEM);
    assert Streak(o, t.path, 0, i + 2, ITEM)
        == if t.path[i + 1] != ITEM then Streak(o, t.path, 0, i + 1, ITEM)
           else if o.report(i + 1).ended then 0 else Streak(o, t.path, 0, i + 1, ITEM) + 1;
  }

  lemma BatchEndsLoops(s: State, k: nat)
    requires AtBatch(s, k) && Known(Forked(), s.path[s.idx..]) && AfterPrune(Forked(), s).path == s.path
    ensures EndsLoopsInTurn(Forked(), ForkedReports(), ForkedLimit(), 0, s)
  {
    var o := ForkedReports();
    StreakNext(s, s, k);
    forall i | s.idx <= i < |s.path| && GoesRound(Forked(), s.path[i], o.report(i))
      ensures Streak(o, s.path, 0, i, s.path[i]) < 1
    {
      ForkedRanks();
      hide BEGIN, OUTER, ITEM, SHORT, LONG, MORE, END, ForkedRank, Forked, AfterPrune, Streak, IsItem, IsFillUp;
      assert s.path[s.idx] == s.path[s.idx..][0] && s.path[s.idx + 1] == s.path[s.idx..][1];
      ForkedKinds(s.path[i]);
    }
  }

  lemma NextBatch(s: State, t: State, k: nat)
    requires AtBatch(s, k) && t.phase.Running? && !t.failed
    requires t.path == s.path + Batch(Following(k)) && t.idx == |s.path|
    ensures AtBatch(t, Following(k))
  {
    hide Streak, Batch, ForkedReports, ITEM;
    StreakNext(s, t, k);
    BatchesAreTwo(Following(k));
    assert t.path[t.idx..] == Batch(Following(k));
    assert t.idx == s.idx + 2;
  }

  lemma BatchesAreTwo(k: nat)
    ensures |Batch(k)| == 2
  {
  }

  lemma BatchTurn(s: State, k: nat)
    requires WellFormed(Forked()) && AtBatch(s, k) && s.idx <= |s.path|
    ensures AtBatch(Step(Forked(), ForkedReports(), s), Following(k))
    ensures EndsLoopsInTurn(Forked(), ForkedReports(), ForkedLimit(), 0, s)
  {
    hide WellFormed, Forked, ForkedReports, Step, AfterPrune, Streak, EndsLoopsInTurn, ForkedLimit, Batch, Successors,
      IsFillUp;
    BatchIsPair(s, k);
    PairTurn(Forked(), ForkedReports(), s, Batch(Following(k)));
    NextBatch(s, Step(Forked(), ForkedReports(), s), k);
    BatchEndsLoops(s, k);
  }

  /** Before that the run comes to the item. */
  ghost predicate AtHead(s: State, j: nat) {
    j < 3 && s.phase.Running? && !s.failed && s.idx == j && s.path == [BEGIN, OUTER, ITEM][..j + 1]
  }

  function AfterHead(j: nat): seq<Id> {
    if j == 0 then [OUTER] else if j == 1 then [ITEM] else Batch(0)
  }

  lemma HeadIsQuiet(s: State, j: nat)
    requires WellFormed(Forked()) && AtHead(s, j)
    ensures Quiet(Forked(), s, ForkedReports().report(s.idx), AfterHead(j))
    ensures forall id <- AfterHead(j) :: !IsFillUp(Forked(), id)
  {
    ForkedRanks();
    ForkedComponents();
    hide BEGIN, OUTER, ITEM, SHORT, LONG, MORE, END, ForkedRank, Forked, WellFormed, Successors, IsFillUp, ExtendPath;
    var id := s.path[j];
    ForkedKinds(id);
    ForkedEdges(id, ForkedReports().report(j));
    ExtendDistinct(s.path, AfterHead(j));
    forall x | x in AfterHead(j) ensures !IsFillUp(Forked(), x) {
      ForkedKinds(x);
    }
  }

  lemma HeadTurn(s: State, j: nat)
    requires WellFormed(Forked()) && AtHead(s, j) && s.idx <= |s.path|
    ensures var t := Step(Forked(), ForkedReports(), s); if j < 2 then AtHead(t, j + 1) else AtBatch(t, 0)
    ensures EndsLoopsInTurn(Forked(), ForkedReports(), ForkedLimit(), 0, s)
  {
    hide WellFormed, Forked, ForkedReports, Step, AfterPrune, Streak, ForkedLimit, Successors, IsFillUp, ExtendPath, Quiet,
      BEGIN, OUTER, ITEM, GoesRound;
    HeadIsQuiet(s, j);
    QuietTurn(Forked(), ForkedReports(), s, AfterHead(j));
    AfterTheHead(s, Step(Forked(), ForkedReports(), s), j);
    FirstVisit(s, j);
    assert ForkedLimit()(s.path[j]) == 1 by { LimitIsOne(s.path[j]); }
  }

  lemma LimitIsOne(id: Id)
    ensures ForkedLimit()(id) == 1
  {
  }

  lemma FirstVisit(s: State, j: nat)
    requires AtHead(s, j)
    ensures Streak(ForkedReports(), s.path, 0, j, s.path[j]) == 0
  {
    ForkedRanks();
    hide BEGIN, OUTER, ITEM, SHORT, LONG, MORE, END, ForkedRank, ForkedReports;
  }

  lemma AfterTheHead(s: State, t: State, j: nat)
    requires AtHead(s, j) && t.phase.Running? && !t.failed && t.path == s.path + AfterHead(j) && t.idx == |s.path|
    ensures if j < 2 then AtHead(t, j + 1) else AtBatch(t, 0)
  {
    ForkedRanks();
    hide BEGIN, OUTER, ITEM, SHORT, LONG, MORE, END, ForkedRank;
    if j == 2 {
      assert t.path == [BEGIN, OUTER, ITEM, SHORT, LONG];
      assert t.path[3..] == Batch(0);
      assert Streak(ForkedReports(), t.path, 0, 3, ITEM) == 1;
    }
  }

  ghost predicate OnTheWay(s: State) {
    (exists j :: AtHead(s, j)) || (exists k :: AtBatch(s, k))
  }

  lemma TurnOnTheWay(s: State)
    requires WellFormed(Forked()) && OnTheWay(s)
    ensures s.phase.Running? && s.idx <= |s.path| && OnTheWay(Step(Forked(), ForkedReports(), s))
    ensures EndsLoopsInTurn(Forked(), ForkedReports(), ForkedLimit(), 0, s)
  {
    hide WellFormed, Step, Forked, ForkedReports, ForkedLimit, EndsLoopsInTurn, AtBatch, AtHead;
    if j :| AtHead(s, j) {
      assert s.phase.Running? && s.idx <= |s.path| by { HeadIndex(s, j); }
      HeadTurn(s, j);
    } else {
      var k :| AtBatch(s, k);
      assert s.phase.Running? && s.idx <= |s.path| by { BatchIndex(s, k); }
      BatchTurn(s, k);
    }
  }

  lemma HeadIndex(s: State, j: nat)
    requires AtHead(s, j)
    ensures s.phase.Running? && s.idx <= |s.path|
  {
  }

  lemma BatchIndex(s: State, k: nat)
    requires AtBatch(s, k)
    ensures s.phase.Running? && s.idx <= |s.path|
  {
  }

  lemma {:induction false} NeverOffTheWay(s: State, n: nat)
    requires WellFormed(Forked()) && OnTheWay(s) && s.phase.Running? && s.idx <= |s.path|
    ensures RunSteps(Forked(), ForkedReports(), s, n).phase.Running?
    ensures EndsLoops(Forked(), ForkedReports(), ForkedLimit(), 0, s, n)
    decreases n
  {
    hide WellFormed, Step, Forked, ForkedReports, ForkedLimit, EndsLoopsInTurn, OnTheWay;
    if n > 0 {
      StepKeepsIndex(Forked(), ForkedReports(), s);
      TurnOnTheWay(s);
      TurnOnTheWay(Step(Forked(), ForkedReports(), s));
      NeverOffTheWay(Step(Forked(), ForkedReports(), s), n - 1);
    }
  }

  /** The canvas meets every condition of the theorem on loops within loops but the one against
      forks: each loop of its item ends after one round. Its run never ends. */
  lemma ForkedLoopNeverEnds(n: nat)
    ensures WellFormed(Forked()) && AcyclicButForRounds(Forked(), NoOptions(), ForkedRank())
    ensures KeepsToOptions(Forked(), ForkedReports(), NoOptions(), Start([]), n)
    ensures EndsLoops(Forked(), ForkedReports(), ForkedLimit(), From([]), Start([]), n)
    ensures RunSteps(Forked(), ForkedReports(), Start([]), n).phase.Running?
  {
    ForkedWellFormed();
    hide WellFormed, Forked, ForkedReports, ForkedLimit, AcyclicButForRounds, KeepsToOptions, EndsLoops, RunSteps, Start,
      From, NoOptions, ForkedRank;
    ForkedFalls();
    FreshRun();
    StartIsHead();
    assert OnTheWay(Start([]));
    NeverOffTheWay(Start([]), n);
    forall id | id in Forked().cpn ensures !Forked().cpn[id].kind.Categorize? && !Forked().cpn[id].kind.Switch? {
      ForkedKinds(id);
    }
    NoRouters(Forked(), ForkedReports(), Start([]), n);
  }

  lemma StartIsHead()
    ensures AtHead(Start([]), 0)
  {
    assert [] + [BEGIN] == [BEGIN];
  }
}
