/** Canvases with iterations and loops, whose graphs have cycles: their runs end if and only if the
    items go round finitely often; and when one component runs at a time, if every item ends
    each of its loops after finitely many visits, loops within loops included. */
module CanvasLoops {
  import opened CanvasGraph
  import opened CanvasSpec
  import opened CanvasSafety
  import opened CanvasProgress

  /** An item component that goes round once more. */
  predicate GoesRound(g: Graph, id: Id, r: Report) {
    id in g.cpn && IsItem(g.cpn[id].kind) && !r.ended
  }

  /** The rank falls along every edge but those from an item into another round: from a container
      to its item, from the last of its children back to the item, from an ended item to what
      follows the container. */
  ghost predicate AcyclicButForRounds(g: Graph, options: Options, rank: Id -> nat)
    requires WellFormed(g)
  {
    forall id, r: Report, x |
      id in g.cpn && !GoesRound(g, id, r) && Chooses(g, options, id, r) && x in Contributes(g, id, r) ::
      rank(x) < rank(id)
  }

  /** Does an item go round in the batch of this turn? */
  ghost predicate RoundTurn(g: Graph, o: Oracle, s: State)
    requires s.idx <= |s.path|
  {
    && Known(g, s.path[s.idx..])
    && exists i | s.idx <= i < |AfterPrune(g, s).path| :: GoesRound(g, AfterPrune(g, s).path[i], o.report(i))
  }

  /** How many of the next `n` turns hold another round of some item. */
  ghost function Rounds(g: Graph, o: Oracle, s: State, n: nat): nat
    requires WellFormed(g) && (s.phase.Running? ==> s.idx <= |s.path|)
    decreases n
  {
    if n == 0 || !s.phase.Running? then 0
    else
      StepKeepsIndex(g, o, s);
      (if RoundTurn(g, o, s) then 1 else 0) + Rounds(g, o, Step(g, o, s), n - 1)
  }

  lemma TurnWithoutRound(g: Graph, o: Oracle, options: Options, rank: Id -> nat, s: State, n: nat)
    requires WellFormed(g) && AcyclicButForRounds(g, options, rank) && s.phase.Running? && s.idx <= |s.path|
    requires n > 0 && KeepsToOptions(g, o, options, s, n) && !RoundTurn(g, o, s)
    ensures RankedTurn(g, o, rank, s)
  {
    hide WellFormed, Contributes, Chooses, GoesRound, Step, AfterPrune;
  }

  /** Turns without a new round lower the frontier, and a new round raises it to the top, but only
      so many times. */
  lemma {:induction false} RoundsRunOut(
    g: Graph, o: Oracle, options: Options, rank: Id -> nat, top: nat, s: State, bound: nat, rounds: nat, n: nat)
    requires WellFormed(g) && AcyclicButForRounds(g, options, rank) && forall id :: rank(id) < top
    requires FrontierBelow(s, rank, bound) && KeepsToOptions(g, o, options, s, n)
    requires Rounds(g, o, s, n) <= rounds && n >= bound + 1 + rounds * (top + 1)
    ensures !RunSteps(g, o, s, n).phase.Running?
    decreases n
  {
    hide WellFormed, AcyclicButForRounds, Step, RoundTurn, RankedTurn;
    if s.phase.Running? {
      StepKeepsIndex(g, o, s);
      var s' := Step(g, o, s);
      StoppedStays(g, o, s', n - 1);
      if s'.phase.Running? {
        if RoundTurn(g, o, s) {
          assert rounds * (top + 1) == (rounds - 1) * (top + 1) + (top + 1);
          RoundsRunOut(g, o, options, rank, top, s', top, rounds - 1, n - 1);
        } else {
          TurnWithoutRound(g, o, options, rank, s, n);
          StepLowersRank(g, o, rank, s, bound);
          RoundsRunOut(g, o, options, rank, top, s', bound - 1, rounds, n - 1);
        }
      }
    }
  }

  /** A run of a canvas with loops of which no more than `rounds` turns hold another round ends
      within (rounds + 1) * (top + 1) turns. */
  lemma FewRoundsEnd(
    g: Graph, o: Oracle, options: Options, rank: Id -> nat, top: nat, init: seq<Id>, rounds: nat)
    requires WellFormed(g) && AcyclicButForRounds(g, options, rank) && forall id :: rank(id) < top
    requires KeepsToOptions(g, o, options, Start(init), (rounds + 1) * (top + 1))
    requires Rounds(g, o, Start(init), (rounds + 1) * (top + 1)) <= rounds
    ensures !RunSteps(g, o, Start(init), (rounds + 1) * (top + 1)).phase.Running?
  {
    hide WellFormed, AcyclicButForRounds, KeepsToOptions, Rounds, RunSteps;
    assert (rounds + 1) * (top + 1) == top + 1 + rounds * (top + 1);
    RoundsRunOut(g, o, options, rank, top, Start(init), top, rounds, (rounds + 1) * (top + 1));
  }

  // ---- items that end after finitely many visits ----

  /** How often the path visits `x` from `from` on, before entry `i`. */
  function Visits(path: seq<Id>, from: nat, i: nat, x: Id): nat {
    if from <= i <= |path| then multiset(path[from..i])[x] else 0
  }

  /** In this turn no item goes round that this run has visited as often as its limit allows. */
  ghost predicate EndsInTurn(g: Graph, o: Oracle, limit: Id -> nat, from: nat, s: State)
    requires s.idx <= |s.path|
  {
    Known(g, s.path[s.idx..]) ==>
      var p := AfterPrune(g, s).path;
      forall i | s.idx <= i < |p| && GoesRound(g, p[i], o.report(i)) :: Visits(p, from, i, p[i]) < limit(p[i])
  }

  /** Nor in any of the next `n` turns: from its `limit`-th visit on each item reports that it
      ended. */
  ghost predicate EndsInTime(g: Graph, o: Oracle, limit: Id -> nat, from: nat, s: State, n: nat)
    requires WellFormed(g) && (s.phase.Running? ==> s.idx <= |s.path|)
    decreases n
  {
    n == 0 || !s.phase.Running? ||
      (&& EndsInTurn(g, o, limit, from, s)
       && (StepKeepsIndex(g, o, s); EndsInTime(g, o, limit, from, Step(g, o, s), n - 1)))
  }

  /** The visits that the limits still allow. */
  function Left(limit: Id -> nat, visited: multiset<Id>, ids: seq<Id>): nat {
    if ids == [] then 0
    else (if visited[ids[0]] < limit(ids[0]) then limit(ids[0]) - visited[ids[0]] else 0)
         + Left(limit, visited, ids[1..])
  }

  lemma {:induction false} LeftFalls(limit: Id -> nat, a: multiset<Id>, b: multiset<Id>, ids: seq<Id>)
    requires a <= b
    ensures Left(limit, b, ids) <= Left(limit, a, ids)
    ensures forall x <- ids | a[x] < b[x] && a[x] < limit(x) :: Left(limit, b, ids) < Left(limit, a, ids)
  {
    if ids != [] {
      assert ids == [ids[0]] + ids[1..];
      LeftFalls(limit, a, b, ids[1..]);
      assert a[ids[0]] <= b[ids[0]];
    }
  }

  lemma {:induction false} NoneLeft(limit: Id -> nat, a: multiset<Id>, ids: seq<Id>)
    ensures forall x <- ids | a[x] < limit(x) :: Left(limit, a, ids) > 0
  {
    if ids != [] {
      assert ids == [ids[0]] + ids[1..];
      NoneLeft(limit, a, ids[1..]);
    }
  }

  /** The batch stands behind what was processed, and the path grows behind it. */
  lemma BatchStaysInPlace(g: Graph, o: Oracle, s: State)
    requires WellFormed(g) && s.idx <= |s.path| && Known(g, s.path[s.idx..])
    ensures var (p, end) := BatchPath(g, o, s);
      s.path[..s.idx] <= p[..end] && AfterPrune(g, s).path == p[..end]
  {
    hide WellFormed, Prune, PostRange, StartedEvents;
    PruneKnown(g, s.path[..s.idx], s.path[s.idx..]);
    var s1 := AfterPrune(g, s);
    assert s1.path[s.idx..|s1.path|] == s1.path[s.idx..];
    PostRangeFrame(g, o, s1, s.idx, |s1.path|);
  }

  function Visited(s: State, from: nat): multiset<Id> {
    if from <= s.idx <= |s.path| then multiset(s.path[from..s.idx]) else multiset{}
  }

  lemma OneMoreVisit(s: State, from: nat, q: seq<Id>, i: nat)
    requires from <= s.idx <= |s.path| && s.path[..s.idx] <= q && s.idx <= i < |q|
    ensures Visited(s, from)[q[i]] <= Visits(q, from, i, q[i]) < multiset(q[from..])[q[i]]
  {
    assert s.path[from..s.idx] == q[from..s.idx] by { assert q[..s.idx] == s.path[..s.idx]; }
    assert q[from..i] == q[from..s.idx] + q[s.idx..i];
    assert q[from..] == q[from..i] + [q[i]] + q[i + 1..];
  }

  /** What has been visited once the batch of this turn is through. */
  lemma VisitedNext(g: Graph, o: Oracle, from: nat, s: State)
    requires WellFormed(g) && s.phase.Running? && from <= s.idx <= |s.path|
    requires Step(g, o, s).phase.Running?
    ensures Known(g, s.path[s.idx..]) && from <= |AfterPrune(g, s).path|
    ensures Visited(s, from) <= Visited(Step(g, o, s), from) == multiset(AfterPrune(g, s).path[from..])
    ensures from <= Step(g, o, s).idx <= |Step(g, o, s).path|
  {
    hide WellFormed, Step, AfterPrune, BatchPath;
    StepKeepsIndex(g, o, s);
    GoesOn(g, o, s);
    BatchStaysInPlace(g, o, s);
    var t := Step(g, o, s);
    var q := t.path[..t.idx];
    assert t.path[from..t.idx] == q[from..];
    assert s.path[from..s.idx] == q[from..s.idx] by { assert q[..s.idx] == s.path[..s.idx]; }
    assert q[from..] == q[from..s.idx] + q[s.idx..];
  }

  /** An item that goes round in this turn was still allowed to, and is visited once more. */
  lemma RoundWitness(g: Graph, o: Oracle, limit: Id -> nat, from: nat, s: State) returns (x: Id)
    requires WellFormed(g) && from <= s.idx <= |s.path| && EndsInTurn(g, o, limit, from, s) && RoundTurn(g, o, s)
    ensures from <= |AfterPrune(g, s).path|
    ensures x in g.order && Visited(s, from)[x] < limit(x)
    ensures Visited(s, from)[x] < multiset(AfterPrune(g, s).path[from..])[x]
  {
    OrderCovers(g);
    hide WellFormed, AfterPrune, BatchPath, Visited, Visits;
    BatchStaysInPlace(g, o, s);
    var q := AfterPrune(g, s).path;
    var i :| s.idx <= i < |q| && GoesRound(g, q[i], o.report(i));
    x := q[i];
    hide GoesRound, Visited, Visits;
    OneMoreVisit(s, from, q, i);
  }

  /** A turn with another round uses up a visit. */
  lemma RoundUsesVisit(g: Graph, o: Oracle, limit: Id -> nat, from: nat, s: State)
    requires WellFormed(g) && s.phase.Running? && from <= s.idx <= |s.path| && EndsInTurn(g, o, limit, from, s)
    ensures var now := Left(limit, Visited(s, from), g.order);
      var t := Step(g, o, s);
      && (RoundTurn(g, o, s) ==> now > 0)
      && (t.phase.Running? ==> from <= t.idx <= |t.path| && Left(limit, Visited(t, from), g.order) <= now)
      && (t.phase.Running? && RoundTurn(g, o, s) ==> Left(limit, Visited(t, from), g.order) < now)
  {
    hide WellFormed, Step, AfterPrune, Left, RoundTurn, EndsInTurn, Visited;
    var a, t := Visited(s, from), Step(g, o, s);
    NoneLeft(limit, a, g.order);
    if t.phase.Running? {
      VisitedNext(g, o, from, s);
      LeftFalls(limit, a, Visited(t, from), g.order);
    }
    if RoundTurn(g, o, s) {
      var x := RoundWitness(g, o, limit, from, s);
    }
  }

  lemma {:induction false} RoundsAreLeft(g: Graph, o: Oracle, limit: Id -> nat, from: nat, s: State, n: nat)
    requires WellFormed(g) && (s.phase.Running? ==> from <= s.idx <= |s.path|)
    requires EndsInTime(g, o, limit, from, s, n)
    ensures Rounds(g, o, s, n) <= Left(limit, Visited(s, from), g.order)
    decreases n
  {
    hide WellFormed, EndsInTurn, Step, RoundTurn, Left, Visited;
    if n > 0 && s.phase.Running? {
      StepKeepsIndex(g, o, s);
      RoundUsesVisit(g, o, limit, from, s);
      RoundsAreLeft(g, o, limit, from, Step(g, o, s), n - 1);
    }
  }

  /** A run of a canvas with loops ends when each item ends after finitely many visits: with
      `rounds` the sum of the limits, within (rounds + 1) * (top + 1) turns. */
  lemma LoopingCanvasTerminates(
    g: Graph, o: Oracle, options: Options, rank: Id -> nat, top: nat, limit: Id -> nat, init: seq<Id>)
    requires WellFormed(g) && AcyclicButForRounds(g, options, rank) && forall id :: rank(id) < top
    requires var n := (Left(limit, multiset{}, g.order) + 1) * (top + 1);
      KeepsToOptions(g, o, options, Start(init), n) && EndsInTime(g, o, limit, From(init), Start(init), n)
    ensures !RunSteps(g, o, Start(init), (Left(limit, multiset{}, g.order) + 1) * (top + 1)).phase.Running?
  {
    hide WellFormed, AcyclicButForRounds, KeepsToOptions, EndsInTime, Rounds, RunSteps, Left;
    var rounds := Left(limit, multiset{}, g.order);
    var s := Start(init);
    assert From(init) == s.idx && s.path[s.idx..s.idx] == [];
    assert Visited(s, From(init)) == multiset{};
    RoundsAreLeft(g, o, limit, From(init), s, (rounds + 1) * (top + 1));
    FewRoundsEnd(g, o, options, rank, top, init, rounds);
  }

  // ---- and no other run ends ----

  /** The longest path among the next `n` turns. */
  ghost function Longest(g: Graph, o: Oracle, s: State, n: nat): nat
    requires WellFormed(g) && (s.phase.Running? ==> s.idx <= |s.path|)
    decreases n
  {
    if n == 0 || !s.phase.Running? then 0
    else
      StepKeepsIndex(g, o, s);
      var later := Longest(g, o, Step(g, o, s), n - 1);
      if Known(g, s.path[s.idx..]) && |AfterPrune(g, s).path| > later then |AfterPrune(g, s).path| else later
  }

  lemma FewVisits(g: Graph, o: Oracle, limit: Id -> nat, from: nat, s: State)
    requires s.idx <= |s.path|
    requires Known(g, s.path[s.idx..]) ==> forall id :: |AfterPrune(g, s).path| <= limit(id)
    ensures EndsInTurn(g, o, limit, from, s)
  {
    hide AfterPrune, GoesRound;
    if Known(g, s.path[s.idx..]) {
      var p := AfterPrune(g, s).path;
      forall i | s.idx <= i < |p| ensures Visits(p, from, i, p[i]) < limit(p[i]) {
        if from <= i {
          Multiplicity(p[from..i], p[i]);
        }
      }
    }
  }

  lemma {:induction false} Multiplicity(ids: seq<Id>, x: Id)
    ensures multiset(ids)[x] <= |ids|
  {
    if ids != [] {
      assert ids == [ids[0]] + ids[1..];
      Multiplicity(ids[1..], x);
    }
  }

  lemma {:induction false} EndedRunEndsInTime(g: Graph, o: Oracle, limit: Id -> nat, from: nat, s: State, n: nat, m: nat)
    requires WellFormed(g) && (s.phase.Running? ==> s.idx <= |s.path|) && !RunSteps(g, o, s, n).phase.Running?
    requires forall id :: Longest(g, o, s, n) <= limit(id)
    ensures EndsInTime(g, o, limit, from, s, m)
    decreases m
  {
    hide WellFormed, EndsInTurn, Step, AfterPrune;
    if m > 0 && s.phase.Running? {
      StepKeepsIndex(g, o, s);
      FewVisits(g, o, limit, from, s);
      EndedRunEndsInTime(g, o, limit, from, Step(g, o, s), n - 1, m - 1);
    }
  }

  /** Does the run end at all? */
  ghost predicate Ends(g: Graph, o: Oracle, init: seq<Id>)
    requires WellFormed(g)
  {
    exists n :: !RunSteps(g, o, Start(init), n).phase.Running?
  }

  /** Are there limits that each item keeps to throughout the run? */
  ghost predicate ItemsEnd(g: Graph, o: Oracle, init: seq<Id>)
    requires WellFormed(g)
  {
    exists limit: Id -> nat :: KeepsLimits(g, o, limit, init)
  }

  ghost predicate KeepsLimits(g: Graph, o: Oracle, limit: Id -> nat, init: seq<Id>)
    requires WellFormed(g)
  {
    forall n :: EndsInTime(g, o, limit, From(init), Start(init), n)
  }

  /** A run of a canvas with loops ends exactly when each of its items ends after finitely many
      visits. */
  lemma EndsIffItemsEnd(g: Graph, o: Oracle, options: Options, rank: Id -> nat, top: nat, init: seq<Id>)
    requires WellFormed(g) && AcyclicButForRounds(g, options, rank) && forall id :: rank(id) < top
    requires forall n :: KeepsToOptions(g, o, options, Start(init), n)
    ensures Ends(g, o, init) <==> ItemsEnd(g, o, init)
  {
    hide WellFormed, AcyclicButForRounds, KeepsToOptions, EndsInTime, RunSteps, Left, Longest;
    if ItemsEnd(g, o, init) {
      var limit: Id -> nat :| KeepsLimits(g, o, limit, init);
      LoopingCanvasTerminates(g, o, options, rank, top, limit, init);
    }
    if Ends(g, o, init) {
      var n :| !RunSteps(g, o, Start(init), n).phase.Running?;
      var longest := Longest(g, o, Start(init), n);
      var limit: Id -> nat := _ => longest;
      forall m ensures EndsInTime(g, o, limit, From(init), Start(init), m) {
        EndedRunEndsInTime(g, o, limit, From(init), Start(init), n, m);
      }
      assert KeepsLimits(g, o, limit, init);
    }
  }

  // ---- one component at a time ----

  /** How often in a row, before entry `i` and from `from` on, the visits of `x` have not ended. */
  function Streak(o: Oracle, path: seq<Id>, from: nat, i: nat, x: Id): nat
    requires i <= |path|
    decreases i
  {
    if i <= from then 0
    else if path[i - 1] != x then Streak(o, path, from, i - 1, x)
    else if o.report(i - 1).ended then 0
    else Streak(o, path, from, i - 1, x) + 1
  }

  lemma {:induction false} StreakSame(o: Oracle, p: seq<Id>, q: seq<Id>, from: nat, i: nat, x: Id)
    requires i <= |p| && p <= q
    ensures Streak(o, p, from, i, x) == Streak(o, q, from, i, x)
    decreases i
  {
    if i > from {
      StreakSame(o, p, q, from, i - 1, x);
    }
  }

  /** In this turn no item goes round that has not ended in its last `limit` visits. */
  ghost predicate EndsLoopsInTurn(g: Graph, o: Oracle, limit: Id -> nat, from: nat, s: State)
    requires s.idx <= |s.path|
  {
    Known(g, s.path[s.idx..]) ==>
      var p := AfterPrune(g, s).path;
      forall i | s.idx <= i < |p| && GoesRound(g, p[i], o.report(i)) :: Streak(o, p, from, i, p[i]) < limit(p[i])
  }

  /** Nor in any of the next `n` turns: each time it is entered, an item ends after no more than
      `limit` visits. It may be entered any number of times, by the rounds of an outer loop. */
  ghost predicate EndsLoops(g: Graph, o: Oracle, limit: Id -> nat, from: nat, s: State, n: nat)
    requires WellFormed(g) && (s.phase.Running? ==> s.idx <= |s.path|)
    decreases n
  {
    n == 0 || !s.phase.Running? ||
      (&& EndsLoopsInTurn(g, o, limit, from, s)
       && (StepKeepsIndex(g, o, s); EndsLoops(g, o, limit, from, Step(g, o, s), n - 1)))
  }

  /** No component contributes more than one edge. */
  ghost predicate Unforked(g: Graph, o: Oracle)
    requires WellFormed(g)
  {
    forall id, i: nat | id in g.cpn :: |Contributes(g, id, o.report(i))| <= 1
  }

  /** The visits that the loops of the components of rank `r` still allow. */
  function LeftAt(limit: Id -> nat, streak: Id -> nat, rank: Id -> nat, r: nat, ids: seq<Id>): nat {
    if ids == [] then 0
    else (if rank(ids[0]) == r && streak(ids[0]) < limit(ids[0]) then limit(ids[0]) - streak(ids[0]) else 0)
         + LeftAt(limit, streak, rank, r, ids[1..])
  }

  lemma {:induction false} LeftAtBelow(limit: Id -> nat, streak: Id -> nat, rank: Id -> nat, r: nat, ids: seq<Id>)
    ensures LeftAt(limit, streak, rank, r, ids) <= Left(limit, multiset{}, ids)
  {
    if ids != [] {
      LeftAtBelow(limit, streak, rank, r, ids[1..]);
    }
  }

  /** Only the visited id's allowance changes, and falls if the visit did not end. */
  lemma {:induction false} LeftAtChanges(
    limit: Id -> nat, before: Id -> nat, after: Id -> nat, rank: Id -> nat, r: nat, ids: seq<Id>, x: Id)
    requires forall y | y != x :: before(y) == after(y)
    ensures rank(x) != r ==> LeftAt(limit, after, rank, r, ids) == LeftAt(limit, before, rank, r, ids)
    ensures before(x) < after(x) ==> LeftAt(limit, after, rank, r, ids) <= LeftAt(limit, before, rank, r, ids)
    ensures before(x) < after(x) && before(x) < limit(x) && x in ids && rank(x) == r ==>
      LeftAt(limit, after, rank, r, ids) < LeftAt(limit, before, rank, r, ids)
  {
    if ids != [] {
      assert ids == [ids[0]] + ids[1..];
      LeftAtChanges(limit, before, after, rank, r, ids[1..], x);
    }
  }

  /** A numeral to the base `base` with one more digit. */
  function Push(a: nat, base: nat, digit: nat): nat {
    a * base + digit
  }

  lemma {:induction false} TimesGrows(a: nat, b: nat, c: nat)
    requires a <= b
    ensures a * c <= b * c
    decreases b
  {
    if a < b {
      TimesGrows(a, b - 1, c);
      assert b * c == (b - 1) * c + c;
    }
  }

  lemma PushOrder(a: nat, b: nat, base: nat, x: nat, y: nat)
    requires a <= b
    ensures x <= y ==> Push(a, base, x) <= Push(b, base, y)
    ensures x < y ==> Push(a, base, x) < Push(b, base, y)
    ensures a < b && x < base ==> Push(a, base, x) < Push(b, base, y)
  {
    TimesGrows(a, b, base);
    if a < b {
      TimesGrows(a + 1, b, base);
      assert (a + 1) * base == a * base + base;
    }
  }

  lemma PushNought(a: nat, base: nat)
    ensures Push(a, base, 0) == a * base
  {
  }

  /** The number with the digits d(0), d(1), ... d(k - 1). */
  function Numeral(d: nat -> nat, base: nat, k: nat): nat {
    if k == 0 then 0 else Push(Numeral(d, base, k - 1), base, d(k - 1))
  }

  lemma {:induction false} NumeralGrows(d: nat -> nat, e: nat -> nat, base: nat, k: nat)
    requires forall r | 0 <= r < k :: d(r) <= e(r)
    ensures Numeral(d, base, k) <= Numeral(e, base, k)
  {
    hide Push;
    if k > 0 {
      NumeralGrows(d, e, base, k - 1);
      PushOrder(Numeral(d, base, k - 1), Numeral(e, base, k - 1), base, d(k - 1), e(k - 1));
    }
  }

  /** The first digit that differs decides. */
  lemma {:induction false} FirstDigitDecides(d: nat -> nat, e: nat -> nat, base: nat, j: nat, k: nat)
    requires j < k && (forall r | 0 <= r < j :: d(r) <= e(r)) && d(j) < e(j)
    requires forall r: nat :: d(r) < base
    ensures Numeral(d, base, k) < Numeral(e, base, k)
    decreases k
  {
    hide Push;
    if k == j + 1 {
      NumeralGrows(d, e, base, j);
    } else {
      FirstDigitDecides(d, e, base, j, k - 1);
    }
    PushOrder(Numeral(d, base, k - 1), Numeral(e, base, k - 1), base, d(k - 1), e(k - 1));
  }

  function Power(base: nat, k: nat): nat {
    if k == 0 then 1 else Power(base, k - 1) * base
  }

  lemma {:induction false} NumeralBelow(d: nat -> nat, base: nat, k: nat)
    requires forall r: nat :: d(r) < base
    ensures Numeral(d, base, k) < Power(base, k)
  {
    hide Push;
    if k > 0 {
      NumeralBelow(d, base, k - 1);
      PushOrder(Numeral(d, base, k - 1), Power(base, k - 1), base, d(k - 1), 0);
      PushNought(Power(base, k - 1), base);
    }
  }

  /** The streaks at the component that comes next. */
  function StreaksOf(o: Oracle, from: nat, s: State): Id -> nat {
    if s.idx <= |s.path| then x => Streak(o, s.path, from, s.idx, x) else _ => 0
  }

  /** Digit `r`: what the loops of rank `r` still allow. A component below that rank does not reach
      them again before a loop of a lower rank goes round, and that counts for more. */
  ghost function Digits(g: Graph, o: Oracle, limit: Id -> nat, rank: Id -> nat, from: nat, s: State): nat -> nat {
    (r: nat) => if s.idx < |s.path| && r <= rank(s.path[s.idx])
         then LeftAt(limit, StreaksOf(o, from, s), rank, r, g.order) else 0
  }

  function Allowance(g: Graph, limit: Id -> nat): nat {
    Left(limit, multiset{}, g.order) + 1
  }

  lemma DigitsBelow(g: Graph, o: Oracle, limit: Id -> nat, rank: Id -> nat, from: nat, s: State)
    ensures forall r: nat :: Digits(g, o, limit, rank, from, s)(r) < Allowance(g, limit)
  {
    hide LeftAt, Left, StreaksOf;
    forall r: nat ensures Digits(g, o, limit, rank, from, s)(r) < Allowance(g, limit) {
      LeftAtBelow(limit, StreaksOf(o, from, s), rank, r, g.order);
    }
  }

  /** One component is next, or none. */
  ghost predicate OneNext(s: State) {
    s.idx <= |s.path| <= s.idx + 1
  }

  lemma ExtendByOne(path: seq<Id>, ids: seq<Id>)
    requires path != [] && |ids| <= 1
    ensures |ExtendPath(path, ids)| <= |path| + 1
  {
    if ids != [] {
      assert ids[1..] == [];
      assert ExtendPath(path, ids) == ExtendPath(AppendPath(path, ids[0]), []);
    }
  }

  /** A turn over one component leads to at most one more, an edge of the first. */
  lemma OneTurn(g: Graph, o: Oracle, s: State)
    requires WellFormed(g) && Unforked(g, o) && s.phase.Running? && OneNext(s) && Step(g, o, s).phase.Running?
    ensures s.idx < |s.path| && s.path[s.idx] in g.cpn && Known(g, s.path[s.idx..])
    ensures OneNext(Step(g, o, s))
    ensures var t := Step(g, o, s);
      t.idx < |t.path| ==>
        && AfterPrune(g, s).path == s.path
        && t.idx == |s.path| && s.path <= t.path
        && t.path[t.idx] in Contributes(g, s.path[s.idx], o.report(s.idx))
  {
    hide WellFormed, Unforked, Step, BatchPath, AfterPrune, Contributes, CameFrom, Followed;
    GoesOn(g, o, s);
    BatchFollowsEveryEdge(g, o, s);
    OneAfterPrune(g, s);
    BatchStaysInPlace(g, o, s);
    OneBatch(g, o, s);
    var t := Step(g, o, s);
    assert s.path[s.idx] == s.path[s.idx..][0];
    if t.idx < |t.path| {
      OneSource(g, o, t.path, s.idx, t.idx);
      assert t.path[..t.idx] == s.path;
    }
  }

  lemma OneSource(g: Graph, o: Oracle, p: seq<Id>, idx: nat, end: nat)
    requires WellFormed(g) && idx <= end < |p| && end <= idx + 1 && CameFrom(g, o, p, idx, end, end)
    ensures end == idx + 1 && p[idx] in g.cpn && p[end] in Contributes(g, p[idx], o.report(idx))
  {
    hide WellFormed, Contributes;
  }

  lemma OneAfterPrune(g: Graph, s: State)
    requires s.idx + 1 == |s.path| && Known(g, s.path[s.idx..])
    ensures AfterPrune(g, s).path == s.path || AfterPrune(g, s).path == s.path[..s.idx]
  {
    var before, id := s.path[..s.idx], s.path[s.idx];
    var pending := s.path[s.idx..];
    assert pending == [id] && pending[1..] == [] && before + [id] == s.path;
    assert pending[0] in pending;
    hide Stays;
    assert Prune(g, before, pending) == Prune(g, if Stays(g, before, id) then before + [id] else before, []);
  }

  lemma OneBatch(g: Graph, o: Oracle, s: State)
    requires WellFormed(g) && Unforked(g, o) && s.idx + 1 == |s.path| && Known(g, s.path[s.idx..])
    ensures var (p, end) := BatchPath(g, o, s); |p| <= end + 1
  {
    hide WellFormed, AfterPrune, PostNode, Successors, ExtendPath;
    OneAfterPrune(g, s);
    BatchStaysInPlace(g, o, s);
    var s1 := AfterPrune(g, s);
    var end := |s1.path|;
    PruneKnown(g, s.path[..s.idx], s.path[s.idx..]);
    assert s1.path[s.idx..end] == s1.path[s.idx..];
    if end == s.idx {
      PostRangeEmpty(g, o, s1, end);
    } else {
      PostRangeUnfold(g, o, s1, s.idx, end);
      PostNodeAppends(g, s1, s.idx, o.report(s.idx));
      PostRangeEmpty(g, o, PostNode(g, s1, s.idx, o.report(s.idx)), end);
      ExtendByOne(s1.path, Contributes(g, s1.path[s.idx], o.report(s.idx)));
    }
  }

  /** How a visit changes the streaks. */
  lemma StreaksStep(o: Oracle, from: nat, s: State, t: State)
    requires s.idx < |s.path| && t.idx == s.idx + 1 <= |t.path| && s.path <= t.path && from <= s.idx
    ensures var x := s.path[s.idx];
      && (forall y | y != x :: StreaksOf(o, from, s)(y) == StreaksOf(o, from, t)(y))
      && (!o.report(s.idx).ended ==> StreaksOf(o, from, t)(x) == StreaksOf(o, from, s)(x) + 1)
  {
    forall y ensures Streak(o, s.path, from, s.idx, y) == Streak(o, t.path, from, s.idx, y) {
      StreakSame(o, s.path, t.path, from, s.idx, y);
    }
  }

  /** A round lowers the digit of its own rank and raises digits of higher ranks only; any other
      edge leads down, where no digit has risen. */
  lemma DigitsFall(
    g: Graph, o: Oracle, options: Options, rank: Id -> nat, limit: Id -> nat, from: nat, s: State, t: State)
    requires WellFormed(g) && AcyclicButForRounds(g, options, rank)
    requires s.idx < |s.path| && t.idx == s.idx + 1 <= |t.path| && s.path <= t.path && from <= s.idx
    requires s.path[s.idx] in g.cpn && t.idx < |t.path|
    requires t.path[t.idx] in Contributes(g, s.path[s.idx], o.report(s.idx))
    requires Chooses(g, options, s.path[s.idx], o.report(s.idx))
    requires GoesRound(g, s.path[s.idx], o.report(s.idx)) ==>
      Streak(o, s.path, from, s.idx, s.path[s.idx]) < limit(s.path[s.idx])
    ensures var x := s.path[s.idx];
      var d, e := Digits(g, o, limit, rank, from, t), Digits(g, o, limit, rank, from, s);
      && (forall r: nat | r < rank(x) :: d(r) <= e(r))
      && if GoesRound(g, x, o.report(s.idx)) then d(rank(x)) < e(rank(x))
         else rank(t.path[t.idx]) < rank(x) && forall r: nat :: d(r) <= e(r)
  {
    StreaksStep(o, from, s, t);
    OrderCovers(g);
    hide WellFormed, Contributes, LeftAt, Streak, StreaksOf, Chooses;
    var x := s.path[s.idx];
    var before, after := StreaksOf(o, from, s), StreaksOf(o, from, t);
    assert before(x) == Streak(o, s.path, from, s.idx, x) by { StreaksAt(o, from, s, x); }
    forall r: nat
      ensures rank(x) != r ==> LeftAt(limit, after, rank, r, g.order) == LeftAt(limit, before, rank, r, g.order)
    {
      LeftAtChanges(limit, before, after, rank, r, g.order, x);
    }
    LeftAtChanges(limit, before, after, rank, rank(x), g.order, x);
  }

  lemma StreaksAt(o: Oracle, from: nat, s: State, x: Id)
    requires s.idx <= |s.path|
    ensures StreaksOf(o, from, s)(x) == Streak(o, s.path, from, s.idx, x)
  {
  }

  /** The turns a state has left, at most. */
  ghost function Fuel(
    g: Graph, o: Oracle, rank: Id -> nat, top: nat, limit: Id -> nat, from: nat, s: State): nat
  {
    if s.idx < |s.path|
    then Push(Numeral(Digits(g, o, limit, rank, from, s), Allowance(g, limit), top), top, rank(s.path[s.idx])) + 1
    else 0
  }

  lemma FuelFalls(
    g: Graph, o: Oracle, options: Options, rank: Id -> nat, top: nat, limit: Id -> nat, from: nat, s: State)
    requires WellFormed(g) && AcyclicButForRounds(g, options, rank) && Unforked(g, o) && forall id :: rank(id) < top
    requires s.phase.Running? && OneNext(s) && from <= s.idx && Step(g, o, s).phase.Running?
    requires EndsLoopsInTurn(g, o, limit, from, s) && KeepsToOptions(g, o, options, s, 1)
    ensures OneNext(Step(g, o, s)) && from <= Step(g, o, s).idx
    ensures Fuel(g, o, rank, top, limit, from, Step(g, o, s)) < Fuel(g, o, rank, top, limit, from, s)
  {
    hide WellFormed, AcyclicButForRounds, Unforked, Step, AfterPrune, Contributes, Digits, Numeral, Push, Allowance,
      Streak, GoesRound, Chooses, KeepsToOptions, EndsLoopsInTurn, BatchPath;
    OneTurn(g, o, s);
    var t := Step(g, o, s);
    GoesOn(g, o, s);
    if t.idx < |t.path| {
      OneVisit(g, o, options, limit, from, s);
      DigitsFall(g, o, options, rank, limit, from, s, t);
      FuelOfDigits(g, o, rank, top, limit, from, s, t);
    }
  }

  lemma OneVisit(g: Graph, o: Oracle, options: Options, limit: Id -> nat, from: nat, s: State)
    requires WellFormed(g) && s.phase.Running? && s.idx < |s.path| && Known(g, s.path[s.idx..])
    requires AfterPrune(g, s).path == s.path
    requires EndsLoopsInTurn(g, o, limit, from, s) && KeepsToOptions(g, o, options, s, 1)
    ensures var x := s.path[s.idx];
      && Chooses(g, options, x, o.report(s.idx))
      && (GoesRound(g, x, o.report(s.idx)) ==> Streak(o, s.path, from, s.idx, x) < limit(x))
  {
    hide WellFormed, Step, AfterPrune, Streak, GoesRound, Chooses;
  }

  lemma FuelOfDigits(
    g: Graph, o: Oracle, rank: Id -> nat, top: nat, limit: Id -> nat, from: nat, s: State, t: State)
    requires s.idx < |s.path| && t.idx < |t.path| && forall id :: rank(id) < top
    requires var x := s.path[s.idx];
      var d, e := Digits(g, o, limit, rank, from, t), Digits(g, o, limit, rank, from, s);
      && (forall r: nat | r < rank(x) :: d(r) <= e(r))
      && (d(rank(x)) < e(rank(x)) || (rank(t.path[t.idx]) < rank(x) && forall r: nat :: d(r) <= e(r)))
    ensures Fuel(g, o, rank, top, limit, from, t) < Fuel(g, o, rank, top, limit, from, s)
  {
    hide Digits, Numeral, Allowance, Push;
    var x := s.path[s.idx];
    var d, e, base := Digits(g, o, limit, rank, from, t), Digits(g, o, limit, rank, from, s), Allowance(g, limit);
    var a, b := Numeral(d, base, top), Numeral(e, base, top);
    if d(rank(x)) < e(rank(x)) {
      DigitsBelow(g, o, limit, rank, from, t);
      FirstDigitDecides(d, e, base, rank(x), top);
    } else {
      NumeralGrows(d, e, base, top);
    }
    PushOrder(a, b, top, rank(t.path[t.idx]), rank(x));
  }

  lemma {:induction false} FuelSuffices(
    g: Graph, o: Oracle, options: Options, rank: Id -> nat, top: nat, limit: Id -> nat, from: nat, s: State, n: nat)
    requires WellFormed(g) && AcyclicButForRounds(g, options, rank) && Unforked(g, o) && forall id :: rank(id) < top
    requires s.phase.Running? ==> OneNext(s) && from <= s.idx
    requires EndsLoops(g, o, limit, from, s, n) && KeepsToOptions(g, o, options, s, n)
    requires s.phase.Running? ==> Fuel(g, o, rank, top, limit, from, s) < n
    ensures !RunSteps(g, o, s, n).phase.Running?
    decreases n
  {
    hide WellFormed, AcyclicButForRounds, Unforked, Step, AfterPrune, EndsLoopsInTurn, Fuel, Chooses;
    if s.phase.Running? {
      StepKeepsIndex(g, o, s);
      var t := Step(g, o, s);
      StoppedStays(g, o, t, n - 1);
      if t.phase.Running? {
        FuelFalls(g, o, options, rank, top, limit, from, s);
        FuelSuffices(g, o, options, rank, top, limit, from, t, n - 1);
      }
    }
  }

  /** Loops within loops: when no component contributes more than one edge, a run that starts with
      one component ends if every item ends each of its loops within its limit, however often the
      loops around it enter it again. */
  lemma NestedLoopsTerminate(
    g: Graph, o: Oracle, options: Options, rank: Id -> nat, top: nat, limit: Id -> nat, init: seq<Id>)
    requires WellFormed(g) && AcyclicButForRounds(g, options, rank) && Unforked(g, o) && forall id :: rank(id) < top
    requires !IsResume(init) || |init| == 1
    requires var n := Power(Allowance(g, limit), top) * top + 1;
      KeepsToOptions(g, o, options, Start(init), n) && EndsLoops(g, o, limit, From(init), Start(init), n)
    ensures !RunSteps(g, o, Start(init), Power(Allowance(g, limit), top) * top + 1).phase.Running?
  {
    hide WellFormed, AcyclicButForRounds, Unforked, KeepsToOptions, EndsLoops, RunSteps, Digits, Numeral, Power, Push, Allowance;
    var s := Start(init);
    var d := Digits(g, o, limit, rank, From(init), s);
    DigitsBelow(g, o, limit, rank, From(init), s);
    NumeralBelow(d, Allowance(g, limit), top);
    var a := Numeral(d, Allowance(g, limit), top);
    PushOrder(a, Power(Allowance(g, limit), top), top, rank(s.path[s.idx]), 0);
    PushNought(Power(Allowance(g, limit), top), top);
    FuelSuffices(g, o, options, rank, top, limit, From(init), s, Power(Allowance(g, limit), top) * top + 1);
  }
}
