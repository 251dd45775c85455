/** What every run of the scheduler keeps: positions of dependencies, where each path entry
    came from, and what is left of the path when the run ends. */
module CanvasSafety {
  import opened CanvasGraph
  import opened CanvasSpec

  // ---- the pop loop ----

  /** Entry `j` is a begin, a fill-up, in a resumed run, or behind all its dependencies. */
  ghost predicate Kept(g: Graph, path: seq<Id>, j: nat) {
    && j < |path| && path[j] in g.cpn
    && var c := g.cpn[path[j]];
       || c.kind.Begin? || c.kind.UserFillUp?
       || LooksLikeFillUp(path[0])
       || forall d <- c.deps :: d == "" || d in path[..j]
  }

  lemma StaysIsKept(g: Graph, path: seq<Id>, j: nat)
    requires j < |path| && path[j] in g.cpn
    ensures Kept(g, path, j) <==> Stays(g, path[..j], path[j])
  {
    assert (path[..j] + [path[j]])[0] == path[0];
  }

  /** The pending ids at the positions in `kept`, below position `n`, in order. */
  ghost function Taken(pending: seq<Id>, kept: set<nat>, n: nat): seq<Id>
    requires n <= |pending|
  {
    if n == 0 then [] else Taken(pending, kept, n - 1) + if n - 1 in kept then [pending[n - 1]] else []
  }

  /** `kept` keeps a position exactly when its id, put behind the ids kept before it, is where it may
      be. */
  ghost predicate IsSelection(g: Graph, before: seq<Id>, pending: seq<Id>, kept: set<nat>, n: nat)
    requires Known(g, pending) && n <= |pending|
  {
    forall k | 0 <= k < n ::
      var front := before + Taken(pending, kept, k);
      pending[k] in g.cpn && (k in kept <==> Kept(g, front + [pending[k]], |front|))
  }

  lemma StaysBehind(g: Graph, front: seq<Id>, id: Id)
    requires id in g.cpn
    ensures Kept(g, front + [id], |front|) <==> Stays(g, front, id)
  {
    assert (front + [id])[..|front|] == front;
    StaysIsKept(g, front + [id], |front|);
  }

  /** The pop loop leaves the prefix and the kept positions: there is one such selection, and
      any such selection is what it leaves. */
  lemma PruneIsTheSelection(g: Graph, before: seq<Id>, pending: seq<Id>)
    requires Known(g, pending)
    ensures exists kept :: IsSelection(g, before, pending, kept, |pending|)
    ensures forall kept | IsSelection(g, before, pending, kept, |pending|) ::
      Prune(g, before, pending) == before + Taken(pending, kept, |pending|)
  {
    var _ := SelectionExists(g, before, pending, |pending|);
    forall kept | IsSelection(g, before, pending, kept, |pending|)
      ensures Prune(g, before, pending) == before + Taken(pending, kept, |pending|)
    {
      PruneFollowsSelection(g, before, pending, kept, 0);
      assert before + Taken(pending, kept, 0) == before && pending[0..] == pending;
    }
  }

  lemma SelectionAt(g: Graph, before: seq<Id>, pending: seq<Id>, kept: set<nat>, n: nat, k: nat)
    requires Known(g, pending) && k < n <= |pending| && IsSelection(g, before, pending, kept, n)
    ensures pending[k] in g.cpn
    ensures k in kept <==> Stays(g, before + Taken(pending, kept, k), pending[k])
    ensures before + Taken(pending, kept, k + 1)
         == if k in kept then before + Taken(pending, kept, k) + [pending[k]]
            else before + Taken(pending, kept, k)
  {
    hide Stays, Kept;
    StaysBehind(g, before + Taken(pending, kept, k), pending[k]);
  }

  lemma {:induction false} PruneFollowsSelection(
    g: Graph, before: seq<Id>, pending: seq<Id>, kept: set<nat>, k: nat)
    requires Known(g, pending) && k <= |pending| && IsSelection(g, before, pending, kept, |pending|)
    ensures Known(g, pending[k..])
    ensures Prune(g, before + Taken(pending, kept, k), pending[k..])
         == before + Taken(pending, kept, |pending|)
    decreases |pending| - k
  {
    hide Stays, IsSelection, Taken;
    assert Known(g, pending[k..]);
    if k < |pending| {
      PruneFollowsSelection(g, before, pending, kept, k + 1);
      SelectionAt(g, before, pending, kept, |pending|, k);
      assert pending[k..][0] == pending[k] && pending[k..][1..] == pending[k + 1..];
    }
  }

  lemma {:induction false} SelectionExists(g: Graph, before: seq<Id>, pending: seq<Id>, n: nat)
    returns (kept: set<nat>)
    requires Known(g, pending) && n <= |pending|
    ensures IsSelection(g, before, pending, kept, n)
    ensures forall k <- kept :: k < n
  {
    hide Kept, Taken;
    if n == 0 {
      kept := {};
    } else {
      var less := SelectionExists(g, before, pending, n - 1);
      assert pending[n - 1] in pending;
      var front := before + Taken(pending, less, n - 1);
      kept := if Kept(g, front + [pending[n - 1]], |front|) then less + {n - 1} else less;
      forall k | 0 <= k < n
        ensures pending[k] in g.cpn
        ensures var front := before + Taken(pending, kept, k); k in kept <==> Kept(g, front + [pending[k]], |front|)
      {
        assert pending[k] in pending;
        TakenBelow(pending, kept, less, k);
      }
    }
  }

  lemma {:induction false} TakenBelow(pending: seq<Id>, a: set<nat>, b: set<nat>, n: nat)
    requires n <= |pending| && forall k | 0 <= k < n :: k in a <==> k in b
    ensures Taken(pending, a, n) == Taken(pending, b, n)
  {
    if n > 0 {
      TakenBelow(pending, a, b, n - 1);
    }
  }

  /** Every surviving entry of the batch is where it may be. */
  lemma {:induction false} PruneKeepsTheMet(g: Graph, before: seq<Id>, pending: seq<Id>)
    requires Known(g, pending)
    ensures before <= Prune(g, before, pending)
    ensures forall j | |before| <= j < |Prune(g, before, pending)| ::
      Kept(g, Prune(g, before, pending), j) && Prune(g, before, pending)[j] in pending
    decreases |pending|
  {
    hide Stays;
    PruneKnown(g, before, pending);
    if pending != [] {
      var id, rest := pending[0], pending[1..];
      assert pending == [id] + rest;
      var b := if Stays(g, before, id) then before + [id] else before;
      PruneKeepsTheMet(g, b, rest);
      var r := Prune(g, before, pending);
      if |b| > |before| {
        assert r[..|before|] == before && r[|before|] == id;
        StaysIsKept(g, r, |before|);
      }
    }
  }

  // ---- post-processing ----

  lemma {:induction false} ExtendAddsOnly(path: seq<Id>, ids: seq<Id>)
    requires path != []
    ensures forall j | |path| <= j < |ExtendPath(path, ids)| :: ExtendPath(path, ids)[j] in ids
    ensures forall x <- ids :: x in ExtendPath(path, ids)[|path| - 1..]
    decreases |ids|
  {
    if ids != [] {
      var p := AppendPath(path, ids[0]);
      ExtendAddsOnly(p, ids[1..]);
      var r := ExtendPath(path, ids);
      assert p[|p| - 1] == ids[0] && r[|p| - 1] == ids[0];
      assert ids == [ids[0]] + ids[1..];
      forall x <- ids ensures x in r[|path| - 1..] {
        if x in ids[1..] {
          assert x in r[|p| - 1..];
          assert r[|p| - 1..] == r[|path| - 1..][|p| - |path|..];
        } else {
          assert r[|path| - 1..][|p| - |path|] == ids[0];
        }
      }
    }
  }

  /** Everything appended comes from one of the processed indices. */
  ghost predicate CameFrom(g: Graph, o: Oracle, path: seq<Id>, from: nat, end: nat, j: nat)
    requires WellFormed(g) && j < |path|
  {
    exists i | from <= i < end && i < |path| && path[i] in g.cpn ::
      path[j] in Contributes(g, path[i], o.report(i))
  }

  /** Every edge a processed index contributes is in the path, at or behind that index. */
  ghost predicate Followed(g: Graph, o: Oracle, path: seq<Id>, i: nat)
    requires WellFormed(g) && i < |path|
  {
    path[i] in g.cpn && forall x <- Contributes(g, path[i], o.report(i)) :: x in path[i..]
  }

  lemma PostNodeEdges(g: Graph, o: Oracle, s: State, i: nat)
    requires WellFormed(g) && i < |s.path| && s.path[i] in g.cpn
    ensures var p := PostNode(g, s, i, o.report(i)).path;
      && s.path <= p
      && (forall j | |s.path| <= j < |p| :: p[j] in Contributes(g, s.path[i], o.report(i)))
      && (forall x <- Contributes(g, s.path[i], o.report(i)) :: x in p[i..])
  {
    hide WellFormed, PostNode, Successors, Contributes, ExtendPath;
    PostNodeAppends(g, s, i, o.report(i));
    var added := Contributes(g, s.path[i], o.report(i));
    if TakesGoto(g, s.path[i], o.report(i)) {
      assert added == g.cpn[s.path[i]].handler.goto by { GotoContributes(g, s.path[i], o.report(i)); }
      GotoAddsOnly(s.path, added, i);
    } else {
      ExtendFrom(s.path, added, i);
    }
  }

  lemma GotoContributes(g: Graph, id: Id, r: Report)
    requires WellFormed(g) && id in g.cpn && TakesGoto(g, id, r)
    ensures Contributes(g, id, r) == g.cpn[id].handler.goto
  {
  }

  lemma GotoAddsOnly(path: seq<Id>, added: seq<Id>, i: nat)
    requires i < |path|
    ensures forall j | |path| <= j < |path + added| :: (path + added)[j] in added
    ensures forall x <- added :: x in (path + added)[i..]
  {
    forall x <- added ensures x in (path + added)[i..] {
      var k :| 0 <= k < |added| && added[k] == x;
      assert (path + added)[i..][|path| - i + k] == x;
    }
  }

  lemma ExtendFrom(path: seq<Id>, added: seq<Id>, i: nat)
    requires i < |path|
    ensures path <= ExtendPath(path, added)
    ensures forall j | |path| <= j < |ExtendPath(path, added)| :: ExtendPath(path, added)[j] in added
    ensures forall x <- added :: x in ExtendPath(path, added)[i..]
  {
    hide ExtendPath;
    ExtendAddsOnly(path, added);
    var p := ExtendPath(path, added);
    forall x <- added ensures x in p[i..] {
      assert p[i..][|path| - 1 - i..] == p[|path| - 1..];
    }
  }

  lemma {:induction false} PostRangeEdges(g: Graph, o: Oracle, s: State, i: nat, end: nat)
    requires WellFormed(g) && i <= end <= |s.path| && Known(g, s.path[i..end])
    ensures var p := PostRange(g, o, s, i, end).path;
      && s.path <= p
      && (forall j | |s.path| <= j < |p| :: CameFrom(g, o, p, i, end, j))
      && (forall k | i <= k < end :: Followed(g, o, p, k))
    decreases end - i
  {
    hide WellFormed, PostNode, PostRange, Contributes;
    if i == end {
      PostRangeEmpty(g, o, s, i);
    } else {
      PostRangeUnfold(g, o, s, i, end);
      var s' := PostNode(g, s, i, o.report(i));
      PostNodeEdges(g, o, s, i);
      PostRangeEdges(g, o, s', i + 1, end);
      var p := PostRange(g, o, s, i, end).path;
      forall j | |s.path| <= j < |p| ensures CameFrom(g, o, p, i, end, j) {
        if j < |s'.path| {
          assert p[j] == s'.path[j] && p[i] == s.path[i];
        } else {
          assert CameFrom(g, o, p, i + 1, end, j);
        }
      }
      forall x <- Contributes(g, s.path[i], o.report(i)) ensures x in p[i..] {
        var k :| 0 <= k < |s'.path[i..]| && s'.path[i..][k] == x;
        assert p[i..][k] == x;
      }
      assert Followed(g, o, p, i);
    }
  }

  ghost predicate AnyUnhandled(g: Graph, o: Oracle, path: seq<Id>, from: nat, end: nat) {
    exists k | from <= k < end && k < |path| && path[k] in g.cpn :: Unhandled(g, path[k], o.report(k))
  }

  lemma {:induction false} PostRangeFails(g: Graph, o: Oracle, s: State, i: nat, end: nat)
    requires WellFormed(g) && i <= end <= |s.path| && Known(g, s.path[i..end])
    ensures PostRange(g, o, s, i, end).failed <==> s.failed || AnyUnhandled(g, o, s.path, i, end)
    decreases end - i
  {
    hide WellFormed, PostNode, PostRange, Unhandled;
    if i == end {
      PostRangeEmpty(g, o, s, i);
    } else {
      PostRangeUnfold(g, o, s, i, end);
      PostNodeAppends(g, s, i, o.report(i));
      var s' := PostNode(g, s, i, o.report(i));
      PostRangeFails(g, o, s', i + 1, end);
      assert forall k | i < k < end :: s'.path[k] == s.path[k];
      if AnyUnhandled(g, o, s.path, i, end) {
        var k :| i <= k < end && k < |s.path| && s.path[k] in g.cpn && Unhandled(g, s.path[k], o.report(k));
        if k > i {
          assert AnyUnhandled(g, o, s'.path, i + 1, end);
        }
      }
      if AnyUnhandled(g, o, s'.path, i + 1, end) {
        var k :| i + 1 <= k < end && k < |s'.path| && s'.path[k] in g.cpn && Unhandled(g, s'.path[k], o.report(k));
        assert s.path[k] == s'.path[k];
      }
      if Unhandled(g, s.path[i], o.report(i)) {
        assert AnyUnhandled(g, o, s.path, i, end);
      }
    }
  }

  // ---- invariants of a run ----

  /** Path entries that were there when the run began. */
  function Base(init: seq<Id>): nat {
    |Start(init).path|
  }

  function From(init: seq<Id>): nat {
    Start(init).idx
  }

  /** Holds of every state of a run that has not suspended or crashed. */
  ghost predicate Inv(g: Graph, o: Oracle, init: seq<Id>, s: State)
    requires WellFormed(g)
  {
    && (s.phase.Running? || s.phase.Finished? || s.phase.Failed?)
    && From(init) <= s.idx <= |s.path|
    && (s.phase.Failed? <==> s.failed)
    && (!s.phase.Running? ==> s.idx == |s.path|)
    // the entries the run began with
    && (!s.phase.Failed? ==>
          (s.idx == From(init) && s.path == Start(init).path) || Base(init) <= s.idx)
    && (forall j | 0 <= j < |s.path| && j < Base(init) :: s.path[j] == Start(init).path[j])
    // what has been processed
    && (forall j | From(init) <= j < s.idx :: Kept(g, s.path, j))
    && !AnyUnhandled(g, o, s.path, From(init), s.idx)
    // where the rest came from
    && (forall j | Base(init) <= j < |s.path| :: CameFrom(g, o, s.path, From(init), s.idx, j))
    && (forall j | Base(init) <= j < s.idx :: CameFrom(g, o, s.path, From(init), j, j))
  }

  lemma StartInv(g: Graph, o: Oracle, init: seq<Id>)
    requires WellFormed(g)
    ensures Inv(g, o, init, Start(init))
  {
  }

  lemma {:induction false} ResumePrunesNothing(g: Graph, before: seq<Id>, pending: seq<Id>)
    requires Known(g, pending) && before + pending != [] && LooksLikeFillUp((before + pending)[0])
    ensures Prune(g, before, pending) == before + pending
    decreases |pending|
  {
    if pending != [] {
      assert pending[0] in pending;
      assert (before + [pending[0]])[0] == (before + pending)[0];
      assert before + [pending[0]] + pending[1..] == before + pending;
      ResumePrunesNothing(g, before + [pending[0]], pending[1..]);
    }
  }

  /** The first batch of a run, fresh or resumed, loses nothing. */
  lemma FirstBatchIsWhole(g: Graph, init: seq<Id>)
    requires WellFormed(g) && Known(g, Start(init).path[From(init)..])
    ensures var p := Start(init).path; Prune(g, p[..From(init)], p[From(init)..]) == p
  {
    var p, f := Start(init).path, From(init);
    assert p[..f] + p[f..] == p;
    if IsResume(init) {
      ResumePrunesNothing(g, p[..f], p[f..]);
    } else {
      assert p[f..] == [BEGIN];
      assert [BEGIN][1..] == [];
      assert Stays(g, p[..f], BEGIN);
    }
  }

  lemma CameFromMoves(
    g: Graph, o: Oracle, p: seq<Id>, p': seq<Id>, from: nat, end: nat, end': nat, j: nat, j': nat)
    requires WellFormed(g) && j < |p| && j' < |p'| && p[j] == p'[j']
    requires end <= end' && end <= |p| && p[..end] <= p'
    requires CameFrom(g, o, p, from, end, j)
    ensures CameFrom(g, o, p', from, end', j')
  {
    hide Contributes, WellFormed;
    var i :| from <= i < end && i < |p| && p[i] in g.cpn && p[j] in Contributes(g, p[i], o.report(i));
    assert p'[i] == p[..end][i] == p[i];
  }

  lemma KeptMoves(g: Graph, p: seq<Id>, p': seq<Id>, j: nat)
    requires Kept(g, p, j) && j < |p'| && p'[..j + 1] == p[..j + 1]
    ensures Kept(g, p', j)
  {
    assert p'[j] == p'[..j + 1][j] && p[j] == p[..j + 1][j];
    assert p'[0] == p'[..j + 1][0] && p[0] == p[..j + 1][0];
    assert p'[..j] == p'[..j + 1][..j] && p[..j] == p[..j + 1][..j];
  }

  /** What one batch does to the path, before the run settles. */
  ghost predicate BatchFacts(g: Graph, o: Oracle, init: seq<Id>, s: State, p1: seq<Id>, p2: seq<Id>)
    requires WellFormed(g) && s.idx <= |s.path|
  {
    && s.path[..s.idx] <= p1 <= p2
    && (s.idx == From(init) ==> p1 == s.path)
    && (forall j | s.idx <= j < |p1| :: Kept(g, p2, j))
    && (forall j | s.idx <= j < |p1| && Base(init) <= j :: CameFrom(g, o, p2, From(init), s.idx, j))
    && (forall j | |p1| <= j < |p2| :: CameFrom(g, o, p2, From(init), |p1|, j))
  }

  /** An entry that survived the pop loop came from where it came from before. */
  lemma PendingCameFrom(g: Graph, o: Oracle, init: seq<Id>, s: State, p1: seq<Id>, p2: seq<Id>, j: nat)
    requires WellFormed(g) && Inv(g, o, init, s) && s.phase.Running?
    requires s.path[..s.idx] <= p1 <= p2 && s.idx <= j < |p1| && Base(init) <= j
    requires p1[j] in s.path[s.idx..]
    requires s.idx == From(init) ==> p1 == s.path
    ensures CameFrom(g, o, p2, From(init), s.idx, j)
  {
    hide WellFormed, Contributes, Kept, CameFrom, AnyUnhandled;
    var idx, pending := s.idx, s.path[s.idx..];
    var k :| 0 <= k < |pending| && pending[k] == p1[j];
    assert s.path[idx + k] == p2[j];
    if idx != From(init) {
      assert p2[..idx] == s.path[..idx];
      CameFromMoves(g, o, s.path, p2, From(init), idx, idx, idx + k, j);
    }
  }

  /** What holds of the batch alone holds on the path it leaves. */
  lemma FactsOfBatch(g: Graph, o: Oracle, init: seq<Id>, s: State, p1: seq<Id>, p2: seq<Id>)
    requires WellFormed(g) && Inv(g, o, init, s) && s.phase.Running?
    requires s.idx <= |s.path| && s.path[..s.idx] <= p1 <= p2
    requires s.idx == From(init) ==> p1 == s.path
    requires forall j | s.idx <= j < |p1| :: Kept(g, p1, j) && p1[j] in s.path[s.idx..]
    requires forall j | |p1| <= j < |p2| :: CameFrom(g, o, p2, s.idx, |p1|, j)
    ensures BatchFacts(g, o, init, s, p1, p2)
  {
    FromBelow(g, o, init, s);
    hide WellFormed, Inv, Kept, CameFrom;
    forall j | s.idx <= j < |p1| ensures Kept(g, p2, j) {
      assert p2[..j + 1] == p1[..j + 1];
      KeptMoves(g, p1, p2, j);
    }
    forall j | s.idx <= j < |p1| && Base(init) <= j
      ensures CameFrom(g, o, p2, From(init), s.idx, j)
    {
      PendingCameFrom(g, o, init, s, p1, p2, j);
    }
    forall j | |p1| <= j < |p2|
      ensures CameFrom(g, o, p2, From(init), |p1|, j)
    {
      CameFromWider(g, o, p2, From(init), s.idx, |p1|, j);
    }
  }

  lemma BatchGivesFacts(g: Graph, o: Oracle, init: seq<Id>, s: State)
    requires WellFormed(g) && Inv(g, o, init, s) && s.phase.Running?
    requires s.idx < |s.path| && Known(g, s.path[s.idx..])
    ensures var s1 := AfterPrune(g, s);
      && s.idx <= |s1.path| && Known(g, s1.path[s.idx..|s1.path|])
      && BatchFacts(g, o, init, s, s1.path, PostRange(g, o, s1, s.idx, |s1.path|).path)
  {
    var idx, pending := s.idx, s.path[s.idx..];
    var s1 := AfterPrune(g, s);
    var p1 := s1.path;
    PruneKnown(g, s.path[..idx], pending);
    assert p1[idx..|p1|] == p1[idx..];
    PruneKeepsTheMet(g, s.path[..idx], pending);
    if idx == From(init) {
      FirstIsWhole(g, o, init, s);
    }
    PostRangeEdges(g, o, s1, idx, |p1|);
    hide WellFormed, PostRange, Contributes, StartedEvents, Stays, Kept, CameFrom, Followed, AnyUnhandled, Prune, Inv;
    FactsOfBatch(g, o, init, s, p1, PostRange(g, o, s1, idx, |p1|).path);
  }

  lemma FirstIsWhole(g: Graph, o: Oracle, init: seq<Id>, s: State)
    requires WellFormed(g) && Inv(g, o, init, s) && s.phase.Running? && s.idx == From(init)
    requires s.idx <= |s.path| && Known(g, s.path[s.idx..])
    ensures AfterPrune(g, s).path == s.path
  {
    hide WellFormed, Prune, Kept, CameFrom, AnyUnhandled;
    FirstBatchIsWhole(g, init);
  }

  lemma CameFromWider(g: Graph, o: Oracle, p: seq<Id>, from: nat, from': nat, end: nat, j: nat)
    requires WellFormed(g) && from <= from' && j < |p| && CameFrom(g, o, p, from', end, j)
    ensures CameFrom(g, o, p, from, end, j)
  {
    hide Contributes, WellFormed;
    var i :| from' <= i < end && i < |p| && p[i] in g.cpn && p[j] in Contributes(g, p[i], o.report(i));
  }

  /** One turn keeps the invariant, unless it suspends or crashes. */
  lemma StepKeepsInv(g: Graph, o: Oracle, init: seq<Id>, s: State)
    requires WellFormed(g) && Inv(g, o, init, s) && s.phase.Running?
    requires !Step(g, o, s).phase.Suspended? && !Step(g, o, s).phase.Crashed?
    ensures Inv(g, o, init, Step(g, o, s))
  {
    hide WellFormed, Prune, PostRange, Contributes, StartedEvents, Kept, CameFrom, AnyUnhandled, FillUpsFirst;
    if s.idx < |s.path| && Known(g, s.path[s.idx..]) {
      BatchGivesFacts(g, o, init, s);
      var s1 := AfterPrune(g, s);
      var end := |s1.path|;
      var s2 := PostRange(g, o, s1, s.idx, end);
      PostRangeFrame(g, o, s1, s.idx, end);
      PostRangeFails(g, o, s1, s.idx, end);
      if s2.failed {
        FailedInv(g, o, init, s, s1.path, s2);
      } else {
        AdvancedInv(g, o, init, s, s1.path, s2);
      }
    }
  }

  /** A failed batch is undone: the path is again what it was before it. */
  lemma FailedInv(g: Graph, o: Oracle, init: seq<Id>, s: State, p1: seq<Id>, s2: State)
    requires WellFormed(g) && Inv(g, o, init, s) && s.phase.Running?
    requires BatchFacts(g, o, init, s, p1, s2.path) && s2.failed && s2.idx == s.idx
    ensures s2.path[..s.idx] == s.path[..s.idx]
    ensures Inv(g, o, init, s2.(path := s2.path[..s.idx], phase := Failed))
  {
    hide WellFormed, Contributes;
    var p := s2.path[..s.idx];
    assert p == s.path[..s.idx] by {
      assert p == p1[..s.idx];
    }
    forall j | From(init) <= j < s.idx ensures Kept(g, p, j) {
      assert p[..j + 1] == s.path[..j + 1];
      KeptMoves(g, s.path, p, j);
    }
    forall j | Base(init) <= j < |p|
      ensures CameFrom(g, o, p, From(init), s.idx, j) && CameFrom(g, o, p, From(init), j, j)
    {
      CameFromEarlier(g, o, s.path, p, From(init), j);
    }
    assert !AnyUnhandled(g, o, p, From(init), s.idx);
  }

  lemma CameFromEarlier(g: Graph, o: Oracle, p: seq<Id>, p': seq<Id>, from: nat, j: nat)
    requires WellFormed(g) && j < |p'| <= |p| && p[..|p'|] == p'
    requires CameFrom(g, o, p, from, j, j)
    ensures CameFrom(g, o, p', from, |p'|, j) && CameFrom(g, o, p', from, j, j)
  {
    hide Contributes, WellFormed;
    var i :| from <= i < j && i < |p| && p[i] in g.cpn && p[j] in Contributes(g, p[i], o.report(i));
    assert p'[i] == p[..|p'|][i] && p'[j] == p[..|p'|][j];
  }

  lemma AdvancedInv(g: Graph, o: Oracle, init: seq<Id>, s: State, p1: seq<Id>, s2: State)
    requires WellFormed(g) && Inv(g, o, init, s) && s.phase.Running? && s.idx < |s.path|
    requires BatchFacts(g, o, init, s, p1, s2.path) && !s2.failed && s2.phase.Running?
    requires !AnyUnhandled(g, o, p1, s.idx, |p1|)
    ensures Inv(g, o, init, s2.(idx := |p1|))
  {
    hide WellFormed, Contributes, Kept, CameFrom, AnyUnhandled;
    var p2, end := s2.path, |p1|;
    assert p2[..s.idx] == s.path[..s.idx] by {
      assert p2[..s.idx] == p1[..s.idx];
    }
    forall j | From(init) <= j < end ensures Kept(g, p2, j) {
      if j < s.idx {
        assert p2[..j + 1] == p2[..s.idx][..j + 1] == s.path[..j + 1];
        KeptMoves(g, s.path, p2, j);
      }
    }
    forall j | Base(init) <= j < |p2| ensures CameFrom(g, o, p2, From(init), end, j) {
      if j < s.idx {
        assert p2[j] == p2[..s.idx][j] == s.path[j];
        CameFromMoves(g, o, s.path, p2, From(init), s.idx, end, j, j);
      } else if j < end {
        CameFromMoves(g, o, p2, p2, From(init), s.idx, end, j, j);
      }
    }
    forall j | Base(init) <= j < end ensures CameFrom(g, o, p2, From(init), j, j) {
      if j < s.idx {
        assert p2[j] == p2[..s.idx][j] == s.path[j];
        assert s.path[..j] <= p2 by { assert p2[..j] == p2[..s.idx][..j] == s.path[..j]; }
        CameFromMoves(g, o, s.path, p2, From(init), j, j, j, j);
      } else {
        CameFromMoves(g, o, p2, p2, From(init), s.idx, j, j, j);
      }
    }
    StillHandled(g, o, init, s, p1, p2);
    EntriesStay(g, o, init, s, p1, p2);
  }

  lemma StillHandled(g: Graph, o: Oracle, init: seq<Id>, s: State, p1: seq<Id>, p2: seq<Id>)
    requires WellFormed(g) && s.idx <= |s.path| && s.path[..s.idx] <= p1 <= p2
    requires !AnyUnhandled(g, o, s.path, From(init), s.idx) && !AnyUnhandled(g, o, p1, s.idx, |p1|)
    ensures !AnyUnhandled(g, o, p2, From(init), |p1|)
  {
    hide WellFormed;
    forall k | From(init) <= k < |p1| && p2[k] in g.cpn
      ensures !Unhandled(g, p2[k], o.report(k))
    {
      if k < s.idx {
        assert p2[k] == p1[k] == p1[..s.idx][k] == s.path[k];
      } else {
        assert p2[k] == p1[k];
      }
    }
  }

  lemma EntriesStay(g: Graph, o: Oracle, init: seq<Id>, s: State, p1: seq<Id>, p2: seq<Id>)
    requires WellFormed(g) && Inv(g, o, init, s) && s.phase.Running? && s.idx < |s.path|
    requires BatchFacts(g, o, init, s, p1, p2)
    ensures Base(init) <= |p1|
    ensures forall j | 0 <= j < |p2| && j < Base(init) :: p2[j] == Start(init).path[j]
  {
    hide WellFormed, Kept, CameFrom;
    if s.idx == From(init) {
      assert p1 == s.path;
      assert s.path == Start(init).path;
    } else {
      forall j | 0 <= j < Base(init) ensures p2[j] == Start(init).path[j] {
        assert p2[j] == p1[..s.idx][j] == s.path[..s.idx][j];
      }
    }
  }

  // ---- whole runs ----

  lemma {:induction false} RunInv(g: Graph, o: Oracle, init: seq<Id>, s: State, n: nat)
    requires WellFormed(g) && Inv(g, o, init, s)
    requires var e := RunSteps(g, o, s, n); !e.phase.Suspended? && !e.phase.Crashed?
    ensures Inv(g, o, init, RunSteps(g, o, s, n))
    decreases n
  {
    hide WellFormed, Inv, Step;
    InvIndex(g, o, init, s);
    if n > 0 && s.phase.Running? {
      StepKeepsIndex(g, o, s);
      var s' := Step(g, o, s);
      StoppedStays(g, o, s', n - 1);
      StepKeepsInv(g, o, init, s);
      RunInv(g, o, init, s', n - 1);
    }
  }

  lemma StoppedStays(g: Graph, o: Oracle, s: State, n: nat)
    requires WellFormed(g) && (s.phase.Running? ==> s.idx <= |s.path|)
    ensures !s.phase.Running? ==> RunSteps(g, o, s, n) == s
  {
  }

  lemma InvIndex(g: Graph, o: Oracle, init: seq<Id>, s: State)
    requires WellFormed(g) && Inv(g, o, init, s)
    ensures s.idx <= |s.path|
  {
  }

  /** After any number of turns of a fresh run: every processed entry is a begin, a fill-up, or
      stands behind all its dependencies. */
  lemma DependenciesComeFirst(g: Graph, o: Oracle, init: seq<Id>, n: nat, j: nat)
    requires WellFormed(g) && !IsResume(init)
    requires var e := RunSteps(g, o, Start(init), n);
      !e.phase.Suspended? && !e.phase.Crashed? && From(init) <= j < e.idx
    ensures var e := RunSteps(g, o, Start(init), n);
      && j < |e.path| && e.path[j] in g.cpn
      && var c := g.cpn[e.path[j]];
         c.kind.Begin? || c.kind.UserFillUp? || forall d <- c.deps :: d == "" || d in e.path[..j]
  {
    hide WellFormed, RunSteps;
    StartInv(g, o, init);
    RunInv(g, o, init, Start(init), n);
    var e := RunSteps(g, o, Start(init), n);
    assert Kept(g, e.path, j);
    BeginIsNoFillUp();
    assert e.path[0] == Start(init).path[0];
  }

  lemma BeginIsNoFillUp()
    ensures !LooksLikeFillUp(BEGIN)
  {
  }

  /** Entry `k` of the trail added the next one. */
  ghost predicate Linked(g: Graph, o: Oracle, path: seq<Id>, trail: seq<nat>, k: nat)
    requires WellFormed(g) && k < |trail|
  {
    k + 1 < |trail| ==>
      var i, j := trail[k], trail[k + 1];
      i < j < |path| && path[i] in g.cpn && path[j] in Contributes(g, path[i], o.report(i))
  }

  /** A trail of path indices, each entry added by the one before it. */
  ghost predicate IsTrail(g: Graph, o: Oracle, path: seq<Id>, trail: seq<nat>)
    requires WellFormed(g)
  {
    && trail != []
    && (forall k | 0 <= k < |trail| :: trail[k] < |path|)
    && (forall k | 0 <= k < |trail| :: Linked(g, o, path, trail, k))
  }

  lemma InvSource(g: Graph, o: Oracle, init: seq<Id>, s: State, j: nat) returns (i: nat)
    requires WellFormed(g) && Inv(g, o, init, s) && From(init) <= j < s.idx && Base(init) <= j
    ensures From(init) <= i < j < |s.path| && s.path[i] in g.cpn
    ensures s.path[j] in Contributes(g, s.path[i], o.report(i))
  {
    hide WellFormed, Contributes;
    assert CameFrom(g, o, s.path, From(init), j, j);
    i :| From(init) <= i < j && i < |s.path| && s.path[i] in g.cpn
         && s.path[j] in Contributes(g, s.path[i], o.report(i));
  }

  lemma TrailGrows(g: Graph, o: Oracle, path: seq<Id>, trail: seq<nat>, i: nat, j: nat)
    requires WellFormed(g) && IsTrail(g, o, path, trail) && trail[|trail| - 1] == i
    requires i < j < |path| && path[i] in g.cpn && path[j] in Contributes(g, path[i], o.report(i))
    ensures IsTrail(g, o, path, trail + [j])
  {
    hide WellFormed, Contributes;
    var longer := trail + [j];
    forall k | 0 <= k < |longer| ensures Linked(g, o, path, longer, k) {
      if k < |trail| {
        assert Linked(g, o, path, trail, k);
      }
    }
  }

  lemma {:induction false} TrailBack(g: Graph, o: Oracle, init: seq<Id>, s: State, j: nat) returns (trail: seq<nat>)
    requires WellFormed(g) && Inv(g, o, init, s) && From(init) <= j < s.idx
    ensures IsTrail(g, o, s.path, trail)
    ensures From(init) <= trail[0] < Base(init) && trail[|trail| - 1] == j
    decreases j
  {
    hide WellFormed, Inv, Contributes;
    InvIndex(g, o, init, s);
    if j < Base(init) {
      trail := [j];
    } else {
      var i := InvSource(g, o, init, s, j);
      var before := TrailBack(g, o, init, s, i);
      TrailGrows(g, o, s.path, before, i, j);
      trail := before + [j];
    }
  }

  /** Reachability: every processed entry is reached from one of the entries the run began with
      (the begin of a fresh run, the saved frontier of a resumed one) along edges that earlier
      processed entries contributed. */
  lemma ProcessedIsReachable(g: Graph, o: Oracle, init: seq<Id>, n: nat, j: nat)
    requires WellFormed(g)
    requires var e := RunSteps(g, o, Start(init), n);
      !e.phase.Suspended? && !e.phase.Crashed? && From(init) <= j < e.idx
    ensures exists trail ::
      && IsTrail(g, o, RunSteps(g, o, Start(init), n).path, trail)
      && From(init) <= trail[0] < Base(init) && trail[|trail| - 1] == j
  {
    hide WellFormed, RunSteps;
    StartInv(g, o, init);
    RunInv(g, o, init, Start(init), n);
    var trail := TrailBack(g, o, init, RunSteps(g, o, Start(init), n), j);
  }

  /** The path as a turn leaves it before the run settles: the batch, and behind it all that the
      batch contributed. */
  function BatchPath(g: Graph, o: Oracle, s: State): (r: (seq<Id>, nat))
    requires WellFormed(g) && s.idx <= |s.path| && Known(g, s.path[s.idx..])
    ensures s.idx <= r.1 <= |r.0|
  {
    PruneKnown(g, s.path[..s.idx], s.path[s.idx..]);
    var s1 := AfterPrune(g, s);
    assert s1.path[s.idx..|s1.path|] == s1.path[s.idx..];
    PostRangeFrame(g, o, s1, s.idx, |s1.path|);
    (PostRange(g, o, s1, s.idx, |s1.path|).path, |s1.path|)
  }

  lemma BatchPathFacts(g: Graph, o: Oracle, init: seq<Id>, s: State)
    requires WellFormed(g) && Inv(g, o, init, s) && s.phase.Running?
    requires s.idx < |s.path| && Known(g, s.path[s.idx..])
    ensures var (p, end) := BatchPath(g, o, s);
      && s.idx <= end <= |p| && s.path[..s.idx] <= p
      && (forall j | s.idx <= j < end :: Kept(g, p, j))
      && (forall j | s.idx <= j < end && Base(init) <= j :: CameFrom(g, o, p, From(init), s.idx, j))
  {
    hide WellFormed, PostRange, Contributes, StartedEvents, Kept, CameFrom, AnyUnhandled, Prune;
    BatchGivesFacts(g, o, init, s);
    var s1 := AfterPrune(g, s);
    PrefixOfPrefix(s.path[..s.idx], s1.path, PostRange(g, o, s1, s.idx, |s1.path|).path);
  }

  lemma TrailMoves(g: Graph, o: Oracle, p: seq<Id>, p': seq<Id>, trail: seq<nat>, end: nat)
    requires WellFormed(g) && end <= |p| && p[..end] <= p'
    requires IsTrail(g, o, p, trail) && forall k | 0 <= k < |trail| :: trail[k] < end
    ensures IsTrail(g, o, p', trail)
  {
    hide WellFormed, Contributes;
    forall k | 0 <= k < |trail| ensures trail[k] < |p'| && p'[trail[k]] == p[trail[k]] {
      assert p'[trail[k]] == p[..end][trail[k]];
    }
    forall k | 0 <= k < |trail| ensures Linked(g, o, p', trail, k) {
      assert Linked(g, o, p, trail, k);
    }
  }

  lemma {:induction false} TrailBelow(g: Graph, o: Oracle, p: seq<Id>, trail: seq<nat>, k: nat)
    requires WellFormed(g) && IsTrail(g, o, p, trail) && k < |trail|
    ensures trail[k] <= trail[|trail| - 1]
    decreases |trail| - k
  {
    if k + 1 < |trail| {
      assert Linked(g, o, p, trail, k);
      TrailBelow(g, o, p, trail, k + 1);
    }
  }

  /** In every batch of every run, also one that fails or suspends in that turn: each component
      is a begin, a fill-up, or stands behind its dependencies, unless the path is resumed. */
  lemma EveryBatchMeetsDependencies(g: Graph, o: Oracle, init: seq<Id>, n: nat, j: nat)
    requires WellFormed(g) && RunSteps(g, o, Start(init), n).phase.Running?
    requires var s := RunSteps(g, o, Start(init), n);
      s.idx < |s.path| && Known(g, s.path[s.idx..]) && s.idx <= j < BatchPath(g, o, s).1
    ensures var p := BatchPath(g, o, RunSteps(g, o, Start(init), n)).0;
      && j < |p| && p[j] in g.cpn
      && var c := g.cpn[p[j]];
         c.kind.Begin? || c.kind.UserFillUp? || LooksLikeFillUp(p[0]) || forall d <- c.deps :: d == "" || d in p[..j]
  {
    hide WellFormed, RunSteps, BatchPath;
    StartInv(g, o, init);
    RunInv(g, o, init, Start(init), n);
    BatchPathFacts(g, o, init, RunSteps(g, o, Start(init), n));
    assert Kept(g, BatchPath(g, o, RunSteps(g, o, Start(init), n)).0, j);
  }

  /** And it is reached from an entry the run began with, along contributed edges. */
  lemma EveryBatchIsReachable(g: Graph, o: Oracle, init: seq<Id>, n: nat, j: nat) returns (trail: seq<nat>)
    requires WellFormed(g) && RunSteps(g, o, Start(init), n).phase.Running?
    requires var s := RunSteps(g, o, Start(init), n);
      s.idx < |s.path| && Known(g, s.path[s.idx..]) && s.idx <= j < BatchPath(g, o, s).1
    ensures IsTrail(g, o, BatchPath(g, o, RunSteps(g, o, Start(init), n)).0, trail)
    ensures From(init) <= trail[0] < Base(init) && trail[|trail| - 1] == j
  {
    hide WellFormed, RunSteps, BatchPath, Contributes, Inv;
    StartInv(g, o, init);
    RunInv(g, o, init, Start(init), n);
    var s := RunSteps(g, o, Start(init), n);
    BatchPathFacts(g, o, init, s);
    var p := BatchPath(g, o, s).0;
    if j < Base(init) {
      FromBelow(g, o, init, s);
      trail := [j];
    } else {
      assert CameFrom(g, o, p, From(init), s.idx, j);
      var i :| From(init) <= i < s.idx && i < |p| && p[i] in g.cpn && p[j] in Contributes(g, p[i], o.report(i));
      var before := TrailBack(g, o, init, s, i);
      forall k | 0 <= k < |before| ensures before[k] < s.idx {
        TrailBelow(g, o, s.path, before, k);
      }
      TrailMoves(g, o, s.path, p, before, s.idx);
      TrailGrows(g, o, p, before, i, j);
      trail := before + [j];
    }
  }

  lemma FromBelow(g: Graph, o: Oracle, init: seq<Id>, s: State)
    requires WellFormed(g) && Inv(g, o, init, s)
    ensures From(init) <= s.idx
  {
  }

  /** Nothing is skipped: in every batch, also one that fails or suspends in that turn, every edge
      its components contribute is on the path, at or behind the component; and nothing else is
      behind the batch. A turn that goes on leaves this path. */
  lemma BatchFollowsEveryEdge(g: Graph, o: Oracle, s: State)
    requires WellFormed(g) && s.idx <= |s.path| && Known(g, s.path[s.idx..])
    ensures var (p, end) := BatchPath(g, o, s);
      && s.path[..s.idx] <= p[..end]
      && (forall i | s.idx <= i < end :: Followed(g, o, p, i))
      && (forall j | end <= j < |p| :: CameFrom(g, o, p, s.idx, end, j))
      && (s.phase.Running? && Step(g, o, s).phase.Running? ==> Step(g, o, s).path == p && Step(g, o, s).idx == end)
  {
    hide WellFormed, Step, PostRange, Contributes, StartedEvents, CameFrom, Followed, Prune;
    PruneKnown(g, s.path[..s.idx], s.path[s.idx..]);
    var s1 := AfterPrune(g, s);
    assert s1.path[s.idx..|s1.path|] == s1.path[s.idx..];
    PostRangeEdges(g, o, s1, s.idx, |s1.path|);
    PrefixOfPrefix(s.path[..s.idx], s1.path, BatchPath(g, o, s).0);
    if s.phase.Running? && Step(g, o, s).phase.Running? {
      GoesOn(g, o, s);
    }
  }

  /** A turn that goes on leaves the path its batch made. */
  lemma GoesOn(g: Graph, o: Oracle, s: State)
    requires WellFormed(g) && s.phase.Running? && s.idx <= |s.path| && Step(g, o, s).phase.Running?
    ensures s.idx < |s.path| && Known(g, s.path[s.idx..])
    ensures Step(g, o, s).path == BatchPath(g, o, s).0 && Step(g, o, s).idx == BatchPath(g, o, s).1
  {
    hide WellFormed, Prune, PostRange, StartedEvents, FillUpsFirst;
  }

  /** The entries below `idx` are final. */
  lemma StepKeepsProcessed(g: Graph, o: Oracle, init: seq<Id>, s: State)
    requires WellFormed(g) && Inv(g, o, init, s) && s.phase.Running?
    requires !Step(g, o, s).phase.Suspended?
    ensures s.path[..s.idx] <= Step(g, o, s).path
    ensures Step(g, o, s).phase.Failed? ==> Step(g, o, s).path == s.path[..s.idx]
    ensures Step(g, o, s).phase.Running? ==> s.idx <= Step(g, o, s).idx
  {
    hide WellFormed, Prune, PostRange, Contributes, StartedEvents, Kept, CameFrom;
    if s.idx < |s.path| && Known(g, s.path[s.idx..]) {
      BatchGivesFacts(g, o, init, s);
      var s1 := AfterPrune(g, s);
      var s2 := PostRange(g, o, s1, s.idx, |s1.path|);
      PostRangeFrame(g, o, s1, s.idx, |s1.path|);
      PrefixOfPrefix(s.path[..s.idx], s1.path, s2.path);
    }
  }

  lemma PrefixOfPrefix(a: seq<Id>, b: seq<Id>, c: seq<Id>)
    requires a <= b <= c
    ensures a <= c && c[..|a|] == a
  {
    assert c[..|a|] == b[..|a|] == a;
  }

  /** Whatever a later turn does, what was processed stays where it was. */
  lemma {:induction false} ProcessedNeverChanges(g: Graph, o: Oracle, init: seq<Id>, s: State, n: nat)
    requires WellFormed(g) && Inv(g, o, init, s)
    requires !RunSteps(g, o, s, n).phase.Suspended?
    ensures s.idx <= |s.path| && s.path[..s.idx] <= RunSteps(g, o, s, n).path
    decreases n
  {
    hide WellFormed, Inv, Step;
    InvIndex(g, o, init, s);
    if n > 0 && s.phase.Running? {
      StepKeepsIndex(g, o, s);
      var s' := Step(g, o, s);
      StoppedStays(g, o, s', n - 1);
      StepKeepsProcessed(g, o, init, s);
      if s'.phase.Running? {
        StepKeepsInv(g, o, init, s);
        ProcessedNeverChanges(g, o, init, s', n - 1);
        var e := RunSteps(g, o, s', n - 1);
        assert s.path[..s.idx] <= s'.path[..s'.idx];
        PrefixOfPrefix(s.path[..s.idx], s'.path[..s'.idx], e.path);
      }
    }
  }

  /** An errored run leaves the path as the prefix before the failing batch, which is the
      processed part of some earlier state of the same run. */
  lemma {:induction false} FailureRestoresPath(g: Graph, o: Oracle, init: seq<Id>, s: State, n: nat) returns (k: nat)
    requires WellFormed(g) && Inv(g, o, init, s) && s.phase.Running?
    requires RunSteps(g, o, s, n).phase.Failed?
    ensures k < n
    ensures var b := RunSteps(g, o, s, k);
      && b.phase.Running? && b.idx <= |b.path|
      && RunSteps(g, o, s, n).path == b.path[..b.idx]
      && Step(g, o, b).phase.Failed?
    decreases n
  {
    hide WellFormed, Inv, Step;
    InvIndex(g, o, init, s);
    StepKeepsIndex(g, o, s);
    var s' := Step(g, o, s);
    StoppedStays(g, o, s', n - 1);
    if s'.phase.Running? {
      StepKeepsInv(g, o, init, s);
      var k' := FailureRestoresPath(g, o, init, s', n - 1);
      k := k' + 1;
    } else {
      StepKeepsProcessed(g, o, init, s);
      k := 0;
    }
  }

  /** A run that finishes has processed its whole, nonempty path, and says so last. */
  lemma {:induction false} FinishedRunIsComplete(g: Graph, o: Oracle, init: seq<Id>, n: nat)
    requires WellFormed(g) && RunSteps(g, o, Start(init), n).phase.Finished?
    ensures var e := RunSteps(g, o, Start(init), n);
      && e.path != [] && e.idx == |e.path| && !e.failed
      && forall j | From(init) <= j < |e.path| :: Kept(g, e.path, j)
  {
    hide WellFormed, RunSteps;
    StartInv(g, o, init);
    RunInv(g, o, init, Start(init), n);
  }
}
