/** What exactly a batch puts behind itself: each component its goto targets as they are, or its
    successors with repetitions in a row taken once, also across components (agent/canvas.py,
    `_append_path` and `_extend_path`). */
module CanvasPaths {
  import opened CanvasGraph
  import opened CanvasSpec
  import opened CanvasSafety

  // ---- repetitions taken once ----

  /** `b` is `a` with every stretch of equal entries taken once: entry `i` of `a` is entry `f[i]` of
      `b`. */
  ghost predicate IsCollapse(a: seq<Id>, b: seq<Id>, f: seq<nat>) {
    && |f| == |a| > 0 && |b| > 0 && f[0] == 0 && f[|a| - 1] == |b| - 1
    && (forall i | 0 <= i < |a| :: f[i] < |b| && b[f[i]] == a[i])
    && (forall i | 0 < i < |a| :: f[i] == f[i - 1] || f[i] == f[i - 1] + 1)
    && (forall j | 0 < j < |b| :: b[j] != b[j - 1])
  }

  lemma {:induction false} ExtendCollapses(path: seq<Id>, ids: seq<Id>) returns (f: seq<nat>)
    requires path != []
    ensures path <= ExtendPath(path, ids)
    ensures var last := [path[|path| - 1]];
      IsCollapse(last + ids, last + ExtendPath(path, ids)[|path|..], f)
    decreases |ids|
  {
    if ids == [] {
      f := [0];
      NothingAdded(path);
    } else {
      var longer := AppendPath(path, ids[0]);
      hide IsCollapse, ExtendPath;
      var less := ExtendCollapses(longer, ids[1..]);
      ExtendUnfolds(path, ids);
      f := OneMoreId(path, ids, ExtendPath(path, ids), less);
    }
  }

  lemma ExtendUnfolds(path: seq<Id>, ids: seq<Id>)
    requires path != [] && ids != []
    ensures ExtendPath(path, ids) == ExtendPath(AppendPath(path, ids[0]), ids[1..])
  {
  }

  lemma NothingAdded(path: seq<Id>)
    requires path != []
    ensures ExtendPath(path, []) == path
    ensures var last := [path[|path| - 1]]; IsCollapse(last + [], last + path[|path|..], [0])
  {
  }

  lemma OneMoreId(path: seq<Id>, ids: seq<Id>, e: seq<Id>, less: seq<nat>) returns (f: seq<nat>)
    requires path != [] && ids != [] && AppendPath(path, ids[0]) <= e
    requires var longer := AppendPath(path, ids[0]);
      IsCollapse([ids[0]] + ids[1..], [ids[0]] + e[|longer|..], less)
    ensures var last := [path[|path| - 1]]; IsCollapse(last + ids, last + e[|path|..], f)
  {
    hide IsCollapse;
    var last, x, rest := path[|path| - 1], ids[0], ids[1..];
    assert [x] + rest == ids;
    if last == x {
      f := [0] + less;
      RepeatAhead([x] + rest, [x] + e[|path|..], less);
      assert [x] + ([x] + rest) == [last] + ids;
    } else {
      f := [0] + seq(|less|, i requires 0 <= i < |less| => less[i] + 1);
      assert e[|path|] == x && [x] + e[|path| + 1..] == e[|path|..];
      NewAhead(last, [x] + rest, [x] + e[|path| + 1..], less);
      assert [last] + ([x] + rest) == [last] + ids;
    }
  }

  lemma RepeatAhead(a: seq<Id>, b: seq<Id>, f: seq<nat>)
    requires IsCollapse(a, b, f) && a != []
    ensures IsCollapse([a[0]] + a, b, [0] + f)
  {
    assert b[f[0]] == a[0];
  }

  lemma NewAhead(x: Id, a: seq<Id>, b: seq<Id>, f: seq<nat>)
    requires a != [] && IsCollapse(a, b, f) && x != a[0]
    ensures IsCollapse([x] + a, [x] + b, [0] + seq(|f|, i requires 0 <= i < |f| => f[i] + 1))
  {
    var g := [0] + seq(|f|, i requires 0 <= i < |f| => f[i] + 1);
    assert b[f[0]] == a[0] == b[0];
    forall i | 0 <= i < |g| ensures g[i] < |[x] + b| && ([x] + b)[g[i]] == ([x] + a)[i] {
      if i > 0 {
        assert b[f[i - 1]] == a[i - 1];
      }
    }
    forall i | 0 < i < |g| ensures g[i] == g[i - 1] || g[i] == g[i - 1] + 1 {
    }
    forall j | 0 < j < |[x] + b| ensures ([x] + b)[j] != ([x] + b)[j - 1] {
    }
  }

  // ---- one batch ----

  /** The batch of a state is a stretch of known ids. */
  predicate HasBatch(g: Graph, s: State) {
    s.idx <= |s.path| && Known(g, s.path[s.idx..])
  }

  lemma BatchIsKnown(g: Graph, s: State, k: nat)
    requires HasBatch(g, s) && s.idx <= k <= |AfterPrune(g, s).path|
    ensures Known(g, AfterPrune(g, s).path[s.idx..k])
    ensures k < |AfterPrune(g, s).path| ==> AfterPrune(g, s).path[k] in g.cpn
  {
    var p := AfterPrune(g, s).path;
    PruneKnown(g, s.path[..s.idx], s.path[s.idx..]);
    assert p[s.idx..][..k - s.idx] == p[s.idx..k];
    assert k < |p| ==> p[k] == p[s.idx..][k - s.idx];
  }

  /** The state once the entries before `k` are post-processed. */
  function StateAt(g: Graph, o: Oracle, s: State, k: nat): State
    requires WellFormed(g) && HasBatch(g, s) && s.idx <= k <= |AfterPrune(g, s).path|
  {
    BatchIsKnown(g, s, k);
    PostRange(g, o, AfterPrune(g, s), s.idx, k)
  }

  function PathBefore(g: Graph, o: Oracle, s: State, k: nat): seq<Id>
    requires WellFormed(g) && HasBatch(g, s) && s.idx <= k <= |AfterPrune(g, s).path|
  {
    StateAt(g, o, s, k).path
  }

  lemma {:induction false} RangeStep(g: Graph, o: Oracle, s: State, i: nat, k: nat)
    requires WellFormed(g) && i <= k < |s.path| && Known(g, s.path[i..k + 1])
    ensures Known(g, s.path[i..k]) && s.path[k] in g.cpn
    ensures var t := PostRange(g, o, s, i, k);
      && k < |t.path| && t.path[k] == s.path[k]
      && PostRange(g, o, s, i, k + 1) == PostNode(g, t, k, o.report(k))
    decreases k - i
  {
    hide WellFormed, PostNode, PostRange;
    assert s.path[i..k] == s.path[i..k + 1][..k - i] && s.path[k] == s.path[i..k + 1][k - i];
    PostRangeFrame(g, o, s, i, k);
    PostRangeUnfold(g, o, s, i, k + 1);
    var s' := PostNode(g, s, i, o.report(i));
    if i == k {
      PostRangeEmpty(g, o, s, i);
      PostRangeEmpty(g, o, s', i + 1);
    } else {
      PostRangeUnfold(g, o, s, i, k);
      RangeStep(g, o, s', i + 1, k);
    }
  }

  /** Entry `k` of the batch adds to the path behind it. */
  lemma ComponentAdds(g: Graph, o: Oracle, s: State, k: nat) returns (f: seq<nat>)
    requires WellFormed(g) && HasBatch(g, s) && s.idx <= k < |AfterPrune(g, s).path|
    ensures var p := AfterPrune(g, s).path;
      && p[k] in g.cpn
      && var (before, after) := (PathBefore(g, o, s, k), PathBefore(g, o, s, k + 1));
         var r := o.report(k);
         && p <= before <= after
         && if r.failed && g.cpn[p[k]].handler.goto != [] then after == before + g.cpn[p[k]].handler.goto
            else
              var last := [before[|before| - 1]];
              IsCollapse(last + Contributes(g, p[k], r), last + after[|before|..], f)
  {
    hide WellFormed, PathBefore, Successors, IsCollapse, AfterPrune, Contributes;
    BatchIsKnown(g, s, k);
    StateBefore(g, o, s, k);
    var t := StateAt(g, o, s, k);
    f := NodeAdds(g, t, k, o.report(k));
  }

  lemma StateBefore(g: Graph, o: Oracle, s: State, k: nat)
    requires WellFormed(g) && HasBatch(g, s) && s.idx <= k < |AfterPrune(g, s).path|
    ensures var t := StateAt(g, o, s, k);
      && t.path == PathBefore(g, o, s, k) && AfterPrune(g, s).path <= t.path
      && k < |t.path| && t.path[k] == AfterPrune(g, s).path[k] && t.path[k] in g.cpn
      && StateAt(g, o, s, k + 1) == PostNode(g, t, k, o.report(k))
      && PathBefore(g, o, s, k + 1) == PostNode(g, t, k, o.report(k)).path
  {
    hide WellFormed, PostNode, PostRange, AfterPrune;
    BatchIsKnown(g, s, k);
    BatchIsKnown(g, s, k + 1);
    RangeStep(g, o, AfterPrune(g, s), s.idx, k);
    PostRangeFrame(g, o, AfterPrune(g, s), s.idx, k);
  }

  lemma NodeAdds(g: Graph, t: State, k: nat, r: Report) returns (f: seq<nat>)
    requires WellFormed(g) && k < |t.path| && t.path[k] in g.cpn
    ensures var after := PostNode(g, t, k, r).path;
      && t.path <= after
      && if r.failed && g.cpn[t.path[k]].handler.goto != [] then after == t.path + g.cpn[t.path[k]].handler.goto
         else
           var last := [t.path[|t.path| - 1]];
           IsCollapse(last + Contributes(g, t.path[k], r), last + after[|t.path|..], f)
  {
    hide WellFormed, PostNode, ExtendPath, Contributes, IsCollapse;
    PostNodeAppends(g, t, k, r);
    f := ExtendCollapses(t.path, Contributes(g, t.path[k], r));
  }

  /** The path grows from the batch to all that stands behind it. */
  lemma PathEnds(g: Graph, o: Oracle, s: State)
    requires WellFormed(g) && HasBatch(g, s)
    ensures var (p, end) := BatchPath(g, o, s);
      && end == |AfterPrune(g, s).path|
      && PathBefore(g, o, s, s.idx) == AfterPrune(g, s).path && PathBefore(g, o, s, end) == p
  {
    hide WellFormed, PostRange, Prune, StartedEvents;
    PruneKnown(g, s.path[..s.idx], s.path[s.idx..]);
    PostRangeEmpty(g, o, AfterPrune(g, s), s.idx);
    assert AfterPrune(g, s).path[s.idx..|AfterPrune(g, s).path|] == AfterPrune(g, s).path[s.idx..];
  }

  lemma {:induction false} PathGrows(g: Graph, o: Oracle, s: State, k: nat, m: nat)
    requires WellFormed(g) && HasBatch(g, s) && s.idx <= k <= m <= |AfterPrune(g, s).path|
    ensures PathBefore(g, o, s, k) <= PathBefore(g, o, s, m)
    decreases m - k
  {
    hide WellFormed, AfterPrune, PathBefore, Contributes, IsCollapse;
    if k < m {
      var _ := ComponentAdds(g, o, s, k);
      PathGrows(g, o, s, k + 1, m);
    }
  }

  /** Entry `j` behind the batch was added by entry `k` of it. */
  ghost predicate AddedBy(g: Graph, o: Oracle, s: State, k: nat, j: nat)
    requires WellFormed(g) && HasBatch(g, s)
  {
    && s.idx <= k < |AfterPrune(g, s).path|
    && |PathBefore(g, o, s, k)| <= j < |PathBefore(g, o, s, k + 1)|
  }

  lemma {:induction false} AddedFrom(g: Graph, o: Oracle, s: State, k: nat, j: nat) returns (m: nat)
    requires WellFormed(g) && HasBatch(g, s) && s.idx <= k <= |AfterPrune(g, s).path|
    requires |PathBefore(g, o, s, k)| <= j < |PathBefore(g, o, s, |AfterPrune(g, s).path|)|
    ensures AddedBy(g, o, s, m, j)
    decreases |AfterPrune(g, s).path| - k
  {
    hide WellFormed, AfterPrune, PathBefore;
    if j < |PathBefore(g, o, s, k + 1)| {
      m := k;
    } else {
      m := AddedFrom(g, o, s, k + 1, j);
    }
  }

  /** Every entry behind the batch was added by exactly one of its components. */
  lemma EveryEntryIsAdded(g: Graph, o: Oracle, s: State, j: nat)
    requires WellFormed(g) && HasBatch(g, s) && BatchPath(g, o, s).1 <= j < |BatchPath(g, o, s).0|
    ensures exists k: nat :: AddedBy(g, o, s, k, j)
    ensures forall k: nat, m: nat | AddedBy(g, o, s, k, j) && AddedBy(g, o, s, m, j) :: k == m
  {
    hide WellFormed, AfterPrune, PathBefore, BatchPath;
    PathEnds(g, o, s);
    var k := AddedFrom(g, o, s, s.idx, j);
    forall k: nat, m: nat | AddedBy(g, o, s, k, j) && AddedBy(g, o, s, m, j) ensures k == m {
      if k < m {
        PathGrows(g, o, s, k + 1, m);
      } else if m < k {
        PathGrows(g, o, s, m + 1, k);
      }
    }
  }

  /** No entry that a component added without a goto repeats the entry before it, whoever added
      that. */
  lemma NothingIsRepeated(g: Graph, o: Oracle, s: State, k: nat, j: nat)
    requires WellFormed(g) && HasBatch(g, s) && AddedBy(g, o, s, k, j)
    ensures AfterPrune(g, s).path[k] in g.cpn
    ensures var p := BatchPath(g, o, s).0;
      && 0 < j < |p|
      && (p[j] == p[j - 1] ==> o.report(k).failed && g.cpn[AfterPrune(g, s).path[k]].handler.goto != [])
  {
    hide WellFormed, AfterPrune, PathBefore, StateAt, BatchPath, Contributes;
    var f := ComponentAdds(g, o, s, k);
    PathEnds(g, o, s);
    PathGrows(g, o, s, k + 1, BatchPath(g, o, s).1);
    var before, after, p := PathBefore(g, o, s, k), PathBefore(g, o, s, k + 1), BatchPath(g, o, s).0;
    var seen := [before[|before| - 1]] + after[|before|..];
    assert p[j] == after[j] && p[j - 1] == after[j - 1];
    assert seen[j - |before| + 1] == after[j] && seen[j - |before|] == after[j - 1];
  }

  lemma CollapseOfTwice(x: Id, b: seq<Id>, f: seq<nat>)
    requires IsCollapse([x, x], b, f)
    ensures b == [x]
  {
    assert b[f[0]] == x && b[f[1]] == x;
  }

  /** A component whose one edge leads to what is already last adds nothing. */
  lemma LastIsNotAppended(g: Graph, o: Oracle, s: State, k: nat)
    requires WellFormed(g) && HasBatch(g, s) && s.idx <= k < |AfterPrune(g, s).path|
    requires AfterPrune(g, s).path[k] in g.cpn && !o.report(k).failed && PathBefore(g, o, s, k) != []
    requires var before := PathBefore(g, o, s, k);
      Contributes(g, AfterPrune(g, s).path[k], o.report(k)) == [before[|before| - 1]]
    ensures PathBefore(g, o, s, k + 1) == PathBefore(g, o, s, k)
  {
    hide WellFormed, AfterPrune, PathBefore, Contributes;
    var f := ComponentAdds(g, o, s, k);
    var before, after := PathBefore(g, o, s, k), PathBefore(g, o, s, k + 1);
    var last := before[|before| - 1];
    assert [last] + [last] == [last, last];
    CollapseOfTwice(last, [last] + after[|before|..], f);
  }
}
