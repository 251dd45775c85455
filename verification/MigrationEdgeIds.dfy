/** Edge ids are texts that contain component ids. They are rewritten by one replacement per id,
    longest id first; here is what that comes to (agent/dsl_migration.py). */
module MigrationEdgeIds {
  import opened Text
  import opened Migration
  import opened MigrationFixpoint

  /** The prefix a legacy id loses, and the one it gets. */
  function OldPrefix(id: string): (r: string)
    ensures r <= id && (r != "" <==> IsLegacyId(id))
  {
    if StartsWith(id, "Splitter:") then "Splitter:"
    else if StartsWith(id, "HierarchicalMerger:") then "HierarchicalMerger:"
    else if StartsWith(id, "PDFGenerator:") then "PDFGenerator:"
    else ""
  }

  function NewPrefix(id: string): string {
    if StartsWith(id, "Splitter:") then "TokenChunker:"
    else if StartsWith(id, "HierarchicalMerger:") then "TitleChunker:"
    else if StartsWith(id, "PDFGenerator:") then "DocGenerator:"
    else ""
  }

  /** A legacy id among `ids` stands at the head of the text. */
  predicate Heads(ids: seq<string>, s: string) {
    exists id <- ids :: IsLegacyId(id) && StartsWith(s, id)
  }

  /** One pass from left to right: wherever a legacy id stands its prefix is renamed, once, and
      everything else is copied. */
  function OnePass(ids: seq<string>, s: string): string
    decreases |s|
  {
    if s == "" then ""
    else if Heads(ids, s) && OldPrefix(s) != "" then NewPrefix(s) + OnePass(ids, s[|OldPrefix(s)|..])
    else [s[0]] + OnePass(ids, s[1..])
  }

  // ---- when occurrences cannot meet ----

  /** No proper tail of `a` begins like `b`, for as long as both last. */
  predicate Apart(a: string, b: string) {
    forall k | 1 <= k < |a| :: !StartsWith(a[k..], b) && !StartsWith(b, a[k..])
  }

  /** `b` stands in the text `s` behind the head of `a`, and within it. */
  predicate Overlap(a: string, b: string, s: string, i: int, j: int) {
    0 <= i < j < i + |a| && OccursAt(a, s, i) && OccursAt(b, s, j)
  }

  /** Two ids can overlap in some text exactly when they are not apart. */
  lemma OverlapIffNotApart(a: string, b: string)
    ensures (exists s, i, j :: Overlap(a, b, s, i, j)) <==> !Apart(a, b)
  {
    if !Apart(a, b) {
      var k :| 1 <= k < |a| && (StartsWith(a[k..], b) || StartsWith(b, a[k..]));
      MakeOverlap(a, b, k);
    }
    forall s, i, j | Overlap(a, b, s, i, j) ensures !Apart(a, b) {
      MeetingTails(a, b, s, i, j - i);
    }
  }

  lemma MakeOverlap(a: string, b: string, k: nat)
    requires 1 <= k < |a| && (StartsWith(a[k..], b) || StartsWith(b, a[k..]))
    ensures exists s, i, j :: Overlap(a, b, s, i, j)
  {
    if StartsWith(a[k..], b) {
      assert a[0..0 + |a|] == a && a[k..k + |b|] == a[k..][..|b|] == b;
      assert Overlap(a, b, a, 0, k);
    } else {
      var s := a[..k] + b;
      assert a == a[..k] + a[k..];
      assert s[0..0 + |a|] == a[..k] + b[..|a| - k] == a;
      assert s[k..k + |b|] == b;
      assert Overlap(a, b, s, 0, k);
    }
  }

  lemma MeetingTails(a: string, b: string, s: string, i: nat, k: nat)
    requires 1 <= k < |a| && OccursAt(a, s, i) && OccursAt(b, s, i + k)
    ensures StartsWith(a[k..], b) || StartsWith(b, a[k..])
  {
    var t := s[i + k..];
    assert a[k..] == s[i..i + |a|][k..] == s[i + k..i + |a|] == t[..|a| - k];
    assert b == t[..|b|];
  }

  /** Legacy ids that overlap neither each other nor a renamed one that stands behind them. */
  ghost predicate EdgeSafe(ids: seq<string>) {
    forall a, b | a in ids && b in ids && IsLegacyId(a) && IsLegacyId(b) :: Apart(a, b) && Apart(a, RenamedId(b))
  }

  /** `a` overlaps neither itself, nor an id replaced before it, nor the new form of one. */
  ghost predicate MayFollow(done: seq<string>, a: string) {
    && Apart(a, a)
    && forall b <- done | IsLegacyId(b) :: Apart(a, b) && Apart(a, RenamedId(b))
  }

  /** The legacy ids of the order may follow those before them. What an id that comes earlier has
      in common with a later one does no harm. */
  ghost predicate SafeOrder(order: seq<string>) {
    forall j | 0 <= j < |order| && IsLegacyId(order[j]) :: MayFollow(order[..j], order[j])
  }

  // ---- one replacement ----

  lemma Parts(id: string)
    requires IsLegacyId(id)
    ensures var w := id[|OldPrefix(id)|..];
      id == OldPrefix(id) + w && RenamedId(id) == NewPrefix(id) + w
  {
    var p := OldPrefix(id);
    CutPrefix(p, id);
  }

  lemma CutPrefix(p: string, id: string)
    requires p <= id
    ensures id == p + id[|p|..]
  {
  }

  lemma SamePrefix(id: string, s: string)
    requires IsLegacyId(id) && StartsWith(s, id)
    ensures OldPrefix(s) == OldPrefix(id) && NewPrefix(s) == NewPrefix(id) && IsLegacyId(s)
  {
    assert s[0] == id[0];
    assert "Splitter:"[0] == 'S' && "HierarchicalMerger:"[0] == 'H' && "PDFGenerator:"[0] == 'P';
    if StartsWith(id, "Splitter:") {
      assert "Splitter:" <= id <= s;
    } else if StartsWith(id, "HierarchicalMerger:") {
      assert "HierarchicalMerger:" <= id <= s;
    } else {
      assert "PDFGenerator:" <= id <= s;
    }
  }

  predicate Without(s: string, c: char) {
    forall i | 0 <= i < |s| :: s[i] != c
  }

  /** Legacy ids begin with letters that no new prefix contains. */
  lemma NewPrefixesHideNone(id: string, s: string)
    requires IsLegacyId(id)
    ensures Without(NewPrefix(s), id[0])
  {
    assert "Splitter:"[0] == 'S' && "HierarchicalMerger:"[0] == 'H' && "PDFGenerator:"[0] == 'P';
    assert Without("TokenChunker:", 'S') && Without("TokenChunker:", 'H') && Without("TokenChunker:", 'P');
    assert Without("TitleChunker:", 'S') && Without("TitleChunker:", 'H') && Without("TitleChunker:", 'P');
    assert Without("DocGenerator:", 'S') && Without("DocGenerator:", 'H') && Without("DocGenerator:", 'P');
  }

  lemma {:induction false} ReplaceSkips(u: string, s: string, was: string, now: string)
    requires was != "" && Without(u, was[0])
    ensures ReplaceAll(u + s, was, now) == u + ReplaceAll(s, was, now)
    decreases |u|
  {
    if u == "" {
      assert u + s == s;
    } else {
      assert (u + s)[0] == u[0] && (u + s)[1..] == u[1..] + s;
      AtZero(was, u + s);
      ReplaceSkips(u[1..], s, was, now);
    }
  }

  lemma ReplaceHead(s: string, was: string, now: string)
    requires was != ""
    ensures ReplaceAll(was + s, was, now) == now + ReplaceAll(s, was, now)
  {
    assert (was + s)[0..0 + |was|] == was && (was + s)[|was|..] == s;
  }

  /** Where no id heads any of the next places the text is copied. */
  lemma {:induction false} Copies(ids: seq<string>, u: string, s: string)
    requires forall k | 0 <= k < |u| :: !Heads(ids, (u + s)[k..])
    ensures OnePass(ids, u + s) == u + OnePass(ids, s)
    decreases |u|
  {
    hide Heads, OnePass, OldPrefix, NewPrefix, IsLegacyId;
    if u == "" {
      assert u + s == s;
    } else {
      var t := u + s;
      assert t[0..] == t && t[1..] == u[1..] + s && t[0] == u[0];
      forall k | 0 <= k < |u| - 1 ensures !Heads(ids, (u[1..] + s)[k..]) {
        assert (u[1..] + s)[k..] == t[k + 1..];
      }
      Copies(ids, u[1..], s);
      PassAtHead(ids, t);
      HeadAndRest(u, OnePass(ids, s));
    }
  }

  lemma HeadAndRest(u: string, s: string)
    requires u != ""
    ensures [u[0]] + (u[1..] + s) == u + s
  {
  }

  /** Behind the head of an occurrence of `a`, and within it, no id stands. */
  lemma NoneInside(ids: seq<string>, a: string, s: string, k: nat)
    requires StartsWith(s, a) && 1 <= k < |a|
    requires forall b <- ids | IsLegacyId(b) :: Apart(a, b)
    ensures !Heads(ids, s[k..])
  {
    forall b <- ids | IsLegacyId(b) ensures !StartsWith(s[k..], b) {
      TailsApart(a, b, k);
      NotBehind(a, b, s, k);
    }
  }

  lemma NotBehind(a: string, b: string, s: string, k: nat)
    requires StartsWith(s, a) && 1 <= k < |a| && !StartsWith(a[k..], b) && !StartsWith(b, a[k..])
    ensures !StartsWith(s[k..], b)
  {
    var tail := s[k..];
    assert a[k..] == s[..|a|][k..] == tail[..|a| - k];
    if |b| <= |a| - k {
      assert a[k..][..|b|] == tail[..|b|];
    }
  }

  /** An id at the head comes out renamed, whole. */
  lemma RenamedHead(ids: seq<string>, a: string, s: string)
    requires a in ids && IsLegacyId(a) && StartsWith(s, a)
    requires forall b <- ids | IsLegacyId(b) :: Apart(a, b)
    ensures OnePass(ids, s) == RenamedId(a) + OnePass(ids, s[|a|..])
  {
    hide OnePass, Apart, RenamedId, OldPrefix, NewPrefix;
    SamePrefix(a, s);
    Parts(a);
    var p := |OldPrefix(a)|;
    var w, rest := a[p..], s[|a|..];
    assert s[p..] == w + rest by { assert s == a + rest; }
    forall k | 0 <= k < |w| ensures !Heads(ids, (w + rest)[k..]) {
      assert (w + rest)[k..] == s[p + k..];
      LegacyPrefix(a);
      NoneInside(ids, a, s, p + k);
    }
    Copies(ids, w, rest);
    HeadRenamed(ids, a, s);
    assert NewPrefix(a) + (w + OnePass(ids, rest)) == NewPrefix(a) + w + OnePass(ids, rest);
  }

  lemma LegacyPrefix(a: string)
    requires IsLegacyId(a)
    ensures |OldPrefix(a)| >= 1 && a != ""
  {
  }

  lemma HeadRenamed(ids: seq<string>, a: string, s: string)
    requires a in ids && IsLegacyId(a) && StartsWith(s, a)
    requires OldPrefix(s) == OldPrefix(a) && NewPrefix(s) == NewPrefix(a)
    ensures OnePass(ids, s) == NewPrefix(a) + OnePass(ids, s[|OldPrefix(a)|..])
  {
    LegacyPrefix(a);
    assert Heads(ids, s);
    hide OldPrefix, NewPrefix;
  }

  /** The first place an id stands at. */
  function FirstHead(ids: seq<string>, s: string): (n: nat)
    ensures n <= |s| && (forall k | 0 <= k < n :: !Heads(ids, s[k..]))
    ensures n < |s| ==> Heads(ids, s[n..])
  {
    if s == "" then 0
    else if Heads(ids, s) then assert s[0..] == s; 0
    else
      var n := 1 + FirstHead(ids, s[1..]);
      assert forall k | 1 <= k < n :: s[k..] == s[1..][k - 1..];
      assert s[0..] == s && s[n..] == s[1..][n - 1..];
      n
  }

  /** What the pass makes of a text that an id heads: the new prefix, then text up to the next
      place an id stands at. */
  lemma PassFromHead(ids: seq<string>, v: string) returns (b: string, q: string, u: string, rest: string)
    requires Heads(ids, v)
    ensures b in ids && IsLegacyId(b) && |rest| < |v| && q != ""
    ensures exists w :: RenamedId(b) == q + w && StartsWith(u + rest, w)
    ensures OnePass(ids, v) == q + u + OnePass(ids, rest)
    ensures rest == "" || Heads(ids, rest)
  {
    hide OnePass, RenamedId, OldPrefix, NewPrefix;
    HeadsSomething(ids, v);
    PassAtHead(ids, v);
    b :| b in ids && IsLegacyId(b) && StartsWith(v, b);
    SamePrefix(b, v);
    Parts(b);
    NewPrefixIsSome(b);
    q := NewPrefix(v);
    var p := |OldPrefix(b)|;
    var v' := v[p..];
    var n := FirstHead(ids, v');
    u, rest := v'[..n], v'[n..];
    assert v' == u + rest;
    BehindPrefix(v, b, p);
    assert StartsWith(u + rest, b[p..]);
    Copies(ids, u, rest);
    assert q + (u + OnePass(ids, rest)) == q + u + OnePass(ids, rest);
  }

  lemma NewPrefixIsSome(id: string)
    requires IsLegacyId(id)
    ensures NewPrefix(id) != ""
  {
  }

  lemma BehindPrefix(v: string, b: string, p: nat)
    requires StartsWith(v, b) && p <= |b|
    ensures StartsWith(v[p..], b[p..])
  {
    assert v[p..][..|b| - p] == v[..|b|][p..];
  }

  /** A tail of `a` does not stand at the head of what the pass makes of a text that some id
      heads. */
  lemma {:induction false} TailMisses(ids: seq<string>, a: string, j: nat, v: string)
    requires Heads(ids, v) && 1 <= j < |a|
    requires forall b <- ids | IsLegacyId(b) :: Apart(a, RenamedId(b))
    ensures !StartsWith(OnePass(ids, v), a[j..])
    decreases |v|
  {
    hide OnePass, RenamedId, Apart, Heads, IsLegacyId;
    var b, q, u, rest := PassFromHead(ids, v);
    var w :| RenamedId(b) == q + w && StartsWith(u + rest, w);
    TailsApart(a, RenamedId(b), j);
    if rest == "" || j + |q + u| >= |a| {
      NothingPassed(ids);
      assert rest == "" ==> u + rest == u;
      TailWithin(a[j..], q, u + rest, u, OnePass(ids, rest), w);
    } else {
      var m := j + |q + u|;
      TailMisses(ids, a, m, rest);
      assert a[j..][|q + u|..] == a[m..];
      TailBehind(a[j..], q + u, OnePass(ids, rest));
    }
  }

  lemma HeadsSomething(ids: seq<string>, v: string)
    requires Heads(ids, v)
    ensures v != ""
  {
  }

  /** A text that stands at the head of `p + x` and is longer than `p` goes on at the head of `x`. */
  lemma TailBehind(c: string, p: string, x: string)
    requires |p| <= |c| && !StartsWith(x, c[|p|..])
    ensures !StartsWith(p + x, c)
  {
    if |c| <= |p + x| {
      assert (p + x)[..|c|][|p|..] == x[..|c| - |p|];
    }
  }

  lemma TailWithin(c: string, q: string, v: string, u: string, x: string, w: string)
    requires u <= v && StartsWith(v, w) && (|c| <= |q + u| || (u == v && x == ""))
    requires !StartsWith(c, q + w) && !StartsWith(q + w, c)
    ensures !StartsWith(q + u + x, c)
  {
    if StartsWith(q + u + x, c) {
      assert StartsWith(q + u, c) by { assert |c| <= |q + u| ==> (q + u + x)[..|c|] == (q + u)[..|c|]; }
      assert StartsWith(q + v, c) by { assert (q + v)[..|q + u|] == q + u; }
      assert StartsWith(q + v, q + w);
      BothHead(c, q + w, q + v);
    }
  }

  lemma BothHead(a: string, b: string, s: string)
    requires StartsWith(s, a) && StartsWith(s, b)
    ensures StartsWith(a, b) || StartsWith(b, a)
  {
    assert a == s[..|a|] && b == s[..|b|];
  }

  /** The pass makes no new occurrence of an id at a head where none stood. */
  lemma NoNewHead(ids: seq<string>, a: string, s: string)
    requires !StartsWith(s, a) && !Heads(ids, s) && a != ""
    requires forall b <- ids | IsLegacyId(b) :: Apart(a, RenamedId(b))
    ensures !StartsWith(OnePass(ids, s), a)
  {
    hide OnePass, RenamedId, IsLegacyId, Apart;
    var n := FirstHead(ids, s);
    var u, v := s[..n], s[n..];
    assert s == u + v && s[0..] == s;
    Copies(ids, u, v);
    if n == |s| {
      assert v == "";
      NothingPassed(ids);
      assert OnePass(ids, s) == s;
    } else if n < |a| {
      TailMisses(ids, a, n, v);
      TailBehind(a, u, OnePass(ids, v));
    } else {
      SameHead(u, OnePass(ids, v), v, a);
    }
  }

  lemma SameHead(u: string, x: string, y: string, a: string)
    requires |a| <= |u|
    ensures StartsWith(u + x, a) <==> StartsWith(u + y, a)
  {
    assert (u + x)[..|a|] == u[..|a|] == (u + y)[..|a|];
  }

  lemma TailsApart(a: string, b: string, k: nat)
    requires Apart(a, b) && 1 <= k < |a|
    ensures !StartsWith(a[k..], b) && !StartsWith(b, a[k..])
  {
  }

  lemma NothingPassed(ids: seq<string>)
    ensures OnePass(ids, "") == ""
  {
  }

  lemma HeadsMore(ids: seq<string>, a: string, s: string)
    requires IsLegacyId(a)
    ensures Heads(ids + [a], s) <==> Heads(ids, s) || StartsWith(s, a)
  {
    assert forall id :: id in ids + [a] <==> id in ids || id == a;
  }

  lemma PassAtHead(ids: seq<string>, s: string)
    requires s != ""
    ensures Heads(ids, s) ==> IsLegacyId(s) && |OldPrefix(s)| >= 1
    ensures Heads(ids, s) ==> OnePass(ids, s) == NewPrefix(s) + OnePass(ids, s[|OldPrefix(s)|..])
    ensures !Heads(ids, s) ==> OnePass(ids, s) == [s[0]] + OnePass(ids, s[1..])
  {
    if Heads(ids, s) {
      var id :| id in ids && IsLegacyId(id) && StartsWith(s, id);
      SamePrefix(id, s);
      LegacyPrefix(s);
    }
    hide OldPrefix, NewPrefix, IsLegacyId;
  }

  /** After the pass for some ids, replacing one more is the pass for all of them. */
  lemma {:induction false} OneMore(ids: seq<string>, a: string, s: string)
    requires IsLegacyId(a) && MayFollow(ids, a)
    ensures ReplaceAll(OnePass(ids, s), a, RenamedId(a)) == OnePass(ids + [a], s)
    decreases |s|
  {
    var all := ids + [a];
    SafeParts(ids, a);
    hide OnePass, ReplaceAll, Heads, OldPrefix, NewPrefix, RenamedId, IsLegacyId, MayFollow, Apart;
    if s == "" {
      NothingPassed(ids);
      NothingPassed(all);
      NothingReplaced(a, RenamedId(a));
    } else {
      LegacyPrefix(a);
      HeadsMore(ids, a, s);
      PassAtHead(ids, s);
      PassAtHead(all, s);
      if Heads(ids, s) {
        OneMore(ids, a, s[|OldPrefix(s)|..]);
        NewPrefixesHideNone(a, s);
        ReplaceSkips(NewPrefix(s), OnePass(ids, s[|OldPrefix(s)|..]), a, RenamedId(a));
      } else if StartsWith(s, a) {
        OneMore(ids, a, s[|a|..]);
        OneMoreHere(ids, a, s);
      } else {
        NoNewHead(ids, a, s);
        OneMore(ids, a, s[1..]);
        NotReplaced(OnePass(ids, s), a, RenamedId(a), s[0], OnePass(ids, s[1..]));
      }
    }
  }

  lemma OneMoreHere(ids: seq<string>, a: string, s: string)
    requires IsLegacyId(a) && StartsWith(s, a) && !Heads(ids, s) && s != ""
    requires forall b <- ids + [a] | IsLegacyId(b) :: Apart(a, b)
    requires forall b <- ids | IsLegacyId(b) :: Apart(a, b)
    requires ReplaceAll(OnePass(ids, s[|a|..]), a, RenamedId(a)) == OnePass(ids + [a], s[|a|..])
    ensures ReplaceAll(OnePass(ids, s), a, RenamedId(a)) == OnePass(ids + [a], s)
  {
    hide OnePass, ReplaceAll, Heads, RenamedId, IsLegacyId, Apart;
    var rest := s[|a|..];
    assert s == a + rest;
    LegacyPrefix(a);
    forall k | 0 <= k < |a| ensures !Heads(ids, (a + rest)[k..]) {
      if k == 0 {
        assert s[0..] == s;
      } else {
        NoneInside(ids, a, s, k);
      }
    }
    Copies(ids, a, rest);
    ReplaceHead(OnePass(ids, rest), a, RenamedId(a));
    assert a in ids + [a];
    RenamedHead(ids + [a], a, s);
  }

  lemma NothingReplaced(was: string, now: string)
    ensures ReplaceAll("", was, now) == ""
  {
  }

  lemma NotReplaced(t: string, was: string, now: string, c: char, rest: string)
    requires was != "" && t == [c] + rest && !StartsWith(t, was)
    ensures ReplaceAll(t, was, now) == [c] + ReplaceAll(rest, was, now)
  {
    assert t[0] == c && t[1..] == rest;
    AtZero(was, t);
  }

  lemma AtZero(was: string, t: string)
    ensures OccursAt(was, t, 0) <==> StartsWith(t, was)
  {
    assert |was| <= |t| ==> t[0..0 + |was|] == t[..|was|];
  }

  lemma SafeParts(ids: seq<string>, a: string)
    requires MayFollow(ids, a)
    ensures forall b <- ids + [a] | IsLegacyId(b) :: Apart(a, b)
    ensures forall b <- ids | IsLegacyId(b) :: Apart(a, b) && Apart(a, RenamedId(b))
  {
    hide Apart, IsLegacyId, RenamedId;
    assert forall id :: id in ids + [a] <==> id in ids || id == a;
  }

  // ---- all replacements ----

  /** Only the legacy ids matter to the pass. */
  lemma {:induction false} SamePass(ids: seq<string>, ids': seq<string>, s: string)
    requires forall id | IsLegacyId(id) :: id in ids <==> id in ids'
    ensures OnePass(ids, s) == OnePass(ids', s)
    decreases |s|
  {
    hide OnePass, IsLegacyId, OldPrefix, NewPrefix;
    if s == "" {
      NothingPassed(ids);
      NothingPassed(ids');
    } else {
      PassAtHead(ids, s);
      PassAtHead(ids', s);
      if Heads(ids, s) {
        SamePass(ids, ids', s[|OldPrefix(s)|..]);
      } else {
        SamePass(ids, ids', s[1..]);
      }
    }
  }

  lemma {:induction false} Replacements(m: IdMap, order: seq<string>, done: seq<string>, s: string)
    requires SafeOrder(done + order) && forall id <- order :: Mapped(m, id) == RenamedId(id)
    ensures ReplaceIds(m, order, OnePass(done, s)) == OnePass(done + order, s)
    decreases |order|
  {
    hide OnePass, ReplaceAll, IsLegacyId, RenamedId, Mapped, MayFollow;
    if order == [] {
      assert done + order == done;
    } else {
      var id, rest := order[0], order[1..];
      assert done + order == done + [id] + rest && id in order;
      assert (done + order)[|done|] == id && (done + order)[..|done|] == done;
      if IsLegacyId(id) {
        OneMore(done, id, s);
      } else {
        RenameOnce(id);
        ReplaceNothing(OnePass(done, s), id);
        SamePass(done, done + [id], s);
      }
      Replacements(m, rest, done + [id], s);
    }
  }

  lemma {:induction false} LongestFirstMembers(ids: seq<string>, id: string)
    ensures id in LongestFirst(ids) <==> id in ids
  {
    if ids != [] {
      LongestFirstMembers(ids[1..], id);
      InsertMembers(ids[0], LongestFirst(ids[1..]), id);
      assert ids == [ids[0]] + ids[1..];
    }
  }

  lemma {:induction false} InsertMembers(x: string, sorted: seq<string>, id: string)
    ensures id in InsertByLength(x, sorted) <==> id == x || id in sorted
  {
    if sorted != [] && |x| < |sorted[0]| {
      InsertMembers(x, sorted[1..], id);
      assert sorted == [sorted[0]] + sorted[1..];
    }
  }

  /** In an order in which each id may follow those before it, the replacements rename the prefix
      of every legacy id standing in the edge id once and copy the rest. */
  lemma SafeOrderIsOnePass(ids: seq<string>, order: seq<string>, s: string)
    requires SafeOrder(order) && forall id :: id in order <==> id in ids
    ensures ReplaceIds(IdMapOf(ids), order, s) == OnePass(ids, s)
  {
    hide OnePass, IsLegacyId, RenamedId, ReplaceIds, SafeOrder;
    assert [] + order == order;
    NoIdsPass(s);
    Replacements(IdMapOf(ids), order, [], s);
    SamePass(ids, order, s);
  }

  /** Where legacy ids cannot overlap at all, every order does. */
  lemma ReplacementsAreOnePass(ids: seq<string>, order: seq<string>, s: string)
    requires EdgeSafe(ids) && forall id :: id in order <==> id in ids
    ensures ReplaceIds(IdMapOf(ids), order, s) == OnePass(ids, s)
  {
    hide OnePass, IsLegacyId, RenamedId, ReplaceIds, Apart;
    forall j | 0 <= j < |order| && IsLegacyId(order[j]) ensures MayFollow(order[..j], order[j]) {
      assert order[j] in order;
      assert forall b <- order[..j] :: b in order;
    }
    SafeOrderIsOnePass(ids, order, s);
  }

  lemma {:induction false} NoIdsPass(s: string)
    ensures OnePass([], s) == s
    decreases |s|
  {
    if s != "" {
      NoIdsPass(s[1..]);
      assert s == [s[0]] + s[1..];
    }
  }

  /** What the migration does to an edge id, longest id first. */
  lemma EdgeIdsAreRenamedOnce(ids: seq<string>, s: string)
    requires SafeOrder(LongestFirst(ids))
    ensures ReplaceIds(IdMapOf(ids), LongestFirst(ids), s) == OnePass(ids, s)
  {
    hide OnePass, IsLegacyId, RenamedId, ReplaceIds, LongestFirst, SafeOrder;
    forall id ensures id in LongestFirst(ids) <==> id in ids {
      LongestFirstMembers(ids, id);
    }
    SafeOrderIsOnePass(ids, LongestFirst(ids), s);
  }

  /** Where legacy ids cannot overlap, none of them stands in the edge id afterwards. */
  lemma NoLegacyIdIsLeft(ids: seq<string>, s: string)
    requires EdgeSafe(ids)
    ensures var r := ReplaceIds(IdMapOf(ids), LongestFirst(ids), s);
      r == OnePass(ids, s) && forall a <- ids | IsLegacyId(a) :: !Occurs(a, r)
  {
    hide OnePass, IsLegacyId, RenamedId, ReplaceIds, LongestFirst, Occurs, EdgeSafe;
    forall id ensures id in LongestFirst(ids) <==> id in ids {
      LongestFirstMembers(ids, id);
    }
    ReplacementsAreOnePass(ids, LongestFirst(ids), s);
    var r := OnePass(ids, s);
    forall a <- ids | IsLegacyId(a) ensures !Occurs(a, r) {
      SafeAgain(ids, a);
      OneMore(ids, a, s);
      SamePass(ids, ids + [a], s);
      FirstLetterChanges(a);
      FixedIsWithout(r, a, RenamedId(a));
    }
  }

  lemma SafeAgain(ids: seq<string>, a: string)
    requires EdgeSafe(ids) && a in ids && IsLegacyId(a)
    ensures MayFollow(ids, a)
    ensures forall id :: id in ids + [a] <==> id in ids
  {
    hide Apart, IsLegacyId, RenamedId;
  }

  lemma FirstLetterChanges(id: string)
    requires IsLegacyId(id)
    ensures id != "" && RenamedId(id) != "" && RenamedId(id)[0] != id[0]
  {
    assert "Splitter:"[0] == 'S' && "HierarchicalMerger:"[0] == 'H' && "PDFGenerator:"[0] == 'P';
  }

  /** A replacement that changes nothing had nothing to replace. */
  lemma {:induction false} FixedIsWithout(t: string, was: string, now: string)
    requires was != "" && now != "" && now[0] != was[0] && ReplaceAll(t, was, now) == t
    ensures !Occurs(was, t)
    decreases |t|
  {
    if t == "" {
      AtZero(was, t);
    } else {
      HeadStays(t, was, now);
      FixedIsWithout(t[1..], was, now);
      forall i | 0 <= i <= |t| ensures !OccursAt(was, t, i) {
        ShiftOccurs(was, t, i);
      }
    }
  }

  /** An occurrence at the head would have changed the first letter. */
  lemma HeadStays(t: string, was: string, now: string)
    requires t != "" && was != "" && now != "" && now[0] != was[0] && ReplaceAll(t, was, now) == t
    ensures !OccursAt(was, t, 0) && ReplaceAll(t[1..], was, now) == t[1..]
  {
    HeadReplaced(t, was, now);
  }

  lemma HeadReplaced(t: string, was: string, now: string)
    requires t != "" && was != "" && now != ""
    ensures var r := ReplaceAll(t, was, now);
      if OccursAt(was, t, 0) then r != "" && r[0] == now[0] && t[0] == was[0]
      else r != "" && r[1..] == ReplaceAll(t[1..], was, now)
  {
    AtZero(was, t);
  }

  lemma ShiftOccurs(was: string, t: string, i: nat)
    requires t != "" && i <= |t|
    ensures i > 0 ==> (OccursAt(was, t, i) <==> OccursAt(was, t[1..], i - 1))
  {
    if i > 0 && i + |was| <= |t| {
      SameSlice(t, i, i + |was|);
    }
  }

  lemma SameSlice(t: string, i: nat, j: nat)
    requires 1 <= i <= j <= |t|
    ensures t[1..][i - 1..j - 1] == t[i..j]
  {
  }

  /** The loop over the sorted replacements. */
  method RewriteEdgeId(ids: seq<string>, edgeId: string) returns (r: string)
    ensures r == ReplaceIds(IdMapOf(ids), LongestFirst(ids), edgeId)
    ensures SafeOrder(LongestFirst(ids)) ==> r == OnePass(ids, edgeId)
    ensures EdgeSafe(ids) ==> r == OnePass(ids, edgeId) && forall a <- ids | IsLegacyId(a) :: !Occurs(a, r)
  {
    hide IsLegacyId, EdgeSafe, SafeOrder, OnePass, ReplaceAll, Mapped, IdMapOf, LongestFirst, Occurs;
    var m, order := IdMapOf(ids), LongestFirst(ids);
    r := edgeId;
    assert order[0..] == order;
    for i := 0 to |order|
      invariant ReplaceIds(m, order[i..], r) == ReplaceIds(m, order, edgeId)
    {
      assert order[i..][0] == order[i] && order[i..][1..] == order[i + 1..];
      r := ReplaceAll(r, order[i], Mapped(m, order[i]));
    }
    if SafeOrder(LongestFirst(ids)) {
      EdgeIdsAreRenamedOnce(ids, edgeId);
    }
    if EdgeSafe(ids) {
      NoLegacyIdIsLeft(ids, edgeId);
    }
  }

  // ---- where ids overlap ----

  const SHORT: string := "Splitter:abSplit"
  const LONG: string := "Splitter:cdefghijkl"

  lemma Spelled()
    ensures IsLegacyId(SHORT) && IsLegacyId(LONG) && |SHORT| == 16 && |LONG| == 19
    ensures SHORT == "Splitter:ab" + "Split" && StartsWith(LONG, "Split")
    ensures SHORT[11] == 'S' && RenamedId(LONG)[0] == 'T' && Without("plitter:ab", 'S') && LONG[0] == 'S'
    ensures "Splitter:ab" == "S" + "plitter:ab" && |"Splitter:ab"| == 11
  {
    assert "Splitter:" == SHORT[..9] && "Splitter:" == LONG[..9];
  }

  /** "Splitter:abSplit" stands at the head of the text, over the beginning of the longer id. The
      longer one is replaced first, and then the shorter one is not there any more. */
  lemma OverlappingIdIsMissed()
    ensures var ids, s := [SHORT, LONG], "Splitter:ab" + LONG;
      && StartsWith(s, SHORT) && !EdgeSafe(ids)
      && StartsWith(ReplaceIds(IdMapOf(ids), LongestFirst(ids), s), "Splitter:ab")
  {
    hide RenamedId, IsLegacyId, ReplaceIds, ReplaceAll, LongestFirst, EdgeSafe, IdMapOf, Mapped;
    var ids, u := [SHORT, LONG], "Splitter:ab";
    var m := IdMapOf(ids);
    TheyOverlap();
    SortedIds();
    MappedIds(ids);
    FirstReplacement();
    SecondReplacement(u + RenamedId(LONG), u) by { LongChanges(); }
    assert SHORT in ids && LONG in ids;
    TwoReplacements(m, u + LONG);
  }

  lemma TwoReplacements(m: IdMap, s: string)
    ensures ReplaceIds(m, [LONG, SHORT], s)
         == ReplaceAll(ReplaceAll(s, LONG, Mapped(m, LONG)), SHORT, Mapped(m, SHORT))
  {
    hide ReplaceAll, Mapped;
    var t := ReplaceAll(s, LONG, Mapped(m, LONG));
    assert [LONG, SHORT][1..] == [SHORT] && [SHORT][1..] == [];
    assert ReplaceIds(m, [SHORT], t) == ReplaceIds(m, [], ReplaceAll(t, SHORT, Mapped(m, SHORT)));
  }

  lemma LongChanges()
    ensures var t := "Splitter:ab" + RenamedId(LONG); |t| > 11 && t[11] != 'S'
  {
    Spelled();
  }

  lemma TheyOverlap()
    ensures StartsWith("Splitter:ab" + LONG, SHORT) && !EdgeSafe([SHORT, LONG])
  {
    Spelled();
    hide RenamedId, IsLegacyId;
    var s := "Splitter:ab" + LONG;
    assert s[..16] == "Splitter:ab" + LONG[..5] == SHORT;
    assert SHORT[11..] == "Split";
    assert !Apart(SHORT, LONG);
    assert SHORT in [SHORT, LONG] && LONG in [SHORT, LONG];
  }

  lemma MappedIds(ids: seq<string>)
    ensures forall id <- ids :: Mapped(IdMapOf(ids), id) == RenamedId(id)
  {
    hide RenamedId;
  }

  lemma SortedIds()
    ensures LongestFirst([SHORT, LONG]) == [LONG, SHORT]
  {
    Spelled();
    assert [SHORT, LONG][1..] == [LONG] && [LONG][1..] == [];
    assert LongestFirst([LONG]) == [LONG];
    assert InsertByLength(SHORT, []) == [SHORT];
  }

  lemma FirstReplacement()
    ensures ReplaceAll("Splitter:ab" + LONG, LONG, RenamedId(LONG)) == "Splitter:ab" + RenamedId(LONG)
  {
    Spelled();
    hide RenamedId, IsLegacyId, ReplaceAll;
    var now := RenamedId(LONG);
    assert LONG + "" == LONG;
    ReplaceHead("", LONG, now);
    NothingReplaced(LONG, now);
    ReplaceSkips("plitter:ab", LONG, LONG, now);
    var t := "Splitter:ab" + LONG;
    var tail := "plitter:ab" + LONG;
    assert t == ['S'] + tail;
    assert t[9] == 'a' && LONG[9] == 'c';
    NotReplaced(t, LONG, now, 'S', tail);
    assert ['S'] + ("plitter:ab" + now) == "Splitter:ab" + now;
  }

  lemma SecondReplacement(t: string, u: string)
    requires u == "Splitter:ab" && u <= t && |t| > 11 && t[11] != 'S'
    ensures StartsWith(ReplaceAll(t, SHORT, RenamedId(SHORT)), u)
  {
    Spelled();
    assert SHORT[0] == 'S' && SHORT != "";
    hide RenamedId, IsLegacyId, ReplaceAll;
    var rest, now := t[11..], RenamedId(SHORT);
    Cut(rest);
    assert t == u + rest;
    assert !StartsWith(t, SHORT);
    NotReplaced(t, SHORT, now, 'S', "plitter:ab" + rest);
    ReplaceSkips("plitter:ab", rest, SHORT, now);
    Cut(ReplaceAll(rest, SHORT, now));
  }

  lemma Cut(rest: string)
    ensures ['S'] + ("plitter:ab" + rest) == "Splitter:ab" + rest
  {
    assert ['S'] + "plitter:ab" == "Splitter:ab";
  }
}
