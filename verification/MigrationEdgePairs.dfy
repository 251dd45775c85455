/** When exactly two overlapping legacy ids are both renamed in every edge id. A text under
    replacement is the original text with some of its legacy prefixes marked as renamed. */
module MigrationEdgePairs {
  import opened Text
  import opened Migration
  import opened MigrationEdgeIds

  type Marks = set<nat>

  predicate Marked(s: string, marks: Marks, i: nat) {
    i < |s| && i in marks && IsLegacyId(s[i..])
  }

  /** The text from place `i` on, with the marked legacy prefixes renamed. */
  function Out(s: string, marks: Marks, i: nat): string
    requires i <= |s|
    decreases |s| - i
  {
    if i == |s| then ""
    else if Marked(s, marks, i) then NewPrefix(s[i..]) + Out(s, marks, i + |OldPrefix(s[i..])|)
    else [s[i]] + Out(s, marks, i + 1)
  }

  // ---- letters ----

  predicate Opens(c: char) {
    c == 'S' || c == 'H' || c == 'P'
  }

  predicate OpensNew(c: char) {
    c == 'T' || c == 'D'
  }

  lemma FirstLetters(id: string)
    requires IsLegacyId(id)
    ensures id != "" && Opens(id[0]) && NewPrefix(id) != "" && OpensNew(NewPrefix(id)[0])
    ensures 1 <= |OldPrefix(id)| <= |id|
  {
    assert "Splitter:"[0] == 'S' && "HierarchicalMerger:"[0] == 'H' && "PDFGenerator:"[0] == 'P';
  }

  predicate NoneOpens(s: string) {
    forall i | 0 <= i < |s| :: !Opens(s[i])
  }

  lemma NewPrefixOpensNone(id: string)
    ensures NoneOpens(NewPrefix(id))
  {
    assert NoneOpens("TokenChunker:") && NoneOpens("TitleChunker:") && NoneOpens("DocGenerator:");
  }

  /** Within an old prefix no other begins, and no new one either. */
  lemma InsidePrefix(id: string, other: string, d: nat)
    requires 1 <= d < |OldPrefix(id)| && IsLegacyId(other)
    ensures !Opens(OldPrefix(id)[d])
    ensures |NewPrefix(other)| >= 2
    ensures OldPrefix(id)[d] == NewPrefix(other)[0] ==>
      d + 1 < |OldPrefix(id)| && OldPrefix(id)[d + 1] != NewPrefix(other)[1]
  {
    LettersInside("Splitter:", d);
    LettersInside("HierarchicalMerger:", d);
    LettersInside("PDFGenerator:", d);
  }

  lemma LettersInside(p: string, d: nat)
    requires p == "Splitter:" || p == "HierarchicalMerger:" || p == "PDFGenerator:"
    ensures 1 <= d < |p| ==> !Opens(p[d]) && (OpensNew(p[d]) ==> d == 1 && |p| == 13 && p[1] == 'D' && p[2] == 'F')
  {
  }

  // ---- different marks, different texts ----

  lemma StepInside(s: string, i: nat, q: nat)
    requires i < q < |s| && IsLegacyId(s[i..]) && IsLegacyId(s[q..])
    ensures q >= i + |OldPrefix(s[i..])|
  {
    var p := OldPrefix(s[i..]);
    LegacyOpens(s[q..]);
    assert s[q..][0] == s[q];
    forall j | i < j < i + |p| ensures !Opens(s[j]) {
      InsidePrefix(s[i..], s[i..], j - i);
      assert s[j] == s[i..][j - i] == p[j - i];
    }
  }

  lemma LegacyOpens(id: string)
    ensures IsLegacyId(id) ==> id != "" && Opens(id[0])
  {
    if IsLegacyId(id) {
      FirstLetters(id);
    }
  }

  lemma OutUnfold(s: string, marks: Marks, i: nat)
    requires i < |s|
    ensures Marked(s, marks, i) ==> 1 <= |OldPrefix(s[i..])| <= |s| - i
    ensures Marked(s, marks, i) ==> Out(s, marks, i) == NewPrefix(s[i..]) + Out(s, marks, i + |OldPrefix(s[i..])|)
    ensures !Marked(s, marks, i) ==> Out(s, marks, i) == [s[i]] + Out(s, marks, i + 1)
  {
    hide NewPrefix;
    if Marked(s, marks, i) {
      FirstLetters(s[i..]);
    }
  }

  lemma SameFront(q: string, x: string, y: string)
    ensures q + x == q + y <==> x == y
  {
    if q + x == q + y {
      assert x == (q + x)[|q|..] && y == (q + y)[|q|..];
    }
  }

  lemma HeadOf(q: string, x: string)
    requires q != ""
    ensures q + x != "" && (q + x)[0] == q[0]
  {
  }

  /** A legacy prefix marked on one side only shows. */
  lemma {:induction false} OutDiffers(s: string, m: Marks, n: Marks, i: nat, q: nat)
    requires i <= q < |s| && q in m && q !in n && IsLegacyId(s[q..])
    ensures Out(s, m, i) != Out(s, n, i)
    decreases |s| - i
  {
    hide Out, NewPrefix, OldPrefix, IsLegacyId;
    OutUnfold(s, m, i);
    OutUnfold(s, n, i);
    if Marked(s, m, i) && Marked(s, n, i) {
      StepInside(s, i, q);
      var next := i + |OldPrefix(s[i..])|;
      OutDiffers(s, m, n, next, q);
      SameFront(NewPrefix(s[i..]), Out(s, m, next), Out(s, n, next));
    } else if Marked(s, m, i) || Marked(s, n, i) {
      FirstLetters(s[i..]);
      var legacy := if Marked(s, m, i) then m else n;
      HeadOf(NewPrefix(s[i..]), Out(s, legacy, i + |OldPrefix(s[i..])|));
      assert s[i..][0] == s[i];
    } else {
      OutDiffers(s, m, n, i + 1, q);
      SameFront([s[i]], Out(s, m, i + 1), Out(s, n, i + 1));
    }
  }

  // ---- the pass, and one replacement of the plain text ----

  function Places(ids: seq<string>, s: string): Marks {
    set q: nat | q < |s| && Heads(ids, s[q..])
  }

  lemma {:induction false} OnePassIsOut(ids: seq<string>, s: string, i: nat)
    requires i <= |s|
    ensures OnePass(ids, s[i..]) == Out(s, Places(ids, s), i)
    decreases |s| - i
  {
    hide Out, OnePass, Heads, NewPrefix, OldPrefix, IsLegacyId;
    if i == |s| {
      NothingPassed(ids);
      OutAtEnd(s, Places(ids, s));
    } else {
      PassAtHead(ids, s[i..]);
      OutUnfold(s, Places(ids, s), i);
      assert s[i..][0] == s[i] && s[i..][1..] == s[i + 1..];
      if Heads(ids, s[i..]) {
        var p := |OldPrefix(s[i..])|;
        assert s[i..][p..] == s[i + p..];
        OnePassIsOut(ids, s, i + p);
      } else {
        OnePassIsOut(ids, s, i + 1);
      }
    }
  }

  lemma OutAtEnd(s: string, marks: Marks)
    ensures Out(s, marks, |s|) == ""
  {
  }

  /** Without marks the text is copied. */
  lemma {:induction false} OutCopies(s: string, marks: Marks, i: nat, j: nat)
    requires i <= j <= |s| && forall q | i <= q < j :: q !in marks
    ensures Out(s, marks, i) == s[i..j] + Out(s, marks, j)
    decreases j - i
  {
    hide Out;
    if i == j {
      assert s[i..j] + Out(s, marks, j) == Out(s, marks, j);
    } else {
      OutUnfold(s, marks, i);
      OutCopies(s, marks, i + 1, j);
      assert s[i..j] == [s[i]] + s[i + 1..j];
      assert [s[i]] + (s[i + 1..j] + Out(s, marks, j)) == s[i..j] + Out(s, marks, j);
    }
  }

  /** Marks before the place do not matter. */
  lemma {:induction false} OutLater(s: string, m: Marks, n: Marks, i: nat)
    requires i <= |s| && forall q | i <= q < |s| :: q in m <==> q in n
    ensures Out(s, m, i) == Out(s, n, i)
    decreases |s| - i
  {
    hide Out, NewPrefix, OldPrefix, IsLegacyId;
    if i == |s| {
      OutAtEnd(s, m);
      OutAtEnd(s, n);
    } else {
      OutUnfold(s, m, i);
      OutUnfold(s, n, i);
      if Marked(s, m, i) {
        OutLater(s, m, n, i + |OldPrefix(s[i..])|);
      } else {
        OutLater(s, m, n, i + 1);
      }
    }
  }

  /** The occurrences that one replacement takes, from left to right. */
  function Greedy(s: string, a: string, i: nat): (r: Marks)
    requires a != "" && i <= |s|
    ensures forall q <- r :: i <= q < |s| && StartsWith(s[q..], a)
    decreases |s| - i
  {
    if i == |s| then {}
    else if StartsWith(s[i..], a) then {i} + Greedy(s, a, i + |a|)
    else Greedy(s, a, i + 1)
  }

  lemma {:induction false} GreedyCovers(s: string, a: string, i: nat, k: nat) returns (q: nat)
    requires a != "" && i <= k < |s| && StartsWith(s[k..], a)
    ensures q in Greedy(s, a, i) && q <= k < q + |a|
    decreases |s| - i
  {
    if StartsWith(s[i..], a) {
      if k < i + |a| {
        q := i;
      } else {
        q := GreedyCovers(s, a, i + |a|, k);
      }
    } else {
      q := GreedyCovers(s, a, i + 1, k);
    }
  }

  lemma GreedyHead(s: string, a: string, i: nat)
    requires a != "" && i < |s| && StartsWith(s[i..], a)
    ensures i in Greedy(s, a, i) && forall q <- Greedy(s, a, i) :: q == i || q >= i + |a|
  {
  }

  lemma {:induction false} GreedyIsReplace(s: string, a: string, i: nat)
    requires IsLegacyId(a) && a != "" && i <= |s|
    ensures ReplaceAll(s[i..], a, RenamedId(a)) == Out(s, Greedy(s, a, i), i)
    decreases |s| - i
  {
    hide Out, ReplaceAll, RenamedId, IsLegacyId, NewPrefix, OldPrefix;
    var g := Greedy(s, a, i);
    if i == |s| {
      assert s[i..] == "";
      OutAtEnd(s, g);
      NothingReplaced(a, RenamedId(a));
    } else if StartsWith(s[i..], a) {
      var j := i + |a|;
      GreedyIsReplace(s, a, j);
      GreedyHead(s, a, i);
      RenameHere(s, a, i, g);
      OutLater(s, g, Greedy(s, a, j), j);
      assert s[i..] == a + s[j..];
      ReplaceHead(s[j..], a, RenamedId(a));
    } else {
      GreedyIsReplace(s, a, i + 1);
      OutUnfold(s, g, i);
      assert s[i..] == [s[i]] + s[i + 1..];
      NotReplaced(s[i..], a, RenamedId(a), s[i], s[i + 1..]);
    }
  }

  /** A marked occurrence of `a` with no other mark in it comes out as its new form. */
  lemma RenameHere(s: string, a: string, i: nat, marks: Marks)
    requires i + |a| <= |s| && StartsWith(s[i..], a) && IsLegacyId(a) && i < |s|
    requires i in marks && forall q | i < q < i + |a| :: q !in marks
    ensures Out(s, marks, i) == RenamedId(a) + Out(s, marks, i + |a|)
  {
    hide Out, RenamedId, NewPrefix, OldPrefix;
    SamePrefix(a, s[i..]);
    Parts(a);
    FirstLetters(a);
    OutUnfold(s, marks, i);
    var p := |OldPrefix(a)|;
    OutCopies(s, marks, i + p, i + |a|);
    assert a[p..] == s[i..][..|a|][p..] == s[i + p..i + |a|];
    var rest := Out(s, marks, i + |a|);
    assert NewPrefix(a) + (a[p..] + rest) == NewPrefix(a) + a[p..] + rest;
  }

  // ---- a replacement in a text that has marks ----

  /** Where a stretch of `n` letters ends, taking marked prefixes whole. */
  function CutEnd(s: string, marks: Marks, i: nat, n: nat): (j: nat)
    requires i <= |s|
    ensures i <= j <= |s|
    decreases |s| - i
  {
    if i == |s| || n == 0 then i
    else if Marked(s, marks, i) then
      var q := |NewPrefix(s[i..])|;
      CutEnd(s, marks, i + |OldPrefix(s[i..])|, if n > q then n - q else 0)
    else CutEnd(s, marks, i + 1, n - 1)
  }

  function CutText(s: string, marks: Marks, i: nat, n: nat): string
    requires i <= |s|
    decreases |s| - i
  {
    if i == |s| || n == 0 then ""
    else if Marked(s, marks, i) then
      var q := |NewPrefix(s[i..])|;
      NewPrefix(s[i..]) + CutText(s, marks, i + |OldPrefix(s[i..])|, if n > q then n - q else 0)
    else [s[i]] + CutText(s, marks, i + 1, n - 1)
  }

  lemma Regrouped(a: string, b: string, c: string)
    ensures a + (b + c) == a + b + c
  {
  }

  /** The stretch is the same under any marks that agree within it. */
  lemma {:induction false} CutSame(s: string, m: Marks, n: Marks, i: nat, len: nat)
    requires i <= |s| && forall q | i <= q < CutEnd(s, m, i, len) :: q in m <==> q in n
    ensures Out(s, n, i) == CutText(s, m, i, len) + Out(s, n, CutEnd(s, m, i, len))
    decreases |s| - i
  {
    hide Out, NewPrefix, OldPrefix, IsLegacyId;
    var j := CutEnd(s, m, i, len);
    if i == |s| || len == 0 {
      assert "" + Out(s, n, j) == Out(s, n, j);
    } else if Marked(s, m, i) {
      var next := i + |OldPrefix(s[i..])|;
      var q := |NewPrefix(s[i..])|;
      var left := if len > q then len - q else 0;
      PrefixIsSome(s[i..]);
      OutUnfold(s, n, i);
      assert Marked(s, n, i);
      CutSame(s, m, n, next, left);
      Regrouped(NewPrefix(s[i..]), CutText(s, m, next, left), Out(s, n, j));
    } else {
      OutUnfold(s, n, i);
      assert i < j by { assert j == CutEnd(s, m, i + 1, len - 1); }
      assert !Marked(s, n, i);
      CutSame(s, m, n, i + 1, len - 1);
      Regrouped([s[i]], CutText(s, m, i + 1, len - 1), Out(s, n, j));
    }
  }

  lemma PrefixIsSome(id: string)
    requires IsLegacyId(id)
    ensures 1 <= |OldPrefix(id)| <= |id|
  {
    FirstLetters(id);
  }

  /** The stretch is long enough, and behind the `n` letters at most the end of a new prefix. */
  lemma {:induction false} CutLength(s: string, m: Marks, i: nat, n: nat)
    requires i <= |s| && n <= |Out(s, m, i)|
    ensures n <= |CutText(s, m, i, n)| && NoneOpens(CutText(s, m, i, n)[n..])
    decreases |s| - i
  {
    hide Out, NewPrefix, OldPrefix, IsLegacyId, Opens;
    if n > 0 {
      OutAtEnd(s, m);
      OutUnfold(s, m, i);
      if Marked(s, m, i) {
        PrefixIsSome(s[i..]);
        var next, q := i + |OldPrefix(s[i..])|, NewPrefix(s[i..]);
        NewPrefixOpensNone(s[i..]);
        if n > |q| {
          CutLength(s, m, next, n - |q|);
          assert (q + CutText(s, m, next, n - |q|))[n..] == CutText(s, m, next, n - |q|)[n - |q|..];
        } else {
          CutNothing(s, m, next);
          assert q + "" == q;
        }
      } else {
        CutLength(s, m, i + 1, n - 1);
        assert ([s[i]] + CutText(s, m, i + 1, n - 1))[n..] == CutText(s, m, i + 1, n - 1)[n - 1..];
      }
    }
  }

  lemma CutNothing(s: string, m: Marks, i: nat)
    requires i <= |s|
    ensures CutText(s, m, i, 0) == ""
  {
  }

  /** An old prefix at the head of the marked text is an old prefix of the text: no new one reaches
      into it. */
  lemma {:induction false} PrefixThrough(s: string, m: Marks, i: nat, a: string, d: nat)
    requires IsLegacyId(a) && i < |s| && !Marked(s, m, i) && StartsWith(Out(s, m, i), OldPrefix(a))
    requires d <= |OldPrefix(a)|
    ensures i + d <= |s| && s[i..i + d] == OldPrefix(a)[..d]
    ensures Out(s, m, i) == OldPrefix(a)[..d] + Out(s, m, i + d)
    decreases d
  {
    hide Out, NewPrefix, OldPrefix, IsLegacyId, Opens;
    var p := OldPrefix(a);
    if d == 0 {
      assert p[..0] + Out(s, m, i) == Out(s, m, i);
    } else {
      PrefixThrough(s, m, i, a, d - 1);
      var k := i + d - 1;
      var t := Out(s, m, k);
      StillThere(Out(s, m, i), p, d - 1, t);
      OutAtEnd(s, m);
      assert k < |s|;
      OutUnfold(s, m, k);
      if d > 1 {
        NotMarkedInside(s, m, k, a, d - 1);
      }
      assert t[0] == s[k];
      assert s[i..i + d] == s[i..k] + [s[k]] && p[..d] == p[..d - 1] + [p[d - 1]];
      Regrouped(p[..d - 1], [s[k]], Out(s, m, k + 1));
    }
  }

  lemma StillThere(x: string, p: string, d: nat, t: string)
    requires StartsWith(x, p) && d < |p| && x == p[..d] + t
    ensures StartsWith(t, p[d..]) && t != "" && t[0] == p[d] && (d + 1 < |p| ==> |t| >= 2 && t[1] == p[d + 1])
  {
    assert t == x[d..];
    assert t[..|p| - d] == x[..|p|][d..] == p[d..];
  }

  lemma NotMarkedInside(s: string, m: Marks, k: nat, a: string, d: nat)
    requires k < |s| && 1 <= d < |OldPrefix(a)| && StartsWith(Out(s, m, k), OldPrefix(a)[d..])
    ensures !Marked(s, m, k)
  {
    hide Out, OldPrefix, NewPrefix, Opens, IsLegacyId;
    OutUnfold(s, m, k);
    if IsLegacyId(s[k..]) {
      var x := if Marked(s, m, k) then Out(s, m, k + |OldPrefix(s[k..])|) else "";
      NewIsNotInside(a, s[k..], d, x);
    }
  }

  lemma NewIsNotInside(a: string, other: string, d: nat, x: string)
    requires 1 <= d < |OldPrefix(a)| && IsLegacyId(other)
    ensures !StartsWith(NewPrefix(other) + x, OldPrefix(a)[d..])
  {
    hide OldPrefix, NewPrefix, IsLegacyId;
    InsidePrefix(a, other, d);
    var c, t, q := OldPrefix(a)[d..], NewPrefix(other) + x, NewPrefix(other);
    assert t[0] == q[0] && t[1] == q[1] && c[0] == OldPrefix(a)[d];
    assert |c| >= 2 ==> c[1] == OldPrefix(a)[d + 1];
    assert |c| <= |t| ==> t[..|c|][0] == t[0] && (|c| >= 2 ==> t[..|c|][1] == t[1]);
  }

  /** A replacement in a text with marks marks more places, all of them places where the replaced
      id heads the text as it was; it does mark such a place at the head. */
  lemma {:induction false} ReplaceMarks(s: string, m: Marks, a: string, i: nat) returns (n: Marks)
    requires IsLegacyId(a) && i <= |s|
    ensures ReplaceAll(Out(s, m, i), a, RenamedId(a)) == Out(s, n, i)
    ensures m <= n && forall q <- n - m :: i <= q < |s| && StartsWith(Out(s, m, q), a)
    ensures i < |s| && !Marked(s, m, i) && StartsWith(Out(s, m, i), a) ==> i in n && IsLegacyId(s[i..])
    decreases |s| - i
  {
    hide Out, ReplaceAll, RenamedId, NewPrefix, OldPrefix, IsLegacyId, Opens;
    FirstLetters(a);
    if i == |s| {
      OutAtEnd(s, m);
      NothingReplaced(a, RenamedId(a));
      n := m;
    } else {
      OutUnfold(s, m, i);
      if Marked(s, m, i) {
        var next := i + |OldPrefix(s[i..])|;
        n := ReplaceMarks(s, m, a, next);
        NewPrefixesHideNone(a, s[i..]);
        ReplaceSkips(NewPrefix(s[i..]), Out(s, m, next), a, RenamedId(a));
        OutUnfold(s, n, i);
      } else if StartsWith(Out(s, m, i), a) {
        var p, j, h := ReplacedPlace(s, m, a, i);
        var later := ReplaceMarks(s, m, a, j);
        n := later + {i};
        ReplacedHere(s, m, later, a, i, p, j, h);
        forall q <- n - m ensures i <= q < |s| && StartsWith(Out(s, m, q), a) {
          assert q == i || q in later - m;
        }
      } else {
        n := ReplaceMarks(s, m, a, i + 1);
        NotReplaced(Out(s, m, i), a, RenamedId(a), s[i], Out(s, m, i + 1));
        OutUnfold(s, n, i);
        StaysUnmarked(s, m, n, i);
      }
    }
  }

  lemma StaysUnmarked(s: string, m: Marks, n: Marks, i: nat)
    requires i < |s| && !Marked(s, m, i) && forall q <- n - m :: q > i
    ensures !Marked(s, n, i)
  {
    assert i in n && i !in m ==> i in n - m;
  }

  /** An occurrence of `a` at an unmarked place: its prefix ends at `p`, and the stretch `h` behind
      it that takes in the rest of `a` ends at `j`. */
  lemma ReplacedPlace(s: string, m: Marks, a: string, i: nat) returns (p: nat, j: nat, h: string)
    requires IsLegacyId(a) && i < |s| && !Marked(s, m, i) && StartsWith(Out(s, m, i), a)
    ensures p == i + |OldPrefix(a)| && i < p <= j <= |s| && StartsWith(s[i..], OldPrefix(a))
    ensures var w := a[|OldPrefix(a)|..];
      && j == CutEnd(s, m, p, |w|) && h == CutText(s, m, p, |w|)
      && |w| <= |h| && h[..|w|] == w && NoneOpens(h[|w|..])
      && Out(s, m, i) == a + (h[|w|..] + Out(s, m, j))
  {
    hide Out, RenamedId, NewPrefix, OldPrefix, IsLegacyId, Opens;
    var o := OldPrefix(a);
    var w := a[|o|..];
    PrefixIsSome(a);
    Parts(a);
    var t := Out(s, m, i);
    assert StartsWith(t, o) by { assert t[..|o|] == t[..|a|][..|o|]; }
    PrefixThrough(s, m, i, a, |o|);
    assert o[..|o|] == o;
    p := i + |o|;
    var t' := Out(s, m, p);
    assert t == o + t';
    assert StartsWith(t', w) by { assert t'[..|w|] == t[..|a|][|o|..]; }
    j, h := CutEnd(s, m, p, |w|), CutText(s, m, p, |w|);
    CutSame(s, m, m, p, |w|);
    CutLength(s, m, p, |w|);
    assert h[..|w|] == t'[..|w|] == w;
    assert h == w + h[|w|..];
    assert s[i..][..|o|] == s[i..i + |o|];
    assert o + (w + h[|w|..] + Out(s, m, j)) == o + w + (h[|w|..] + Out(s, m, j));
  }

  lemma ReplacedHere(
    s: string, m: Marks, later: Marks, a: string, i: nat, p: nat, j: nat, h: string)
    requires IsLegacyId(a) && i < |s| && !Marked(s, m, i) && StartsWith(s[i..], OldPrefix(a))
    requires p == i + |OldPrefix(a)| && i < p <= j <= |s|
    requires var w := a[|OldPrefix(a)|..];
      && j == CutEnd(s, m, p, |w|) && h == CutText(s, m, p, |w|)
      && |w| <= |h| && h[..|w|] == w && NoneOpens(h[|w|..])
      && Out(s, m, i) == a + (h[|w|..] + Out(s, m, j))
    requires ReplaceAll(Out(s, m, j), a, RenamedId(a)) == Out(s, later, j)
    requires m <= later && forall q <- later - m :: j <= q < |s| && StartsWith(Out(s, m, q), a)
    ensures ReplaceAll(Out(s, m, i), a, RenamedId(a)) == Out(s, later + {i}, i)
    ensures IsLegacyId(s[i..])
  {
    hide Out, ReplaceAll, RenamedId, NewPrefix, Opens, CutEnd, CutText, NoneOpens;
    var o := OldPrefix(a);
    var w := a[|o|..];
    var z := h[|w|..];
    LegacyByPrefix(a, s[i..]);
    Parts(a);
    hide OldPrefix, IsLegacyId;
    ReplacedText(a, z, Out(s, m, j));
    forall q <- later - m ensures j <= q {
    }
    MarkedText(s, m, later, a, i, p, j, h, z);
    assert h == w + z;
    Regrouped4(NewPrefix(a), w, z, Out(s, later, j));
  }

  lemma Regrouped4(q: string, w: string, z: string, r: string)
    ensures q + (w + z + r) == q + w + (z + r)
  {
  }

  lemma ReplacedText(a: string, z: string, rest: string)
    requires IsLegacyId(a) && NoneOpens(z)
    ensures ReplaceAll(a + (z + rest), a, RenamedId(a)) == RenamedId(a) + (z + ReplaceAll(rest, a, RenamedId(a)))
  {
    hide ReplaceAll, RenamedId, NewPrefix, Opens;
    FirstLetters(a);
    ReplaceHead(z + rest, a, RenamedId(a));
    WithoutFirst(z, a);
    ReplaceSkips(z, rest, a, RenamedId(a));
  }

  lemma MarkedText(s: string, m: Marks, later: Marks, a: string, i: nat, p: nat, j: nat, h: string, z: string)
    requires i < |s| && IsLegacyId(s[i..]) && OldPrefix(s[i..]) == OldPrefix(a) && NewPrefix(s[i..]) == NewPrefix(a)
    requires p == i + |OldPrefix(a)| && i < p <= j <= |s|
    requires var w := a[|OldPrefix(a)|..]; j == CutEnd(s, m, p, |w|) && h == CutText(s, m, p, |w|)
    requires m <= later && forall q <- later - m :: j <= q
    ensures Out(s, later + {i}, i) == NewPrefix(a) + (h + Out(s, later, j))
  {
    hide Out, NewPrefix, OldPrefix, IsLegacyId;
    var n := later + {i};
    OutUnfold(s, n, i);
    forall q | p <= q < j ensures q in m <==> q in n {
      assert q in later && q !in m ==> q in later - m;
    }
    CutSame(s, m, n, p, |a[|OldPrefix(a)|..]|);
    OutLater(s, n, later, j);
  }

  lemma WithoutFirst(z: string, a: string)
    requires NoneOpens(z) && a != "" && Opens(a[0])
    ensures Without(z, a[0])
  {
  }

  lemma LegacyByPrefix(a: string, t: string)
    requires IsLegacyId(a) && StartsWith(t, OldPrefix(a))
    ensures IsLegacyId(t) && OldPrefix(t) == OldPrefix(a) && NewPrefix(t) == NewPrefix(a)
  {
    var o := OldPrefix(a);
    assert IsLegacyId(o) && OldPrefix(o) == o && NewPrefix(o) == NewPrefix(a) by { PrefixIsItsOwn(a); }
    SamePrefix(o, t);
  }

  lemma PrefixIsItsOwn(a: string)
    requires IsLegacyId(a)
    ensures var o := OldPrefix(a); IsLegacyId(o) && OldPrefix(o) == o && NewPrefix(o) == NewPrefix(a)
  {
    assert "Splitter:"[0] == 'S' && "HierarchicalMerger:"[0] == 'H' && "PDFGenerator:"[0] == 'P';
  }

  // ---- two ids, the longer one first ----

  function Two(x: string, y: string, s: string): string {
    ReplaceAll(ReplaceAll(s, x, RenamedId(x)), y, RenamedId(y))
  }

  /** Two legacy ids neither of which begins the other, in the order of their lengths. */
  ghost predicate IsPair(x: string, y: string) {
    && IsLegacyId(x) && IsLegacyId(y) && |x| >= |y| && x != "" && y != ""
    && !StartsWith(x, y) && !StartsWith(y, x)
  }

  lemma PlacesOfTwo(x: string, y: string, s: string, q: nat)
    requires IsLegacyId(x) && IsLegacyId(y) && q < |s|
    ensures q in Places([x, y], s) <==> StartsWith(s[q..], x) || StartsWith(s[q..], y)
    ensures q in Places([x, y], s) ==> IsLegacyId(s[q..])
  {
    hide IsLegacyId;
    assert x in [x, y] && y in [x, y];
    assert forall id <- [x, y] :: id == x || id == y;
    if StartsWith(s[q..], x) { SamePrefix(x, s[q..]); }
    if StartsWith(s[q..], y) { SamePrefix(y, s[q..]); }
  }

  /** A place that one side renames and the other does not tells them apart. */
  lemma Shows(x: string, y: string, s: string, marks: Marks, q: nat)
    requires q < |s| && IsLegacyId(s[q..]) && (q in marks) != (q in Places([x, y], s))
    ensures OnePass([x, y], s) != Out(s, marks, 0)
  {
    hide Out, OnePass, IsLegacyId, Places;
    assert s[0..] == s;
    OnePassIsOut([x, y], s, 0);
    if q in marks {
      OutDiffers(s, marks, Places([x, y], s), 0, q);
    } else {
      OutDiffers(s, Places([x, y], s), marks, 0, q);
    }
  }

  /** What the two replacements make, as marks. */
  lemma TwoMarks(x: string, y: string, s: string) returns (n: Marks)
    requires IsLegacyId(x) && IsLegacyId(y) && x != ""
    ensures var m := Greedy(s, x, 0);
      && Two(x, y, s) == Out(s, n, 0)
      && m <= n && (forall q <- n - m :: 0 <= q < |s| && StartsWith(Out(s, m, q), y))
      && (s != "" && !Marked(s, m, 0) && StartsWith(Out(s, m, 0), y) ==> 0 in n && IsLegacyId(s[0..]))
  {
    hide Out, IsLegacyId, RenamedId, ReplaceAll;
    assert s[0..] == s;
    GreedyIsReplace(s, x, 0);
    n := ReplaceMarks(s, Greedy(s, x, 0), y, 0);
  }

  /** A mark within the first `n` letters keeps them from being as they were. */
  lemma {:induction false} Spoils(s: string, m: Marks, i: nat, n: nat, q: nat)
    requires i <= q < i + n <= |s| && q in m && IsLegacyId(s[q..])
    ensures !StartsWith(Out(s, m, i), s[i..i + n])
    decreases |s| - i
  {
    hide Out, NewPrefix, OldPrefix, IsLegacyId;
    OutUnfold(s, m, i);
    var t, u := Out(s, m, i), s[i..i + n];
    assert u[0] == s[i];
    if Marked(s, m, i) {
      FirstLetters(s[i..]);
      assert s[i..][0] == s[i];
      HeadOf(NewPrefix(s[i..]), Out(s, m, i + |OldPrefix(s[i..])|));
      FirstLetterTells(t, u);
    } else {
      Spoils(s, m, i + 1, n - 1, q);
      assert u == [s[i]] + s[i + 1..i + 1 + (n - 1)];
      RestTells([s[i]], Out(s, m, i + 1), s[i + 1..i + 1 + (n - 1)]);
    }
  }

  lemma FirstLetterTells(t: string, u: string)
    requires t != "" && u != "" && t[0] != u[0]
    ensures !StartsWith(t, u)
  {
  }

  lemma RestTells(c: string, t: string, u: string)
    ensures StartsWith(c + t, c + u) <==> StartsWith(t, u)
  {
    if |u| <= |t| {
      assert (c + t)[..|c + u|] == c + t[..|u|];
      SameFront(c, t[..|u|], u);
    }
  }

  /** Two occurrences of an id that is apart from itself lie apart. */
  lemma ApartOccur(a: string, s: string, i: nat, j: nat)
    requires Apart(a, a) && i < j <= |s| && StartsWith(s[i..], a) && StartsWith(s[j..], a)
    ensures j >= i + |a|
  {
    var k := j - i;
    assert s[i..][k..] == s[j..];
    if k < |a| {
      TailsApart(a, a, k);
      NotBehind(a, a, s[i..], k);
    }
  }

  // ---- each failing condition has its text ----

  lemma FailsOnItself(x: string, y: string) returns (s: string)
    requires IsPair(x, y) && !Apart(x, x)
    ensures Two(x, y, s) != OnePass([x, y], s)
  {
    hide Out, OnePass, IsLegacyId, RenamedId, ReplaceAll, Greedy;
    var k :| 1 <= k < |x| && (StartsWith(x[k..], x) || StartsWith(x, x[k..]));
    assert StartsWith(x, x[k..]);
    s := x[..k] + x;
    HeadsOwnTail(x, x, k);
    assert s[0..] == s && s[k..] == x;
    var m := Greedy(s, x, 0);
    var n := TwoMarks(x, y, s);
    GreedyHead(s, x, 0);
    assert forall q <- m :: q == 0;
    OutCopies(s, m, k, |s|);
    OutAtEnd(s, m);
    assert Out(s, m, k) == x by { assert s[k..|s|] + "" == x; }
    assert k !in n by { assert k in n ==> k in n - m; }
    PlacesOfTwo(x, y, s, k);
    Shows(x, y, s, n, k);
  }

  lemma HeadsOwnTail(y: string, x: string, k: nat)
    requires k <= |y| && StartsWith(x, y[k..])
    ensures StartsWith(y[..k] + x, y)
  {
    assert (y[..k] + x)[..|y|] == y[..k] + x[..|y| - k] == y[..k] + y[k..] == y;
  }

  lemma FailsOnSecond(x: string, y: string) returns (s: string)
    requires IsPair(x, y) && !Apart(y, y)
    ensures Two(x, y, s) != OnePass([x, y], s)
  {
    hide Out, OnePass, IsLegacyId, RenamedId, ReplaceAll, Greedy;
    var k :| 1 <= k < |y| && (StartsWith(y[k..], y) || StartsWith(y, y[k..]));
    assert StartsWith(y, y[k..]);
    s := y[..k] + y;
    HeadsOwnTail(y, y, k);
    assert s[0..] == s && s[k..] == y;
    PlacesOfTwo(x, y, s, 0);
    PlacesOfTwo(x, y, s, k);
    var m := Greedy(s, x, 0);
    assert forall q <- m :: q <= k;
    NoneAtHead(x, y, s, 0);
    NoneAtHead(x, y, s, k);
    if m == {} {
      GreedyIsReplace(s, x, 0);
      OutCopies(s, {}, 0, |s|);
      OutAtEnd(s, {});
      assert s[0..|s|] + "" == s;
      GreedyIsReplace(s, y, 0);
      GreedyHead(s, y, 0);
      Shows(x, y, s, Greedy(s, y, 0), k);
    } else {
      var q :| q in m;
      var n := TwoMarks(x, y, s);
      SpoiltHead(x, y, s, m, n, q);
    }
  }

  /** Where one of the two stands the other does not. */
  lemma NoneAtHead(x: string, y: string, s: string, i: nat)
    requires IsPair(x, y) && i <= |s| && StartsWith(s[i..], y)
    ensures !StartsWith(s[i..], x)
  {
    hide IsLegacyId;
    if StartsWith(s[i..], x) {
      BothHead(x, y, s[i..]);
    }
  }

  /** The first replacement broke an occurrence of `y` at the head. */
  lemma SpoiltHead(x: string, y: string, s: string, m: Marks, n: Marks, q: nat)
    requires IsPair(x, y) && s != "" && StartsWith(s, y) && IsLegacyId(s[0..])
    requires m == Greedy(s, x, 0) && q in m && q < |y|
    requires m <= n && forall q <- n - m :: 0 <= q < |s| && StartsWith(Out(s, m, q), y)
    ensures OnePass([x, y], s) != Out(s, n, 0)
  {
    hide Out, OnePass, IsLegacyId, Greedy;
    assert s[0..] == s;
    NoneAtHead(x, y, s, 0);
    PlacesOfTwo(x, y, s, q);
    PlacesOfTwo(x, y, s, 0);
    assert 0 !in m;
    Spoils(s, m, 0, |y|, q);
    assert s[0..0 + |y|] == y;
    assert 0 !in n by { assert 0 in n ==> 0 in n - m; }
    Shows(x, y, s, n, 0);
  }

  lemma FailsOnFirst(x: string, y: string) returns (s: string)
    requires IsPair(x, y) && !Apart(y, x)
    ensures Two(x, y, s) != OnePass([x, y], s)
  {
    hide Out, OnePass, IsLegacyId, RenamedId, ReplaceAll, Greedy;
    var k :| 1 <= k < |y| && (StartsWith(y[k..], x) || StartsWith(x, y[k..]));
    assert StartsWith(x, y[k..]);
    s := y[..k] + x;
    HeadsOwnTail(y, x, k);
    assert s[0..] == s && s[k..] == x;
    PlacesOfTwo(x, y, s, 0);
    var q := GreedyCovers(s, x, 0, k);
    var n := TwoMarks(x, y, s);
    SpoiltHead(x, y, s, Greedy(s, x, 0), n, q);
  }

  lemma FailsOnNew(x: string, y: string) returns (s: string)
    requires IsPair(x, y) && Apart(x, x) && !Apart(y, RenamedId(x))
    ensures Two(x, y, s) != OnePass([x, y], s)
  {
    hide Out, OnePass, IsLegacyId, RenamedId, ReplaceAll, Greedy, Apart;
    var k, z := MeetsNew(x, y);
    s := y[..k] + x + z;
    var m := Greedy(s, x, 0);
    assert s[k..] == x + z && s[0..] == s && k < |s|;
    OnlyThere(x, s, k, |z|);
    NewText(x, y, s, k, z, m);
    var n := TwoMarks(x, y, s);
    assert 0 !in m;
    assert 0 in n;
    NotAtHead(x, y, s, k);
    PlacesOfTwo(x, y, s, 0);
    Shows(x, y, s, n, 0);
  }

  /** A tail of `y` meets the new form of `x`; `z` is what of `y` lies behind it. */
  lemma MeetsNew(x: string, y: string) returns (k: nat, z: string)
    requires IsPair(x, y) && !Apart(y, RenamedId(x))
    ensures 1 <= k < |y| && |z| < |x| && StartsWith(y[..k] + RenamedId(x) + z, y)
    ensures RenamedId(x) != "" && y[k] == RenamedId(x)[0]
  {
    hide IsLegacyId, RenamedId;
    var r := RenamedId(x);
    FirstLetterChanges(x);
    k :| 1 <= k < |y| && (StartsWith(y[k..], r) || StartsWith(r, y[k..]));
    assert y[k..][0] == y[k];
    if StartsWith(y[k..], r) {
      z := y[k + |r|..];
      CutInThree(y, k, r);
    } else {
      z := "";
      HeadsOwnTail(y, r, k);
      assert y[..k] + r + "" == y[..k] + r;
    }
  }

  lemma CutInThree(y: string, k: nat, r: string)
    requires k <= |y| && StartsWith(y[k..], r)
    ensures y[..k] + r + y[k + |r|..] == y
  {
    assert y[k..][..|r|] == r;
  }

  /** The only occurrence the first replacement takes. */
  lemma OnlyThere(x: string, s: string, k: nat, z: nat)
    requires x != "" && Apart(x, x) && k < |x| && z < |x| && |s| == k + |x| + z && StartsWith(s[k..], x)
    ensures Greedy(s, x, 0) == {k}
  {
    hide Greedy, Apart;
    var m := Greedy(s, x, 0);
    var q := GreedyCovers(s, x, 0, k);
    forall p <- m ensures p == k {
      if p < k {
        ApartOccur(x, s, p, k);
      } else if p > k {
        ApartOccur(x, s, k, p);
      }
    }
  }

  lemma NewText(x: string, y: string, s: string, k: nat, z: string, m: Marks)
    requires IsPair(x, y) && 1 <= k < |y| && s == y[..k] + x + z && m == {k}
    requires StartsWith(y[..k] + RenamedId(x) + z, y)
    ensures StartsWith(Out(s, m, 0), y) && !Marked(s, m, 0)
  {
    hide Out, RenamedId, IsLegacyId;
    assert s[k..] == x + z;
    OutCopies(s, m, 0, k);
    RenameHere(s, x, k, m);
    OutCopies(s, m, k + |x|, |s|);
    OutAtEnd(s, m);
    assert s[k + |x|..|s|] + "" == z && s[0..k] == y[..k];
    assert Out(s, m, 0) == y[..k] + (RenamedId(x) + z) == y[..k] + RenamedId(x) + z;
  }

  /** Before the replacement neither id stood at the head. */
  lemma NotAtHead(x: string, y: string, s: string, k: nat)
    requires IsPair(x, y) && Apart(x, x) && 1 <= k < |y| && k < |s| && StartsWith(s[k..], x)
    requires RenamedId(x) != "" && y[k] == RenamedId(x)[0]
    ensures !StartsWith(s[0..], x) && !StartsWith(s[0..], y)
  {
    hide IsLegacyId, RenamedId, Apart;
    assert s[0..] == s;
    FirstLetterChanges(x);
    assert s[k] == s[k..][0] == x[0];
    LetterTells(s, y, k);
    if StartsWith(s, x) {
      ApartOccur(x, s, 0, k);
    }
  }

  lemma LetterTells(s: string, y: string, k: nat)
    requires k < |s| && k < |y| && s[k] != y[k]
    ensures !StartsWith(s, y)
  {
  }

  // ---- the exact condition ----

  lemma SafeOrderOfTwo(x: string, y: string)
    requires IsLegacyId(x) && IsLegacyId(y)
    ensures SafeOrder([x, y]) <==> Apart(x, x) && Apart(y, y) && Apart(y, x) && Apart(y, RenamedId(x))
  {
    hide IsLegacyId, RenamedId, Apart;
    var o := [x, y];
    assert o[..0] == [] && o[..1] == [x];
    assert o[0] == x && o[1] == y;
    assert forall b <- [x] :: b == x;
    assert x in [x];
    assert MayFollow(o[..0], o[0]) <==> Apart(x, x);
    assert MayFollow(o[..1], o[1]) <==> Apart(y, y) && Apart(y, x) && Apart(y, RenamedId(x));
  }

  lemma TwoIsReplaceIds(x: string, y: string, s: string)
    ensures ReplaceIds(IdMapOf([x, y]), [x, y], s) == Two(x, y, s)
    ensures ReplaceIds(IdMapOf([y, x]), [x, y], s) == Two(x, y, s)
  {
    hide RenamedId, ReplaceAll;
    assert x in [x, y] && y in [x, y] && x in [y, x] && y in [y, x];
    forall m: IdMap | m == IdMapOf([x, y]) || m == IdMapOf([y, x]) ensures ReplaceIds(m, [x, y], s) == Two(x, y, s) {
      assert Mapped(m, x) == RenamedId(x) && Mapped(m, y) == RenamedId(y);
      var t := ReplaceAll(s, x, RenamedId(x));
      assert [x, y][1..] == [y] && [y][1..] == [];
      assert ReplaceIds(m, [y], t) == ReplaceIds(m, [], ReplaceAll(t, y, RenamedId(y)));
    }
  }

  /** The replacements, in the order of the lengths, make the one pass. */
  predicate TwoRight(x: string, y: string, s: string) {
    Two(x, y, s) == OnePass([x, y], s)
  }

  /** So do those of the code. */
  predicate RenamedOnce(a: string, b: string, s: string) {
    ReplaceIds(IdMapOf([a, b]), LongestFirst([a, b]), s) == OnePass([a, b], s)
  }

  /** Two legacy ids neither of which begins the other are renamed once in every edge id, if and
      only if each of them, longest first, may follow those before it. */
  lemma PairIsOnePassIff(x: string, y: string)
    requires IsPair(x, y)
    ensures (forall s :: TwoRight(x, y, s)) <==> SafeOrder([x, y])
  {
    hide IsLegacyId, RenamedId, Apart, SafeOrder, Two, OnePass;
    SafeOrderOfTwo(x, y);
    if SafeOrder([x, y]) {
      forall s ensures TwoRight(x, y, s) {
        TwoIsReplaceIds(x, y, s);
        SafeOrderIsOnePass([x, y], [x, y], s);
      }
    } else {
      var s;
      if !Apart(x, x) {
        s := FailsOnItself(x, y);
      } else if !Apart(y, y) {
        s := FailsOnSecond(x, y);
      } else if !Apart(y, x) {
        s := FailsOnFirst(x, y);
      } else {
        s := FailsOnNew(x, y);
      }
      assert !TwoRight(x, y, s);
    }
  }

  /** The same of the code: the sorted replacements over a canvas with these two legacy ids. */
  lemma EdgeIdsOfTwoIff(a: string, b: string)
    requires IsLegacyId(a) && IsLegacyId(b) && !StartsWith(a, b) && !StartsWith(b, a)
    ensures (forall s :: RenamedOnce(a, b, s)) <==> SafeOrder(LongestFirst([a, b]))
  {
    hide IsLegacyId, RenamedId, SafeOrder, Two, OnePass, ReplaceIds, IdMapOf, LongestFirst;
    FirstLetters(a);
    FirstLetters(b);
    SortedTwo(a, b);
    var x, y := if |a| >= |b| then a else b, if |a| >= |b| then b else a;
    PairIsOnePassIff(x, y);
    assert LongestFirst([a, b]) == [x, y];
    forall s ensures RenamedOnce(a, b, s) <==> TwoRight(x, y, s) {
      TwoIsReplaceIds(x, y, s);
      SamePass([a, b], [x, y], s);
    }
  }

  lemma SortedTwo(a: string, b: string)
    ensures LongestFirst([a, b]) == if |a| >= |b| then [a, b] else [b, a]
  {
    assert [a, b][1..] == [b] && [b][1..] == [];
    assert LongestFirst([b]) == [b];
    assert InsertByLength(a, []) == [a];
  }

  // ---- an overlap that does no harm ----

  const FRONT: string := "HierarchicalMerger:aS"
  const BACK: string := "Splitter:PDo"

  lemma SpelledPair()
    ensures IsLegacyId(FRONT) && IsLegacyId(BACK) && |FRONT| == 21 && |BACK| == 12
    ensures FRONT[20] == 'S' && BACK[0] == 'S' && FRONT[0] == 'H'
    ensures RenamedId(FRONT) != "" && RenamedId(FRONT)[0] == 'T'
    ensures (forall k | 1 <= k < |FRONT| :: FRONT[k] != 'H')
    ensures (forall k | 1 <= k < |BACK| :: BACK[k] != 'H' && BACK[k] != 'S' && BACK[k] != 'T')
  {
    assert "HierarchicalMerger:" == FRONT[..19] && "Splitter:" == BACK[..9];
  }

  lemma ApartByLetter(a: string, b: string)
    requires b != "" && forall k | 1 <= k < |a| :: a[k] != b[0]
    ensures Apart(a, b)
  {
    forall k | 1 <= k < |a| ensures !StartsWith(a[k..], b) && !StartsWith(b, a[k..]) {
      assert a[k..][0] == a[k];
    }
  }

  /** The longer id stands in front, is replaced first and keeps its tail, so the order of the
      code renames both in every text although they overlap in some. */
  lemma HarmlessOverlap()
    ensures SafeOrder(LongestFirst([FRONT, BACK])) && !EdgeSafe([FRONT, BACK])
    ensures forall s :: RenamedOnce(FRONT, BACK, s)
  {
    SpelledPair();
    hide IsLegacyId, RenamedId, SafeOrder, RenamedOnce, LongestFirst;
    SortedTwo(FRONT, BACK);
    ApartByLetter(FRONT, FRONT);
    ApartByLetter(BACK, BACK);
    ApartByLetter(BACK, FRONT);
    ApartByLetter(BACK, RenamedId(FRONT));
    SafeOrderOfTwo(FRONT, BACK);
    assert !Apart(FRONT, BACK) by {
      assert FRONT[20..] == [FRONT[20]] && StartsWith(BACK, FRONT[20..]);
    }
    assert FRONT in [FRONT, BACK] && BACK in [FRONT, BACK];
    LetterTells(FRONT, BACK, 0);
    LetterTells(BACK, FRONT, 0);
    EdgeIdsOfTwoIff(FRONT, BACK);
  }
}
