/** Splitting a text at a character, and the member list of a comma-separated text. */
module CommaLists {
  import opened Text
  import opened PyValues

  /** `s.split(c)` */
  function SplitOn(s: string, c: char): (parts: seq<string>)
    ensures parts != []
  {
    if s == "" then [""]
    else
      var rest := SplitOn(s[1..], c);
      if s[0] == c then [""] + rest else [[s[0]] + rest[0]] + rest[1..]
  }

  function NonEmptyStripped(parts: seq<string>): seq<Value> {
    if parts == [] then []
    else
      var p := Strip(parts[0]);
      (if p == "" then [] else [Str(p)]) + NonEmptyStripped(parts[1..])
  }

  // ---- where the parts stand ----

  /** A stretch of `s` between neighbouring `c`s, or a `c` and an end. */
  predicate IsSegment(s: string, c: char, i: nat, j: nat) {
    && i <= j <= |s| && (forall k | i <= k < j :: s[k] != c)
    && (i == 0 || s[i - 1] == c) && (j == |s| || s[j] == c)
  }

  /** The part stands at the segment `cut`. */
  predicate CutAt(s: string, c: char, part: string, cut: (nat, nat)) {
    IsSegment(s, c, cut.0, cut.1) && part == s[cut.0..cut.1]
  }

  /** `cuts` are segments, one behind the other from end to end, and `parts` the texts in them. */
  ghost predicate AreCuts(s: string, c: char, parts: seq<string>, cuts: seq<(nat, nat)>) {
    && |cuts| == |parts| > 0 && cuts[0].0 == 0 && cuts[|cuts| - 1].1 == |s|
    && (forall k | 0 <= k < |cuts| :: CutAt(s, c, parts[k], cuts[k]))
    && (forall k | 0 < k < |cuts| :: cuts[k].0 == cuts[k - 1].1 + 1)
  }

  /** A segment moves with a character put in front, if the text before it still ends in `c`. */
  lemma CutBehind(x: char, s: string, c: char, part: string, cut: (nat, nat))
    requires CutAt(s, c, part, cut) && (cut.0 == 0 ==> x == c)
    ensures CutAt([x] + s, c, part, (cut.0 + 1, cut.1 + 1))
  {
    var t, i, j := [x] + s, cut.0, cut.1;
    forall k | i + 1 <= k < j + 1 ensures t[k] != c {
      assert t[k] == s[k - 1];
    }
    assert i > 0 ==> t[i] == s[i - 1];
    assert j < |s| ==> t[j + 1] == s[j];
    assert t[i + 1..j + 1] == s[i..j];
  }

  lemma LongerHead(x: char, s: string, c: char, part: string, cut: (nat, nat))
    requires x != c && CutAt(s, c, part, cut) && cut.0 == 0
    ensures CutAt([x] + s, c, [x] + part, (0, cut.1 + 1))
  {
    var t := [x] + s;
    forall k | 0 <= k < cut.1 + 1 ensures t[k] != c {
      assert k > 0 ==> t[k] == s[k - 1];
    }
    assert cut.1 < |s| ==> t[cut.1 + 1] == s[cut.1];
    assert t[0..cut.1 + 1] == [x] + s[0..cut.1];
  }

  function Shifted(cuts: seq<(nat, nat)>): (r: seq<(nat, nat)>)
    ensures |r| == |cuts| && forall k :: 0 <= k < |r| ==> r[k] == (cuts[k].0 + 1, cuts[k].1 + 1)
  {
    seq(|cuts|, k requires 0 <= k < |cuts| => (cuts[k].0 + 1, cuts[k].1 + 1))
  }

  lemma {:induction false} SplitCuts(s: string, c: char) returns (cuts: seq<(nat, nat)>)
    ensures AreCuts(s, c, SplitOn(s, c), cuts)
    decreases |s|
  {
    if s == "" {
      cuts := [(0, 0)];
    } else {
      var x, rest := s[0], s[1..];
      var parts := SplitOn(rest, c);
      var less := SplitCuts(rest, c);
      assert s == [x] + rest;
      if x == c {
        cuts := [(0, 0)] + Shifted(less);
        SeparatorAhead(rest, c, parts, less, cuts);
      } else {
        cuts := [(0, less[0].1 + 1)] + Shifted(less)[1..];
        LetterAhead(x, rest, c, parts, less, cuts);
      }
    }
  }

  lemma SeparatorAhead(s: string, c: char, parts: seq<string>, less: seq<(nat, nat)>, cuts: seq<(nat, nat)>)
    requires AreCuts(s, c, parts, less) && cuts == [(0, 0)] + Shifted(less)
    ensures AreCuts([c] + s, c, [""] + parts, cuts)
  {
    EmptyCut(s, c);
    hide CutAt;
    var all := [""] + parts;
    forall k | 0 <= k < |cuts| ensures CutAt([c] + s, c, all[k], cuts[k]) {
      if k > 0 {
        CutBehind(c, s, c, parts[k - 1], less[k - 1]);
        assert cuts[k] == (less[k - 1].0 + 1, less[k - 1].1 + 1);
      }
    }
    forall k | 0 < k < |cuts| ensures cuts[k].0 == cuts[k - 1].1 + 1 {
      assert k > 1 ==> less[k - 1].0 == less[k - 2].1 + 1;
    }
  }

  lemma EmptyCut(s: string, c: char)
    ensures CutAt([c] + s, c, "", (0, 0))
  {
  }

  lemma LetterAhead(x: char, s: string, c: char, parts: seq<string>, less: seq<(nat, nat)>, cuts: seq<(nat, nat)>)
    requires x != c && AreCuts(s, c, parts, less)
    requires cuts == [(0, less[0].1 + 1)] + Shifted(less)[1..]
    ensures AreCuts([x] + s, c, [[x] + parts[0]] + parts[1..], cuts)
  {
    hide CutAt;
    LongerHead(x, s, c, parts[0], less[0]);
    var all := [[x] + parts[0]] + parts[1..];
    forall k | 0 <= k < |cuts| ensures CutAt([x] + s, c, all[k], cuts[k]) {
      if k > 0 {
        assert less[k].0 == less[k - 1].1 + 1;
        CutBehind(x, s, c, parts[k], less[k]);
      }
    }
    forall k | 0 < k < |cuts| ensures cuts[k].0 == cuts[k - 1].1 + 1 {
    }
  }

  /** There are no other segments. */
  lemma {:induction false} CutsAreAll(s: string, c: char, parts: seq<string>, cuts: seq<(nat, nat)>, n: nat, i: nat, j: nat)
    requires AreCuts(s, c, parts, cuts) && IsSegment(s, c, i, j) && n < |cuts| && cuts[n].0 <= i
    ensures (i, j) in cuts
    decreases |cuts| - n
  {
    assert CutAt(s, c, parts[n], cuts[n]);
    if i == cuts[n].0 {
      assert j == cuts[n].1;
    } else {
      assert i > cuts[n].1;
      CutsAreAll(s, c, parts, cuts, n + 1, i, j);
    }
  }

  // ---- the members ----

  /** A segment between commas with more than white space in it. */
  predicate IsFilled(s: string, i: nat, j: nat) {
    IsSegment(s, ',', i, j) && Strip(s[i..j]) != ""
  }

  /** The member is what a filled segment holds, trimmed. */
  predicate MemberAt(s: string, place: (nat, nat), v: Value) {
    IsFilled(s, place.0, place.1) && v == Str(Strip(s[place.0..place.1]))
  }

  /** The members are the trimmed filled segments: one each, in order, none missing. */
  ghost predicate ListsSegments(s: string, places: seq<(nat, nat)>, members: seq<Value>) {
    && |members| == |places|
    && (forall k | 0 <= k < |places| :: MemberAt(s, places[k], members[k]))
    && (forall k, l | 0 <= k < l < |places| :: places[k].1 < places[l].0)
    && (forall i: nat, j: nat | IsFilled(s, i, j) :: (i, j) in places)
  }

  /** The filled ones among the cuts from `n` on, and their members. */
  ghost predicate FilledSince(s: string, cuts: seq<(nat, nat)>, n: nat, places: seq<(nat, nat)>, members: seq<Value>)
    requires n <= |cuts|
  {
    && |members| == |places|
    && (forall k | 0 <= k < |places| :: MemberAt(s, places[k], members[k]))
    && (forall k, l | 0 <= k < l < |places| :: places[k].1 < places[l].0)
    && (forall k | n <= k < |cuts| && IsFilled(s, cuts[k].0, cuts[k].1) :: cuts[k] in places)
    && (if n < |cuts| then forall p <- places :: cuts[n].0 <= p.0 else places == [])
  }

  lemma {:induction false} FilledFrom(s: string, parts: seq<string>, cuts: seq<(nat, nat)>, n: nat)
    returns (places: seq<(nat, nat)>)
    requires AreCuts(s, ',', parts, cuts) && n <= |cuts|
    ensures FilledSince(s, cuts, n, places, NonEmptyStripped(parts[n..]))
    decreases |cuts| - n
  {
    hide Strip, CutAt, FilledSince, MemberAt;
    if n == |cuts| {
      places := [];
      assert FilledSince(s, cuts, n, [], []) by { NoneFilled(s, cuts); }
    } else {
      assert parts[n..][0] == parts[n] && parts[n..][1..] == parts[n + 1..];
      var rest := FilledFrom(s, parts, cuts, n + 1);
      places := if Strip(parts[n]) == "" then rest else [cuts[n]] + rest;
      var members := NonEmptyStripped(parts[n + 1..]);
      FilledCons(s, parts[n], cuts, n, rest, members);
      assert [] + members == members;
    }
  }

  lemma NoneFilled(s: string, cuts: seq<(nat, nat)>)
    ensures FilledSince(s, cuts, |cuts|, [], [])
  {
  }

  lemma FilledCons(s: string, part: string, cuts: seq<(nat, nat)>, n: nat, places: seq<(nat, nat)>, members: seq<Value>)
    requires n < |cuts| && CutAt(s, ',', part, cuts[n])
    requires n + 1 < |cuts| ==> cuts[n + 1].0 == cuts[n].1 + 1
    requires FilledSince(s, cuts, n + 1, places, members)
    ensures if Strip(part) == "" then FilledSince(s, cuts, n, places, members)
            else FilledSince(s, cuts, n, [cuts[n]] + places, [Str(Strip(part))] + members)
  {
    hide Strip;
    SegmentOrder(s, ',', cuts[n].0, cuts[n].1);
    var more := [cuts[n]] + places;
    if Strip(part) != "" {
      assert MemberAt(s, cuts[n], Str(Strip(part)));
      hide MemberAt, IsFilled, CutAt;
      forall k, l | 0 <= k < l < |more| ensures more[k].1 < more[l].0 {
        assert more[l] == places[l - 1] && places[l - 1] in places;
      }
    }
  }

  lemma SegmentOrder(s: string, c: char, i: nat, j: nat)
    requires IsSegment(s, c, i, j)
    ensures i <= j <= |s|
  {
  }

  lemma FilledIsSegment(s: string, i: nat, j: nat)
    requires IsFilled(s, i, j)
    ensures IsSegment(s, ',', i, j)
  {
  }

  /** The member list of a comma-separated text. */
  lemma MembersAreSegments(s: string) returns (places: seq<(nat, nat)>)
    ensures ListsSegments(s, places, NonEmptyStripped(SplitOn(s, ',')))
  {
    hide Strip, IsSegment, SplitOn, IsFilled, CutAt;
    var parts := SplitOn(s, ',');
    var cuts := SplitCuts(s, ',');
    places := FilledFrom(s, parts, cuts, 0);
    assert parts[0..] == parts;
    forall i: nat, j: nat | IsFilled(s, i, j) ensures (i, j) in places {
      FilledIsSegment(s, i, j);
      CutsAreAll(s, ',', parts, cuts, 0, i, j);
      var k :| 0 <= k < |cuts| && cuts[k] == (i, j);
    }
  }
}
