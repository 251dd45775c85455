/** Strings as the filter code sees them: lower-casing, replacement, trimming and the
    three ways one text can sit inside another. Lower-casing is ASCII only. */
module Text {
  function LowerChar(c: char): char {
    if 'A' <= c <= 'Z' then (c as int + 32) as char else c
  }

  function Lower(s: string): (r: string)
    ensures |r| == |s|
    ensures forall i :: 0 <= i < |s| ==> r[i] == LowerChar(s[i])
  {
    seq(|s|, i requires 0 <= i < |s| => LowerChar(s[i]))
  }

  /** `s.replace(c, r)` for a one-character needle. */
  function ReplaceChar(s: string, c: char, r: string): string {
    if s == "" then "" else (if s[0] == c then r else [s[0]]) + ReplaceChar(s[1..], c, r)
  }

  /** ASCII white space: blank, tab to carriage return, and the four separators. */
  predicate IsSpace(c: char) {
    c == ' ' || 9 <= c as int <= 13 || 28 <= c as int <= 31
  }

  function StripLeft(s: string): string {
    if s != "" && IsSpace(s[0]) then StripLeft(s[1..]) else s
  }

  function StripRight(s: string): string {
    if s != "" && IsSpace(s[|s| - 1]) then StripRight(s[..|s| - 1]) else s
  }

  /** `s.strip()` */
  function Strip(s: string): string {
    StripRight(StripLeft(s))
  }

  predicate Trimmed(s: string) {
    s == "" || (!IsSpace(s[0]) && !IsSpace(s[|s| - 1]))
  }

  predicate OccursAt(t: string, x: string, i: int) {
    0 <= i <= |x| - |t| && x[i..i + |t|] == t
  }

  /** `x.find(t) >= 0` */
  predicate Occurs(t: string, x: string) {
    exists i | 0 <= i <= |x| :: OccursAt(t, x, i)
  }

  /** `x.startswith(t)` */
  predicate StartsWith(x: string, t: string) {
    t <= x
  }

  /** `x.endswith(t)` */
  predicate EndsWith(x: string, t: string) {
    OccursAt(t, x, |x| - |t|)
  }

  lemma LowerIdempotent(s: string)
    ensures Lower(Lower(s)) == Lower(s)
  {
  }

  lemma {:induction false} ReplaceCharConcat(a: string, b: string, c: char, r: string)
    ensures ReplaceChar(a + b, c, r) == ReplaceChar(a, c, r) + ReplaceChar(b, c, r)
  {
    if a == "" {
      assert a + b == b;
    } else {
      assert (a + b)[1..] == a[1..] + b;
      ReplaceCharConcat(a[1..], b, c, r);
    }
  }

  lemma StripTrimmed(s: string)
    requires Trimmed(s)
    ensures Strip(s) == s
  {
  }

  // ---- what trimming leaves ----

  predicate AllSpace(s: string) {
    forall i | 0 <= i < |s| :: IsSpace(s[i])
  }

  /** `t` is `s` without the white space at its ends. */
  ghost predicate IsTrimOf(t: string, s: string) {
    Trimmed(t) && exists i, j | 0 <= i <= j <= |s| :: t == s[i..j] && AllSpace(s[..i]) && AllSpace(s[j..])
  }

  lemma {:induction false} StripLeftCuts(s: string) returns (i: nat)
    ensures i <= |s| && StripLeft(s) == s[i..] && AllSpace(s[..i]) && (i < |s| ==> !IsSpace(s[i]))
  {
    if s != "" && IsSpace(s[0]) {
      var k := StripLeftCuts(s[1..]);
      i := k + 1;
      assert s[..i] == [s[0]] + s[1..][..k];
    } else {
      i := 0;
    }
  }

  lemma {:induction false} StripRightCuts(s: string) returns (j: nat)
    ensures j <= |s| && StripRight(s) == s[..j] && AllSpace(s[j..]) && (j > 0 ==> !IsSpace(s[j - 1]))
  {
    if s != "" && IsSpace(s[|s| - 1]) {
      j := StripRightCuts(s[..|s| - 1]);
      assert s[j..] == s[..|s| - 1][j..] + [s[|s| - 1]];
    } else {
      j := |s|;
    }
  }

  /** `strip` trims, and leaves nothing else trimmed. */
  lemma StripIs(s: string, t: string)
    ensures IsTrimOf(t, s) <==> t == Strip(s)
  {
    hide StripLeft, StripRight;
    var i := StripLeftCuts(s);
    assert i < |s| ==> s[i..][0] == s[i];
    var k := StripRightCuts(s[i..]);
    var j := i + k;
    assert s[i..][..k] == s[i..j] && s[i..][k..] == s[j..];
    assert Strip(s) == s[i..j];
    if k == 0 {
      assert s[i..][0..] == s[i..];
    } else {
      assert s[i..][0] == s[i] && s[i..][k - 1] == s[j - 1];
    }
    assert IsTrimOf(Strip(s), s);
    if IsTrimOf(t, s) {
      var p, q :| 0 <= p <= q <= |s| && t == s[p..q] && AllSpace(s[..p]) && AllSpace(s[q..]);
      SameTrim(s, i, j, p, q);
    }
  }

  lemma SameTrim(s: string, i: nat, j: nat, p: nat, q: nat)
    requires i <= j <= |s| && p <= q <= |s|
    requires AllSpace(s[..i]) && AllSpace(s[j..]) && AllSpace(s[..p]) && AllSpace(s[q..])
    requires Trimmed(s[i..j]) && Trimmed(s[p..q])
    ensures s[i..j] == s[p..q]
  {
    EndsAreSpace(s, i, j);
    EndsAreSpace(s, p, q);
    if i < j || p < q {
      assert i < j ==> s[i..j][0] == s[i] && s[i..j][j - i - 1] == s[j - 1];
      assert p < q ==> s[p..q][0] == s[p] && s[p..q][q - p - 1] == s[q - 1];
      assert i < j && p < q;
      assert i == p && j == q;
    }
  }

  lemma EndsAreSpace(s: string, i: nat, j: nat)
    requires i <= j <= |s| && AllSpace(s[..i]) && AllSpace(s[j..])
    ensures forall k | 0 <= k < |s| && (k < i || j <= k) :: IsSpace(s[k])
  {
    forall k | 0 <= k < |s| && (k < i || j <= k) ensures IsSpace(s[k]) {
      assert if k < i then s[..i][k] == s[k] else s[j..][k - j] == s[k];
    }
  }

  // ---- letters in either case ----

  const UPPER_CASE: string := "ABCDEFGHIJKLMNOPQRSTUVWXYZ"
  const LOWER_CASE: string := "abcdefghijklmnopqrstuvwxyz"

  /** The same character, but for the case of a letter. */
  predicate SameLetter(c: char, d: char) {
    c == d || exists k | 0 <= k < 26 :: (c == UPPER_CASE[k] || c == LOWER_CASE[k]) && (d == UPPER_CASE[k] || d == LOWER_CASE[k])
  }

  /** The same text, but for the case of its letters. */
  predicate SameLetters(a: string, b: string) {
    |a| == |b| && forall i | 0 <= i < |a| :: SameLetter(a[i], b[i])
  }

  lemma Alphabet()
    ensures |UPPER_CASE| == |LOWER_CASE| == 26
    ensures forall k | 0 <= k < 26 :: UPPER_CASE[k] as int == 65 + k && LOWER_CASE[k] as int == 97 + k
  {
  }

  lemma LowerCharIs(c: char, d: char)
    ensures LowerChar(c) == LowerChar(d) <==> SameLetter(c, d)
  {
    hide UPPER_CASE, LOWER_CASE;
    Alphabet();
    if LowerChar(c) == LowerChar(d) && c != d {
      var k := (LowerChar(c) as int) - 97;
      assert 0 <= k < 26 && LowerChar(c) == LOWER_CASE[k];
      assert c == UPPER_CASE[k] || c == LOWER_CASE[k];
      assert d == UPPER_CASE[k] || d == LOWER_CASE[k];
    }
  }

  /** Texts that are lower-cased alike are the same but for case. */
  lemma LowerIs(a: string, b: string)
    ensures Lower(a) == Lower(b) <==> SameLetters(a, b)
  {
    hide SameLetter, LowerChar;
    if |a| == |b| {
      forall i | 0 <= i < |a| ensures Lower(a)[i] == Lower(b)[i] <==> SameLetter(a[i], b[i]) {
        LowerCharIs(a[i], b[i]);
      }
      assert Lower(a) == Lower(b) <==> forall i | 0 <= i < |a| :: Lower(a)[i] == Lower(b)[i];
    }
  }
}
