/** Wildcard patterns with an escape character: the Elasticsearch wildcard query and the
    SQL LIKE predicate differ only in their special characters and in how they take a stray
    escape character. */
module Wildcards {
  import opened Text

  /** `lenient`: an escape character before an ordinary character quotes it and a trailing
      one stands for itself (Lucene); otherwise both are malformed and match nothing
      (section 8.5 of ISO/IEC 9075:1992). */
  datatype Dialect = Dialect(many: char, one: char, escape: char, lenient: bool, ignoreCase: bool)

  predicate Distinct(d: Dialect) {
    d.many != d.one && d.many != d.escape && d.one != d.escape
  }

  const ES_WILDCARD := Dialect('*', '?', '\\', true, true)
  const SQL_LIKE := Dialect('%', '_', '\\', false, false)

  function Fold(d: Dialect, s: string): (r: string)
    ensures |r| == |s|
  {
    if d.ignoreCase then Lower(s) else s
  }

  predicate SameChar(d: Dialect, a: char, b: char) {
    a == b || (d.ignoreCase && LowerChar(a) == LowerChar(b))
  }

  predicate IsSpecial(d: Dialect, c: char) {
    c == d.many || c == d.one || c == d.escape
  }

  /** Does text `x` match pattern `p`? */
  predicate Matches(d: Dialect, p: string, x: string)
    decreases |p| + |x|
  {
    if p == "" then x == ""
    else if p[0] == d.many then
      Matches(d, p[1..], x) || (x != "" && Matches(d, p, x[1..]))
    else if x == "" then
      false
    else if p[0] == d.one then
      Matches(d, p[1..], x[1..])
    else if p[0] == d.escape && |p| >= 2 && (d.lenient || IsSpecial(d, p[1])) then
      SameChar(d, p[1], x[0]) && Matches(d, p[2..], x[1..])
    else if p[0] == d.escape && (|p| >= 2 || !d.lenient) then
      false
    else
      SameChar(d, p[0], x[0]) && Matches(d, p[1..], x[1..])
  }

  /** The three chained `replace` calls of both filter modules: escape character first. */
  function Escape(d: Dialect, t: string): string {
    ReplaceChar(ReplaceChar(ReplaceChar(t, d.escape, [d.escape, d.escape]),
                            d.many, [d.escape, d.many]),
                d.one, [d.escape, d.one])
  }

  /** Reference definition: quote each special character where it stands. */
  function EscapeEach(d: Dialect, t: string): string {
    if t == "" then ""
    else (if IsSpecial(d, t[0]) then [d.escape, t[0]] else [t[0]]) + EscapeEach(d, t[1..])
  }

  /** Doing the three replacements one after the other never re-escapes what an earlier one
      inserted. */
  lemma {:induction false} EscapeIsPerCharacter(d: Dialect, t: string)
    requires Distinct(d)
    ensures Escape(d, t) == EscapeEach(d, t)
  {
    if t != "" {
      EscapeIsPerCharacter(d, t[1..]);
      var h := [t[0]];
      assert t == h + t[1..];
      EscapeConcat(d, h, t[1..]);
      EscapeOne(d, t[0]);
    }
  }

  lemma EscapeConcat(d: Dialect, a: string, b: string)
    ensures Escape(d, a + b) == Escape(d, a) + Escape(d, b)
  {
    var e, m, o := [d.escape, d.escape], [d.escape, d.many], [d.escape, d.one];
    ReplaceCharConcat(a, b, d.escape, e);
    var a1, b1 := ReplaceChar(a, d.escape, e), ReplaceChar(b, d.escape, e);
    ReplaceCharConcat(a1, b1, d.many, m);
    ReplaceCharConcat(ReplaceChar(a1, d.many, m), ReplaceChar(b1, d.many, m), d.one, o);
  }

  lemma ReplaceOne(a: char, c: char, r: string)
    ensures ReplaceChar([a], c, r) == if a == c then r else [a]
  {
    assert [a][1..] == "";
  }

  lemma ReplaceTwo(a: char, b: char, c: char, r: string)
    ensures ReplaceChar([a, b], c, r)
         == (if a == c then r else [a]) + (if b == c then r else [b])
  {
    assert [a, b] == [a] + [b];
    ReplaceCharConcat([a], [b], c, r);
    ReplaceOne(a, c, r);
    ReplaceOne(b, c, r);
  }

  lemma EscapeOne(d: Dialect, c: char)
    requires Distinct(d)
    ensures Escape(d, [c]) == if IsSpecial(d, c) then [d.escape, c] else [c]
  {
    ReplaceOne(c, d.escape, [d.escape, d.escape]);
    ReplaceTwo(d.escape, d.escape, d.many, [d.escape, d.many]);
    ReplaceTwo(d.escape, d.escape, d.one, [d.escape, d.one]);
    ReplaceOne(c, d.many, [d.escape, d.many]);
    ReplaceTwo(d.escape, d.many, d.one, [d.escape, d.one]);
    ReplaceOne(c, d.one, [d.escape, d.one]);
  }

  /** An escaped text followed by any pattern consumes exactly that text. */
  lemma {:induction false} EscapedTextIsLiteral(d: Dialect, t: string, q: string, x: string)
    requires Distinct(d)
    ensures Matches(d, EscapeEach(d, t) + q, x)
       <==> (|t| <= |x| && Fold(d, x[..|t|]) == Fold(d, t) && Matches(d, q, x[|t|..]))
  {
    var p := EscapeEach(d, t) + q;
    if t == "" {
      assert p == q && x[0..] == x;
    } else {
      var rest := EscapeEach(d, t[1..]) + q;
      var width := if IsSpecial(d, t[0]) then 2 else 1;
      assert p[width..] == rest;
      assert p[width - 1] == t[0];
      if x != "" {
        EscapedTextIsLiteral(d, t[1..], q, x[1..]);
        FoldCons(d, t, x);
        if |t| <= |x| {
          assert x[1..][|t| - 1..] == x[|t|..];
        }
      }
    }
  }

  lemma FoldCons(d: Dialect, t: string, x: string)
    requires t != "" && x != ""
    ensures |t| <= |x| ==>
      (Fold(d, x[..|t|]) == Fold(d, t)
       <==> SameChar(d, t[0], x[0]) && Fold(d, x[1..][..|t| - 1]) == Fold(d, t[1..]))
  {
    if |t| <= |x| {
      var a, b := Fold(d, x[..|t|]), Fold(d, t);
      var a', b' := Fold(d, x[1..][..|t| - 1]), Fold(d, t[1..]);
      assert a[1..] == a' && b[1..] == b';
      assert a == [a[0]] + a' && b == [b[0]] + b';
    }
  }

  /** A leading "many" may swallow any prefix. */
  lemma {:induction false} ManySkipsPrefix(d: Dialect, q: string, x: string)
    ensures Matches(d, [d.many] + q, x) <==> exists k | 0 <= k <= |x| :: Matches(d, q, x[k..])
    decreases |x|
  {
    var p := [d.many] + q;
    assert p[1..] == q && x[0..] == x;
    if x != "" {
      ManySkipsPrefix(d, q, x[1..]);
      forall k | 0 <= k <= |x| - 1 ensures x[1..][k..] == x[k + 1..] {
      }
      if Matches(d, p, x[1..]) {
        var k :| 0 <= k <= |x[1..]| && Matches(d, q, x[1..][k..]);
        assert Matches(d, q, x[k + 1..]);
      }
      if k :| 1 <= k <= |x| && Matches(d, q, x[k..]) {
        assert x[1..][k - 1..] == x[k..];
      }
    } else {
      assert forall k | 0 <= k <= |x| :: x[k..] == x;
    }
  }

  lemma ManyAloneMatchesAll(d: Dialect, x: string)
    ensures Matches(d, [d.many], x)
  {
    ManySkipsPrefix(d, "", x);
    assert [d.many] + "" == [d.many];
    assert x[|x|..] == "";
  }

  /** `*esc(t)*` matches x iff t occurs in x. */
  lemma ContainsPatternExact(d: Dialect, t: string, x: string)
    requires Distinct(d)
    ensures Matches(d, [d.many] + Escape(d, t) + [d.many], x) <==> Occurs(Fold(d, t), Fold(d, x))
  {
    EscapeIsPerCharacter(d, t);
    var q := EscapeEach(d, t) + [d.many];
    assert [d.many] + Escape(d, t) + [d.many] == [d.many] + q;
    ManySkipsPrefix(d, q, x);
    hide Matches, Escape, EscapeEach;
    forall k | 0 <= k <= |x|
      ensures Matches(d, q, x[k..]) <==> OccursAt(Fold(d, t), Fold(d, x), k)
    {
      EscapedTextIsLiteral(d, t, [d.many], x[k..]);
      if |t| <= |x| - k {
        ManyAloneMatchesAll(d, x[k..][|t|..]);
        assert x[k..][..|t|] == x[k..k + |t|];
        assert Fold(d, x)[k..k + |t|] == Fold(d, x[k..k + |t|]);
      }
    }
  }

  /** `*esc(t)` matches x iff t is a suffix of x. */
  lemma SuffixPatternExact(d: Dialect, t: string, x: string)
    requires Distinct(d)
    ensures Matches(d, [d.many] + Escape(d, t), x) <==> EndsWith(Fold(d, x), Fold(d, t))
  {
    EscapeIsPerCharacter(d, t);
    hide Matches, Escape, EscapeEach, Fold;
    var q := EscapeEach(d, t) + "";
    assert [d.many] + Escape(d, t) == [d.many] + q;
    ManySkipsPrefix(d, q, x);
    forall k | 0 <= k <= |x|
      ensures Matches(d, q, x[k..]) <==> (k == |x| - |t| && OccursAt(Fold(d, t), Fold(d, x), k))
    {
      TailMatches(d, t, x, k);
    }
    FoldLength(d, x);
    FoldLength(d, t);
  }

  lemma FoldLength(d: Dialect, s: string)
    ensures |Fold(d, s)| == |s|
  {
  }

  lemma TailMatches(d: Dialect, t: string, x: string, k: nat)
    requires Distinct(d) && k <= |x|
    ensures Matches(d, EscapeEach(d, t) + "", x[k..])
       <==> (k == |x| - |t| && OccursAt(Fold(d, t), Fold(d, x), k))
  {
    EscapedTextIsLiteral(d, t, "", x[k..]);
    if |t| <= |x| - k {
      assert x[k..][..|t|] == x[k..k + |t|];
      assert Fold(d, x)[k..k + |t|] == Fold(d, x[k..k + |t|]);
    }
  }

  /** `esc(t)%` matches x iff x starts with t. */
  lemma PrefixPatternExact(d: Dialect, t: string, x: string)
    requires Distinct(d)
    ensures Matches(d, Escape(d, t) + [d.many], x) <==> StartsWith(Fold(d, x), Fold(d, t))
  {
    EscapeIsPerCharacter(d, t);
    EscapedTextIsLiteral(d, t, [d.many], x);
    if |t| <= |x| {
      ManyAloneMatchesAll(d, x[|t|..]);
      assert Fold(d, x)[..|t|] == Fold(d, x[..|t|]);
    }
  }
}
