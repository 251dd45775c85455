/** When is it harmless that the bucket loop of `meta_filter` re-binds its query value? */
module Rebinding {
  import opened Text
  import opened PyValues
  import opened MetaFilter

  /** The ways a condition and one bucket text can go together without harm. */
  datatype Kind = TextOperator | DateQuery | TextQuery | NumeralData | TextData

  ghost predicate IsNumeralQuery(py: Python, v: Value) {
    v.Int? || (v.Str? && IsNumeral(py, v.s))
  }

  ghost predicate Fits(py: Python, kind: Kind, op: Op, v: Value, text: string) {
    match kind
    case TextOperator => !IsComparison(op)
    case DateQuery => IsComparison(op) && IsDate(Strip(py.text(v)))
    case TextQuery => IsComparison(op) && v.Str? && IsTextQuery(py, v.s)
    case NumeralData => IsComparison(op) && IsNumeralQuery(py, v)
                        && py.eval(text).Some? && py.eval(text).value.Int?
    case TextData => IsComparison(op) && IsNumeralQuery(py, v) && py.eval(text).None?
  }

  /** The query value can only have been re-bound to this. */
  function Settled(py: Python, kind: Kind, v: Value): Value {
    match kind
    case TextOperator => NormalizeStrings(v)
    case DateQuery => Str(Strip(py.text(v)))
    case TextQuery => Lowered(v)
    case NumeralData =>
      if v.Str? && py.eval(v.s).Some? then py.eval(v.s).value else v
    case TextData => Lowered(v)
  }

  lemma TestSettles(py: Python, kind: Kind, op: Op, v: Value, c: Value, text: string)
    requires Sane(py) && Fits(py, kind, op, v, text)
    requires c == v || c == Settled(py, kind, v)
    ensures Test(py, op, text, c).matched == Test(py, op, text, v).matched
    ensures Test(py, op, text, c).value in {v, Settled(py, kind, v)}
  {
    match kind
    case TextOperator => NormalizeTwice(v);
    case DateQuery => StripTrimmed(Strip(py.text(v)));
    case TextQuery => LowerIdempotent(v.s); DateLower(v.s);
    case NumeralData =>
    case TextData =>
      if v.Str? {
        LowerIdempotent(v.s);
        DateLower(v.s);
      }
  }

  lemma NormalizeTwice(v: Value)
    ensures NormalizeStrings(NormalizeStrings(v)) == NormalizeStrings(v)
  {
    match v
    case Str(s) => LowerIdempotent(s);
    case List(items) =>
      forall i | 0 <= i < |items|
        ensures Lowered(Lowered(items[i])) == Lowered(items[i])
      {
        if items[i].Str? {
          LowerIdempotent(items[i].s);
        }
      }
      assert NormalizeStrings(NormalizeStrings(v)).items == NormalizeStrings(v).items;
    case _ =>
  }

  ghost predicate OneKind(py: Python, kind: Kind, op: Op, v: Value, buckets: seq<Bucket>) {
    forall b <- buckets :: Fits(py, kind, op, v, b.text)
  }

  lemma CollectCons(py: Python, op: Op, c: Value, b: Bucket, rest: seq<Bucket>, id: DocId)
    ensures var t := Test(py, op, b.text, c);
      id in Collect(py, [b] + rest, op, c)
      <==> (t.matched && id in b.ids) || id in Collect(py, rest, op, t.value)
  {
    assert ([b] + rest)[1..] == rest;
  }

  lemma SelectedCons(py: Python, op: Op, v: Value, b: Bucket, rest: seq<Bucket>, id: DocId)
    ensures Selected(py, [b] + rest, op, v, id)
       <==> (Test(py, op, b.text, v).matched && id in b.ids) || Selected(py, rest, op, v, id)
  {
    var all := [b] + rest;
    assert forall x :: x in all <==> x == b || x in rest;
  }

  lemma {:induction false} CollectFromSettled(
    py: Python, kind: Kind, op: Op, v: Value, c: Value, buckets: seq<Bucket>, id: DocId)
    requires Sane(py) && OneKind(py, kind, op, v, buckets)
    requires c in {v, Settled(py, kind, v)}
    ensures id in Collect(py, buckets, op, c) <==> Selected(py, buckets, op, v, id)
    decreases |buckets|
  {
    hide Test, Settled, Fits;
    if buckets != [] {
      var b, rest := buckets[0], buckets[1..];
      assert buckets == [b] + rest;
      TestSettles(py, kind, op, v, c, b.text);
      CollectFromSettled(py, kind, op, v, Test(py, op, b.text, c).value, rest, id);
      CollectCons(py, op, c, b, rest, id);
      SelectedCons(py, op, v, b, rest, id);
    }
  }

  /** On one-kind data the loop tests every bucket as if the query value were never re-bound. */
  lemma RebindingIsHarmless(
    py: Python, kind: Kind, op: Op, v: Value, buckets: seq<Bucket>, id: DocId)
    requires Sane(py) && OneKind(py, kind, op, v, buckets)
    ensures id in Collect(py, buckets, op, v) <==> Selected(py, buckets, op, v, id)
  {
    CollectFromSettled(py, kind, op, v, v, buckets, id);
  }

  /** Hence neither the order of the buckets nor a repeated bucket shows in the result. */
  lemma BucketOrderIsIrrelevant(
    py: Python, kind: Kind, op: Op, v: Value, a: seq<Bucket>, b: seq<Bucket>, id: DocId)
    requires Sane(py) && OneKind(py, kind, op, v, a)
    requires forall x :: x in a <==> x in b
    ensures id in Collect(py, a, op, v) <==> id in Collect(py, b, op, v)
  {
    RebindingIsHarmless(py, kind, op, v, a, id);
    RebindingIsHarmless(py, kind, op, v, b, id);
  }

  /** Mixed data: the same two buckets in the two orders give different answers. */
  lemma MixedDataDependsOnOrder(py: Python, a: DocId, b: DocId)
    requires Sane(py) && a != b
    requires py.eval("5") == Some(Int(5)) && py.eval("abc").None?
    ensures var text, number := Bucket("abc", [a]), Bucket("5", [b]);
      && a in Collect(py, [text, number], Gt, Str("5"))
      && a !in Collect(py, [number, text], Gt, Str("5"))
  {
    var text, number := Bucket("abc", [a]), Bucket("5", [b]);
    assert py.text(Str("5")) == "5" && py.text(Int(5)) != "";
    assert Lower("5") == "5" && Lower("abc") == "abc";
    assert !IsDate(Strip("5")) by { StripLength("5"); }
    assert !IsDate(Strip(py.text(Int(5))));
    assert TextLess("5", "abc");
    assert Test(py, Gt, "abc", Str("5")) == Tested(true, Str("5"));
    assert Test(py, Gt, "5", Str("5")) == Tested(false, Int(5));
    assert Test(py, Gt, "abc", Int(5)) == Tested(false, Int(5));
    assert [text, number][1..] == [number] && [number, text][1..] == [text];
    assert [text][1..] == [] && [number][1..] == [];
    assert Collect(py, [text], Gt, Int(5)) == [];
    assert Collect(py, [number], Gt, Str("5")) == [];
    assert Collect(py, [text, number], Gt, Str("5")) == [a] + [];
    assert Collect(py, [number, text], Gt, Str("5")) == [];
  }

  /** The verdicts of the loop, bucket by bucket. */
  function Verdicts(py: Python, buckets: seq<Bucket>, op: Op, value: Value): (r: seq<bool>)
    ensures |r| == |buckets|
  {
    if buckets == [] then []
    else
      var t := Test(py, op, buckets[0].text, value);
      [t.matched] + Verdicts(py, buckets[1..], op, t.value)
  }

  function FreshVerdicts(py: Python, buckets: seq<Bucket>, op: Op, value: Value): (r: seq<bool>) {
    seq(|buckets|, i requires 0 <= i < |buckets| => Test(py, op, buckets[i].text, value).matched)
  }

  predicate IsIntText(py: Python, text: string) {
    py.eval(text).Some? && py.eval(text).value.Int?
  }

  /** A text bucket that passes an order test against the query's own text. */
  predicate OrderedText(py: Python, op: Op, text: string, query: string)
    requires IsComparison(op)
  {
    py.eval(text).None? && Compares(op, Str(Lower(text)), Str(Lower(query)))
  }

  /** No such text bucket stands behind a numeral bucket. */
  ghost predicate NoTextBehindNumeral(py: Python, op: Op, buckets: seq<Bucket>, query: string)
    requires IsComparison(op)
  {
    forall i, j | 0 <= i < j < |buckets| ::
      IsIntText(py, buckets[i].text) ==> !OrderedText(py, op, buckets[j].text, query)
  }

  /** With a numeral query and an order operator, over any mix of numerals and texts, the loop
      answers as a fresh test of every bucket would exactly when no passing text bucket
      follows a numeral. */
  lemma MixedDataExactly(py: Python, op: Op, buckets: seq<Bucket>, query: string)
    requires Sane(py) && IsRange(op) && IsNumeral(py, query)
    requires forall b <- buckets :: IsIntText(py, b.text) || py.eval(b.text).None?
    ensures Verdicts(py, buckets, op, Str(query)) == FreshVerdicts(py, buckets, op, Str(query))
       <==> NoTextBehindNumeral(py, op, buckets, query)
  {
    MixedFromText(py, op, buckets, query, query);
  }

  lemma {:induction false} FreshCons(py: Python, buckets: seq<Bucket>, op: Op, v: Value, c: Value)
    requires buckets != []
    ensures Verdicts(py, buckets, op, c) == FreshVerdicts(py, buckets, op, v)
       <==> var t := Test(py, op, buckets[0].text, c);
            && t.matched == Test(py, op, buckets[0].text, v).matched
            && Verdicts(py, buckets[1..], op, t.value) == FreshVerdicts(py, buckets[1..], op, v)
  {
    var t := Test(py, op, buckets[0].text, c);
    var plain := FreshVerdicts(py, buckets, op, v);
    assert plain[1..] == FreshVerdicts(py, buckets[1..], op, v);
    assert plain == [plain[0]] + plain[1..];
    assert Verdicts(py, buckets, op, c)[1..] == Verdicts(py, buckets[1..], op, t.value);
  }

  /** Once the query is a number, a text bucket never matches an order test. */
  lemma {:induction false} MixedAfterNumeral(py: Python, op: Op, buckets: seq<Bucket>, query: string)
    requires Sane(py) && IsRange(op) && IsNumeral(py, query)
    requires forall b <- buckets :: IsIntText(py, b.text) || py.eval(b.text).None?
    ensures Verdicts(py, buckets, op, py.eval(query).value) == FreshVerdicts(py, buckets, op, Str(query))
       <==> forall b <- buckets :: !OrderedText(py, op, b.text, query)
    decreases |buckets|
  {
    if buckets != [] {
      var b, rest, n := buckets[0], buckets[1..], py.eval(query).value;
      assert buckets == [b] + rest;
      NumberAgainst(py, op, b.text, query);
      hide Test, OrderedText, IsNumeral;
      FreshCons(py, buckets, op, Str(query), n);
      MixedAfterNumeral(py, op, rest, query);
    }
  }

  lemma NumberAgainst(py: Python, op: Op, text: string, query: string)
    requires Sane(py) && IsRange(op) && IsNumeral(py, query)
    requires IsIntText(py, text) || py.eval(text).None?
    ensures var n := py.eval(query).value;
      && Test(py, op, text, n).value == n
      && (Test(py, op, text, Str(query)).matched == Test(py, op, text, n).matched
          <==> !OrderedText(py, op, text, query))
  {
    var n := py.eval(query).value;
    assert Strip(py.text(n)) == py.text(n) && !IsDate(py.text(n));
    LowerIdempotent(query);
  }

  /** Up to the first numeral the query is still a text; `c` is the current one. */
  lemma {:induction false} MixedFromText(
    py: Python, op: Op, buckets: seq<Bucket>, query: string, c: string)
    requires Sane(py) && IsRange(op) && IsNumeral(py, query)
    requires forall b <- buckets :: IsIntText(py, b.text) || py.eval(b.text).None?
    requires c == query || c == Lower(query)
    ensures Verdicts(py, buckets, op, Str(c)) == FreshVerdicts(py, buckets, op, Str(query))
       <==> NoTextBehindNumeral(py, op, buckets, query)
    decreases |buckets|
  {
    hide Test, OrderedText, IsNumeral;
    if buckets != [] {
      var b, rest := buckets[0], buckets[1..];
      assert buckets == [b] + rest;
      FreshCons(py, buckets, op, Str(query), Str(c));
      if IsIntText(py, b.text) {
        IntBucketAgainst(py, op, b.text, query, c);
        MixedAfterNumeral(py, op, rest, query);
        NoTextBehindStops(py, op, b, rest, query);
      } else {
        TextBucketAgainst(py, op, b.text, query, c);
        TextBucketAgainst(py, op, b.text, query, query);
        MixedFromText(py, op, rest, query, Lower(query));
        NoTextBehindSkips(py, op, b, rest, query);
      }
    }
  }

  lemma TextBucketAgainst(py: Python, op: Op, text: string, query: string, c: string)
    requires Sane(py) && IsRange(op) && IsNumeral(py, query) && py.eval(text).None?
    requires c == query || c == Lower(query)
    ensures Test(py, op, text, Str(c)) == Tested(OrderedText(py, op, text, query), Str(Lower(query)))
  {
    LowerIdempotent(query);
    DateLower(query);
  }

  lemma IntBucketAgainst(py: Python, op: Op, text: string, query: string, c: string)
    requires Sane(py) && IsRange(op) && IsNumeral(py, query) && IsIntText(py, text)
    requires c == query || c == Lower(query)
    ensures Test(py, op, text, Str(c)) == Test(py, op, text, Str(query))
    ensures Test(py, op, text, Str(c)).value == py.eval(query).value
  {
    LowerIdempotent(query);
    DateLower(query);
  }

  lemma NoTextBehindStops(py: Python, op: Op, b: Bucket, rest: seq<Bucket>, query: string)
    requires IsRange(op) && IsIntText(py, b.text)
    ensures NoTextBehindNumeral(py, op, [b] + rest, query)
       <==> forall x <- rest :: !OrderedText(py, op, x.text, query)
  {
    var all := [b] + rest;
    assert all[0] == b;
    if NoTextBehindNumeral(py, op, all, query) {
      forall x <- rest ensures !OrderedText(py, op, x.text, query) {
        var j :| 0 <= j < |rest| && rest[j] == x;
        assert all[j + 1] == x;
      }
    } else {
      var i, j :| 0 <= i < j < |all| && IsIntText(py, all[i].text) && OrderedText(py, op, all[j].text, query);
      assert all[j] == rest[j - 1];
    }
  }

  lemma NoTextBehindSkips(py: Python, op: Op, b: Bucket, rest: seq<Bucket>, query: string)
    requires IsRange(op) && py.eval(b.text).None?
    ensures NoTextBehindNumeral(py, op, [b] + rest, query) <==> NoTextBehindNumeral(py, op, rest, query)
  {
    var all := [b] + rest;
    if NoTextBehindNumeral(py, op, all, query) {
      forall i, j | 0 <= i < j < |rest| && IsIntText(py, rest[i].text)
        ensures !OrderedText(py, op, rest[j].text, query)
      {
        assert all[i + 1] == rest[i] && all[j + 1] == rest[j];
      }
    }
  }
}
