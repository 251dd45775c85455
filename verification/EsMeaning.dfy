/** What a condition translated for Elasticsearch asks of a document, operator by operator, for every
    query and every document, and which conditions are translated at all
    (common/metadata_es_filter.py). */
module EsMeaning {
  import opened Text
  import opened PyValues
  import opened CommaLists
  import opened Coercion
  import opened Membership
  import opened Wildcards
  import opened EsQuery
  import opened EsFilter
  import opened Pushdown

  // ---- one value ----

  /** What `literal_eval` makes of a trimmed query that is no date. */
  function Parsed(py: Python, v: Value): Option<Value> {
    var t := Strip(py.text(v));
    if IsDate(t) then None else py.eval(t)
  }

  /** "=": numbers as numbers, texts but for case; the trimmed text is asked for unless it is a
      literal. */
  predicate EqualTo(py: Python, e: Engine, v: Value, d: Datum) {
    match d
    case IntDatum(n) => Parsed(py, v).Some? && AsInt(Parsed(py, v).value) == Some(n)
    case TextDatum(x) =>
      match Parsed(py, v)
      case Some(Int(n)) => e.analyzedTerm(x, Int(n))
      case Some(Bool(b)) => e.analyzedTerm(x, Bool(b))
      case Some(Str(u)) => SameLetters(x, u)
      case _ => SameLetters(x, Strip(py.text(v)))
  }

  /** One member: texts but for case and the white space around the member. */
  predicate IsMember(e: Engine, d: Datum, m: Value) {
    match d
    case IntDatum(n) => AsInt(m) == Some(n)
    case TextDatum(x) => if m.Str? then SameLetters(x, Strip(m.s)) else e.analyzedTerm(x, m)
  }

  /** The order operators compare integers; texts are left to the engine. */
  predicate InRange(py: Python, e: Engine, op: Op, v: Value, d: Datum) {
    match d
    case IntDatum(n) =>
      && Parsed(py, v).Some? && AsInt(Parsed(py, v).value).Some?
      && var m := AsInt(Parsed(py, v).value).value;
         OrderHolds(op, n, m)
    case TextDatum(x) =>
      e.analyzedRange(x, op, if Parsed(py, v).Some? && AsInt(Parsed(py, v).value).Some? then Parsed(py, v).value
                             else Str(Strip(py.text(v))))
  }

  ghost predicate Wanted(py: Python, e: Engine, f: Filter, d: Datum) {
    match f.op
    case Eq => EqualTo(py, e, f.value, d)
    case Ne => EqualTo(py, e, f.value, d)
    case In => exists m :: WantsMember(py, f.value, m) && IsMember(e, d, m)
    case NotIn => exists m :: WantsMember(py, f.value, m) && IsMember(e, d, m)
    case Contains => d.TextDatum? && Occurs(Lower(py.text(f.value)), Lower(d.s))
    case NotContains => d.TextDatum? && Occurs(Lower(py.text(f.value)), Lower(d.s))
    case StartWith => d.TextDatum? && StartsWith(Lower(d.s), Lower(py.text(f.value)))
    case EndWith => d.TextDatum? && EndsWith(Lower(d.s), Lower(py.text(f.value)))
    case Empty => d == TextDatum("")
    case NotEmpty => d == TextDatum("")
    case Unknown(_) => false
    case op => InRange(py, e, op, f.value, d)
  }

  /** The document: some value is wanted; or, for a negative operator, there are values and none is;
      or, for "empty", there are none. */
  ghost predicate Says(py: Python, e: Engine, f: Filter, doc: Doc) {
    var some := exists d <- Values(doc, f.key) :: Wanted(py, e, f, d);
    match f.op
    case Ne => Values(doc, f.key) != [] && !some
    case NotIn => Values(doc, f.key) != [] && !some
    case NotContains => Values(doc, f.key) != [] && !some
    case NotEmpty => Values(doc, f.key) != [] && !some
    case Empty => Values(doc, f.key) == [] || some
    case _ => some
  }

  /** The conditions that are translated; the others raise. */
  ghost predicate IsTranslated(py: Python, f: Filter) {
    && f.key != ""
    && match f.op
       case Unknown(_) => false
       case Empty => true
       case NotEmpty => true
       case Eq => !f.value.Null? && !f.value.List?
       case Ne => !f.value.Null? && !f.value.List?
       case In => exists m :: WantsMember(py, f.value, m)
       case NotIn => exists m :: WantsMember(py, f.value, m)
       case Contains => !f.value.Null? && !f.value.List? && py.text(f.value) != ""
       case NotContains => !f.value.Null? && !f.value.List? && py.text(f.value) != ""
       case StartWith => !f.value.Null? && !f.value.List? && py.text(f.value) != ""
       case EndWith => !f.value.Null? && !f.value.List? && py.text(f.value) != ""
       case _ => !f.value.Null?
  }

  /** Which conditions are pushed down at all. */
  lemma TranslatesIff(py: Python, f: Filter)
    ensures Translate(py, f).Ok? <==> IsTranslated(py, f)
  {
    MembersExist(py, f.value);
    hide CsvOrList, WantsMember, TranslateEmpty, TranslateNotEmpty, TermsStringOrNumeric, ContainsPattern, TermOrMatch;
  }

  lemma {:induction false} AllTranslate(py: Python, filters: seq<Filter>)
    ensures EsFilter.TranslateAll(py, filters).Ok? <==> forall f <- filters :: Translate(py, f).Ok?
  {
    hide Translate;
    if filters != [] {
      AllTranslate(py, filters[1..]);
      assert filters == [filters[0]] + filters[1..];
    }
  }

  /** A plan is made if and only if the logic is known and every condition is translated. */
  lemma PlansIff(py: Python, filters: seq<Filter>, logic: Logic)
    ensures PlanPushdown(py, filters, logic).Ok?
       <==> (logic == And || logic == Or) && forall f <- filters :: IsTranslated(py, f)
  {
    AllTranslate(py, filters);
    hide Translate, IsTranslated, EsFilter.TranslateAll;
    forall f <- filters ensures Translate(py, f).Ok? <==> IsTranslated(py, f) {
      TranslatesIff(py, f);
    }
  }

  /** The cheap check before: it refuses what is never translated, and the two operators that go wrong
      on lists of values. */
  lemma SupportedIff(filters: seq<Filter>)
    ensures IsPushdownSupported(filters)
       <==> forall f <- filters ::
              f.key != "" && f.op in {Eq, Gt, Lt, Ge, Le, In, Contains, NotContains, StartWith, EndWith, Empty, NotEmpty}
  {
  }

  // ---- one clause, one value ----

  lemma EqualHits(py: Python, e: Engine, f: Filter, d: Datum)
    requires EsFilter.CoerceScalar(py, f.value).Ok?
    ensures ValueHits(e, d, TermOrMatch(f.key, EsFilter.CoerceScalar(py, f.value).value)) <==> EqualTo(py, e, f.value, d)
  {
    hide Strip;
    var t := Strip(py.text(f.value));
    var c := EsFilter.CoerceScalar(py, f.value).value;
    if d.TextDatum? && c.Str? {
      LowerIs(d.s, t);
      LowerIdempotent(t);
      if Parsed(py, f.value).Some? && Parsed(py, f.value).value.Str? {
        LowerIs(d.s, Parsed(py, f.value).value.s);
        LowerIdempotent(Parsed(py, f.value).value.s);
      }
      SameIsSame(d.s, t);
    }
  }

  lemma SameIsSame(a: string, b: string)
    ensures a == b ==> SameLetters(a, b)
  {
  }

  lemma StripLower(s: string)
    ensures Strip(Lower(s)) == Lower(Strip(s))
  {
    StripLeftLower(s);
    StripRightLower(StripLeft(s));
  }

  lemma MemberHits(e: Engine, key: string, d: Datum, m: Value)
    ensures ValueHits(e, d, TermOrMatch(key, NormalisedMember(m))) <==> IsMember(e, d, m)
  {
    hide Strip;
    if d.TextDatum? && m.Str? {
      StripLower(m.s);
      LowerIdempotent(Strip(m.s));
      LowerIs(d.s, Strip(m.s));
    }
  }

  lemma RangeHits(py: Python, e: Engine, f: Filter, d: Datum)
    requires IsRange(f.op) && EsFilter.CoerceRange(py, f.value).Ok?
    ensures ValueHits(e, d, Range(Parent(f.key), f.op, EsFilter.CoerceRange(py, f.value).value))
       <==> InRange(py, e, f.op, f.value, d)
  {
    hide Strip, IsDate;
  }

  lemma PatternHits(e: Engine, key: string, t: string, d: Datum)
    ensures ValueHits(e, d, Wildcard(Keyword(key), ContainsPattern(t))) <==> d.TextDatum? && Occurs(Lower(t), Lower(d.s))
    ensures ValueHits(e, d, Wildcard(Keyword(key), "*" + Escape(ES_WILDCARD, t)))
       <==> d.TextDatum? && EndsWith(Lower(d.s), Lower(t))
  {
    if d.TextDatum? {
      ContainsPatternExact(ES_WILDCARD, t, d.s);
      SuffixPatternExact(ES_WILDCARD, t, d.s);
      assert "*" == [ES_WILDCARD.many];
    }
  }

  // ---- one clause, one document ----

  lemma MembershipClause(e: Engine, doc: Doc, key: string, raw: seq<Value>)
    requires raw != []
    ensures Hits(e, doc, TermsStringOrNumeric(key, Normalised(raw)))
       <==> exists d, m | d in Values(doc, key) && m in raw :: IsMember(e, d, m)
  {
    var members := Normalised(raw);
    var c := TermsStringOrNumeric(key, members);
    if forall m <- members :: !m.Str? {
      assert c == Terms(Parent(key), members);
      FieldHits(e, doc, c);
      forall d <- Values(doc, key) ensures ValueHits(e, d, c) <==> exists m <- raw :: IsMember(e, d, m) {
        NumbersHit(e, d, key, raw);
      }
    } else {
      ShouldHits(e, doc, key, members);
      hide Hits, TermsStringOrNumeric, ValueHits, TermOrMatch, IsMember, NormalisedMember;
      if i, d :| 0 <= i < |members| && d in Values(doc, key) && ValueHits(e, d, TermOrMatch(key, members[i])) {
        MemberHits(e, key, d, raw[i]);
        assert raw[i] in raw;
      }
      if d, m :| d in Values(doc, key) && m in raw && IsMember(e, d, m) {
        var i :| 0 <= i < |raw| && raw[i] == m;
        MemberHits(e, key, d, raw[i]);
        assert members[i] == NormalisedMember(raw[i]);
      }
    }
  }

  lemma NumbersHit(e: Engine, d: Datum, key: string, raw: seq<Value>)
    requires forall m <- Normalised(raw) :: !m.Str?
    ensures ValueHits(e, d, Terms(Parent(key), Normalised(raw))) <==> exists m <- raw :: IsMember(e, d, m)
  {
    var members := Normalised(raw);
    forall i | 0 <= i < |raw| ensures members[i] == raw[i] && !raw[i].Str? {
      assert members[i] in members;
    }
    assert members == raw;
  }

  lemma ShouldHits(e: Engine, doc: Doc, key: string, members: seq<Value>)
    requires exists m <- members :: m.Str?
    ensures Hits(e, doc, TermsStringOrNumeric(key, members))
       <==> exists i, d | 0 <= i < |members| && d in Values(doc, key) :: ValueHits(e, d, TermOrMatch(key, members[i]))
  {
    var c := TermsStringOrNumeric(key, members);
    assert |c.should| == |members| && forall i :: 0 <= i < |members| ==> c.should[i] == TermOrMatch(key, members[i]);
    assert Hits(e, doc, c) <==> exists x <- c.should :: Hits(e, doc, x);
    forall i | 0 <= i < |members|
      ensures Hits(e, doc, c.should[i]) <==> exists d <- Values(doc, key) :: ValueHits(e, d, TermOrMatch(key, members[i]))
    {
      FieldHits(e, doc, TermOrMatch(key, members[i]));
    }
    hide TermOrMatch, Hits, ValueHits, TermsStringOrNumeric;
    if i, d :| 0 <= i < |members| && d in Values(doc, key) && ValueHits(e, d, TermOrMatch(key, members[i])) {
      assert Hits(e, doc, c.should[i]) && c.should[i] in c.should;
    }
  }

  /** Every value is tested by the clause as it is wanted. */
  lemma FieldSays(py: Python, e: Engine, doc: Doc, f: Filter, c: Clause)
    requires !c.KbTerms? && !c.BoolQuery? && c.field.key == f.key
    requires forall d <- Values(doc, f.key) :: ValueHits(e, d, c) <==> Wanted(py, e, f, d)
    ensures Hits(e, doc, c) <==> exists d <- Values(doc, f.key) :: Wanted(py, e, f, d)
    ensures Hits(e, doc, Exists(Parent(f.key))) <==> Values(doc, f.key) != []
  {
    FieldHits(e, doc, c);
    FieldHits(e, doc, Exists(Parent(f.key)));
  }

  // ---- one condition, one document ----

  lemma EqualSays(py: Python, e: Engine, f: Filter, doc: Doc)
    requires (f.op.Eq? || f.op.Ne?) && Translate(py, f).Ok?
    ensures Accepts(e, doc, Translate(py, f).value) <==> Says(py, e, f, doc)
  {
    var c := TermOrMatch(f.key, EsFilter.CoerceScalar(py, f.value).value);
    hide Hits, Accepts, EqualTo, EsFilter.CoerceScalar, ValueHits;
    forall d <- Values(doc, f.key) ensures ValueHits(e, d, c) <==> Wanted(py, e, f, d) {
      EqualHits(py, e, f, d);
    }
    FieldSays(py, e, doc, f, c);
    AcceptsOne(e, doc, c);
    AcceptsGuarded(e, doc, Exists(Parent(f.key)), c);
  }

  lemma MembershipSays(py: Python, e: Engine, f: Filter, doc: Doc)
    requires (f.op.In? || f.op.NotIn?) && Translate(py, f).Ok?
    ensures Accepts(e, doc, Translate(py, f).value) <==> Says(py, e, f, doc)
  {
    var raw := RawMembers(py, f.value);
    var c := TermsStringOrNumeric(f.key, Normalised(raw));
    MembershipClause(e, doc, f.key, raw);
    FieldHits(e, doc, Exists(Parent(f.key)));
    AcceptsOne(e, doc, c);
    AcceptsGuarded(e, doc, Exists(Parent(f.key)), c);
    hide Hits, Accepts, TermsStringOrNumeric, IsMember, WantsMember, RawMembers;
    forall m ensures m in raw <==> WantsMember(py, f.value, m) {
      RawMembersAre(py, f.value, m);
    }
    forall d <- Values(doc, f.key) ensures Wanted(py, e, f, d) <==> exists m <- raw :: IsMember(e, d, m) {
    }
  }

  lemma PatternSays(py: Python, e: Engine, f: Filter, doc: Doc)
    requires (f.op.Contains? || f.op.NotContains? || f.op.StartWith? || f.op.EndWith?) && Translate(py, f).Ok?
    ensures Accepts(e, doc, Translate(py, f).value) <==> Says(py, e, f, doc)
  {
    hide Hits, Accepts, ValueHits, Wanted, ContainsPattern, Escape;
    var c := PatternClause(py, f);
    forall d <- Values(doc, f.key) ensures ValueHits(e, d, c) <==> Wanted(py, e, f, d) {
      PatternWanted(py, e, f, d);
    }
    FieldSays(py, e, doc, f, c);
    AcceptsOne(e, doc, c);
    AcceptsGuarded(e, doc, Exists(Parent(f.key)), c);
  }

  function PatternClause(py: Python, f: Filter): (c: Clause)
    ensures !c.KbTerms? && !c.BoolQuery? && c.field.key == f.key
  {
    var text := py.text(f.value);
    if f.op.StartWith? then Prefix(Keyword(f.key), text)
    else if f.op.EndWith? then Wildcard(Keyword(f.key), "*" + Escape(ES_WILDCARD, text))
    else Wildcard(Keyword(f.key), ContainsPattern(text))
  }

  lemma PatternWanted(py: Python, e: Engine, f: Filter, d: Datum)
    requires f.op.Contains? || f.op.NotContains? || f.op.StartWith? || f.op.EndWith?
    ensures ValueHits(e, d, PatternClause(py, f)) <==> Wanted(py, e, f, d)
  {
    hide ContainsPattern, Escape, Lower, Matches, Occurs;
    PatternHits(e, f.key, py.text(f.value), d);
  }

  lemma BlankSays(py: Python, e: Engine, f: Filter, doc: Doc)
    requires (f.op.Empty? || f.op.NotEmpty?) && f.key != ""
    ensures Translate(py, f).Ok?
    ensures Accepts(e, doc, Translate(py, f).value) <==> Says(py, e, f, doc)
  {
    var c := Term(Keyword(f.key), Str(""), false);
    if f.op.Empty? {
      EmptyMeans(py, e, doc, f);
    } else {
      assert Translate(py, f) == Ok(Translated([Exists(Parent(f.key))], [c]));
    }
    hide Hits, Accepts, Translate;
    FieldSays(py, e, doc, f, c);
    AcceptsGuarded(e, doc, Exists(Parent(f.key)), c);
  }

  lemma RangeSays(py: Python, e: Engine, f: Filter, doc: Doc)
    requires IsRange(f.op) && Translate(py, f).Ok?
    ensures Accepts(e, doc, Translate(py, f).value) <==> Says(py, e, f, doc)
  {
    var c := Range(Parent(f.key), f.op, EsFilter.CoerceRange(py, f.value).value);
    hide Hits, Accepts, InRange, EsFilter.CoerceRange, ValueHits;
    assert Translate(py, f) == Ok(Translated([Exists(Parent(f.key)), c], []));
    forall d <- Values(doc, f.key) ensures ValueHits(e, d, c) <==> Wanted(py, e, f, d) {
      RangeHits(py, e, f, d);
    }
    FieldSays(py, e, doc, f, c);
    AcceptsTwo(e, doc, Exists(Parent(f.key)), c);
  }

  /** Every condition that is translated, on every document, means what it says: over lists of
      values, with queries of every kind. */
  lemma ConditionSays(py: Python, e: Engine, f: Filter, doc: Doc)
    requires Translate(py, f).Ok?
    ensures Accepts(e, doc, Translate(py, f).value) <==> Says(py, e, f, doc)
  {
    hide Accepts, Says;
    assert !f.op.Unknown? && f.key != "" by { TranslatesIff(py, f); }
    hide Translate;
    match f.op
    case Eq => EqualSays(py, e, f, doc);
    case Ne => EqualSays(py, e, f, doc);
    case In => MembershipSays(py, e, f, doc);
    case NotIn => MembershipSays(py, e, f, doc);
    case Contains => PatternSays(py, e, f, doc);
    case NotContains => PatternSays(py, e, f, doc);
    case StartWith => PatternSays(py, e, f, doc);
    case EndWith => PatternSays(py, e, f, doc);
    case Empty => BlankSays(py, e, f, doc);
    case NotEmpty => BlankSays(py, e, f, doc);
    case _ => RangeSays(py, e, f, doc);
  }

  /** An "in" over a comma-separated text asks for a text that one of its stretches is, but for case
      and white space; it is not translated if all stretches are blank. */
  lemma CommaTextMeans(py: Python, e: Engine, key: string, s: string, doc: Doc)
    requires key != "" && !(py.eval(s).Some? && py.eval(s).value.List?)
    ensures var f := Filter(key, In, Str(s));
      && (Translate(py, f).Ok? <==> exists i, j | 0 <= i <= j <= |s| :: IsFilled(s, i, j))
      && (Translate(py, f).Ok? ==>
            (Accepts(e, doc, Translate(py, f).value)
             <==> exists d, i, j | d in Values(doc, key) && 0 <= i <= j <= |s| ::
                    d.TextDatum? && IsFilled(s, i, j) && SameLetters(d.s, Strip(s[i..j]))))
  {
    var f := Filter(key, In, Str(s));
    TranslatesIff(py, f);
    hide Accepts, Translate, Strip, IsFilled, SameLetters;
    assert (exists m :: WantsMember(py, f.value, m)) <==> exists i, j | 0 <= i <= j <= |s| :: IsFilled(s, i, j) by {
      if i, j :| 0 <= i <= j <= |s| && IsFilled(s, i, j) {
        assert WantsMember(py, f.value, Str(Strip(s[i..j])));
      }
    }
    if Translate(py, f).Ok? {
      ConditionSays(py, e, f, doc);
      forall d <- Values(doc, key)
        ensures Wanted(py, e, f, d)
          <==> exists i, j | 0 <= i <= j <= |s| :: d.TextDatum? && IsFilled(s, i, j) && SameLetters(d.s, Strip(s[i..j]))
      {
        OneStretch(py, e, f, s, d);
      }
    }
  }

  lemma OneStretch(py: Python, e: Engine, f: Filter, s: string, d: Datum)
    requires f.op.In? && f.value == Str(s) && !(py.eval(s).Some? && py.eval(s).value.List?)
    ensures Wanted(py, e, f, d)
      <==> exists i, j | 0 <= i <= j <= |s| :: d.TextDatum? && IsFilled(s, i, j) && SameLetters(d.s, Strip(s[i..j]))
  {
    hide Strip, IsFilled, SameLetters;
    if d.TextDatum? {
      if i, j :| 0 <= i <= j <= |s| && IsFilled(s, i, j) && SameLetters(d.s, Strip(s[i..j])) {
        TrimmedTwice(s[i..j]);
        assert WantsMember(py, f.value, Str(Strip(s[i..j]))) && IsMember(e, d, Str(Strip(s[i..j])));
      }
      if m :| WantsMember(py, f.value, m) && IsMember(e, d, m) {
        var i, j :| 0 <= i <= j <= |s| && IsFilled(s, i, j) && m == Str(Strip(s[i..j]));
        TrimmedTwice(s[i..j]);
      }
    }
  }

  lemma TrimmedTwice(s: string)
    ensures Strip(Strip(s)) == Strip(s)
  {
    StripIs(s, Strip(s));
    StripTrimmed(Strip(s));
  }
}
