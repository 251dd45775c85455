/** Push-down preserves meaning: the Elasticsearch query selects the documents that the
    in-memory evaluator selects on an index of the same documents. */
module Pushdown {
  import opened Text
  import opened PyValues
  import opened Coercion
  import opened Wildcards
  import opened EsQuery
  import opened EsFilter
  import opened MetaFilter
  import opened Rebinding

  type Docs = map<DocId, Doc>

  function DatumText(py: Python, d: Datum): string {
    match d
    case TextDatum(s) => s
    case IntDatum(n) => py.text(Int(n))
  }

  predicate Carries(docs: Docs, kbs: seq<string>, id: DocId, key: string) {
    id in docs && docs[id].kb in kbs && Values(docs[id], key) != []
  }

  ghost predicate InBucket(buckets: seq<Bucket>, text: string, id: DocId) {
    exists b <- buckets :: b.text == text && id in b.ids
  }

  /** Is `text` the text of one of the values? */
  ghost predicate HasText(py: Python, values: seq<Datum>, text: string) {
    exists d <- values :: DatumText(py, d) == text
  }

  /** The index lists a document under the text of each of its values, and nowhere else. */
  ghost predicate Represents(py: Python, metas: Index, docs: Docs, kbs: seq<string>) {
    && (forall key, id | Carries(docs, kbs, id, key) ::
          key in metas && forall d <- Values(docs[id], key) :: InBucket(metas[key], DatumText(py, d), id))
    && (forall key <- metas, text, id | InBucket(metas[key], text, id) ::
          Carries(docs, kbs, id, key) && HasText(py, Values(docs[id], key), text))
    && (forall key <- metas, b <- metas[key] :: b.ids != [])
  }

  /** All values of the key, within the knowledge bases, are texts Python does not read. */
  ghost predicate TextKey(py: Python, docs: Docs, kbs: seq<string>, key: string) {
    forall id | Carries(docs, kbs, id, key) ::
      forall d <- Values(docs[id], key) :: d.TextDatum? && py.eval(d.s).None?
  }

  /** All values of the key are texts, whatever Python reads in them. */
  ghost predicate TextsOnly(docs: Docs, kbs: seq<string>, key: string) {
    forall id | Carries(docs, kbs, id, key) :: forall d <- Values(docs[id], key) :: d.TextDatum?
  }

  ghost predicate IntKey(docs: Docs, kbs: seq<string>, key: string) {
    forall id | Carries(docs, kbs, id, key) :: forall d <- Values(docs[id], key) :: d.IntDatum?
  }

  /** The conditions on which the two sides can be compared, by the kinds of query and data. */
  ghost predicate Comparable(py: Python, docs: Docs, kbs: seq<string>, f: Filter) {
    && f.key != ""
    && match f.op
       case NotEmpty => true
       case Contains => TextsOnly(docs, kbs, f.key) && f.value.Str? && f.value.s != ""
       case NotContains => TextsOnly(docs, kbs, f.key) && f.value.Str? && f.value.s != ""
       case StartWith => TextsOnly(docs, kbs, f.key) && f.value.Str? && f.value.s != ""
       case EndWith => TextsOnly(docs, kbs, f.key) && f.value.Str? && f.value.s != ""
       case In => TextsOnly(docs, kbs, f.key) && IsMemberQuery(f.value)
       case Eq => (TextKey(py, docs, kbs, f.key) && f.value.Str?
                   && IsTextQuery(py, f.value.s) && Trimmed(f.value.s))
                  || (IntKey(docs, kbs, f.key) && IsNumeralQuery(py, f.value))
       case Gt => IntKey(docs, kbs, f.key) && IsNumeralQuery(py, f.value)
       case Lt => IntKey(docs, kbs, f.key) && IsNumeralQuery(py, f.value)
       case Ge => IntKey(docs, kbs, f.key) && IsNumeralQuery(py, f.value)
       case Le => IntKey(docs, kbs, f.key) && IsNumeralQuery(py, f.value)
       case _ => false
  }

  predicate IsMemberQuery(v: Value) {
    v.List? && v.items != [] && forall m <- v.items :: m.Str? && Strip(Lower(m.s)) == Lower(m.s)
  }

  /** Elasticsearch asks of every value that it does not match; the in-memory side of some. */
  predicate IsNegative(op: Op) {
    op.NotContains? || op.NotEmpty? || op.Ne? || op.NotIn?
  }

  /** What the in-memory test says about one value. */
  predicate InMemory(py: Python, f: Filter, d: Datum) {
    Test(py, f.op, DatumText(py, d), f.value).matched
  }

  /** The test says the same of all values of the document. */
  ghost predicate Uniform(py: Python, f: Filter, doc: Doc) {
    forall d, d' | d in Values(doc, f.key) && d' in Values(doc, f.key) :: InMemory(py, f, d) == InMemory(py, f, d')
  }

  /** The conditions on which the two sides agree. */
  ghost predicate Agreeable(py: Python, docs: Docs, kbs: seq<string>, f: Filter) {
    && Comparable(py, docs, kbs, f)
    && (IsNegative(f.op) ==> forall id | Carries(docs, kbs, id, f.key) :: Uniform(py, f, docs[id]))
  }

  /** Both halves of a translated filter, before they are folded into one clause. */
  predicate Accepts(e: Engine, doc: Doc, t: Translated) {
    (forall c <- t.must :: Hits(e, doc, c)) && (forall c <- t.mustNot :: !Hits(e, doc, c))
  }

  /** `to_clauses` keeps a filter whole: one clause that means must and must_not together. */
  lemma ClausesAreAtomic(e: Engine, doc: Doc, t: Translated)
    ensures t.must != [] || t.mustNot != [] ==>
      |t.ToClauses()| == 1 && (Hits(e, doc, t.ToClauses()[0]) <==> Accepts(e, doc, t))
  {
  }

  // ---- one condition, one value ----

  lemma ContainsTest(py: Python, e: Engine, f: Filter, d: Datum)
    requires Sane(py) && f.value.Str? && d.TextDatum? && (f.op.Contains? || f.op.NotContains?)
    ensures ValueHits(e, d, Wildcard(Keyword(f.key), ContainsPattern(f.value.s))) == (InMemory(py, f, d) == f.op.Contains?)
  {
    var t, x := f.value.s, d.s;
    ContainsPatternExact(ES_WILDCARD, t, x);
    assert "*" == [ES_WILDCARD.many];
  }

  lemma AffixTest(py: Python, e: Engine, f: Filter, d: Datum)
    requires Sane(py) && f.value.Str? && d.TextDatum? && (f.op.StartWith? || f.op.EndWith?)
    ensures var t := f.value.s;
      var c := if f.op.StartWith? then Prefix(Keyword(f.key), t) else Wildcard(Keyword(f.key), "*" + Escape(ES_WILDCARD, t));
      ValueHits(e, d, c) == InMemory(py, f, d)
  {
    var t, x := f.value.s, d.s;
    assert py.text(Str(Lower(t))) == Lower(t);
    LowerIdempotent(t);
    LowerIdempotent(x);
    SuffixPatternExact(ES_WILDCARD, t, x);
    assert "*" == [ES_WILDCARD.many];
  }

  lemma BlankTest(py: Python, e: Engine, f: Filter, d: Datum)
    requires Sane(py) && (f.op.Empty? || f.op.NotEmpty?)
    ensures ValueHits(e, d, Term(Keyword(f.key), Str(""), false)) == (InMemory(py, f, d) == f.op.Empty?)
  {
    if d.IntDatum? {
      assert Strip(py.text(Int(d.n))) == py.text(Int(d.n)) != "";
    }
  }

  /** The members of a list of trimmed texts, as both sides see them. */
  lemma MembersLowered(f: Filter)
    requires f.value.List? && forall m <- f.value.items :: m.Str? && Strip(Lower(m.s)) == Lower(m.s)
    ensures Normalised(f.value.items) == NormalizeStrings(f.value).items
    ensures forall m <- Normalised(f.value.items) :: m.Str? && Lower(m.s) == m.s
  {
    var items := f.value.items;
    var members := Normalised(items);
    assert members == NormalizeStrings(f.value).items;
    forall m <- members ensures m.Str? && Lower(m.s) == m.s {
      var i :| 0 <= i < |items| && members[i] == m;
      assert items[i] in items;
      LowerIdempotent(items[i].s);
    }
  }

  lemma MembershipInMemory(py: Python, f: Filter, x: string)
    requires (f.op.In? || f.op.NotIn?) && f.value.List?
    requires forall m <- f.value.items :: m.Str? && Strip(Lower(m.s)) == Lower(m.s)
    ensures InMemory(py, f, TextDatum(x))
       <==> if f.op.In? then Str(Lower(x)) in Normalised(f.value.items) else Str(Lower(x)) !in Normalised(f.value.items)
  {
    MembersLowered(f);
    hide Normalised;
  }

  lemma MembershipTranslated(py: Python, f: Filter)
    requires (f.op.In? || f.op.NotIn?) && f.key != "" && f.value.List? && f.value.items != []
    ensures Translate(py, f) == Ok(
      if f.op.In? then Translated([TermsStringOrNumeric(f.key, Normalised(f.value.items))], [])
      else Translated([Exists(Parent(f.key))], [TermsStringOrNumeric(f.key, Normalised(f.value.items))]))
  {
    hide Normalised, TermsStringOrNumeric;
  }

  lemma MemberTerm(e: Engine, key: string, d: Datum, m: Value)
    requires m.Str? && Lower(m.s) == m.s
    ensures ValueHits(e, d, TermOrMatch(key, m)) == (d.TextDatum? && m == Str(Lower(d.s)))
  {
    if d.TextDatum? {
      LowerIdempotent(d.s);
    }
  }

  lemma EqualTextTest(py: Python, e: Engine, f: Filter, d: Datum)
    requires Sane(py) && (f.op.Eq? || f.op.Ne?) && f.value.Str? && IsTextQuery(py, f.value.s) && Trimmed(f.value.s)
    requires d.TextDatum? && py.eval(d.s).None?
    ensures ValueHits(e, d, Term(Keyword(f.key), Str(Lower(f.value.s)), true)) == (InMemory(py, f, d) == f.op.Eq?)
  {
    var s := f.value.s;
    StripTrimmed(s);
    LowerIdempotent(s);
    assert py.text(f.value) == s;
  }

  function NumeralOf(py: Python, v: Value): int
    requires IsNumeralQuery(py, v)
  {
    if v.Int? then v.n else py.eval(v.s).value.n
  }

  lemma NumeralCoerced(py: Python, v: Value)
    requires Sane(py) && IsNumeralQuery(py, v)
    ensures CoerceScalar(py, v) == Ok(Int(NumeralOf(py, v)))
    ensures CoerceRange(py, v) == Ok(Int(NumeralOf(py, v)))
  {
    var n := NumeralOf(py, v);
    assert Strip(py.text(Int(n))) == py.text(Int(n)) && py.eval(py.text(Int(n))) == Some(Int(n));
    assert !IsDate(py.text(Int(n)));
    assert v.Str? ==> py.text(v) == v.s;
  }

  lemma NumeralTranslated(py: Python, f: Filter)
    requires Sane(py) && f.key != "" && (f.op.Eq? || IsRange(f.op)) && IsNumeralQuery(py, f.value)
    ensures var n := Int(NumeralOf(py, f.value));
      Translate(py, f) == Ok(Translated(
        if f.op.Eq? then [Term(Parent(f.key), n, false)]
        else [Exists(Parent(f.key)), Range(Parent(f.key), f.op, n)], []))
  {
    NumeralCoerced(py, f.value);
    hide CoerceScalar, CoerceRange, Sane;
  }

  lemma NumeralTest(py: Python, f: Filter, m: int, n: int)
    requires Sane(py) && IsComparison(f.op) && IsNumeralQuery(py, f.value)
    requires n == NumeralOf(py, f.value)
    ensures InMemory(py, f, IntDatum(m)) <==> Compares(f.op, Int(m), Int(n))
  {
    assert py.eval(py.text(Int(m))) == Some(Int(m));
    assert Strip(py.text(Int(n))) == py.text(Int(n)) && !IsDate(py.text(Int(n)));
    assert f.value.Str? ==> py.text(f.value) == f.value.s;
    assert !IsDate(Strip(py.text(f.value)));
    assert Evaluated(py, py.text(Int(m)), f.value) == (Int(m), Int(n));
  }

  lemma NumeralHits(py: Python, e: Engine, f: Filter, d: Datum)
    requires Sane(py) && (f.op.Eq? || IsRange(f.op)) && IsNumeralQuery(py, f.value) && d.IntDatum?
    ensures var n := Int(NumeralOf(py, f.value));
      ValueHits(e, d, if f.op.Eq? then Term(Parent(f.key), n, false) else Range(Parent(f.key), f.op, n)) == InMemory(py, f, d)
  {
    NumeralTest(py, f, d.n, NumeralOf(py, f.value));
    hide InMemory, Sane, IsNumeralQuery;
  }

  // ---- one condition, one document ----

  lemma AcceptsOne(e: Engine, doc: Doc, c: Clause)
    ensures Accepts(e, doc, Translated([c], [])) <==> Hits(e, doc, c)
  {
    assert c in [c];
  }

  lemma AcceptsGuarded(e: Engine, doc: Doc, c: Clause, not: Clause)
    ensures Accepts(e, doc, Translated([c], [not])) <==> Hits(e, doc, c) && !Hits(e, doc, not)
  {
    assert c in [c] && not in [not];
  }

  lemma AcceptsTwo(e: Engine, doc: Doc, c: Clause, c': Clause)
    ensures Accepts(e, doc, Translated([c, c'], [])) <==> Hits(e, doc, c) && Hits(e, doc, c')
  {
    assert [c, c'][0] == c && [c, c'][1] == c';
  }

  lemma FieldHits(e: Engine, doc: Doc, c: Clause)
    requires !c.KbTerms? && !c.BoolQuery?
    ensures Hits(e, doc, c) <==> exists d <- Values(doc, c.field.key) :: ValueHits(e, d, c)
    ensures Hits(e, doc, Exists(c.field)) <==> Values(doc, c.field.key) != []
  {
    if Values(doc, c.field.key) != [] {
      assert ValueHits(e, Values(doc, c.field.key)[0], Exists(c.field));
    }
  }

  /** Some value passes; or all of them do, and there is one. */
  ghost predicate Passes(py: Python, f: Filter, doc: Doc) {
    if IsNegative(f.op) then Values(doc, f.key) != [] && forall d <- Values(doc, f.key) :: InMemory(py, f, d)
    else exists d <- Values(doc, f.key) :: InMemory(py, f, d)
  }

  /** A clause that tells of each value what the test tells, or the opposite. */
  lemma FieldPasses(py: Python, e: Engine, doc: Doc, f: Filter, c: Clause)
    requires !c.KbTerms? && !c.BoolQuery? && c.field.key == f.key
    requires forall d <- Values(doc, f.key) :: ValueHits(e, d, c) == (InMemory(py, f, d) == !IsNegative(f.op))
    ensures !IsNegative(f.op) ==> (Accepts(e, doc, Translated([c], [])) <==> Passes(py, f, doc))
    ensures !IsNegative(f.op) ==> (Accepts(e, doc, Translated([Exists(c.field), c], [])) <==> Passes(py, f, doc))
    ensures IsNegative(f.op) ==> (Accepts(e, doc, Translated([Exists(Parent(f.key))], [c])) <==> Passes(py, f, doc))
  {
    FieldHits(e, doc, c);
    FieldHits(e, doc, Exists(Parent(f.key)));
    AcceptsOne(e, doc, c);
    AcceptsTwo(e, doc, Exists(c.field), c);
    AcceptsGuarded(e, doc, Exists(Parent(f.key)), c);
    hide Accepts, InMemory, ValueHits, Hits;
    assert Exists(c.field).field == c.field;
  }

  lemma TextPasses(py: Python, e: Engine, doc: Doc, f: Filter)
    requires Sane(py) && f.key != "" && f.value.Str? && f.value.s != ""
    requires f.op.Contains? || f.op.NotContains? || f.op.StartWith? || f.op.EndWith?
    requires forall d <- Values(doc, f.key) :: d.TextDatum?
    ensures Translate(py, f).Ok?
    ensures Accepts(e, doc, Translate(py, f).value) <==> Passes(py, f, doc)
  {
    var t := f.value.s;
    assert py.text(Str(t)) == t;
    var c := if f.op.StartWith? then Prefix(Keyword(f.key), t)
             else if f.op.EndWith? then Wildcard(Keyword(f.key), "*" + Escape(ES_WILDCARD, t))
             else Wildcard(Keyword(f.key), ContainsPattern(t));
    assert Translate(py, f) == Ok(if f.op.NotContains? then Translated([Exists(Parent(f.key))], [c]) else Translated([c], []));
    hide Translate, Accepts, InMemory, ValueHits, Passes, Sane;
    forall d <- Values(doc, f.key) ensures ValueHits(e, d, c) == (InMemory(py, f, d) == !IsNegative(f.op)) {
      if f.op.StartWith? || f.op.EndWith? {
        AffixTest(py, e, f, d);
      } else {
        ContainsTest(py, e, f, d);
      }
    }
    FieldPasses(py, e, doc, f, c);
  }

  lemma NotEmptyPasses(py: Python, e: Engine, doc: Doc, f: Filter)
    requires Sane(py) && f.key != "" && f.op.NotEmpty?
    ensures Translate(py, f).Ok?
    ensures Accepts(e, doc, Translate(py, f).value) <==> Passes(py, f, doc)
  {
    var c := Term(Keyword(f.key), Str(""), false);
    assert Translate(py, f) == Ok(Translated([Exists(Parent(f.key))], [c]));
    hide Translate, Accepts, InMemory, ValueHits, Passes, Sane;
    forall d <- Values(doc, f.key) ensures ValueHits(e, d, c) == (InMemory(py, f, d) == !IsNegative(f.op)) {
      BlankTest(py, e, f, d);
    }
    FieldPasses(py, e, doc, f, c);
  }

  lemma EqualPasses(py: Python, e: Engine, doc: Doc, f: Filter)
    requires Sane(py) && f.key != "" && (f.op.Eq? || f.op.Ne?) && f.value.Str?
    requires IsTextQuery(py, f.value.s) && Trimmed(f.value.s)
    requires forall d <- Values(doc, f.key) :: d.TextDatum? && py.eval(d.s).None?
    ensures Translate(py, f).Ok?
    ensures Accepts(e, doc, Translate(py, f).value) <==> Passes(py, f, doc)
  {
    var s := f.value.s;
    StripTrimmed(s);
    assert py.text(f.value) == s;
    var c := Term(Keyword(f.key), Str(Lower(s)), true);
    assert Translate(py, f) == Ok(if f.op.Eq? then Translated([c], []) else Translated([Exists(Parent(f.key))], [c]));
    hide Translate, Accepts, InMemory, ValueHits, Passes, Sane, IsTextQuery;
    forall d <- Values(doc, f.key) ensures ValueHits(e, d, c) == (InMemory(py, f, d) == !IsNegative(f.op)) {
      EqualTextTest(py, e, f, d);
    }
    FieldPasses(py, e, doc, f, c);
  }

  lemma NumeralPasses(py: Python, e: Engine, doc: Doc, f: Filter)
    requires Sane(py) && f.key != "" && (f.op.Eq? || IsRange(f.op)) && IsNumeralQuery(py, f.value)
    requires forall d <- Values(doc, f.key) :: d.IntDatum?
    ensures Translate(py, f).Ok?
    ensures Accepts(e, doc, Translate(py, f).value) <==> Passes(py, f, doc)
  {
    NumeralTranslated(py, f);
    var n := Int(NumeralOf(py, f.value));
    var c := if f.op.Eq? then Term(Parent(f.key), n, false) else Range(Parent(f.key), f.op, n);
    hide Translate, Accepts, InMemory, ValueHits, Passes, Sane, IsNumeralQuery;
    forall d <- Values(doc, f.key) ensures ValueHits(e, d, c) == (InMemory(py, f, d) == !IsNegative(f.op)) {
      NumeralHits(py, e, f, d);
    }
    FieldPasses(py, e, doc, f, c);
  }

  lemma ShouldUnfolds(e: Engine, doc: Doc, key: string, members: seq<Value>)
    requires members != [] && members[0].Str?
    ensures Hits(e, doc, TermsStringOrNumeric(key, members))
       <==> exists i | 0 <= i < |members| :: Hits(e, doc, TermOrMatch(key, members[i]))
  {
    assert members[0] in members;
    var c := TermsStringOrNumeric(key, members);
    assert |c.should| == |members| && forall i :: 0 <= i < |members| ==> c.should[i] == TermOrMatch(key, members[i]);
    assert Hits(e, doc, c) <==> exists x <- c.should :: Hits(e, doc, x);
    hide TermOrMatch, Hits;
    if i :| 0 <= i < |members| && Hits(e, doc, TermOrMatch(key, members[i])) {
      assert c.should[i] in c.should;
    }
  }

  lemma TermHits(e: Engine, doc: Doc, key: string, m: Value)
    requires m.Str? && Lower(m.s) == m.s
    ensures Hits(e, doc, TermOrMatch(key, m)) <==> exists d <- Values(doc, key) :: d.TextDatum? && m == Str(Lower(d.s))
  {
    FieldHits(e, doc, TermOrMatch(key, m));
    assert TermOrMatch(key, m).field.key == key;
    hide Hits, ValueHits, TermOrMatch;
    forall d <- Values(doc, key) ensures ValueHits(e, d, TermOrMatch(key, m)) == (d.TextDatum? && m == Str(Lower(d.s))) {
      MemberTerm(e, key, d, m);
    }
  }

  /** A "should" over one term per member asks for a value that is one, ignoring case. */
  lemma ShouldIsMembership(e: Engine, doc: Doc, key: string, members: seq<Value>)
    requires members != [] && forall m <- members :: m.Str? && Lower(m.s) == m.s
    ensures Hits(e, doc, TermsStringOrNumeric(key, members))
       <==> exists d <- Values(doc, key) :: d.TextDatum? && Str(Lower(d.s)) in members
  {
    assert members[0] in members;
    ShouldUnfolds(e, doc, key, members);
    hide Hits, TermsStringOrNumeric, TermOrMatch;
    forall i | 0 <= i < |members|
      ensures Hits(e, doc, TermOrMatch(key, members[i])) <==> exists d <- Values(doc, key) :: d.TextDatum? && members[i] == Str(Lower(d.s))
    {
      assert members[i] in members;
      TermHits(e, doc, key, members[i]);
    }
    if i :| 0 <= i < |members| && Hits(e, doc, TermOrMatch(key, members[i])) {
      var d :| d in Values(doc, key) && d.TextDatum? && members[i] == Str(Lower(d.s));
      assert members[i] in members;
    }
    if d :| d in Values(doc, key) && d.TextDatum? && Str(Lower(d.s)) in members {
      var i :| 0 <= i < |members| && members[i] == Str(Lower(d.s));
    }
  }

  lemma MembershipPasses(py: Python, e: Engine, doc: Doc, f: Filter)
    requires (f.op.In? || f.op.NotIn?) && f.key != "" && IsMemberQuery(f.value)
    requires forall d <- Values(doc, f.key) :: d.TextDatum?
    ensures Translate(py, f).Ok?
    ensures Accepts(e, doc, Translate(py, f).value) <==> Passes(py, f, doc)
  {
    var members := Normalised(f.value.items);
    MembersLowered(f);
    MembershipTranslated(py, f);
    assert members != [] by { assert |members| == |f.value.items|; }
    FieldHits(e, doc, Exists(Parent(f.key)));
    hide Normalised, TermsStringOrNumeric, Translate, InMemory, Accepts, Hits;
    ShouldIsMembership(e, doc, f.key, members);
    AcceptsOne(e, doc, TermsStringOrNumeric(f.key, members));
    AcceptsGuarded(e, doc, Exists(Parent(f.key)), TermsStringOrNumeric(f.key, members));
    forall d <- Values(doc, f.key)
      ensures InMemory(py, f, d) <==> if f.op.In? then Str(Lower(d.s)) in members else Str(Lower(d.s)) !in members
    {
      MembershipInMemory(py, f, d.s);
    }
  }

  /** One condition, one document, whatever the values of the negative operators are. */
  lemma ConditionMeans(py: Python, e: Engine, docs: Docs, kbs: seq<string>, f: Filter, id: DocId)
    requires Sane(py) && Comparable(py, docs, kbs, f) && id in docs && docs[id].kb in kbs
    ensures Translate(py, f).Ok?
    ensures Accepts(e, docs[id], Translate(py, f).value) <==> Passes(py, f, docs[id])
  {
    hide Accepts, InMemory, Translate, Passes;
    assert Values(docs[id], f.key) != [] <==> Carries(docs, kbs, id, f.key);
    if IsComparison(f.op) {
      if IsNumeralQuery(py, f.value) && IntKey(docs, kbs, f.key) {
        NumeralPasses(py, e, docs[id], f);
      } else {
        EqualPasses(py, e, docs[id], f);
      }
    } else if f.op.NotEmpty? {
      NotEmptyPasses(py, e, docs[id], f);
    } else if f.op.In? {
      MembershipPasses(py, e, docs[id], f);
    } else {
      TextPasses(py, e, docs[id], f);
    }
  }

  /** Some value passes the test, within the knowledge bases: what the in-memory side asks. */
  ghost predicate SomePasses(py: Python, docs: Docs, kbs: seq<string>, f: Filter, id: DocId) {
    id in docs && docs[id].kb in kbs && exists d <- Values(docs[id], f.key) :: InMemory(py, f, d)
  }

  /** The two sides agree on a document exactly when the operator is positive or the test says the
      same of all its values. */
  lemma PassesAgreesIff(py: Python, f: Filter, doc: Doc)
    ensures (Passes(py, f, doc) <==> exists d <- Values(doc, f.key) :: InMemory(py, f, d))
       <==> (IsNegative(f.op) ==> Uniform(py, f, doc))
  {
    hide InMemory;
    var values := Values(doc, f.key);
    if values != [] {
      assert values[0] in values;
    }
  }

  /** One condition, one document: the query and the in-memory test agree. */
  lemma ConditionAgrees(
    py: Python, e: Engine, docs: Docs, kbs: seq<string>, f: Filter, id: DocId)
    requires Sane(py) && Agreeable(py, docs, kbs, f)
    requires id in docs && docs[id].kb in kbs
    ensures Translate(py, f).Ok?
    ensures Accepts(e, docs[id], Translate(py, f).value) <==> SomePasses(py, docs, kbs, f, id)
  {
    ConditionMeans(py, e, docs, kbs, f, id);
    PassesAgreesIff(py, f, docs[id]);
    if !Carries(docs, kbs, id, f.key) {
      assert Values(docs[id], f.key) == [];
      assert Uniform(py, f, docs[id]);
    }
    hide Accepts, InMemory, Translate, Passes, Comparable, Uniform;
  }

  // ---- from one value to the index ----

  ghost function KindOf(py: Python, docs: Docs, kbs: seq<string>, f: Filter): Kind {
    if !IsComparison(f.op) then TextOperator
    else if IsNumeralQuery(py, f.value) then NumeralData else TextQuery
  }

  /** Every bucket of the condition's key goes with the condition. */
  lemma BucketsFit(py: Python, docs: Docs, kbs: seq<string>, metas: Index, f: Filter)
    requires Sane(py) && Represents(py, metas, docs, kbs) && Comparable(py, docs, kbs, f)
    requires f.key in metas
    ensures OneKind(py, KindOf(py, docs, kbs, f), f.op, f.value, metas[f.key])
  {
    forall b <- metas[f.key]
      ensures Fits(py, KindOf(py, docs, kbs, f), f.op, f.value, b.text)
    {
      var id := b.ids[0];
      assert InBucket(metas[f.key], b.text, id);
      assert Carries(docs, kbs, id, f.key);
      var d :| d in Values(docs[id], f.key) && DatumText(py, d) == b.text;
      if d.IntDatum? {
        assert py.eval(b.text) == Some(Int(d.n));
      }
    }
  }

  /** The index answers a condition with the documents one of whose values passes the test. */
  lemma IdsAreTested(py: Python, docs: Docs, kbs: seq<string>, metas: Index, f: Filter, id: DocId)
    requires Sane(py) && Represents(py, metas, docs, kbs) && Comparable(py, docs, kbs, f)
    ensures id in IdsOf(py, metas, f) <==> SomePasses(py, docs, kbs, f, id)
  {
    hide Test, Comparable;
    if f.key in metas {
      var buckets := metas[f.key];
      BucketsFit(py, docs, kbs, metas, f);
      RebindingIsHarmless(py, KindOf(py, docs, kbs, f), f.op, f.value, buckets, id);
      if Selected(py, buckets, f.op, f.value, id) {
        var b :| b in buckets && id in b.ids && Test(py, f.op, b.text, f.value).matched;
        assert InBucket(buckets, b.text, id);
        var d :| d in Values(docs[id], f.key) && DatumText(py, d) == b.text;
      }
      if SomePasses(py, docs, kbs, f, id) {
        var d :| d in Values(docs[id], f.key) && InMemory(py, f, d);
        assert Carries(docs, kbs, id, f.key);
        assert InBucket(buckets, DatumText(py, d), id);
      }
    } else {
      assert !Carries(docs, kbs, id, f.key);
    }
  }

  // ---- the whole filter list ----

  lemma {:induction false} TranslatedAt(py: Python, filters: seq<Filter>)
    requires forall f <- filters :: Translate(py, f).Ok?
    ensures TranslateAll(py, filters).Ok?
    ensures var ts := TranslateAll(py, filters).value;
      |ts| == |filters| && forall i :: 0 <= i < |ts| ==> Translate(py, filters[i]) == Ok(ts[i])
  {
    hide Translate;
    if filters != [] {
      assert filters[0] in filters;
      TranslatedAt(py, filters[1..]);
    }
  }

  ghost predicate Whole(t: Translated) {
    t.must != [] || t.mustNot != []
  }

  lemma TranslatedIsWhole(py: Python, f: Filter)
    ensures Translate(py, f).Ok? ==> Whole(Translate(py, f).value)
  {
  }

  /** The flat clause list is one clause per filter, in order. */
  lemma {:induction false} FlatIsOnePerFilter(ts: seq<Translated>)
    requires forall t <- ts :: Whole(t)
    ensures |FlatClauses(ts)| == |ts|
    ensures forall i :: 0 <= i < |ts| ==> ts[i].ToClauses() == [FlatClauses(ts)[i]]
  {
    if ts != [] {
      assert ts[0] in ts;
      FlatIsOnePerFilter(ts[1..]);
    }
  }

  /** A plan of whole filters is the and/or of the filters, within the knowledge bases. */
  lemma PlanMeaning(e: Engine, doc: Doc, plan: Plan, kbs: seq<string>)
    requires plan.translated != [] && forall t <- plan.translated :: Whole(t)
    ensures Hits(e, doc, plan.ToQuery(kbs)) <==>
      && doc.kb in kbs
      && if plan.logic.Or? then exists t <- plan.translated :: Accepts(e, doc, t)
         else forall t <- plan.translated :: Accepts(e, doc, t)
  {
    hide Accepts;
    var ts := plan.translated;
    var flat := FlatClauses(ts);
    FlatIsOnePerFilter(ts);
    forall i | 0 <= i < |ts|
      ensures Hits(e, doc, flat[i]) <==> Accepts(e, doc, ts[i])
    {
      ClausesAreAtomic(e, doc, ts[i]);
    }
    var inner := if plan.logic.Or? then BoolQuery([], [], [], flat) else BoolQuery(flat, [], [], []);
    assert plan.ToQuery(kbs) == BoolQuery([], [], [KbTerms(kbs), inner], []);
    BothHit(e, doc, KbTerms(kbs), inner);
    assert Hits(e, doc, KbTerms(kbs)) <==> doc.kb in kbs;
    hide Hits;
    InnerMeaning(e, doc, ts, flat, plan.logic.Or?);
  }

  lemma BothHit(e: Engine, doc: Doc, a: Clause, b: Clause)
    ensures Hits(e, doc, BoolQuery([], [], [a, b], [])) <==> Hits(e, doc, a) && Hits(e, doc, b)
  {
    assert [a, b][0] == a && [a, b][1] == b;
  }

  lemma InnerMeaning(e: Engine, doc: Doc, ts: seq<Translated>, flat: seq<Clause>, any: bool)
    requires ts != [] && |flat| == |ts|
    requires forall i | 0 <= i < |ts| :: Hits(e, doc, flat[i]) <==> Accepts(e, doc, ts[i])
    ensures any ==>
      (Hits(e, doc, BoolQuery([], [], [], flat)) <==> exists t <- ts :: Accepts(e, doc, t))
    ensures !any ==>
      (Hits(e, doc, BoolQuery(flat, [], [], [])) <==> forall t <- ts :: Accepts(e, doc, t))
  {
    hide Accepts, Hits;
    BoolHits(e, doc, flat);
    AnyAgrees(e, doc, ts, flat);
    AllAgree(e, doc, ts, flat);
  }

  lemma AnyAgrees(e: Engine, doc: Doc, ts: seq<Translated>, flat: seq<Clause>)
    requires |flat| == |ts|
    requires forall i | 0 <= i < |ts| :: Hits(e, doc, flat[i]) <==> Accepts(e, doc, ts[i])
    ensures (exists c <- flat :: Hits(e, doc, c)) <==> (exists t <- ts :: Accepts(e, doc, t))
  {
    hide Accepts, Hits;
    if c :| c in flat && Hits(e, doc, c) {
      var i :| 0 <= i < |flat| && flat[i] == c;
      assert ts[i] in ts && Accepts(e, doc, ts[i]);
    }
    if t :| t in ts && Accepts(e, doc, t) {
      var i :| 0 <= i < |ts| && ts[i] == t;
      assert flat[i] in flat && Hits(e, doc, flat[i]);
    }
  }

  lemma AllAgree(e: Engine, doc: Doc, ts: seq<Translated>, flat: seq<Clause>)
    requires |flat| == |ts|
    requires forall i | 0 <= i < |ts| :: Hits(e, doc, flat[i]) <==> Accepts(e, doc, ts[i])
    ensures (forall c <- flat :: Hits(e, doc, c)) <==> (forall t <- ts :: Accepts(e, doc, t))
  {
    hide Accepts, Hits;
    if c :| c in flat && !Hits(e, doc, c) {
      var i :| 0 <= i < |flat| && flat[i] == c;
      assert ts[i] in ts && !Accepts(e, doc, ts[i]);
    }
    if t :| t in ts && !Accepts(e, doc, t) {
      var i :| 0 <= i < |ts| && ts[i] == t;
      assert flat[i] in flat && !Hits(e, doc, flat[i]);
    }
  }

  lemma BoolHits(e: Engine, doc: Doc, flat: seq<Clause>)
    requires flat != []
    ensures Hits(e, doc, BoolQuery([], [], [], flat)) <==> exists c <- flat :: Hits(e, doc, c)
    ensures Hits(e, doc, BoolQuery(flat, [], [], [])) <==> forall c <- flat :: Hits(e, doc, c)
  {
  }

  lemma ComparableTranslates(py: Python, docs: Docs, kbs: seq<string>, f: Filter)
    requires Sane(py) && Comparable(py, docs, kbs, f)
    ensures Translate(py, f).Ok?
  {
    if f.value.Str? {
      assert py.text(f.value) == f.value.s;
    }
    if f.value.Int? {
      assert py.eval(py.text(f.value)) == Some(f.value);
    }
  }

  /** A plan exists, the routing check lets it through, and it means what its conditions mean. */
  lemma PlanExists(py: Python, e: Engine, docs: Docs, kbs: seq<string>, filters: seq<Filter>, logic: Logic)
    requires Sane(py) && filters != [] && !logic.BadLogic?
    requires forall f <- filters :: Comparable(py, docs, kbs, f)
    ensures IsPushdownSupported(filters) && PlanPushdown(py, filters, logic).Ok?
    ensures var plan := PlanPushdown(py, filters, logic).value;
      && plan.logic == logic && plan.translated != [] && |plan.translated| == |filters|
      && (forall t <- plan.translated :: Whole(t))
      && forall i | 0 <= i < |filters| :: Translate(py, filters[i]) == Ok(plan.translated[i])
  {
    assert IsPushdownSupported(filters);
    hide Translate, Sane, Comparable;
    forall f <- filters ensures Translate(py, f).Ok? {
      ComparableTranslates(py, docs, kbs, f);
    }
    TranslatedAt(py, filters);
    var plan := PlanPushdown(py, filters, logic).value;
    forall t <- plan.translated ensures Whole(t) {
      var i :| 0 <= i < |filters| && plan.translated[i] == t;
      TranslatedIsWhole(py, filters[i]);
    }
  }

  /** The push-down theorem: the plan exists, the routing check lets it through, and over all
      indexed documents the query hits exactly what the in-memory evaluator chooses. */
  lemma PushdownPreservesMeaning(
    py: Python, e: Engine, docs: Docs, kbs: seq<string>, metas: Index,
    filters: seq<Filter>, logic: Logic, id: DocId)
    requires Sane(py) && Represents(py, metas, docs, kbs)
    requires filters != [] && !logic.BadLogic?
    requires forall f <- filters :: Agreeable(py, docs, kbs, f)
    ensures IsPushdownSupported(filters)
    ensures PlanPushdown(py, filters, logic).Ok?
    ensures Chosen(py, metas, filters, logic, id)
       <==> id in docs && Hits(e, docs[id], PlanPushdown(py, filters, logic).value.ToQuery(kbs))
  {
    PlanExists(py, e, docs, kbs, filters, logic);
    hide Translate, Accepts, InMemory, IdsOf, Sane, Represents, Comparable, PlanPushdown, IsPushdownSupported;
    var plan := PlanPushdown(py, filters, logic).value;
    forall f <- filters ensures id in IdsOf(py, metas, f) <==> SomePasses(py, docs, kbs, f, id) {
      IdsAreTested(py, docs, kbs, metas, f, id);
    }
    hide Agreeable;
    if id in docs {
      PlanMeaning(e, docs[id], plan, kbs);
      if docs[id].kb in kbs {
        forall i | 0 <= i < |filters|
          ensures Accepts(e, docs[id], plan.translated[i]) <==> id in IdsOf(py, metas, filters[i])
        {
          assert filters[i] in filters;
          ConditionAgrees(py, e, docs, kbs, filters[i], id);
        }
        SameVerdicts(py, e, docs[id], metas, filters, plan.translated, id);
      } else {
        assert filters[0] in filters;
      }
    } else {
      assert filters[0] in filters;
    }
  }

  lemma SameVerdicts(
    py: Python, e: Engine, doc: Doc, metas: Index, filters: seq<Filter>, ts: seq<Translated>, id: DocId)
    requires |ts| == |filters|
    requires forall i | 0 <= i < |ts| :: Accepts(e, doc, ts[i]) <==> id in IdsOf(py, metas, filters[i])
    ensures (exists t <- ts :: Accepts(e, doc, t)) <==> exists f <- filters :: id in IdsOf(py, metas, f)
    ensures (forall t <- ts :: Accepts(e, doc, t)) <==> forall f <- filters :: id in IdsOf(py, metas, f)
  {
    hide Accepts, IdsOf;
    assert forall i | 0 <= i < |ts| :: ts[i] in ts && filters[i] in filters;
  }

  // ---- lists of values ----

  /** Does the query, for this one condition, hit what the in-memory evaluator chooses? */
  ghost predicate SameResult(py: Python, e: Engine, docs: Docs, kbs: seq<string>, metas: Index, f: Filter, id: DocId) {
    && PlanPushdown(py, [f], And).Ok?
    && (Chosen(py, metas, [f], And, id)
        <==> id in docs && Hits(e, docs[id], PlanPushdown(py, [f], And).value.ToQuery(kbs)))
  }

  lemma OneCondition(
    py: Python, e: Engine, docs: Docs, kbs: seq<string>, metas: Index, f: Filter, id: DocId)
    requires Sane(py) && Represents(py, metas, docs, kbs) && Comparable(py, docs, kbs, f)
    ensures SameResult(py, e, docs, kbs, metas, f, id)
       <==> (IsNegative(f.op) && Carries(docs, kbs, id, f.key) ==> Uniform(py, f, docs[id]))
  {
    assert f in [f];
    PlanExists(py, e, docs, kbs, [f], And);
    var plan := PlanPushdown(py, [f], And).value;
    IdsAreTested(py, docs, kbs, metas, f, id);
    assert Chosen(py, metas, [f], And, id) <==> SomePasses(py, docs, kbs, f, id) by {
      hide IdsOf, SomePasses;
      assert forall g <- [f] :: g == f;
    }
    assert plan.translated[0] in plan.translated && forall t <- plan.translated :: t == plan.translated[0];
    if id in docs {
      PlanMeaning(e, docs[id], plan, kbs);
      hide Accepts, Translate, InMemory, IdsOf, Sane, Represents, Comparable, PlanPushdown;
      if docs[id].kb in kbs {
        ConditionMeans(py, e, docs, kbs, f, id);
        PassesAgreesIff(py, f, docs[id]);
        if !Carries(docs, kbs, id, f.key) {
          assert Values(docs[id], f.key) == [] && Uniform(py, f, docs[id]);
        }
      }
    }
  }

  /** A negative operator agrees over a whole collection if and only if its test never tells two
      values of the same document apart. */
  lemma NegativeAgreesIffUniform(
    py: Python, e: Engine, docs: Docs, kbs: seq<string>, metas: Index, f: Filter)
    requires Sane(py) && Represents(py, metas, docs, kbs) && Comparable(py, docs, kbs, f) && IsNegative(f.op)
    ensures (forall id: DocId :: SameResult(py, e, docs, kbs, metas, f, id))
       <==> (forall id: DocId | Carries(docs, kbs, id, f.key) :: Uniform(py, f, docs[id]))
  {
    hide SameResult, Uniform, Comparable, Represents, Sane;
    forall id: DocId
      ensures SameResult(py, e, docs, kbs, metas, f, id) <==> (Carries(docs, kbs, id, f.key) ==> Uniform(py, f, docs[id]))
    {
      OneCondition(py, e, docs, kbs, metas, f, id);
    }
  }

  /** A document tagged "a" and "b" does not contain "a" in memory, for its "b"; the query asks that
      none of its values contain it. */
  lemma NotContainsDiffersOnLists(py: Python, e: Engine, kb: string)
    requires Sane(py)
    ensures var f, doc := Filter("tags", NotContains, Str("a")), Doc(kb, map["tags" := [TextDatum("a"), TextDatum("b")]]);
      && Translate(py, f).Ok? && !Accepts(e, doc, Translate(py, f).value)
      && exists d <- Values(doc, "tags") :: InMemory(py, f, d)
  {
    var f, doc := Filter("tags", NotContains, Str("a")), Doc(kb, map["tags" := [TextDatum("a"), TextDatum("b")]]);
    var values := Values(doc, "tags");
    assert values == [TextDatum("a"), TextDatum("b")];
    assert values[0] in values && values[1] in values;
    TextPasses(py, e, doc, f);
    assert Lower("a") == "a" && Lower("b") == "b";
    assert !InMemory(py, f, TextDatum("a")) by { assert OccursAt("a", "a", 0); }
    assert InMemory(py, f, TextDatum("b")) by { assert !Occurs("a", "b"); }
  }

  // ---- operators outside the agreement ----

  /** The negative operators that the routing check refuses ask of every value what the in-memory
      side asks of one; where the values agree, so on single texts, the two sides do. */
  lemma NotEqualAgreesIff(py: Python, e: Engine, doc: Doc, f: Filter)
    requires Sane(py) && f.key != "" && f.op.Ne? && f.value.Str?
    requires IsTextQuery(py, f.value.s) && Trimmed(f.value.s)
    requires forall d <- Values(doc, f.key) :: d.TextDatum? && py.eval(d.s).None?
    ensures Translate(py, f).Ok? && !IsPushdownSupported([f])
    ensures (Accepts(e, doc, Translate(py, f).value) <==> exists d <- Values(doc, f.key) :: InMemory(py, f, d))
       <==> Uniform(py, f, doc)
  {
    hide Accepts, InMemory, Passes, Uniform;
    EqualPasses(py, e, doc, f);
    PassesAgreesIff(py, f, doc);
    assert f in [f];
  }

  lemma NotInAgreesIff(py: Python, e: Engine, doc: Doc, f: Filter)
    requires f.key != "" && f.op.NotIn? && IsMemberQuery(f.value)
    requires forall d <- Values(doc, f.key) :: d.TextDatum?
    ensures Translate(py, f).Ok? && !IsPushdownSupported([f])
    ensures (Accepts(e, doc, Translate(py, f).value) <==> exists d <- Values(doc, f.key) :: InMemory(py, f, d))
       <==> Uniform(py, f, doc)
  {
    hide Accepts, InMemory, Passes, Uniform;
    MembershipPasses(py, e, doc, f);
    PassesAgreesIff(py, f, doc);
    assert f in [f];
  }

  lemma EitherHits(e: Engine, doc: Doc, a: Clause, b: Clause)
    ensures Hits(e, doc, BoolQuery([], [], [], [a, b])) <==> Hits(e, doc, a) || Hits(e, doc, b)
    ensures Hits(e, doc, BoolQuery([], [a], [], [])) <==> !Hits(e, doc, a)
  {
    assert [a, b][0] == a && [a, b][1] == b;
    assert a in [a];
  }

  /** "empty" agrees with the in-memory evaluator on a document exactly when the document has the
      key: a missing key is empty to Elasticsearch only. */
  lemma EmptyAgreesIffPresent(py: Python, e: Engine, doc: Doc, f: Filter)
    requires Sane(py) && f.key != "" && f.op.Empty?
    ensures Translate(py, f).Ok?
    ensures var hit := Accepts(e, doc, Translate(py, f).value);
      var selected := exists d <- Values(doc, f.key) :: InMemory(py, f, d);
      (hit == selected) == (Values(doc, f.key) != [])
  {
    EmptyMeans(py, e, doc, f);
    var blank := Term(Keyword(f.key), Str(""), false);
    FieldHits(e, doc, blank);
    hide Accepts, Hits, InMemory, ValueHits, Sane, Translate;
    forall d <- Values(doc, f.key) ensures ValueHits(e, d, blank) == InMemory(py, f, d) {
      BlankTest(py, e, f, d);
    }
  }

  lemma EmptyMeans(py: Python, e: Engine, doc: Doc, f: Filter)
    requires f.key != "" && f.op.Empty?
    ensures Translate(py, f).Ok?
    ensures Accepts(e, doc, Translate(py, f).value)
       <==> Values(doc, f.key) == [] || Hits(e, doc, Term(Keyword(f.key), Str(""), false))
  {
    var missing := BoolQuery([], [Exists(Parent(f.key))], [], []);
    var blank := Term(Keyword(f.key), Str(""), false);
    EmptyTranslated(py, f);
    hide Accepts, Hits, Translate;
    AcceptsOne(e, doc, BoolQuery([], [], [], [missing, blank]));
    EitherHits(e, doc, missing, blank);
    EitherHits(e, doc, Exists(Parent(f.key)), blank);
    FieldHits(e, doc, Exists(Parent(f.key)));
  }

  lemma EmptyTranslated(py: Python, f: Filter)
    requires f.key != "" && f.op.Empty?
    ensures Translate(py, f) == Ok(Translated([
      BoolQuery([], [], [], [BoolQuery([], [Exists(Parent(f.key))], [], []), Term(Keyword(f.key), Str(""), false)])], []))
  {
  }

  // ---- where trimming matters ----

  /** For a text query "=" agrees on every text value exactly when the query has no blanks
      around it: only the push-down side strips them. */
  lemma EqualAgreesIffTrimmed(py: Python, e: Engine, key: string, s: string)
    requires Sane(py) && key != "" && IsTextQuery(py, s)
    ensures var f := Filter(key, Eq, Str(s));
      Translate(py, f).Ok? && ((forall x | py.eval(x).None? :: EqualAgreesOn(py, e, f, x)) <==> Strip(s) == s)
  {
    var f := Filter(key, Eq, Str(s));
    var clause := Term(Keyword(key), Str(Lower(Strip(s))), true);
    assert py.text(Str(s)) == s;
    assert Translate(py, f) == Ok(Translated([clause], []));
    forall x | py.eval(x).None? ensures EqualAgreesOn(py, e, f, x) <==> (Lower(x) == Lower(Strip(s)) <==> Lower(x) == Lower(s)) {
      EqualOn(py, e, f, x);
    }
    StripLength(s);
    assert EqualAgreesOn(py, e, f, s) <==> Lower(s) == Lower(Strip(s));
  }

  /** On a document whose one value is the text `x`. */
  predicate EqualAgreesOn(py: Python, e: Engine, f: Filter, x: string)
    requires Translate(py, f).Ok?
  {
    Accepts(e, Doc("", map[f.key := [TextDatum(x)]]), Translate(py, f).value) <==> InMemory(py, f, TextDatum(x))
  }

  lemma EqualOn(py: Python, e: Engine, f: Filter, x: string)
    requires Sane(py) && f.key != "" && f.op.Eq? && f.value.Str? && IsTextQuery(py, f.value.s) && py.eval(x).None?
    requires Translate(py, f) == Ok(Translated([Term(Keyword(f.key), Str(Lower(Strip(f.value.s))), true)], []))
    ensures EqualAgreesOn(py, e, f, x)
       <==> (Lower(x) == Lower(Strip(f.value.s)) <==> Lower(x) == Lower(f.value.s))
  {
    var s := f.value.s;
    var clause := Term(Keyword(f.key), Str(Lower(Strip(s))), true);
    var doc := Doc("", map[f.key := [TextDatum(x)]]);
    assert py.text(Str(s)) == s;
    AcceptsOne(e, doc, clause);
    FieldHits(e, doc, clause);
    assert Values(doc, f.key) == [TextDatum(x)] && TextDatum(x) in Values(doc, f.key);
    LowerIdempotent(Strip(s));
    assert InMemory(py, f, TextDatum(x)) <==> Lower(x) == Lower(s);
    hide Translate;
  }
}
