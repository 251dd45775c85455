/** The part of the Elasticsearch query language the filter translator emits, and what a
    query means for one document. */
module EsQuery {
  import opened Text
  import opened PyValues
  import opened Wildcards

  datatype Datum = TextDatum(s: string) | IntDatum(n: int)

  /** A key holds a list of values; a single value is a list of one, and no value no key. */
  datatype Doc = Doc(kb: string, meta: map<string, seq<Datum>>)

  /** `meta_fields.<key>`, or its `.keyword` sub-field. */
  datatype Field = Parent(key: string) | Keyword(key: string)

  datatype Clause =
    | Exists(field: Field)
    | Term(field: Field, value: Value, ignoreCase: bool)
    | Terms(field: Field, values: seq<Value>)
    | Prefix(field: Field, text: string)      // case_insensitive
    | Wildcard(field: Field, pattern: string) // case_insensitive
    | Range(field: Field, op: Op, bound: Value)
    | KbTerms(kbs: seq<string>)
    | BoolQuery(must: seq<Clause>, mustNot: seq<Clause>, filter: seq<Clause>, should: seq<Clause>)
      // `should` comes with minimum_should_match 1 whenever it is present

  /** How an analyzed text field answers term and range queries is up to the engine. */
  datatype Engine = Engine(analyzedTerm: (string, Value) -> bool, analyzedRange: (string, Op, Value) -> bool)

  function Values(doc: Doc, key: string): seq<Datum> {
    if key in doc.meta then doc.meta[key] else []
  }

  /** The untokenized text behind a `.keyword` field; only texts have one. */
  function KeywordText(d: Datum, field: Field): Option<string> {
    if d.TextDatum? && field.Keyword? then Some(d.s) else None
  }

  predicate TermMatches(e: Engine, d: Datum, field: Field, value: Value, ignoreCase: bool) {
    match d
    case IntDatum(n) => field.Parent? && AsInt(value) == Some(n)
    case TextDatum(s) =>
      if field.Parent? then e.analyzedTerm(s, value)
      else value.Str? && (s == value.s || (ignoreCase && Lower(s) == Lower(value.s)))
  }

  predicate RangeMatches(e: Engine, d: Datum, field: Field, op: Op, bound: Value) {
    match d
    case IntDatum(n) =>
      && field.Parent? && AsInt(bound).Some?
      && var m := AsInt(bound).value;
         (op.Gt? && n > m) || (op.Lt? && n < m) || (op.Ge? && n >= m) || (op.Le? && n <= m)
    case TextDatum(s) => field.Parent? && e.analyzedRange(s, op, bound)
  }

  /** Does one value match a clause on its field? */
  predicate ValueHits(e: Engine, d: Datum, c: Clause) {
    match c
    case Exists(_) => true
    case Term(field, value, ignoreCase) => TermMatches(e, d, field, value, ignoreCase)
    case Terms(field, values) => exists v <- values :: TermMatches(e, d, field, v, false)
    case Prefix(field, text) => KeywordText(d, field).Some? && StartsWith(Lower(KeywordText(d, field).value), Lower(text))
    case Wildcard(field, pattern) =>
      KeywordText(d, field).Some? && Matches(ES_WILDCARD, pattern, KeywordText(d, field).value)
    case Range(field, op, bound) => RangeMatches(e, d, field, op, bound)
    case _ => false
  }

  /** Does `doc` match clause `c`? A clause on a field asks for some value that does. */
  predicate Hits(e: Engine, doc: Doc, c: Clause) {
    match c
    case KbTerms(kbs) => doc.kb in kbs
    case BoolQuery(must, mustNot, filter, should) =>
      && (forall x <- must :: Hits(e, doc, x))
      && (forall x <- mustNot :: !Hits(e, doc, x))
      && (forall x <- filter :: Hits(e, doc, x))
      && (should == [] || exists x <- should :: Hits(e, doc, x))
    case _ => exists d <- Values(doc, c.field.key) :: ValueHits(e, d, c)
  }
}
