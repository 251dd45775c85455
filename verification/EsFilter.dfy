/** Translation of metadata conditions to an Elasticsearch bool query
    (common/metadata_es_filter.py). */
module EsFilter {
  import opened Text
  import opened PyValues
  import opened Coercion
  import opened Wildcards
  import opened EsQuery

  datatype Translated = Translated(must: seq<Clause>, mustNot: seq<Clause>)
  {
    /** At most one clause, so that an "or" parent cannot tear the filter apart. */
    function ToClauses(): seq<Clause> {
      if must == [] && mustNot == [] then []
      else if mustNot == [] then
        if |must| == 1 then must else [BoolQuery(must, [], [], [])]
      else [BoolQuery(must, mustNot, [], [])]
    }
  }

  datatype Plan = Plan(logic: Logic, translated: seq<Translated>)
  {
    function ToQuery(kbs: seq<string>): Clause {
      if translated == [] then BoolQuery([], [], [KbTerms(kbs)], [])
      else
        var flat := FlatClauses(translated);
        var inner := if logic.Or? then BoolQuery([], [], [], flat) else BoolQuery(flat, [], [], []);
        BoolQuery([], [], [KbTerms(kbs), inner], [])
    }
  }

  function FlatClauses(ts: seq<Translated>): seq<Clause> {
    if ts == [] then [] else ts[0].ToClauses() + FlatClauses(ts[1..])
  }

  // ---- value coercion ----

  function CoerceScalar(py: Python, v: Value): Result<Value> {
    if v.Null? || v.List? then Raised("scalar comparison value is not a scalar")
    else
      var s := Strip(py.text(v));
      if IsDate(s) then Ok(Str(s))
      else match py.eval(s)
        case None => Ok(Str(Lower(s)))
        case Some(Str(t)) => Ok(Str(Lower(t)))
        case Some(Int(n)) => Ok(Int(n))
        case Some(Bool(b)) => Ok(Bool(b))
        case Some(_) => Ok(Str(Lower(s)))
  }

  function CoerceRange(py: Python, v: Value): Result<Value> {
    if v.Null? then Raised("range comparison value is None")
    else
      var s := Strip(py.text(v));
      if IsDate(s) then Ok(Str(s))
      else match py.eval(s)
        case Some(Int(n)) => Ok(Int(n))
        case Some(Bool(b)) => Ok(Bool(b))
        case _ => Ok(Str(s))
  }

  // ---- one operator at a time ----

  function TermOrMatch(key: string, v: Value): Clause {
    if v.Str? then Term(Keyword(key), v, true) else Term(Parent(key), v, false)
  }

  function TermsStringOrNumeric(key: string, members: seq<Value>): Clause {
    if forall m <- members :: !m.Str? then Terms(Parent(key), members)
    else BoolQuery([], [], [], seq(|members|, i requires 0 <= i < |members| => TermOrMatch(key, members[i])))
  }

  function ContainsPattern(text: string): string {
    "*" + Escape(ES_WILDCARD, text) + "*"
  }

  function TranslateEmpty(key: string): Translated {
    Translated([BoolQuery([], [], [],
                          [BoolQuery([], [Exists(Parent(key))], [], []),
                           Term(Keyword(key), Str(""), false)])], [])
  }

  function TranslateNotEmpty(key: string): Translated {
    Translated([Exists(Parent(key))], [Term(Keyword(key), Str(""), false)])
  }

  function Translate(py: Python, f: Filter): Result<Translated> {
    if f.key == "" then Raised("filter is missing a string key")
    else match f.op
      case Unknown(_) => Raised("unknown operator")
      case Empty => Ok(TranslateEmpty(f.key))
      case NotEmpty => Ok(TranslateNotEmpty(f.key))
      case Eq =>
        var v :- CoerceScalar(py, f.value);
        Ok(Translated([TermOrMatch(f.key, v)], []))
      case Ne =>
        var v :- CoerceScalar(py, f.value);
        Ok(Translated([Exists(Parent(f.key))], [TermOrMatch(f.key, v)]))
      case In =>
        var members :- CsvOrList(py, f.value);
        Ok(Translated([TermsStringOrNumeric(f.key, members)], []))
      case NotIn =>
        var members :- CsvOrList(py, f.value);
        Ok(Translated([Exists(Parent(f.key))], [TermsStringOrNumeric(f.key, members)]))
      case Contains =>
        var text :- CoerceString(py, f.value);
        Ok(Translated([Wildcard(Keyword(f.key), ContainsPattern(text))], []))
      case NotContains =>
        var text :- CoerceString(py, f.value);
        Ok(Translated([Exists(Parent(f.key))], [Wildcard(Keyword(f.key), ContainsPattern(text))]))
      case StartWith =>
        var text :- CoerceString(py, f.value);
        Ok(Translated([Prefix(Keyword(f.key), text)], []))
      case EndWith =>
        var text :- CoerceString(py, f.value);
        Ok(Translated([Wildcard(Keyword(f.key), "*" + Escape(ES_WILDCARD, text))], []))
      case _ =>
        var bound :- CoerceRange(py, f.value);
        Ok(Translated([Exists(Parent(f.key)), Range(Parent(f.key), f.op, bound)], []))
  }

  function TranslateAll(py: Python, filters: seq<Filter>): Result<seq<Translated>> {
    if filters == [] then Ok([])
    else
      var t :- Translate(py, filters[0]);
      var rest :- TranslateAll(py, filters[1..]);
      Ok([t] + rest)
  }

  function Prepended(done: seq<Translated>, rest: Result<seq<Translated>>): Result<seq<Translated>> {
    if rest.Ok? then Ok(done + rest.value) else rest
  }

  function PlanPushdown(py: Python, filters: seq<Filter>, logic: Logic): Result<Plan> {
    if logic.BadLogic? then Raised("unknown logic")
    else
      var translated :- TranslateAll(py, filters);
      Ok(Plan(logic, translated))
  }

  /** The loop of `plan_pushdown`: stops at the first condition that raises. */
  method PlanPushdownLoop(py: Python, filters: seq<Filter>, logic: Logic) returns (r: Result<Plan>)
    ensures r == PlanPushdown(py, filters, logic)
  {
    if logic.BadLogic? {
      return Raised("unknown logic");
    }
    var translated: seq<Translated> := [];
    assert filters[0..] == filters;
    assert TranslateAll(py, filters) == Prepended([], TranslateAll(py, filters)) by {
      if TranslateAll(py, filters).Ok? {
        assert [] + TranslateAll(py, filters).value == TranslateAll(py, filters).value;
      }
    }
    for i := 0 to |filters|
      invariant TranslateAll(py, filters)
             == Prepended(translated, TranslateAll(py, filters[i..]))
    {
      assert filters[i..][1..] == filters[i + 1..];
      var t := Translate(py, filters[i]);
      if t.Raised? {
        return Raised(t.reason);
      }
      var rest := TranslateAll(py, filters[i + 1..]);
      if rest.Ok? {
        assert translated + ([t.value] + rest.value) == (translated + [t.value]) + rest.value;
      }
      translated := translated + [t.value];
    }
    assert translated + [] == translated;
    r := Ok(Plan(logic, translated));
  }

  /** The routing pre-check: negative operators that go wrong on lists are refused. */
  predicate IsPushdownSupported(filters: seq<Filter>) {
    forall f <- filters :: !f.op.Unknown? && !f.op.Ne? && !f.op.NotIn? && f.key != ""
  }
}
