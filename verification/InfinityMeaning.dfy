/** What the filter text emitted for Infinity selects, once the basic predicates read a row as they
    should: the symbols written out, numbers as integers, patterns as SQL reads them
    (common/metadata_infinity_filter.py). */
module InfinityMeaning {
  import opened Text
  import opened PyValues
  import opened Coercion
  import opened Membership
  import opened Wildcards
  import opened EsQuery
  import opened SqlCondition
  import opened InfinityFilter

  /** The basic predicates read the values that the row has under the key. Order tests and patterns
      are read on single values; the extracted string of a blank text is its two quotes. */
  ghost predicate ReadsValues(py: Python, row: Pred -> bool, key: string, values: seq<Datum>) {
    var path := "$." + key;
    && (forall s :: row(JsonContains(path, Literal("\"" + s + "\""))) <==> TextDatum(s) in values)
    && (forall n :: row(JsonContains(path, Number(py.text(Int(n))))) <==> IntDatum(n) in values)
    && (|values| == 1 ==>
          match values[0]
          case IntDatum(n) => ReadsOrders(py, row, path, n)
          case TextDatum(x) =>
            && (forall p :: row(StringLike(path, p)) <==> Matches(SQL_LIKE, p, x))
            && (row(StringTest(path, "=", "\"\"")) <==> x == "")
            && (row(StringTest(path, "!=", "\"\"")) <==> x != ""))
  }

  ghost predicate ReadsOrders(py: Python, row: Pred -> bool, path: string, n: int) {
    forall m ::
      && (row(NumberTest(path, ">", Number(py.text(Int(m))))) <==> n > m)
      && (row(NumberTest(path, "<", Number(py.text(Int(m))))) <==> n < m)
      && (row(NumberTest(path, ">=", Number(py.text(Int(m))))) <==> n >= m)
      && (row(NumberTest(path, "<=", Number(py.text(Int(m))))) <==> n <= m)
  }

  /** Such a row exists for any values. */
  ghost function RowOf(py: Python, values: seq<Datum>): Pred -> bool {
    (p: Pred) =>
      match p
      case JsonContains(_, Literal(t)) => exists s :: t == "\"" + s + "\"" && TextDatum(s) in values
      case JsonContains(_, Number(t)) => exists n :: t == py.text(Int(n)) && IntDatum(n) in values
      case NumberTest(_, op, Number(t)) =>
        |values| == 1 && values[0].IntDatum? && exists m :: t == py.text(Int(m)) && SymbolHolds(op, values[0].n, m)
      case StringLike(_, pattern) => |values| == 1 && values[0].TextDatum? && Matches(SQL_LIKE, pattern, values[0].s)
      case StringTest(_, op, _) => (op == "=") == (|values| == 1 && values[0] == TextDatum(""))
      case _ => false
  }

  predicate SymbolHolds(symbol: string, n: int, m: int) {
    (symbol == ">" && n > m) || (symbol == "<" && n < m) || (symbol == ">=" && n >= m) || (symbol == "<=" && n <= m)
  }

  lemma TextTellsInts(py: Python)
    requires Sane(py)
    ensures forall n, m | py.text(Int(n)) == py.text(Int(m)) :: n == m
  {
    forall n, m | py.text(Int(n)) == py.text(Int(m)) ensures n == m {
      assert py.eval(py.text(Int(n))) == Some(Int(n)) && py.eval(py.text(Int(m))) == Some(Int(m));
    }
  }

  lemma RowReadsMembers(py: Python, path: string, values: seq<Datum>)
    requires Sane(py)
    ensures forall s :: RowOf(py, values)(JsonContains(path, Literal("\"" + s + "\""))) <==> TextDatum(s) in values
    ensures forall n :: RowOf(py, values)(JsonContains(path, Number(py.text(Int(n))))) <==> IntDatum(n) in values
  {
    TextTellsInts(py);
    hide Sane, Matches, SymbolHolds;
    forall s ensures RowOf(py, values)(JsonContains(path, Literal("\"" + s + "\""))) <==> TextDatum(s) in values {
      QuotesTell(s);
    }
  }

  lemma RowReadsOrders(py: Python, path: string, n: int)
    requires Sane(py)
    ensures ReadsOrders(py, RowOf(py, [IntDatum(n)]), path, n)
  {
    TextTellsInts(py);
    hide Sane, Matches, SymbolHolds;
    forall op, m
      ensures RowOf(py, [IntDatum(n)])(NumberTest(path, op, Number(py.text(Int(m))))) <==> SymbolHolds(op, n, m)
    {
    }
    SymbolsDiffer(n);
    hide RowOf;
  }

  lemma SymbolsDiffer(n: int)
    ensures forall m ::
      && (SymbolHolds(">", n, m) <==> n > m) && (SymbolHolds("<", n, m) <==> n < m)
      && (SymbolHolds(">=", n, m) <==> n >= m) && (SymbolHolds("<=", n, m) <==> n <= m)
  {
    assert ">"[0] == '>' && "<"[0] == '<' && ">="[0] == '>' && "<="[0] == '<' && |">="| == 2 && |"<="| == 2;
  }

  lemma RowReadsText(py: Python, path: string, x: string)
    ensures forall p :: RowOf(py, [TextDatum(x)])(StringLike(path, p)) <==> Matches(SQL_LIKE, p, x)
    ensures RowOf(py, [TextDatum(x)])(StringTest(path, "=", "\"\"")) <==> x == ""
    ensures RowOf(py, [TextDatum(x)])(StringTest(path, "!=", "\"\"")) <==> x != ""
  {
    hide Matches, SymbolHolds;
    assert "="[0] != "!="[0];
  }

  lemma RowReadsValues(py: Python, key: string, values: seq<Datum>)
    requires Sane(py)
    ensures ReadsValues(py, RowOf(py, values), key, values)
  {
    hide Sane, Matches, SymbolHolds, ReadsOrders, RowOf;
    RowReadsMembers(py, "$." + key, values);
    if |values| == 1 {
      assert values == [values[0]];
      if values[0].IntDatum? {
        RowReadsOrders(py, "$." + key, values[0].n);
      } else {
        RowReadsText(py, "$." + key, values[0].s);
      }
    }
  }

  lemma QuotesTell(s: string)
    ensures forall t | "\"" + t + "\"" == "\"" + s + "\"" :: t == s
  {
    forall t | "\"" + t + "\"" == "\"" + s + "\"" ensures t == s {
      assert ("\"" + t + "\"")[1..|t| + 1] == t && ("\"" + s + "\"")[1..|s| + 1] == s;
    }
  }

  // ---- what is asked of the values ----

  /** The trimmed text of the query spells this integer. */
  predicate SpellsInt(py: Python, v: Value, n: int) {
    py.eval(Strip(py.text(v))) == Some(Int(n))
  }

  predicate SpellsBool(py: Python, v: Value) {
    py.eval(Strip(py.text(v))).Some? && py.eval(Strip(py.text(v))).value.Bool?
  }

  predicate SpellsNumber(py: Python, v: Value) {
    py.eval(Strip(py.text(v))).Some? && (py.eval(Strip(py.text(v))).value.Int? || py.eval(Strip(py.text(v))).value.Bool?)
  }

  /** An integer is asked for by a query that spells it, a text by the very same text. */
  predicate AsksFor(py: Python, v: Value, d: Datum) {
    match d
    case IntDatum(n) => SpellsInt(py, v, n)
    case TextDatum(x) => !SpellsNumber(py, v) && x == py.text(v)
  }

  /** Members are lower-cased and trimmed before they are asked for; stored texts are not. */
  function Folded(m: Value): Value {
    if m.Str? then Str(Lower(Strip(m.s))) else m
  }

  /** What the condition asks of the values under its key. */
  ghost predicate Asks(py: Python, f: Filter, values: seq<Datum>) {
    match f.op
    case Unknown(_) => false
    case Eq => exists d <- values :: AsksFor(py, f.value, d)
    case Ne => !exists d <- values :: AsksFor(py, f.value, d)
    case Contains => exists d <- values :: AsksFor(py, f.value, d)
    case NotContains => TextDatum(py.text(f.value)) !in values
    case In => exists m, d | d in values :: WantsMember(py, f.value, m) && AsksFor(py, Folded(m), d)
    case NotIn => !exists m, d | d in values :: WantsMember(py, f.value, m) && AsksFor(py, Folded(m), d)
    case StartWith => exists d <- values :: d.TextDatum? && StartsWith(d.s, py.text(f.value))
    case EndWith => exists d <- values :: d.TextDatum? && EndsWith(d.s, py.text(f.value))
    case Empty => TextDatum("") in values
    case NotEmpty => TextDatum("") !in values
    case _ => exists n, m :: IntDatum(n) in values && SpellsInt(py, f.value, m) && OrderHolds(f.op, n, m)
  }

  /** Where the predicates above say how to read the row: membership on any values, patterns and
      blanks on one text, orders on one integer; truth values are left to the engine. */
  ghost predicate IsRead(py: Python, f: Filter, values: seq<Datum>) {
    match f.op
    case Unknown(_) => true
    case Eq => !SpellsBool(py, f.value)
    case Ne => !SpellsBool(py, f.value)
    case Contains => !SpellsBool(py, f.value)
    case NotContains => true
    case In => forall m | WantsMember(py, f.value, m) :: !SpellsBool(py, Folded(m))
    case NotIn => forall m | WantsMember(py, f.value, m) :: !SpellsBool(py, Folded(m))
    case StartWith => |values| == 1 && values[0].TextDatum?
    case EndWith => |values| == 1 && values[0].TextDatum?
    case Empty => |values| == 1 && values[0].TextDatum?
    case NotEmpty => |values| == 1 && values[0].TextDatum?
    case _ => |values| == 1 && values[0].IntDatum? && exists m :: SpellsInt(py, f.value, m)
  }

  // ---- one condition ----

  /** A member predicate asks for one of the values. */
  lemma MemberReads(py: Python, row: Pred -> bool, key: string, values: seq<Datum>, v: Value)
    requires Sane(py) && ReadsValues(py, row, key, values) && !SpellsBool(py, v)
    ensures row(Member(py, key, v)) <==> exists d <- values :: AsksFor(py, v, d)
  {
    var spelt := py.eval(Strip(py.text(v)));
    if spelt.Some? && spelt.value.Int? {
      var n := spelt.value.n;
      assert Member(py, key, v) == JsonContains("$." + key, Number(py.text(Int(n))));
      assert AsksFor(py, v, IntDatum(n));
    } else {
      assert Member(py, key, v) == JsonContains("$." + key, Literal("\"" + py.text(v) + "\""));
      assert AsksFor(py, v, TextDatum(py.text(v)));
    }
  }

  lemma NormalisedIsFolded(m: Value)
    ensures NormalisedMember(m) == Folded(m)
  {
    if m.Str? {
      StripLeftLower(m.s);
      StripRightLower(StripLeft(m.s));
    }
  }

  lemma MembersReads(py: Python, row: Pred -> bool, f: Filter, values: seq<Datum>)
    requires Sane(py) && ReadsValues(py, row, f.key, values) && CsvOrList(py, f.value).Ok?
    requires forall m | WantsMember(py, f.value, m) :: !SpellsBool(py, Folded(m))
    ensures (exists m <- CsvOrList(py, f.value).value :: row(Member(py, f.key, m)))
       <==> exists m, d | d in values :: WantsMember(py, f.value, m) && AsksFor(py, Folded(m), d)
  {
    var raw := RawMembers(py, f.value);
    var members := Normalised(raw);
    assert CsvOrList(py, f.value).value == members;
    hide Member, AsksFor, WantsMember, ReadsValues, SpellsBool, Folded, NormalisedMember, RawMembers, Sane;
    forall i | 0 <= i < |raw|
      ensures WantsMember(py, f.value, raw[i])
      ensures row(Member(py, f.key, members[i])) <==> exists d <- values :: AsksFor(py, Folded(raw[i]), d)
    {
      assert raw[i] in raw;
      RawMembersAre(py, f.value, raw[i]);
      NormalisedIsFolded(raw[i]);
      MemberReads(py, row, f.key, values, Folded(raw[i]));
    }
    if m :| m in members && row(Member(py, f.key, m)) {
      var i :| 0 <= i < |members| && members[i] == m;
      var d :| d in values && AsksFor(py, Folded(raw[i]), d);
    }
    if m, d :| d in values && WantsMember(py, f.value, m) && AsksFor(py, Folded(m), d) {
      RawMembersAre(py, f.value, m);
      var i :| 0 <= i < |raw| && raw[i] == m;
      assert members[i] in members;
    }
  }

  lemma LikeReads(py: Python, row: Pred -> bool, key: string, x: string, text: string)
    requires ReadsValues(py, row, key, [TextDatum(x)])
    ensures row(StringLike(Path(key), Escape(SQL_LIKE, text) + "%")) <==> StartsWith(x, text)
    ensures row(StringLike(Path(key), "%" + Escape(SQL_LIKE, text))) <==> EndsWith(x, text)
  {
    PrefixPatternExact(SQL_LIKE, text, x);
    SuffixPatternExact(SQL_LIKE, text, x);
    assert "%" == [SQL_LIKE.many];
    hide Escape, Matches;
  }

  lemma OrderReads(py: Python, row: Pred -> bool, f: Filter, n: int, m: int)
    requires ReadsValues(py, row, f.key, [IntDatum(n)]) && IsRange(f.op) && SpellsInt(py, f.value, m)
    ensures Says(py, f, row) <==> OrderHolds(f.op, n, m)
  {
    assert ReadsOrders(py, row, Path(f.key), n);
    hide ReadsValues;
    assert NumberOrText(py, f.value) == Int(m);
  }

  lemma SaysMember(py: Python, f: Filter, row: Pred -> bool)
    requires f.op.Eq? || f.op.Ne? || f.op.Contains?
    ensures Says(py, f, row) <==> (row(Member(py, f.key, f.value)) == !f.op.Ne?)
  {
  }

  lemma SaysMembers(py: Python, f: Filter, row: Pred -> bool)
    requires (f.op.In? || f.op.NotIn?) && CsvOrList(py, f.value).Ok?
    ensures Says(py, f, row)
       <==> ((exists m <- CsvOrList(py, f.value).value :: row(Member(py, f.key, m))) == f.op.In?)
  {
    hide CsvOrList, Member;
  }

  lemma SaysAffix(py: Python, f: Filter, row: Pred -> bool)
    requires f.op.StartWith? || f.op.EndWith?
    ensures Says(py, f, row)
       <==> row(StringLike(Path(f.key), if f.op.StartWith? then Escape(SQL_LIKE, py.text(f.value)) + "%"
                                        else "%" + Escape(SQL_LIKE, py.text(f.value))))
  {
    hide Escape;
  }

  lemma BlankReads(py: Python, row: Pred -> bool, f: Filter, x: string)
    requires (f.op.Empty? || f.op.NotEmpty?) && ReadsValues(py, row, f.key, [TextDatum(x)])
    ensures Says(py, f, row) <==> ((x == "") == f.op.Empty?)
  {
    assert Quoted("") == "\"\"";
    hide Matches;
  }

  lemma NotContainsReads(py: Python, row: Pred -> bool, f: Filter, values: seq<Datum>)
    requires f.op.NotContains? && ReadsValues(py, row, f.key, values)
    ensures Says(py, f, row) <==> TextDatum(py.text(f.value)) !in values
  {
    var text := py.text(f.value);
    assert row(JsonContains("$." + f.key, Literal("\"" + text + "\""))) <==> TextDatum(text) in values;
    hide Matches, ReadsValues;
  }

  lemma MembershipIsTranslated(py: Python, f: Filter)
    requires Translate(py, f).Ok? && (f.op.In? || f.op.NotIn?)
    ensures CsvOrList(py, f.value).Ok?
  {
    hide CsvOrList, Conditions, MemberParts, Join;
  }

  lemma OnlyValue(values: seq<Datum>)
    requires |values| == 1
    ensures values == [values[0]] && forall d <- values :: d == values[0]
  {
  }

  /** What a condition says of a row that is read as it should is what it asks of the values. */
  lemma ConditionReads(py: Python, row: Pred -> bool, f: Filter, values: seq<Datum>)
    requires Sane(py) && Translate(py, f).Ok? && ReadsValues(py, row, f.key, values) && IsRead(py, f, values)
    ensures Says(py, f, row) <==> Asks(py, f, values)
  {
    hide Says, ReadsValues, Translate, Member, AsksFor, WantsMember, SpellsBool, SpellsInt, Folded, Sane, CsvOrList,
      StartsWith, EndsWith, Escape;
    if f.op.In? || f.op.NotIn? {
      MembershipIsTranslated(py, f);
      MembersReads(py, row, f, values);
      SaysMembers(py, f, row);
    } else if f.op.NotContains? {
      NotContainsReads(py, row, f, values);
    } else if f.op.Eq? || f.op.Ne? || f.op.Contains? {
      MemberReads(py, row, f.key, values, f.value);
      SaysMember(py, f, row);
    } else if f.op.Unknown? {
      NotTranslated(py, f);
    } else {
      OnlyValue(values);
      if f.op.StartWith? || f.op.EndWith? {
        LikeReads(py, row, f.key, values[0].s, py.text(f.value));
        SaysAffix(py, f, row);
      } else if f.op.Empty? || f.op.NotEmpty? {
        BlankReads(py, row, f, values[0].s);
      } else {
        var m :| SpellsInt(py, f.value, m);
        OrderReads(py, row, f, values[0].n, m);
        OneInt(py, f.value);
      }
    }
  }

  lemma OneInt(py: Python, v: Value)
    ensures forall a, b | SpellsInt(py, v, a) && SpellsInt(py, v, b) :: a == b
  {
  }

  // ---- which conditions are translated ----

  /** The other conditions raise. */
  ghost predicate IsTranslated(py: Python, f: Filter) {
    && f.key != "" && IsKey(f.key)
    && match f.op
       case Unknown(_) => false
       case Empty => true
       case NotEmpty => true
       case Eq => !f.value.Null? && !f.value.List?
       case Ne => !f.value.Null? && !f.value.List?
       case In => (exists m :: WantsMember(py, f.value, m)) && !WantsMember(py, f.value, Null)
       case NotIn => (exists m :: WantsMember(py, f.value, m)) && !WantsMember(py, f.value, Null)
       case Contains => !f.value.Null? && f.value != Str("") && f.value != List([])
       case NotContains => !f.value.Null? && !f.value.List? && py.text(f.value) != ""
       case StartWith => !f.value.Null? && !f.value.List? && py.text(f.value) != ""
       case EndWith => !f.value.Null? && !f.value.List? && py.text(f.value) != ""
       case _ => !f.value.Null?
  }

  lemma NullMembers(py: Python, v: Value)
    requires CsvOrList(py, v).Ok?
    ensures HasNull(CsvOrList(py, v).value) <==> WantsMember(py, v, Null)
  {
    var raw := RawMembers(py, v);
    RawMembersAre(py, v, Null);
    hide WantsMember, RawMembers;
    if Null in raw {
      var i :| 0 <= i < |raw| && raw[i] == Null;
      assert Normalised(raw)[i] == Null && Normalised(raw)[i] in Normalised(raw);
    }
    if m :| m in Normalised(raw) && m.Null? {
      var i :| 0 <= i < |raw| && Normalised(raw)[i] == m;
      assert raw[i] == Null;
    }
  }

  lemma TranslatesIff(py: Python, f: Filter)
    ensures Translate(py, f).Ok? <==> IsTranslated(py, f)
  {
    hide CsvOrList, WantsMember, MemberParts, Conditions, Join, HasNull, IsKey, ContainsValue, InfinityFilter.ContainsText, Extracted,
      NumberOrText;
    MembersExist(py, f.value);
    if CsvOrList(py, f.value).Ok? {
      NullMembers(py, f.value);
    }
  }

  lemma NotTranslated(py: Python, f: Filter)
    requires f.op.Unknown?
    ensures !Translate(py, f).Ok?
  {
  }

  lemma {:induction false} AllTranslate(py: Python, filters: seq<Filter>)
    ensures TranslateAll(py, filters).Ok? <==> forall f <- filters :: Translate(py, f).Ok?
  {
    hide Translate;
    if filters != [] {
      AllTranslate(py, filters[1..]);
      assert filters == [filters[0]] + filters[1..];
    }
  }

  // ---- the whole filter ----

  /** A filter text is emitted if and only if every condition is translated and the logic is known. */
  lemma BuildsIff(py: Python, filters: seq<Filter>, logic: Logic)
    ensures BuildInfinityFilter(py, filters, logic).Ok?
       <==> filters == [] || (!logic.BadLogic? && forall f <- filters :: IsTranslated(py, f))
  {
    AllTranslate(py, filters);
    hide Translate, IsTranslated, TranslateAll;
    forall f <- filters ensures Translate(py, f).Ok? <==> IsTranslated(py, f) {
      TranslatesIff(py, f);
    }
  }

  /** The emitted text, read back as SQL over a row that is read as it should, selects exactly the
      documents whose values meet all conditions, or one of them. */
  lemma EmittedFilterSelects(py: Python, filters: seq<Filter>, logic: Logic, row: Pred -> bool, doc: Doc)
    requires Sane(py) && PrintsNumbers(py) && filters != [] && BuildInfinityFilter(py, filters, logic).Ok?
    requires forall f <- filters :: ReadsValues(py, row, f.key, Values(doc, f.key)) && IsRead(py, f, Values(doc, f.key))
    ensures var condition := ReadCondition(BuildInfinityFilter(py, filters, logic).value);
      && condition.Some?
      && (HoldsOr(condition.value, row) <==>
            if logic.And? then forall f <- filters :: Asks(py, f, Values(doc, f.key))
            else exists f <- filters :: Asks(py, f, Values(doc, f.key)))
  {
    EmittedFilterMeansCombination(py, filters, logic, row);
    BuildsIff(py, filters, logic);
    hide Says, Asks, ReadsValues, IsRead, Sane, PrintsNumbers, BuildInfinityFilter, ReadCondition, IsTranslated, HoldsOr;
    forall f <- filters ensures Says(py, f, row) <==> Asks(py, f, Values(doc, f.key)) {
      TranslatesIff(py, f);
      ConditionReads(py, row, f, Values(doc, f.key));
    }
  }

  /** Members are folded to lower case and stored texts are not, so no "in" over texts asks for a text
      with a capital letter. */
  lemma CapitalsAreNotIn(py: Python, f: Filter, x: string)
    requires Sane(py) && f.op.In? && Lower(x) != x && forall m | WantsMember(py, f.value, m) :: m.Str?
    ensures !Asks(py, f, [TextDatum(x)])
  {
    forall m | WantsMember(py, f.value, m) ensures !AsksFor(py, Folded(m), TextDatum(x)) {
      assert py.text(Folded(m)) == Lower(Strip(m.s));
      LowerIdempotent(Strip(m.s));
    }
  }
}
