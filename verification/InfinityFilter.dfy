/** Translation of metadata conditions to an Infinity filter string
    (common/metadata_infinity_filter.py), and what that string says once it is read back. */
module InfinityFilter {
  import opened Text
  import opened PyValues
  import opened Coercion
  import opened Wildcards
  import opened SqlCondition

  /** `str` of an integer is a signed digit run, `str` of a truth value its name. */
  ghost predicate PrintsNumbers(py: Python) {
    && (forall n :: IsNumberText(py.text(Int(n))))
    && py.text(Bool(true)) == "True" && py.text(Bool(false)) == "False"
  }

  /** `^[a-zA-Z_][a-zA-Z0-9_]*$`; the dollar sign also lets one final newline through. */
  predicate IsIdentifier(key: string) {
    key != "" && IsLetter(key[0]) && forall i | 1 <= i < |key| :: IsWordChar(key[i])
  }

  predicate IsKey(key: string) {
    IsIdentifier(key) || (key != "" && key[|key| - 1] == '\n' && IsIdentifier(key[..|key| - 1]))
  }

  // ---- value coercion ----

  predicate IsNumber(v: Value) {
    v.Int? || v.Bool?
  }

  /** `_coerce_scalar` and `_coerce_range_value` on a value that is not None. */
  function NumberOrText(py: Python, v: Value): (r: Value)
    ensures IsNumber(r) || r.Str?
  {
    match py.eval(Strip(py.text(v)))
    case Some(Int(n)) => Int(n)
    case Some(Bool(b)) => Bool(b)
    case _ => Str(py.text(v))
  }

  function CoerceScalar(py: Python, v: Value): Result<Value> {
    if v.Null? || v.List? then Raised("scalar comparison value is not a scalar")
    else Ok(NumberOrText(py, v))
  }

  function CoerceRange(py: Python, v: Value): Result<Value> {
    if v.Null? then Raised("range comparison value is None") else Ok(NumberOrText(py, v))
  }

  // ---- the emitted text, as the format strings build it ----

  function ContainsText(key: string, text: string): string {
    "JSON_CONTAINS(meta_fields, '$." + key + "', '\"" + QuoteText(text) + "\"')"
  }

  function ContainsNumber(py: Python, key: string, n: Value): string {
    "JSON_CONTAINS(meta_fields, '$." + key + "', " + py.text(n) + ")"
  }

  function ContainsValue(py: Python, key: string, v: Value): string
    requires IsNumber(v) || v.Str?
  {
    if v.Str? then ContainsText(key, v.s) else ContainsNumber(py, key, v)
  }

  function Join(sep: string, parts: seq<string>): string {
    if parts == [] then ""
    else if |parts| == 1 then parts[0]
    else parts[0] + sep + Join(sep, parts[1..])
  }

  /** The members of one kind, each as a membership test; `not` is "" or "NOT ". */
  function MemberParts(py: Python, key: string, not: string, members: seq<Value>, numbers: bool): seq<string> {
    if members == [] then []
    else
      var v := NumberOrText(py, members[0]);
      (if IsNumber(v) == numbers then [not + ContainsValue(py, key, v)] else [])
      + MemberParts(py, key, not, members[1..], numbers)
  }

  /** One parenthesised group per kind that occurs, texts first. */
  function Conditions(sep: string, strings: seq<string>, numbers: seq<string>): seq<string> {
    (if strings != [] then ["(" + Join(sep, strings) + ")"] else [])
    + (if numbers != [] then ["(" + Join(sep, numbers) + ")"] else [])
  }

  predicate HasNull(members: seq<Value>) {
    exists m <- members :: m.Null?
  }

  function TranslateIn(py: Python, key: string, v: Value): Result<string> {
    var members :- CsvOrList(py, v);
    if HasNull(members) then Raised("range comparison value is None")
    else Ok("(" + Join(" OR ", Conditions(" OR ", MemberParts(py, key, "", members, false),
                                                   MemberParts(py, key, "", members, true))) + ")")
  }

  function TranslateNotIn(py: Python, key: string, v: Value): Result<string> {
    var members :- CsvOrList(py, v);
    if HasNull(members) then Raised("range comparison value is None")
    else Ok(Join(" AND ", Conditions(" AND ", MemberParts(py, key, "NOT ", members, false),
                                              MemberParts(py, key, "NOT ", members, true))))
  }

  /** The member loop of `_translate_in` and `_translate_not_in`: two lists grown side by side,
      abandoned at the first None. */
  method MemberLoop(py: Python, key: string, not: string, members: seq<Value>)
    returns (failed: bool, strings: seq<string>, numbers: seq<string>)
    ensures failed == HasNull(members)
    ensures !failed ==> strings == MemberParts(py, key, not, members, false)
    ensures !failed ==> numbers == MemberParts(py, key, not, members, true)
  {
    hide ContainsValue, NumberOrText, MemberParts;
    strings, numbers := [], [];
    assert members[0..] == members;
    NoMembers(py, key, not);
    assert [] + MemberParts(py, key, not, members, false) == MemberParts(py, key, not, members, false);
    assert [] + MemberParts(py, key, not, members, true) == MemberParts(py, key, not, members, true);
    for i := 0 to |members|
      invariant forall j :: 0 <= j < i ==> !members[j].Null?
      invariant strings + MemberParts(py, key, not, members[i..], false) == MemberParts(py, key, not, members, false)
      invariant numbers + MemberParts(py, key, not, members[i..], true) == MemberParts(py, key, not, members, true)
    {
      assert members[i..][0] == members[i] && members[i..][1..] == members[i + 1..];
      if members[i].Null? {
        return true, [], [];
      }
      var v := NumberOrText(py, members[i]);
      MemberUnfolds(py, key, not, members[i..], false);
      MemberUnfolds(py, key, not, members[i..], true);
      if IsNumber(v) {
        numbers := numbers + [not + ContainsValue(py, key, v)];
      } else {
        strings := strings + [not + ContainsValue(py, key, v)];
      }
    }
    failed := false;
    assert members[|members|..] == [] && strings + [] == strings && numbers + [] == numbers;
  }

  lemma NoMembers(py: Python, key: string, not: string)
    ensures MemberParts(py, key, not, [], false) == [] && MemberParts(py, key, not, [], true) == []
  {
  }

  lemma MemberUnfolds(py: Python, key: string, not: string, members: seq<Value>, numbers: bool)
    requires members != []
    ensures var v := NumberOrText(py, members[0]);
      var rest := MemberParts(py, key, not, members[1..], numbers);
      MemberParts(py, key, not, members, numbers)
        == if IsNumber(v) == numbers then [not + ContainsValue(py, key, v)] + rest else rest
  {
    hide ContainsValue, NumberOrText;
  }

  function RangeSymbol(op: Op): string
    requires IsRange(op)
  {
    match op
    case Gt => ">"
    case Lt => "<"
    case Ge => ">="
    case _ => "<="
  }

  function Extracted(kind: string, key: string): string {
    "JSON_EXTRACT_" + kind + "(meta_fields, '$." + key + "')"
  }

  function TranslateRange(py: Python, key: string, op: Op, v: Value): Result<string>
    requires IsRange(op)
  {
    var bound :- CoerceRange(py, v);
    if bound.Str?
    then Ok(Extracted("STRING", key) + " " + RangeSymbol(op) + " '" + QuoteText(bound.s) + "'")
    else Ok(Extracted("DOUBLE", key) + " " + RangeSymbol(op) + " " + py.text(bound))
  }

  /** Python truth, for the guard of "contains": `not value and value != 0`. */
  predicate IsBlank(v: Value) {
    v.Null? || v == Str("") || v == List([])
  }

  function Translate(py: Python, f: Filter): Result<string> {
    if f.key == "" then Raised("filter is missing a string key")
    else if !IsKey(f.key) then Raised("invalid key format")
    else match f.op
      case Unknown(_) => Raised("unknown operator")
      case Empty => Ok(Extracted("STRING", f.key) + " = '\"\"'")
      case NotEmpty => Ok(Extracted("STRING", f.key) + " != '\"\"'")
      case Eq =>
        var v :- CoerceScalar(py, f.value);
        Ok(ContainsValue(py, f.key, v))
      case Ne =>
        var v :- CoerceScalar(py, f.value);
        Ok("NOT " + ContainsValue(py, f.key, v))
      case In => TranslateIn(py, f.key, f.value)
      case NotIn => TranslateNotIn(py, f.key, f.value)
      case Contains =>
        if IsBlank(f.value) then Raised("contains value is empty")
        else Ok(ContainsValue(py, f.key, NumberOrText(py, f.value)))
      case NotContains =>
        var text :- CoerceString(py, f.value);
        Ok("NOT " + ContainsText(f.key, text))
      case StartWith =>
        var text :- CoerceString(py, f.value);
        Ok(Extracted("STRING", f.key) + " LIKE '" + QuoteText(Escape(SQL_LIKE, text)) + "%'")
      case EndWith =>
        var text :- CoerceString(py, f.value);
        Ok(Extracted("STRING", f.key) + " LIKE '%" + QuoteText(Escape(SQL_LIKE, text)) + "'")
      case _ => TranslateRange(py, f.key, f.op, f.value)
  }

  function TranslateAll(py: Python, filters: seq<Filter>): Result<seq<string>> {
    if filters == [] then Ok([])
    else
      var t :- Translate(py, filters[0]);
      var rest :- TranslateAll(py, filters[1..]);
      Ok([t] + rest)
  }

  function BuildInfinityFilter(py: Python, filters: seq<Filter>, logic: Logic): Result<string> {
    if filters == [] then Ok("1=1")
    else if logic.BadLogic? then Raised("unknown logic")
    else
      var fragments :- TranslateAll(py, filters);
      Ok("(" + Join(if logic.And? then " AND " else " OR ", fragments) + ")")
  }

  // ---- what one condition is meant to say ----

  function Path(key: string): string {
    "$." + key
  }

  function Quoted(text: string): string {
    "\"" + text + "\""
  }

  /** A coerced value as a literal of the emitted condition. */
  function ValueToken(py: Python, v: Value): Token
    requires IsNumber(v) || v.Str?
  {
    match v
    case Str(s) => Literal(Quoted(s))
    case Bool(b) => Word(py.text(v))
    case _ => Number(py.text(v))
  }

  function Member(py: Python, key: string, v: Value): Pred {
    JsonContains(Path(key), ValueToken(py, NumberOrText(py, v)))
  }

  /** The meaning of a condition over whatever the basic predicates say of a row. */
  ghost predicate Says(py: Python, f: Filter, row: Pred -> bool) {
    match f.op
    case Unknown(_) => false
    case Empty => row(StringTest(Path(f.key), "=", Quoted("")))
    case NotEmpty => row(StringTest(Path(f.key), "!=", Quoted("")))
    case Eq => row(Member(py, f.key, f.value))
    case Ne => !row(Member(py, f.key, f.value))
    case In =>
      CsvOrList(py, f.value).Ok? && exists m <- CsvOrList(py, f.value).value :: row(Member(py, f.key, m))
    case NotIn =>
      CsvOrList(py, f.value).Ok? && forall m <- CsvOrList(py, f.value).value :: !row(Member(py, f.key, m))
    case Contains => row(Member(py, f.key, f.value))
    case NotContains => !row(JsonContains(Path(f.key), Literal(Quoted(py.text(f.value)))))
    case StartWith => row(StringLike(Path(f.key), Escape(SQL_LIKE, py.text(f.value)) + "%"))
    case EndWith => row(StringLike(Path(f.key), "%" + Escape(SQL_LIKE, py.text(f.value))))
    case Gt => BoundHolds(py, f, row, ">")
    case Lt => BoundHolds(py, f, row, "<")
    case Ge => BoundHolds(py, f, row, ">=")
    case Le => BoundHolds(py, f, row, "<=")
  }

  /** The row stands in this order to the bound, a number as a number and a text as a text. */
  ghost predicate BoundHolds(py: Python, f: Filter, row: Pred -> bool, order: string) {
    var bound := NumberOrText(py, f.value);
    if bound.Str? then row(StringTest(Path(f.key), order, bound.s))
    else row(NumberTest(Path(f.key), order, ValueToken(py, bound)))
  }

  // ---- the tree behind the emitted text ----

  ghost function MemberFactor(py: Python, key: string, negated: bool, v: Value): Factor {
    if negated then NotAtom(Member(py, key, v)) else Atom(Member(py, key, v))
  }

  ghost function OfKind(py: Python, members: seq<Value>, numbers: bool): seq<Value> {
    if members == [] then []
    else (if IsNumber(NumberOrText(py, members[0])) == numbers then [members[0]] else [])
         + OfKind(py, members[1..], numbers)
  }

  /** Members joined by OR, each its own term. */
  ghost function AnyOf(py: Python, key: string, members: seq<Value>): OrList
    requires members != []
  {
    var t := OneFactor(MemberFactor(py, key, false, members[0]));
    if |members| == 1 then OneTerm(t) else OrElse(t, AnyOf(py, key, members[1..]))
  }

  /** Negated members joined by AND. */
  ghost function NoneOf(py: Python, key: string, members: seq<Value>): AndList
    requires members != []
  {
    var f := MemberFactor(py, key, true, members[0]);
    if |members| == 1 then OneFactor(f) else AndAlso(f, NoneOf(py, key, members[1..]))
  }

  ghost function InTree(py: Python, key: string, members: seq<Value>): AndList
    requires members != []
  {
    var s, n := OfKind(py, members, false), OfKind(py, members, true);
    KindsCover(py, members);
    OneFactor(Group(
      if n == [] then OneTerm(OneFactor(Group(AnyOf(py, key, s))))
      else if s == [] then OneTerm(OneFactor(Group(AnyOf(py, key, n))))
      else OrElse(OneFactor(Group(AnyOf(py, key, s))), OneTerm(OneFactor(Group(AnyOf(py, key, n)))))))
  }

  /** Two groups joined by AND with no parentheses around them when both kinds occur. */
  ghost function NotInTree(py: Python, key: string, members: seq<Value>): AndList
    requires members != []
  {
    var s, n := OfKind(py, members, false), OfKind(py, members, true);
    KindsCover(py, members);
    if n == [] then OneFactor(Group(OneTerm(NoneOf(py, key, s))))
    else if s == [] then OneFactor(Group(OneTerm(NoneOf(py, key, n))))
    else AndAlso(Group(OneTerm(NoneOf(py, key, s))), OneFactor(Group(OneTerm(NoneOf(py, key, n)))))
  }

  /** Every member is of one of the two kinds, and nothing else is. */
  lemma {:induction false} KindsCover(py: Python, members: seq<Value>)
    ensures forall m :: m in members <==> m in OfKind(py, members, false) || m in OfKind(py, members, true)
    ensures members != [] ==> OfKind(py, members, false) != [] || OfKind(py, members, true) != []
  {
    if members != [] {
      KindsCover(py, members[1..]);
      assert members == [members[0]] + members[1..];
    }
  }

  ghost function Tree(py: Python, f: Filter): AndList
    requires Translate(py, f).Ok?
  {
    match f.op
    case Unknown(_) => OneFactor(Atom(StringLike("", "")))  // never translated
    case Empty => OneFactor(Atom(StringTest(Path(f.key), "=", Quoted(""))))
    case NotEmpty => OneFactor(Atom(StringTest(Path(f.key), "!=", Quoted(""))))
    case Eq => OneFactor(Atom(Member(py, f.key, f.value)))
    case Ne => OneFactor(NotAtom(Member(py, f.key, f.value)))
    case In => InTree(py, f.key, CsvOrList(py, f.value).value)
    case NotIn => NotInTree(py, f.key, CsvOrList(py, f.value).value)
    case Contains => OneFactor(Atom(Member(py, f.key, f.value)))
    case NotContains => OneFactor(NotAtom(JsonContains(Path(f.key), Literal(Quoted(py.text(f.value))))))
    case StartWith => OneFactor(Atom(StringLike(Path(f.key), Escape(SQL_LIKE, py.text(f.value)) + "%")))
    case EndWith => OneFactor(Atom(StringLike(Path(f.key), "%" + Escape(SQL_LIKE, py.text(f.value)))))
    case _ =>
      var bound := NumberOrText(py, f.value);
      if bound.Str? then OneFactor(Atom(StringTest(Path(f.key), RangeSymbol(f.op), bound.s)))
      else OneFactor(Atom(NumberTest(Path(f.key), RangeSymbol(f.op), ValueToken(py, bound))))
  }

  // ---- the tree means what the condition says ----

  lemma GroupMeans(o: OrList, row: Pred -> bool)
    ensures HoldsAnd(OneFactor(Group(o)), row) <==> HoldsOr(o, row)
    ensures HoldsFactor(Group(o), row) <==> HoldsOr(o, row)
  {
    assert HoldsAnd(OneFactor(Group(o)), row) <==> HoldsFactor(Group(o), row);
  }

  lemma {:induction false} AnyOfMeans(py: Python, key: string, members: seq<Value>, row: Pred -> bool)
    requires members != []
    ensures HoldsOr(AnyOf(py, key, members), row) <==> exists m <- members :: row(Member(py, key, m))
  {
    hide Member;
    var first, rest := members[0], members[1..];
    assert members == [first] + rest;
    assert (exists m <- members :: row(Member(py, key, m)))
      <==> row(Member(py, key, first)) || exists m <- rest :: row(Member(py, key, m));
    var t := OneFactor(MemberFactor(py, key, false, first));
    assert HoldsAnd(t, row) <==> row(Member(py, key, first)) by {
      assert HoldsAnd(t, row) <==> HoldsFactor(t.f, row);
    }
    if |members| > 1 {
      AnyOfMeans(py, key, rest, row);
      assert AnyOf(py, key, members) == OrElse(t, AnyOf(py, key, rest));
    } else {
      assert AnyOf(py, key, members) == OneTerm(t);
    }
  }

  lemma {:induction false} NoneOfMeans(py: Python, key: string, members: seq<Value>, row: Pred -> bool)
    requires members != []
    ensures HoldsAnd(NoneOf(py, key, members), row) <==> forall m <- members :: !row(Member(py, key, m))
  {
    hide Member;
    var first, rest := members[0], members[1..];
    assert members == [first] + rest;
    if |members| > 1 {
      NoneOfMeans(py, key, rest, row);
    }
  }

  lemma InTreeMeans(py: Python, key: string, members: seq<Value>, row: Pred -> bool)
    requires members != []
    ensures HoldsAnd(InTree(py, key, members), row) <==> exists m <- members :: row(Member(py, key, m))
  {
    hide Member;
    var s, n := OfKind(py, members, false), OfKind(py, members, true);
    KindsCover(py, members);
    if s != [] {
      AnyOfMeans(py, key, s, row);
      GroupMeans(AnyOf(py, key, s), row);
    }
    if n != [] {
      AnyOfMeans(py, key, n, row);
      GroupMeans(AnyOf(py, key, n), row);
    }
    var inner := InTree(py, key, members).f.inner;
    GroupMeans(inner, row);
    assert HoldsOr(inner, row)
      <==> (s != [] && HoldsOr(AnyOf(py, key, s), row)) || (n != [] && HoldsOr(AnyOf(py, key, n), row));
  }

  lemma NotInTreeMeans(py: Python, key: string, members: seq<Value>, row: Pred -> bool)
    requires members != []
    ensures HoldsAnd(NotInTree(py, key, members), row) <==> forall m <- members :: !row(Member(py, key, m))
  {
    hide Member;
    var s, n := OfKind(py, members, false), OfKind(py, members, true);
    KindsCover(py, members);
    if s != [] {
      NoneOfMeans(py, key, s, row);
      GroupMeans(OneTerm(NoneOf(py, key, s)), row);
    }
    if n != [] {
      NoneOfMeans(py, key, n, row);
      GroupMeans(OneTerm(NoneOf(py, key, n)), row);
    }
    assert HoldsAnd(NotInTree(py, key, members), row)
      <==> (s == [] || HoldsAnd(NoneOf(py, key, s), row)) && (n == [] || HoldsAnd(NoneOf(py, key, n), row));
  }

  lemma TreeMeans(py: Python, f: Filter, row: Pred -> bool)
    requires Translate(py, f).Ok?
    ensures HoldsAnd(Tree(py, f), row) <==> Says(py, f, row)
  {
    if f.op.In? {
      InTreeMeans(py, f.key, CsvOrList(py, f.value).value, row);
    } else if f.op.NotIn? {
      NotInTreeMeans(py, f.key, CsvOrList(py, f.value).value, row);
    }
  }

  // ---- the emitted text is the printed tree ----

  lemma {:induction false} QuoteNothing(s: string)
    requires forall i | 0 <= i < |s| :: s[i] != '\''
    ensures QuoteText(s) == s
  {
    if s != "" {
      QuoteNothing(s[1..]);
      assert s == [s[0]] + s[1..];
    }
  }

  lemma PathIsPlain(key: string)
    requires IsKey(key)
    ensures PrintToken(Literal(Path(key))) == "'$." + key + "'"
  {
    PathHasNoQuote(key);
    QuoteNothing(Path(key));
    hide QuoteText;
    assert "'" + ("$." + key) + "'" == "'$." + key + "'" by { PathGlue(key); }
  }

  lemma PathHasNoQuote(key: string)
    requires IsKey(key)
    ensures forall i | 0 <= i < |Path(key)| :: Path(key)[i] != '\''
  {
    assert Path(key) == "$." + key;
    forall i | 0 <= i < |Path(key)| ensures Path(key)[i] != '\'' {
      assert i >= 2 ==> Path(key)[i] == key[i - 2];
    }
  }

  lemma PathGlue(key: string)
    ensures "'" + ("$." + key) + "'" == "'$." + key + "'"
  {
    assert "'$." == "'" + "$.";
  }

  lemma QuotedText(text: string)
    ensures QuoteText(Quoted(text)) == "\"" + QuoteText(text) + "\""
  {
    ReplaceCharConcat("\"", text + "\"", '\'', "''");
    ReplaceCharConcat(text, "\"", '\'', "''");
    ReplaceOneQuote();
    assert Quoted(text) == "\"" + (text + "\"");
  }

  lemma QuotedPrints(text: string)
    ensures PrintToken(Literal(Quoted(text))) == "'\"" + QuoteText(text) + "\"'"
  {
    hide QuoteText;
    QuotedText(text);
    Glue(QuoteText(text));
  }

  lemma Glue(t: string)
    ensures "'" + ("\"" + t + "\"") + "'" == "'\"" + t + "\"'"
  {
    assert "'\"" == "'" + "\"";
    assert "\"'" == "\"" + "'";
  }

  lemma ReplaceOneQuote()
    ensures QuoteText("\"") == "\"" && QuoteText("%") == "%"
  {
    QuoteNothing("\"");
    QuoteNothing("%");
  }

  lemma ContainsValuePrints(py: Python, key: string, v: Value)
    requires IsKey(key) && (IsNumber(v) || v.Str?)
    ensures ContainsValue(py, key, v) == PrintPred(JsonContains(Path(key), ValueToken(py, v)))
  {
    PathIsPlain(key);
    ContainsGlue(key);
    if v.Str? {
      QuotedPrints(v.s);
      ContainsTextGlue(key, QuoteText(v.s));
    }
  }

  lemma ContainsGlue(key: string)
    ensures "JSON_CONTAINS(meta_fields, " + ("'$." + key + "'") + ", " == "JSON_CONTAINS(meta_fields, '$." + key + "', "
  {
  }

  lemma ContainsTextGlue(key: string, text: string)
    ensures "JSON_CONTAINS(meta_fields, '$." + key + "', '\"" + text + "\"')"
         == "JSON_CONTAINS(meta_fields, " + ("'$." + key + "'") + ", " + ("'\"" + text + "\"'") + ")"
  {
    assert "', '\"" == "'" + ", " + "'\"";
    assert "\"')" == "\"'" + ")";
  }

  lemma ExtractedPrints(kind: string, key: string)
    requires IsKey(key)
    ensures Extracted(kind, key) == "JSON_EXTRACT_" + kind + "(meta_fields, " + PrintToken(Literal(Path(key))) + ")"
  {
    PathIsPlain(key);
  }

  lemma QuotedPercent(text: string)
    ensures QuoteText(text + "%") == QuoteText(text) + "%"
    ensures QuoteText("%" + text) == "%" + QuoteText(text)
  {
    ReplaceCharConcat(text, "%", '\'', "''");
    ReplaceCharConcat("%", text, '\'', "''");
    ReplaceOneQuote();
  }

  lemma LikePrints(key: string, text: string)
    requires IsKey(key)
    ensures Extracted("STRING", key) + " LIKE '" + QuoteText(text) + "%'"
         == PrintPred(StringLike(Path(key), text + "%"))
    ensures Extracted("STRING", key) + " LIKE '%" + QuoteText(text) + "'"
         == PrintPred(StringLike(Path(key), "%" + text))
  {
    hide QuoteText, Path;
    ExtractedPrints("STRING", key);
    QuotedPercent(text);
    LikeGlue(PrintToken(Literal(Path(key))), QuoteText(text));
  }

  lemma LikeGlue(path: string, text: string)
    ensures "JSON_EXTRACT_" + "STRING" + "(meta_fields, " + path + ")" + " LIKE '" + text + "%'"
         == "JSON_EXTRACT_STRING(meta_fields, " + path + ") LIKE " + ("'" + (text + "%") + "'")
    ensures "JSON_EXTRACT_" + "STRING" + "(meta_fields, " + path + ")" + " LIKE '%" + text + "'"
         == "JSON_EXTRACT_STRING(meta_fields, " + path + ") LIKE " + ("'" + ("%" + text) + "'")
  {
    assert "JSON_EXTRACT_" + "STRING" + "(meta_fields, " == "JSON_EXTRACT_STRING(meta_fields, ";
    assert ")" + " LIKE '" == ") LIKE " + "'";
    assert ")" + " LIKE '%" == ") LIKE " + "'" + "%";
    assert "%'" == "%" + "'";
  }

  /** One part per member, whatever its kind. */
  ghost function Parts(py: Python, key: string, not: string, members: seq<Value>): seq<string> {
    if members == [] then []
    else [not + ContainsValue(py, key, NumberOrText(py, members[0]))] + Parts(py, key, not, members[1..])
  }

  lemma {:induction false} MemberPartsAreParts(
    py: Python, key: string, not: string, members: seq<Value>, numbers: bool)
    ensures MemberParts(py, key, not, members, numbers) == Parts(py, key, not, OfKind(py, members, numbers))
  {
    hide ContainsValue, NumberOrText;
    if members != [] {
      MemberPartsAreParts(py, key, not, members[1..], numbers);
      var kept := OfKind(py, members, numbers);
      if IsNumber(NumberOrText(py, members[0])) == numbers {
        assert kept == [members[0]] + OfKind(py, members[1..], numbers);
        assert kept[1..] == OfKind(py, members[1..], numbers);
      } else {
        assert kept == OfKind(py, members[1..], numbers);
        assert MemberParts(py, key, not, members, numbers) == MemberParts(py, key, not, members[1..], numbers);
      }
    }
  }

  lemma {:induction false} AnyOfPrints(py: Python, key: string, members: seq<Value>)
    requires IsKey(key) && members != []
    ensures Join(" OR ", Parts(py, key, "", members)) == PrintOr(AnyOf(py, key, members))
  {
    hide ContainsValue, NumberOrText, PrintPred;
    var v := NumberOrText(py, members[0]);
    var t := OneFactor(MemberFactor(py, key, false, members[0]));
    ContainsValuePrints(py, key, v);
    assert "" + ContainsValue(py, key, v) == PrintAnd(t) by {
      assert PrintAnd(t) == PrintFactor(t.f);
    }
    var parts := Parts(py, key, "", members);
    if |members| > 1 {
      AnyOfPrints(py, key, members[1..]);
      assert parts[1..] == Parts(py, key, "", members[1..]);
      assert parts[1..] != [];
      assert AnyOf(py, key, members) == OrElse(t, AnyOf(py, key, members[1..]));
    } else {
      assert members[1..] == [];
      assert AnyOf(py, key, members) == OneTerm(t);
    }
  }

  lemma {:induction false} NoneOfPrints(py: Python, key: string, members: seq<Value>)
    requires IsKey(key) && members != []
    ensures Join(" AND ", Parts(py, key, "NOT ", members)) == PrintAnd(NoneOf(py, key, members))
  {
    hide ContainsValue, NumberOrText, PrintPred;
    var v := NumberOrText(py, members[0]);
    var f := MemberFactor(py, key, true, members[0]);
    ContainsValuePrints(py, key, v);
    assert "NOT " + ContainsValue(py, key, v) == PrintFactor(f);
    var parts := Parts(py, key, "NOT ", members);
    if |members| > 1 {
      NoneOfPrints(py, key, members[1..]);
      assert parts[1..] == Parts(py, key, "NOT ", members[1..]);
      assert parts[1..] != [];
      assert NoneOf(py, key, members) == AndAlso(f, NoneOf(py, key, members[1..]));
    } else {
      assert members[1..] == [];
      assert NoneOf(py, key, members) == OneFactor(f);
    }
  }

  lemma JoinOneOrTwo(sep: string, a: string, b: string)
    ensures Join(sep, [a]) == a
    ensures Join(sep, [a, b]) == a + sep + b
  {
    assert [a, b][1..] == [b];
  }

  /** The groups of a membership test, printed. */
  lemma GroupsPrint(py: Python, key: string, members: seq<Value>, numbers: bool)
    requires IsKey(key)
    ensures var ms := OfKind(py, members, numbers);
      && (MemberParts(py, key, "", members, numbers) == [] <==> ms == [])
      && (MemberParts(py, key, "NOT ", members, numbers) == [] <==> ms == [])
      && (ms != [] ==>
            && "(" + Join(" OR ", MemberParts(py, key, "", members, numbers)) + ")"
               == PrintFactor(Group(AnyOf(py, key, ms)))
            && "(" + Join(" AND ", MemberParts(py, key, "NOT ", members, numbers)) + ")"
               == PrintFactor(Group(OneTerm(NoneOf(py, key, ms)))))
  {
    var ms := OfKind(py, members, numbers);
    MemberPartsAreParts(py, key, "", members, numbers);
    MemberPartsAreParts(py, key, "NOT ", members, numbers);
    if ms != [] {
      AnyOfPrints(py, key, ms);
      NoneOfPrints(py, key, ms);
      assert PrintOr(OneTerm(NoneOf(py, key, ms))) == PrintAnd(NoneOf(py, key, ms));
    }
  }

  lemma InPrints(py: Python, key: string, members: seq<Value>)
    requires IsKey(key) && members != []
    ensures "(" + Join(" OR ", Conditions(" OR ", MemberParts(py, key, "", members, false),
                                                  MemberParts(py, key, "", members, true))) + ")"
         == PrintAnd(InTree(py, key, members))
  {
    hide MemberParts, AnyOf, OfKind;
    var s, n := OfKind(py, members, false), OfKind(py, members, true);
    GroupsPrint(py, key, members, false);
    GroupsPrint(py, key, members, true);
    KindsCover(py, members);
    var ss, ns := MemberParts(py, key, "", members, false), MemberParts(py, key, "", members, true);
    var a, b := "(" + Join(" OR ", ss) + ")", "(" + Join(" OR ", ns) + ")";
    var both := Conditions(" OR ", ss, ns);
    JoinOneOrTwo(" OR ", a, b);
    JoinOneOrTwo(" OR ", b, a);
    var inner := InTree(py, key, members).f.inner;
    assert PrintAnd(InTree(py, key, members)) == "(" + PrintOr(inner) + ")" by {
      assert PrintAnd(InTree(py, key, members)) == PrintFactor(Group(inner));
    }
    if n == [] {
      assert both == [a];
      OneFactorPrints(Group(AnyOf(py, key, s)));
    } else if s == [] {
      assert both == [b];
      OneFactorPrints(Group(AnyOf(py, key, n)));
    } else {
      assert both == [a, b];
      OneFactorPrints(Group(AnyOf(py, key, s)));
      OneFactorPrints(Group(AnyOf(py, key, n)));
    }
  }

  lemma OneFactorPrints(f: Factor)
    ensures PrintAnd(OneFactor(f)) == PrintFactor(f)
    ensures PrintOr(OneTerm(OneFactor(f))) == PrintFactor(f)
  {
    assert PrintOr(OneTerm(OneFactor(f))) == PrintAnd(OneFactor(f));
  }

  lemma NotInPrints(py: Python, key: string, members: seq<Value>)
    requires IsKey(key) && members != []
    ensures Join(" AND ", Conditions(" AND ", MemberParts(py, key, "NOT ", members, false),
                                              MemberParts(py, key, "NOT ", members, true)))
         == PrintAnd(NotInTree(py, key, members))
  {
    hide MemberParts, NoneOf, OfKind;
    var s, n := OfKind(py, members, false), OfKind(py, members, true);
    GroupsPrint(py, key, members, false);
    GroupsPrint(py, key, members, true);
    KindsCover(py, members);
    var ss, ns := MemberParts(py, key, "NOT ", members, false), MemberParts(py, key, "NOT ", members, true);
    var a, b := "(" + Join(" AND ", ss) + ")", "(" + Join(" AND ", ns) + ")";
    var both := Conditions(" AND ", ss, ns);
    JoinOneOrTwo(" AND ", a, b);
    JoinOneOrTwo(" AND ", b, a);
    if n == [] {
      assert both == [a];
    } else if s == [] {
      assert both == [b];
    } else {
      assert both == [a, b];
      OneFactorPrints(Group(OneTerm(NoneOf(py, key, n))));
    }
  }

  lemma RangePrints(py: Python, key: string, op: Op, v: Value)
    requires IsKey(key) && IsRange(op) && TranslateRange(py, key, op, v).Ok?
    ensures var bound := NumberOrText(py, v);
      TranslateRange(py, key, op, v).value
      == PrintPred(if bound.Str? then StringTest(Path(key), RangeSymbol(op), bound.s)
                   else NumberTest(Path(key), RangeSymbol(op), ValueToken(py, bound)))
  {
    hide QuoteText, Path, RangeSymbol;
    ExtractedPrints("STRING", key);
    ExtractedPrints("DOUBLE", key);
    TestGlue("STRING", PrintToken(Literal(Path(key))), RangeSymbol(op));
    TestGlue("DOUBLE", PrintToken(Literal(Path(key))), RangeSymbol(op));
    var bound := NumberOrText(py, v);
    if bound.Str? {
      QuoteGlue(Extracted("STRING", key) + " " + RangeSymbol(op), QuoteText(bound.s));
    }
  }

  lemma TestGlue(kind: string, path: string, op: string)
    requires kind == "STRING" || kind == "DOUBLE"
    ensures "JSON_EXTRACT_" + kind + "(meta_fields, " + path + ")" + " " + op + " "
         == (if kind == "STRING" then "JSON_EXTRACT_STRING(meta_fields, " else "JSON_EXTRACT_DOUBLE(meta_fields, ")
            + path + ") " + op + " "
  {
    assert "JSON_EXTRACT_" + "STRING" + "(meta_fields, " == "JSON_EXTRACT_STRING(meta_fields, ";
    assert "JSON_EXTRACT_" + "DOUBLE" + "(meta_fields, " == "JSON_EXTRACT_DOUBLE(meta_fields, ";
    assert ")" + " " == ") ";
  }

  lemma QuoteGlue(front: string, text: string)
    ensures front + " '" + text + "'" == front + " " + ("'" + text + "'")
  {
    assert " '" == " " + "'";
  }

  lemma EmptyPrints(key: string)
    requires IsKey(key)
    ensures Extracted("STRING", key) + " = '\"\"'" == PrintPred(StringTest(Path(key), "=", Quoted("")))
    ensures Extracted("STRING", key) + " != '\"\"'" == PrintPred(StringTest(Path(key), "!=", Quoted("")))
  {
    hide QuoteText, Path;
    ExtractedPrints("STRING", key);
    QuotedText("");
    assert QuoteText("") == "" by { QuoteNothing(""); }
    assert PrintToken(Literal(Quoted(""))) == "'\"\"'" by { Glue(""); }
    TestGlue("STRING", PrintToken(Literal(Path(key))), "=");
    TestGlue("STRING", PrintToken(Literal(Path(key))), "!=");
    EmptyGlue(Extracted("STRING", key));
  }

  lemma EmptyGlue(front: string)
    ensures front + " = '\"\"'" == front + " " + "=" + " " + "'\"\"'"
    ensures front + " != '\"\"'" == front + " " + "!=" + " " + "'\"\"'"
  {
    assert " = '\"\"'" == " " + "=" + " " + "'\"\"'";
    assert " != '\"\"'" == " " + "!=" + " " + "'\"\"'";
  }

  /** Every fragment the translator emits is the printed tree of its condition. */
  lemma FragmentPrints(py: Python, f: Filter)
    requires Translate(py, f).Ok?
    ensures Translate(py, f).value == PrintAnd(Tree(py, f))
  {
    hide ContainsText, Extracted, MemberParts, PrintPred, InTree, NotInTree, NumberOrText, CsvOrList;
    var tree := Tree(py, f);
    if tree.OneFactor? {
      OneFactorPrints(tree.f);
    }
    if f.op.In? {
      InPrints(py, f.key, CsvOrList(py, f.value).value);
    } else if f.op.NotIn? {
      NotInPrints(py, f.key, CsvOrList(py, f.value).value);
    } else if f.op.Eq? || f.op.Ne? || f.op.Contains? {
      ContainsValuePrints(py, f.key, NumberOrText(py, f.value));
    } else if f.op.NotContains? {
      ContainsValuePrints(py, f.key, Str(py.text(f.value)));
    } else if f.op.Empty? || f.op.NotEmpty? {
      EmptyPrints(f.key);
    } else if f.op.StartWith? || f.op.EndWith? {
      LikePrints(f.key, Escape(SQL_LIKE, py.text(f.value)));
    } else {
      RangePrints(py, f.key, f.op, f.value);
    }
  }

  // ---- reading the emitted text back ----

  lemma {:induction false} MembersReadable(py: Python, key: string, members: seq<Value>)
    requires PrintsNumbers(py) && members != []
    ensures ReadableOr(AnyOf(py, key, members)) && ReadableAnd(NoneOf(py, key, members))
  {
    hide NumberOrText;
    MemberReadable(py, key, members[0]);
    var f := MemberFactor(py, key, false, members[0]);
    assert ReadableFactor(f) && ReadableAnd(OneFactor(f));
    if |members| > 1 {
      MembersReadable(py, key, members[1..]);
    }
  }

  lemma MemberReadable(py: Python, key: string, v: Value)
    requires PrintsNumbers(py)
    ensures ReadablePred(Member(py, key, v))
    ensures Readable(ValueToken(py, NumberOrText(py, v)))
  {
    hide NumberOrText;
    var r := NumberOrText(py, v);
    assert IsNumber(r) || r.Str?;
    if r.Bool? {
      assert py.text(r) == if r.b then "True" else "False";
    }
  }

  lemma GroupReadable(o: OrList)
    requires ReadableOr(o)
    ensures ReadableAnd(OneFactor(Group(o))) && ReadableOr(OneTerm(OneFactor(Group(o))))
  {
    assert ReadableFactor(Group(o));
    assert ReadableAnd(OneFactor(Group(o)));
  }

  lemma MembershipReadable(py: Python, key: string, members: seq<Value>)
    requires PrintsNumbers(py) && members != []
    ensures ReadableAnd(InTree(py, key, members)) && ReadableAnd(NotInTree(py, key, members))
  {
    var s, n := OfKind(py, members, false), OfKind(py, members, true);
    KindsCover(py, members);
    if s != [] {
      MembersReadable(py, key, s);
      GroupReadable(AnyOf(py, key, s));
      GroupReadable(OneTerm(NoneOf(py, key, s)));
    }
    if n != [] {
      MembersReadable(py, key, n);
      GroupReadable(AnyOf(py, key, n));
      GroupReadable(OneTerm(NoneOf(py, key, n)));
    }
    GroupReadable(InTree(py, key, members).f.inner);
  }

  lemma TreeReadable(py: Python, f: Filter)
    requires PrintsNumbers(py) && Translate(py, f).Ok?
    ensures ReadableAnd(Tree(py, f))
  {
    hide NumberOrText, InTree, NotInTree;
    MemberReadable(py, f.key, f.value);
    if f.op.In? || f.op.NotIn? {
      MembershipReadable(py, f.key, CsvOrList(py, f.value).value);
    } else {
      assert ReadableFactor(Tree(py, f).f);
    }
  }

  // ---- joining the fragments ----

  ghost function Appended(a: AndList, b: AndList): AndList {
    match a
    case OneFactor(f) => AndAlso(f, b)
    case AndAlso(f, rest) => AndAlso(f, Appended(rest, b))
  }

  lemma {:induction false} AppendedPrints(a: AndList, b: AndList)
    ensures PrintAnd(Appended(a, b)) == PrintAnd(a) + " AND " + PrintAnd(b)
  {
    hide PrintFactor;
    match a
    case OneFactor(f) =>
    case AndAlso(f, rest) =>
      AppendedPrints(rest, b);
      Regroup(PrintFactor(f) + " AND ", PrintAnd(rest), " AND " + PrintAnd(b));
      Regroup(PrintAnd(rest), " AND ", PrintAnd(b));
      Regroup(PrintAnd(a), " AND ", PrintAnd(b));
  }

  lemma Regroup(a: string, b: string, c: string)
    ensures (a + b) + c == a + (b + c)
  {
  }

  lemma {:induction false} AppendedIsBoth(a: AndList, b: AndList, row: Pred -> bool)
    ensures HoldsAnd(Appended(a, b), row) <==> HoldsAnd(a, row) && HoldsAnd(b, row)
    ensures ReadableAnd(a) && ReadableAnd(b) ==> ReadableAnd(Appended(a, b))
  {
    hide HoldsFactor, ReadableFactor;
    match a
    case OneFactor(f) =>
    case AndAlso(f, rest) => AppendedIsBoth(rest, b, row);
  }

  ghost function AllTrees(trees: seq<AndList>): AndList
    requires trees != []
  {
    if |trees| == 1 then trees[0] else Appended(trees[0], AllTrees(trees[1..]))
  }

  ghost function AnyTree(trees: seq<AndList>): OrList
    requires trees != []
  {
    if |trees| == 1 then OneTerm(trees[0]) else OrElse(trees[0], AnyTree(trees[1..]))
  }

  ghost function Printed(trees: seq<AndList>): seq<string> {
    seq(|trees|, i requires 0 <= i < |trees| => PrintAnd(trees[i]))
  }

  lemma {:induction false} JoinedByAnd(trees: seq<AndList>, row: Pred -> bool)
    requires trees != [] && forall t <- trees :: ReadableAnd(t)
    ensures Join(" AND ", Printed(trees)) == PrintAnd(AllTrees(trees))
    ensures ReadableAnd(AllTrees(trees))
    ensures HoldsAnd(AllTrees(trees), row) <==> forall t <- trees :: HoldsAnd(t, row)
  {
    assert trees == [trees[0]] + trees[1..];
    if |trees| > 1 {
      JoinedByAnd(trees[1..], row);
      AppendedIsBoth(trees[0], AllTrees(trees[1..]), row);
      AppendedPrints(trees[0], AllTrees(trees[1..]));
      assert Printed(trees)[1..] == Printed(trees[1..]);
    }
  }

  lemma {:induction false} JoinedByOr(trees: seq<AndList>, row: Pred -> bool)
    requires trees != [] && forall t <- trees :: ReadableAnd(t)
    ensures Join(" OR ", Printed(trees)) == PrintOr(AnyTree(trees))
    ensures ReadableOr(AnyTree(trees))
    ensures HoldsOr(AnyTree(trees), row) <==> exists t <- trees :: HoldsAnd(t, row)
  {
    assert trees == [trees[0]] + trees[1..];
    assert (exists t <- trees :: HoldsAnd(t, row))
      <==> HoldsAnd(trees[0], row) || exists t <- trees[1..] :: HoldsAnd(t, row);
    if |trees| > 1 {
      JoinedByOr(trees[1..], row);
      assert Printed(trees)[1..] == Printed(trees[1..]);
      assert AnyTree(trees) == OrElse(trees[0], AnyTree(trees[1..]));
    } else {
      assert AnyTree(trees) == OneTerm(trees[0]);
    }
  }

  ghost function Trees(py: Python, filters: seq<Filter>): (trees: seq<AndList>)
    requires forall f <- filters :: Translate(py, f).Ok?
    ensures |trees| == |filters|
    ensures forall i :: 0 <= i < |trees| ==> trees[i] == Tree(py, filters[i])
  {
    hide Translate, Tree;
    if filters == [] then []
    else
      assert filters[0] in filters && forall f <- filters[1..] :: f in filters;
      [Tree(py, filters[0])] + Trees(py, filters[1..])
  }

  lemma {:induction false} FragmentsPrint(py: Python, filters: seq<Filter>)
    requires TranslateAll(py, filters).Ok?
    ensures forall f <- filters :: Translate(py, f).Ok?
    ensures TranslateAll(py, filters).value == Printed(Trees(py, filters))
  {
    hide Translate, Tree, Printed;
    NonePrinted();
    if filters != [] {
      FragmentsPrint(py, filters[1..]);
      FragmentPrints(py, filters[0]);
      assert filters == [filters[0]] + filters[1..];
      PrintedCons(Tree(py, filters[0]), Trees(py, filters[1..]));
    }
  }

  lemma NonePrinted()
    ensures Printed([]) == []
  {
  }

  lemma PrintedCons(t: AndList, trees: seq<AndList>)
    ensures Printed([t] + trees) == [PrintAnd(t)] + Printed(trees)
  {
    hide PrintAnd;
  }

  /** Read back with NOT over AND over OR, the emitted string denotes exactly the and/or
      combination of what the conditions say, for any reading of the basic predicates. */
  lemma EmittedFilterMeansCombination(py: Python, filters: seq<Filter>, logic: Logic, row: Pred -> bool)
    requires PrintsNumbers(py) && filters != [] && BuildInfinityFilter(py, filters, logic).Ok?
    ensures var condition := ReadCondition(BuildInfinityFilter(py, filters, logic).value);
      && condition.Some?
      && (HoldsOr(condition.value, row) <==>
            if logic.And? then forall f <- filters :: Says(py, f, row)
            else exists f <- filters :: Says(py, f, row))
  {
    hide Translate, Tree, Says;
    FragmentsPrint(py, filters);
    var trees := Trees(py, filters);
    forall i | 0 <= i < |filters|
      ensures ReadableAnd(trees[i]) && (HoldsAnd(trees[i], row) <==> Says(py, filters[i], row))
    {
      assert filters[i] in filters;
      TreeReadable(py, filters[i]);
      TreeMeans(py, filters[i], row);
    }
    var inner := if logic.And? then OneTerm(AllTrees(trees)) else AnyTree(trees);
    JoinedByAnd(trees, row);
    JoinedByOr(trees, row);
    var whole := OneTerm(OneFactor(Group(inner)));
    GroupReadable(inner);
    GroupMeans(inner, row);
    OneFactorPrints(Group(inner));
    assert BuildInfinityFilter(py, filters, logic).value == PrintOr(whole);
    PrintedConditionReadsBack(whole);
    assert HoldsOr(whole, row) <==> HoldsOr(inner, row);
    SameSayings(py, filters, trees, row);
  }

  lemma SameSayings(py: Python, filters: seq<Filter>, trees: seq<AndList>, row: Pred -> bool)
    requires |trees| == |filters|
    requires forall i | 0 <= i < |filters| :: HoldsAnd(trees[i], row) <==> Says(py, filters[i], row)
    ensures (forall t <- trees :: HoldsAnd(t, row)) <==> forall f <- filters :: Says(py, f, row)
    ensures (exists t <- trees :: HoldsAnd(t, row)) <==> exists f <- filters :: Says(py, f, row)
  {
    hide Says, HoldsAnd;
    assert forall i | 0 <= i < |filters| :: trees[i] in trees && filters[i] in filters;
  }

  /** "start with" and "end with": the emitted text reads back as a LIKE whose pattern matches
      exactly the texts that start (end) with the user's text, quotes, percent signs,
      underscores and backslashes included. */
  lemma LikeIsExact(py: Python, f: Filter, x: string)
    requires PrintsNumbers(py) && Translate(py, f).Ok? && (f.op.StartWith? || f.op.EndWith?)
    ensures var condition := ReadCondition(Translate(py, f).value);
      && condition.Some? && condition.value.OneTerm? && condition.value.t.OneFactor?
      && condition.value.t.f.Atom? && condition.value.t.f.p.StringLike?
      && condition.value.t.f.p.path == Path(f.key)
      && (Matches(SQL_LIKE, condition.value.t.f.p.pattern, x)
          <==> if f.op.StartWith? then StartsWith(x, py.text(f.value)) else EndsWith(x, py.text(f.value)))
  {
    var text := py.text(f.value);
    var tree := Tree(py, f);
    FragmentPrints(py, f);
    TreeReadable(py, f);
    assert PrintOr(OneTerm(tree)) == PrintAnd(tree);
    PrintedConditionReadsBack(OneTerm(tree));
    assert "%" == [SQL_LIKE.many];
    PrefixPatternExact(SQL_LIKE, text, x);
    SuffixPatternExact(SQL_LIKE, text, x);
  }
}
