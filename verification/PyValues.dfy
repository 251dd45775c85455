/** The dynamic values a metadata filter meets, and the parts of Python it leans on. */
module PyValues {
  import opened Text

  datatype Option<T> = None | Some(value: T)

  datatype Value =
    | Null
    | Str(s: string)
    | Int(n: int)
    | Bool(b: bool)
    | List(items: seq<Value>)
    | Other(tag: int)  // anything else: floats, tuples, dictionaries

  /** `eval` is `ast.literal_eval` (None when it raises); `text` is `str`. Both are library
      code, so they are parameters of everything below. */
  datatype Python = Python(eval: string -> Option<Value>, text: Value -> string)

  ghost predicate Sane(py: Python) {
    && (forall s :: py.text(Str(s)) == s)
    && (forall n :: py.eval(py.text(Int(n))) == Some(Int(n)))
    && (forall n :: Strip(py.text(Int(n))) == py.text(Int(n)) != "")
    && (forall n :: !IsDate(py.text(Int(n))))
  }

  predicate IsDigit(c: char) {
    '0' <= c <= '9'
  }

  /** `YYYY-MM-DD`, by shape only. */
  predicate IsDate(s: string) {
    && |s| == 10 && s[4] == '-' && s[7] == '-'
    && (forall i | 0 <= i < 10 && i != 4 && i != 7 :: IsDigit(s[i]))
  }

  /** A query text that `literal_eval` rejects and that is not a date, in either case. */
  predicate IsTextQuery(py: Python, s: string) {
    && py.eval(s).None? && py.eval(Lower(s)).None? && py.eval(Strip(s)).None?
    && !IsDate(Strip(s))
  }

  /** A query text that reads as an integer, with or without its blanks, in either case. */
  predicate IsNumeral(py: Python, s: string) {
    && py.eval(s).Some? && py.eval(s).value.Int?
    && py.eval(Strip(s)) == py.eval(s) && py.eval(Lower(s)) == py.eval(s)
    && !IsDate(Strip(s))
  }

  /** Lexicographic order of texts, by code point. */
  predicate TextLess(a: string, b: string) {
    if a == "" then b != ""
    else b != "" && (a[0] < b[0] || (a[0] == b[0] && TextLess(a[1..], b[1..])))
  }

  function AsInt(v: Value): Option<int> {
    match v
    case Int(n) => Some(n)
    case Bool(b) => Some(if b then 1 else 0)
    case _ => None
  }

  /** Python's `==`. */
  predicate PyEqual(a: Value, b: Value) {
    if AsInt(a).Some? && AsInt(b).Some? then AsInt(a) == AsInt(b) else a == b
  }

  /** Python's `<`; None where it raises a TypeError. */
  function PyLess(a: Value, b: Value): Option<bool> {
    if AsInt(a).Some? && AsInt(b).Some? then Some(AsInt(a).value < AsInt(b).value)
    else if a.Str? && b.Str? then Some(TextLess(a.s, b.s))
    else None
  }

  datatype Op =
    | Eq | Ne | Gt | Lt | Ge | Le
    | In | NotIn | Contains | NotContains | StartWith | EndWith | Empty | NotEmpty
    | Unknown(name: string)

  predicate IsComparison(op: Op) {
    op.Eq? || op.Ne? || op.Gt? || op.Lt? || op.Ge? || op.Le?
  }

  predicate IsRange(op: Op) {
    op.Gt? || op.Lt? || op.Ge? || op.Le?
  }

  /** What the order operators say of two integers. */
  predicate OrderHolds(op: Op, n: int, m: int) {
    match op
    case Gt => n > m
    case Lt => n < m
    case Ge => n >= m
    case Le => n <= m
    case _ => false
  }

  /** One user condition. A missing or non-string key is the empty key. */
  datatype Filter = Filter(key: string, op: Op, value: Value)

  datatype Logic = And | Or | BadLogic(name: string)

  lemma {:induction false} StripLeftLower(s: string)
    ensures StripLeft(Lower(s)) == Lower(StripLeft(s))
  {
    if s != "" && IsSpace(s[0]) {
      assert Lower(s)[1..] == Lower(s[1..]);
      StripLeftLower(s[1..]);
    }
  }

  lemma {:induction false} StripRightLower(s: string)
    ensures StripRight(Lower(s)) == Lower(StripRight(s))
  {
    if s != "" && IsSpace(s[|s| - 1]) {
      assert Lower(s)[..|s| - 1] == Lower(s[..|s| - 1]);
      StripRightLower(s[..|s| - 1]);
    }
  }

  /** Lower-casing neither makes nor breaks a date. */
  lemma DateLower(s: string)
    ensures IsDate(Strip(Lower(s))) <==> IsDate(Strip(s))
  {
    StripLeftLower(s);
    StripRightLower(StripLeft(s));
    var t := Strip(s);
    assert Strip(Lower(s)) == Lower(t);
    if IsDate(t) || IsDate(Lower(t)) {
      forall i | 0 <= i < |t| ensures Lower(t)[i] == LowerChar(t[i]) {
      }
    }
  }

  lemma {:induction false} StripLength(s: string)
    ensures |Strip(s)| <= |s|
    ensures |Strip(s)| == |s| ==> Strip(s) == s
  {
    StripLeftLength(s);
    StripRightLength(StripLeft(s));
  }

  lemma {:induction false} StripLeftLength(s: string)
    ensures |StripLeft(s)| <= |s|
    ensures |StripLeft(s)| == |s| ==> StripLeft(s) == s
  {
    if s != "" && IsSpace(s[0]) {
      StripLeftLength(s[1..]);
    }
  }

  lemma {:induction false} StripRightLength(s: string)
    ensures |StripRight(s)| <= |s|
    ensures |StripRight(s)| == |s| ==> StripRight(s) == s
  {
    if s != "" && IsSpace(s[|s| - 1]) {
      StripRightLength(s[..|s| - 1]);
    }
  }
}
