/** The in-memory evaluator: conditions over an inverted index (common/metadata_utils.py). */
module MetaFilter {
  import opened Text
  import opened PyValues

  type DocId = string

  /** One entry of a key's index: a value's text and the documents that carry it. */
  datatype Bucket = Bucket(text: string, ids: seq<DocId>)

  /** What one bucket test leaves behind: the verdict and the re-bound query value. */
  datatype Tested = Tested(matched: bool, value: Value)

  function Lowered(v: Value): Value {
    if v.Str? then Str(Lower(v.s)) else v
  }

  function NormalizeStrings(v: Value): Value {
    match v
    case Str(s) => Str(Lower(s))
    case List(items) => List(seq(|items|, i requires 0 <= i < |items| => Lowered(items[i])))
    case _ => v
  }

  /** `input op value`, a TypeError counting as no match. */
  predicate Compares(op: Op, input: Value, value: Value)
    requires IsComparison(op)
  {
    match op
    case Eq => PyEqual(input, value)
    case Ne => !PyEqual(input, value)
    case Gt => PyLess(value, input) == Some(true)
    case Lt => PyLess(input, value) == Some(true)
    case Ge => PyLess(input, value) == Some(false)
    case Le => PyLess(value, input) == Some(false)
    case _ => false
  }

  /** The remaining operators, on an already lower-cased input text. */
  predicate TextMatches(py: Python, op: Op, input: string, value: Value) {
    match op
    case Contains => value.Str? && Occurs(value.s, input)
    case NotContains => value.Str? && !Occurs(value.s, input)
    case In => (value.Str? && Occurs(input, value.s)) || (value.List? && Str(input) in value.items)
    case NotIn => (value.Str? && !Occurs(input, value.s)) || (value.List? && Str(input) !in value.items)
    case StartWith => StartsWith(Lower(input), Lower(py.text(value)))
    case EndWith => EndsWith(Lower(input), Lower(py.text(value)))
    case Empty => input == ""
    case NotEmpty => input != ""
    case _ => false
  }

  /** Both sides through `literal_eval`, the query only if the input got through. */
  function Evaluated(py: Python, input: string, value: Value): (Value, Value) {
    match py.eval(input)
    case None => (Str(input), value)
    case Some(i) =>
      if value.Str? && py.eval(value.s).Some? then (i, py.eval(value.s).value) else (i, value)
  }

  /** One turn of the bucket loop. */
  function Test(py: Python, op: Op, input: string, value: Value): Tested {
    if IsComparison(op) then
      var inputText, valueText := Strip(input), Strip(py.text(value));
      if IsDate(valueText) then
        if IsDate(inputText)
        then Tested(Compares(op, Str(inputText), Str(valueText)), Str(valueText))
        else Tested(false, value)
      else
        var (i, v) := Evaluated(py, input, value);
        Tested(Compares(op, Lowered(i), Lowered(v)), Lowered(v))
    else
      var v := NormalizeStrings(value);
      Tested(TextMatches(py, op, Lower(input), v), v)
  }

  /** The whole bucket loop, threading the re-bound value. */
  function Collect(py: Python, buckets: seq<Bucket>, op: Op, value: Value): seq<DocId> {
    if buckets == [] then []
    else
      var t := Test(py, op, buckets[0].text, value);
      (if t.matched then buckets[0].ids else []) + Collect(py, buckets[1..], op, t.value)
  }

  /** Reference meaning of one condition: every bucket tested against the value as given. */
  ghost predicate Selected(py: Python, buckets: seq<Bucket>, op: Op, value: Value, id: DocId) {
    exists b <- buckets :: id in b.ids && Test(py, op, b.text, value).matched
  }

  method FilterOut(py: Python, buckets: seq<Bucket>, op: Op, value: Value) returns (ids: seq<DocId>)
    ensures ids == Collect(py, buckets, op, value)
  {
    hide Test, Collect;
    ids := [];
    var current := value;
    assert buckets[0..] == buckets && [] + Collect(py, buckets, op, value) == Collect(py, buckets, op, value);
    for i := 0 to |buckets|
      invariant ids + Collect(py, buckets[i..], op, current) == Collect(py, buckets, op, value)
    {
      CollectUnfolds(py, buckets[i..], op, current);
      assert buckets[i..][1..] == buckets[i + 1..];
      var t := Test(py, op, buckets[i].text, current);
      if t.matched {
        Regroup(ids, buckets[i].ids, Collect(py, buckets[i + 1..], op, t.value));
        ids := ids + buckets[i].ids;
      }
      current := t.value;
    }
    NothingCollected(py, op, current);
  }

  lemma CollectUnfolds(py: Python, buckets: seq<Bucket>, op: Op, value: Value)
    requires buckets != []
    ensures var t := Test(py, op, buckets[0].text, value);
      var rest := Collect(py, buckets[1..], op, t.value);
      Collect(py, buckets, op, value) == if t.matched then buckets[0].ids + rest else rest
  {
    hide Test;
  }

  lemma NothingCollected(py: Python, op: Op, value: Value)
    ensures Collect(py, [], op, value) == []
  {
  }

  lemma Regroup(a: seq<DocId>, b: seq<DocId>, c: seq<DocId>)
    ensures a + (b + c) == a + b + c
  {
  }

  type Index = map<string, seq<Bucket>>

  /** The ids one condition contributes; an unknown key contributes none. */
  function IdsOf(py: Python, metas: Index, f: Filter): (ids: set<DocId>) {
    if f.key in metas then (set id <- Collect(py, metas[f.key], f.op, f.value)) else {}
  }

  /** Reference meaning of a condition list: no conditions select nothing, "and" takes every
      condition, any other logic takes one. */
  ghost predicate Chosen(py: Python, metas: Index, filters: seq<Filter>, logic: Logic, id: DocId) {
    && filters != []
    && if logic.And? then forall f <- filters :: id in IdsOf(py, metas, f)
       else exists f <- filters :: id in IdsOf(py, metas, f)
  }

  /** `meta_filter`, with its early return at the first empty intersection. */
  method Run(py: Python, metas: Index, filters: seq<Filter>, logic: Logic) returns (found: set<DocId>)
    ensures forall id :: id in found <==> Chosen(py, metas, filters, logic, id)
  {
    hide Collect;
    var docIds: Option<set<DocId>> := None;
    for n := 0 to |filters|
      invariant docIds.None? <==> n == 0
      invariant n > 0 ==>
        forall id :: id in docIds.value <==> Chosen(py, metas, filters[..n], logic, id)
    {
      var f := filters[n];
      var ids := [];
      if f.key in metas {
        ids := FilterOut(py, metas[f.key], f.op, f.value);
      }
      var these := set id <- ids;
      assert these == IdsOf(py, metas, f);
      assert filters[..n + 1] == filters[..n] + [f];
      if docIds.None? {
        docIds := Some(these);
      } else if logic.And? {
        docIds := Some(docIds.value * these);
        if docIds.value == {} {
          forall id ensures !Chosen(py, metas, filters, logic, id) {
            assert id !in docIds.value;
            assert forall g <- filters[..n + 1] :: g in filters;
          }
          return {};
        }
      } else {
        docIds := Some(docIds.value + these);
      }
    }
    assert filters[..|filters|] == filters;
    found := if docIds.Some? then docIds.value else {};
  }
}
