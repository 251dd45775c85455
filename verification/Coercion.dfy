/** Reading a condition's value: the helpers the two translators share word for word. */
module Coercion {
  import opened Text
  import opened PyValues
  import opened CommaLists

  /** `Raised` stands for the translator's exception. */
  datatype Result<T> = Ok(value: T) | Raised(reason: string)
  {
    predicate IsFailure() { Raised? }
    function PropagateFailure<U>(): Result<U> requires Raised? { Raised(reason) }
    function Extract(): T requires Ok? { value }
  }

  function CoerceString(py: Python, v: Value): Result<string> {
    if v.Null? || v.List? then Raised("string-operator value is not a scalar")
    else if py.text(v) == "" then Raised("string-operator value is empty")
    else Ok(py.text(v))
  }

  function NormalisedMember(m: Value): Value {
    if m.Str? then Str(Strip(Lower(m.s))) else m
  }

  function Normalised(members: seq<Value>): (r: seq<Value>)
    ensures |r| == |members|
    ensures forall i :: 0 <= i < |r| ==> r[i] == NormalisedMember(members[i])
  {
    seq(|members|, i requires 0 <= i < |members| => NormalisedMember(members[i]))
  }

  function RawMembers(py: Python, v: Value): seq<Value> {
    match v
    case List(items) => items
    case Str(s) =>
      if py.eval(s).Some? && py.eval(s).value.List?
      then py.eval(s).value.items else NonEmptyStripped(SplitOn(s, ','))
    case _ => [v]
  }

  function CsvOrList(py: Python, v: Value): (r: Result<seq<Value>>)
    ensures r.Ok? ==> r.value != []
  {
    if v.Null? then Raised("membership value is None")
    else if RawMembers(py, v) == [] then Raised("membership value resolved to empty list")
    else Ok(Normalised(RawMembers(py, v)))
  }

  /** The comma-splitting loop of `_csv_or_list`. */
  method SplitMembers(s: string) returns (members: seq<Value>)
    ensures members == NonEmptyStripped(SplitOn(s, ','))
    ensures exists places :: ListsSegments(s, places, members)
  {
    ghost var places := MembersAreSegments(s);
    hide Strip, ListsSegments;
    members := [];
    var parts := SplitOn(s, ',');
    assert parts[0..] == parts;
    for i := 0 to |parts|
      invariant members + NonEmptyStripped(parts[i..]) == NonEmptyStripped(parts)
    {
      assert parts[i..][1..] == parts[i + 1..];
      var p := Strip(parts[i]);
      if p != "" {
        members := members + [Str(p)];
      }
    }
  }

  /** `_csv_or_list`, with its normalising loop. */
  method CsvOrListLoop(py: Python, v: Value) returns (r: Result<seq<Value>>)
    ensures r == CsvOrList(py, v)
  {
    hide NonEmptyStripped, SplitOn, Normalised, ListsSegments;
    if v.Null? {
      return Raised("membership value is None");
    }
    var members: seq<Value> := [v];
    if v.List? {
      members := v.items;
    } else if v.Str? {
      if py.eval(v.s).Some? && py.eval(v.s).value.List? {
        members := py.eval(v.s).value.items;
      } else {
        members := SplitMembers(v.s);
      }
    }
    assert members == RawMembers(py, v);
    if members == [] {
      return Raised("membership value resolved to empty list");
    }
    var normalised := NormaliseLoop(members);
    r := Ok(normalised);
  }

  /** Its last loop. */
  method NormaliseLoop(members: seq<Value>) returns (normalised: seq<Value>)
    ensures normalised == Normalised(members)
  {
    hide NormalisedMember;
    normalised := [];
    for i := 0 to |members|
      invariant normalised == Normalised(members)[..i]
    {
      normalised := normalised + [NormalisedMember(members[i])];
    }
  }
}
