/** Merging new metadata into a document's metadata (common/metadata_utils.py, `dedupe_list`
    and `update_metadata_to`). Values are told apart by their text, as `str` gives it. */
module MetadataUpdate {
  import opened PyValues

  type Metadata = map<string, Value>

  // ---- duplicates ----

  /** The values whose text is neither in `seen` nor that of an earlier one. */
  function FirstOnly(py: Python, values: seq<Value>, seen: set<string>): seq<Value>
    decreases |values|
  {
    if values == [] then []
    else if py.text(values[0]) in seen then FirstOnly(py, values[1..], seen)
    else [values[0]] + FirstOnly(py, values[1..], seen + {py.text(values[0])})
  }

  function Dedupe(py: Python, values: seq<Value>): seq<Value> {
    FirstOnly(py, values, {})
  }

  function TextsOf(py: Python, values: seq<Value>): set<string> {
    set v <- values :: py.text(v)
  }

  lemma TextsCons(py: Python, values: seq<Value>)
    requires values != []
    ensures TextsOf(py, values) == {py.text(values[0])} + TextsOf(py, values[1..])
  {
    assert values == [values[0]] + values[1..];
  }

  method DedupeList(py: Python, values: seq<Value>) returns (deduped: seq<Value>)
    ensures deduped == Dedupe(py, values)
  {
    var seen: set<string> := {};
    deduped := [];
    assert values[0..] == values;
    for i := 0 to |values|
      invariant deduped + FirstOnly(py, values[i..], seen) == Dedupe(py, values)
    {
      assert values[i..][0] == values[i] && values[i..][1..] == values[i + 1..];
      var key := py.text(values[i]);
      if key !in seen {
        assert deduped + ([values[i]] + FirstOnly(py, values[i + 1..], seen + {key}))
            == deduped + [values[i]] + FirstOnly(py, values[i + 1..], seen + {key});
        seen := seen + {key};
        deduped := deduped + [values[i]];
      }
    }
  }

  /** Each text is kept once, at its first place, and none is lost. */
  lemma {:induction false} FirstOnlyKeeps(py: Python, values: seq<Value>, seen: set<string>)
    ensures var r := FirstOnly(py, values, seen);
      && TextsOf(py, r) == TextsOf(py, values) - seen
      && forall i, j | 0 <= i < j < |r| :: py.text(r[i]) != py.text(r[j])
    decreases |values|
  {
    if values != [] {
      TextsCons(py, values);
      var key := py.text(values[0]);
      if key in seen {
        FirstOnlyKeeps(py, values[1..], seen);
      } else {
        var rest := FirstOnly(py, values[1..], seen + {key});
        FirstOnlyKeeps(py, values[1..], seen + {key});
        var r := [values[0]] + rest;
        TextsCons(py, r);
        forall i, j | 0 <= i < j < |r| ensures py.text(r[i]) != py.text(r[j]) {
          assert r[j] == rest[j - 1] && py.text(r[j]) in TextsOf(py, rest);
          if i > 0 {
            assert r[i] == rest[i - 1];
          }
        }
      }
    }
  }

  lemma {:induction false} FirstOnlyConcat(py: Python, a: seq<Value>, b: seq<Value>, seen: set<string>)
    ensures FirstOnly(py, a + b, seen) == FirstOnly(py, a, seen) + FirstOnly(py, b, seen + TextsOf(py, a))
    decreases |a|
  {
    if a == [] {
      assert a + b == b && seen + TextsOf(py, a) == seen;
    } else {
      assert (a + b)[0] == a[0] && (a + b)[1..] == a[1..] + b;
      TextsCons(py, a);
      var key := py.text(a[0]);
      var next := if key in seen then seen else seen + {key};
      FirstOnlyConcat(py, a[1..], b, next);
      assert next + TextsOf(py, a[1..]) == seen + TextsOf(py, a);
    }
  }

  /** One more value is put last if its text is new, and changes nothing if it is not: so the first
      value of each text is kept, and the kept ones keep their order. */
  lemma OneMoreIsLast(py: Python, values: seq<Value>, v: Value)
    ensures Dedupe(py, []) == []
    ensures Dedupe(py, values + [v])
         == if exists x <- values :: py.text(x) == py.text(v) then Dedupe(py, values) else Dedupe(py, values) + [v]
  {
    FirstOnlyConcat(py, values, [v], {});
    assert [v][1..] == [];
  }

  lemma {:induction false} AllSeen(py: Python, values: seq<Value>, seen: set<string>)
    requires TextsOf(py, values) <= seen
    ensures FirstOnly(py, values, seen) == []
    decreases |values|
  {
    if values != [] {
      TextsCons(py, values);
      AllSeen(py, values[1..], seen);
    }
  }

  lemma {:induction false} NoneSeen(py: Python, values: seq<Value>, seen: set<string>)
    requires TextsOf(py, values) !! seen
    requires forall i, j | 0 <= i < j < |values| :: py.text(values[i]) != py.text(values[j])
    ensures FirstOnly(py, values, seen) == values
    decreases |values|
  {
    if values != [] {
      TextsCons(py, values);
      var rest := values[1..];
      forall v <- rest ensures py.text(v) != py.text(values[0]) {
        var i :| 0 <= i < |rest| && rest[i] == v;
        assert values[i + 1] == v;
      }
      NoneSeen(py, rest, seen + {py.text(values[0])});
    }
  }

  /** Adding to a merged list what it already has merges to the same list. */
  lemma MergeTwice(py: Python, held: seq<Value>, more: seq<Value>)
    ensures Dedupe(py, Dedupe(py, held + more) + more) == Dedupe(py, held + more)
  {
    var once := Dedupe(py, held + more);
    FirstOnlyKeeps(py, held + more, {});
    FirstOnlyConcat(py, once, more, {});
    NoneSeen(py, once, {});
    assert TextsOf(py, more) <= TextsOf(py, held + more);
    AllSeen(py, more, {} + TextsOf(py, once));
  }

  // ---- one key ----

  function TextItems(items: seq<Value>): seq<Value> {
    if items == [] then [] else (if items[0].Str? then [items[0]] else []) + TextItems(items[1..])
  }

  /** What a new value brings: a text, or a list of distinct texts, or nothing. */
  function Usable(py: Python, v: Value): Option<Value> {
    match v
    case Str(_) => Some(v)
    case List(items) => if TextItems(items) == [] then None else Some(List(Dedupe(py, TextItems(items))))
    case _ => None
  }

  function ItemsOf(v: Value): seq<Value> {
    if v.List? then v.items else [v]
  }

  function MergeValue(py: Python, held: Option<Value>, v: Value): Value {
    if held.Some? && held.value.List? then List(Dedupe(py, held.value.items + ItemsOf(v))) else v
  }

  function Lookup(m: Metadata, k: string): Option<Value> {
    if k in m then Some(m[k]) else None
  }

  // ---- the update ----

  /** The items of the new metadata, in order, under distinct keys. */
  ghost predicate DistinctKeys(meta: seq<(string, Value)>) {
    forall i, j | 0 <= i < j < |meta| :: meta[i].0 != meta[j].0
  }

  /** What a new field leaves under its key. */
  function Merged(py: Python, before: Metadata, field: (string, Value)): Option<Value> {
    match Usable(py, field.1)
    case None => Lookup(before, field.0)
    case Some(v) => Some(MergeValue(py, Lookup(before, field.0), v))
  }

  /** Key by key: what the update leaves. */
  ghost predicate Updated(py: Python, before: Metadata, meta: seq<(string, Value)>, after: Metadata) {
    && (forall k: string | forall i | 0 <= i < |meta| :: meta[i].0 != k :: Lookup(after, k) == Lookup(before, k))
    && (forall i | 0 <= i < |meta| :: Lookup(after, meta[i].0) == Merged(py, before, meta[i]))
  }

  /** What is handed over as new metadata. */
  datatype Given = Fields(items: seq<(string, Value)>) | JsonText(s: string) | Nothing | AnythingElse

  /** The dictionary in it, if there is one: a text is parsed first (`repair` is
      `json_repair.loads`, None when it raises). */
  function FieldsOf(repair: string -> Option<Given>, given: Given): Option<seq<(string, Value)>> {
    match given
    case Fields(items) => Some(items)
    case JsonText(s) =>
      if s == "" || repair(s).None? || !repair(s).value.Fields? then None else Some(repair(s).value.items)
    case _ => None
  }

  /** Only fields count, given as such or as a nonempty text that reads as fields. */
  lemma GivenFields(repair: string -> Option<Given>, given: Given, items: seq<(string, Value)>)
    ensures FieldsOf(repair, given) == Some(items)
       <==> given == Fields(items)
            || exists s :: given == JsonText(s) && s != "" && repair(s) == Some(Fields(items))
  {
  }

  /** The metadata of one document. */
  class Document {
    var metadata: Metadata

    constructor (metadata: Metadata)
      ensures this.metadata == metadata
    {
      this.metadata := metadata;
    }

    /** `update_metadata_to` */
    method Update(py: Python, repair: string -> Option<Given>, given: Given)
      requires FieldsOf(repair, given).Some? ==> DistinctKeys(FieldsOf(repair, given).value)
      modifies this
      ensures FieldsOf(repair, given).Some? ==>
        Updated(py, old(metadata), FieldsOf(repair, given).value, metadata)
      ensures FieldsOf(repair, given).None? ==> metadata == old(metadata)
    {
      hide Updated;
      var fields := FieldsOf(repair, given);
      if fields.Some? {
        Merge(py, fields.value);
      }
    }

    /** The loop over the new fields, changing the dictionary in place. */
    method Merge(py: Python, meta: seq<(string, Value)>)
      requires DistinctKeys(meta)
      modifies this
      ensures Updated(py, old(metadata), meta, metadata)
    {
      hide Usable, Dedupe;
      ghost var before := metadata;
      for n := 0 to |meta|
        invariant forall k: string | forall i | 0 <= i < n :: meta[i].0 != k :: Lookup(metadata, k) == Lookup(before, k)
        invariant forall i | 0 <= i < n :: Lookup(metadata, meta[i].0) == Merged(py, before, meta[i])
      {
        var (k, given) := meta[n];
        assert Lookup(metadata, k) == Lookup(before, k);
        ghost var was := metadata;
        var v := Usable(py, given);
        if v.Some? {
          if k !in metadata {
            metadata := metadata[k := v.value];
          } else if metadata[k].List? {
            var merged := DedupeList(py, metadata[k].items + ItemsOf(v.value));
            metadata := metadata[k := List(merged)];
          } else {
            metadata := metadata[k := v.value];
          }
        }
        assert forall other | other != k :: Lookup(metadata, other) == Lookup(was, other);
      }
    }
  }

  /** Merging the same metadata again changes nothing. */
  lemma UpdateIsIdempotent(py: Python, before: Metadata, meta: seq<(string, Value)>, once: Metadata, twice: Metadata)
    requires DistinctKeys(meta) && Updated(py, before, meta, once) && Updated(py, once, meta, twice)
    ensures twice == once
  {
    forall k: string ensures Lookup(twice, k) == Lookup(once, k) {
      if i :| 0 <= i < |meta| && meta[i].0 == k {
        var v := Usable(py, meta[i].1);
        if v.Some? {
          MergeAgain(py, Lookup(before, k), meta[i].1);
        }
      } else {
        assert forall i | 0 <= i < |meta| :: meta[i].0 != k;
      }
    }
    SameLookups(once, twice);
  }

  lemma SameLookups(a: Metadata, b: Metadata)
    requires forall k: string :: Lookup(a, k) == Lookup(b, k)
    ensures a == b
  {
    forall k: string ensures (k in a <==> k in b) && (k in a ==> a[k] == b[k]) {
      assert Lookup(a, k) == Lookup(b, k);
    }
  }

  lemma MergeAgain(py: Python, held: Option<Value>, given: Value)
    requires Usable(py, given).Some?
    ensures var v := Usable(py, given).value;
      MergeValue(py, Some(MergeValue(py, held, v)), v) == MergeValue(py, held, v)
  {
    var v := Usable(py, given).value;
    if held.Some? && held.value.List? {
      MergeTwice(py, held.value.items, ItemsOf(v));
    } else if v.List? {
      var texts := TextItems(given.items);
      MergeTwice(py, [], texts);
      assert [] + texts == texts;
      var once := Dedupe(py, texts);
      MergeTwice(py, [], once);
      assert [] + once == once;
      FirstOnlyKeeps(py, texts, {});
      NoneSeen(py, once, {});
    }
  }

  /** What a new value brings: a text that text, a list its texts in order, each once, if it has any;
      anything else nothing. */
  lemma UsableIs(py: Python, v: Value)
    ensures v.Str? ==> Usable(py, v) == Some(v)
    ensures v.List? ==>
      (Usable(py, v).Some? <==> exists x <- v.items :: x.Str?)
    ensures v.List? && Usable(py, v).Some? ==>
      && Usable(py, v).value.List?
      && (forall x <- Usable(py, v).value.items :: x in v.items && x.Str?)
      && TextsOf(py, Usable(py, v).value.items) == set x <- v.items | x.Str? :: py.text(x)
    ensures !v.Str? && !v.List? ==> Usable(py, v) == None
  {
    if v.List? {
      TextItemsAre(v.items);
      var texts := TextItems(v.items);
      assert texts != [] ==> texts[0] in texts;
      FirstOnlyKeeps(py, TextItems(v.items), {});
      FirstOnlyAmong(py, texts, {});
      assert TextsOf(py, TextItems(v.items)) == set x <- v.items | x.Str? :: py.text(x);
    }
  }

  lemma {:induction false} FirstOnlyAmong(py: Python, values: seq<Value>, seen: set<string>)
    ensures forall x <- FirstOnly(py, values, seen) :: x in values
    decreases |values|
  {
    if values != [] {
      FirstOnlyAmong(py, values[1..], if py.text(values[0]) in seen then seen else seen + {py.text(values[0])});
      assert values == [values[0]] + values[1..];
    }
  }

  lemma {:induction false} TextItemsAre(items: seq<Value>)
    ensures forall x :: x in TextItems(items) <==> x in items && x.Str?
  {
    if items != [] {
      TextItemsAre(items[1..]);
      assert items == [items[0]] + items[1..];
    }
  }

  /** The values of a list that was there stay in front, in their order; anything else is replaced. */
  lemma HeldStayFirst(py: Python, held: seq<Value>, v: Value)
    ensures MergeValue(py, Some(List(held)), v).List?
    ensures Dedupe(py, held) <= MergeValue(py, Some(List(held)), v).items
    ensures MergeValue(py, None, v) == v && forall x: Value | !x.List? :: MergeValue(py, Some(x), v) == v
  {
    FirstOnlyConcat(py, held, ItemsOf(v), {});
  }

  /** A list that was there keeps its texts and gains the new ones, each once. */
  lemma MergedTexts(py: Python, held: seq<Value>, v: Value)
    ensures var r := MergeValue(py, Some(List(held)), v);
      && r.List?
      && TextsOf(py, r.items) == TextsOf(py, held) + TextsOf(py, ItemsOf(v))
      && forall i, j | 0 <= i < j < |r.items| :: py.text(r.items[i]) != py.text(r.items[j])
  {
    var all := held + ItemsOf(v);
    FirstOnlyKeeps(py, all, {});
    forall x ensures x in all <==> x in held || x in ItemsOf(v) {
    }
  }
}
