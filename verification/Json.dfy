/** JSON documents; an object keeps its keys in insertion order, as a Python dict does. */
module Json {
  import opened PyValues

  datatype Json =
    | JNull
    | JBool(b: bool)
    | JNumber(n: int)
    | JString(s: string)
    | JArray(items: seq<Json>)
    | JObject(fields: seq<Field>)

  datatype Field = Field(key: string, value: Json)

  /** `d.get(key)` */
  function Get(fields: seq<Field>, key: string): Option<Json> {
    if fields == [] then None
    else if fields[0].key == key then Some(fields[0].value)
    else Get(fields[1..], key)
  }

  /** `d[key] = value` */
  function Put(fields: seq<Field>, key: string, value: Json): seq<Field> {
    if fields == [] then [Field(key, value)]
    else if fields[0].key == key then [Field(key, value)] + fields[1..]
    else [fields[0]] + Put(fields[1..], key, value)
  }

  function Keys(fields: seq<Field>): (r: seq<string>)
    ensures |r| == |fields| && forall i :: 0 <= i < |r| ==> r[i] == fields[i].key
  {
    if fields == [] then [] else [fields[0].key] + Keys(fields[1..])
  }

  ghost predicate UniqueKeys(fields: seq<Field>) {
    forall i, j | 0 <= i < j < |fields| :: fields[i].key != fields[j].key
  }

  lemma {:induction false} GetPut(fields: seq<Field>, key: string, value: Json, other: string)
    ensures Get(Put(fields, key, value), other) == if other == key then Some(value) else Get(fields, other)
  {
    if fields != [] && fields[0].key != key {
      GetPut(fields[1..], key, value, other);
    }
  }

  /** Putting back what is there changes nothing. */
  lemma {:induction false} PutBack(fields: seq<Field>, key: string)
    requires Get(fields, key).Some?
    ensures Put(fields, key, Get(fields, key).value) == fields
  {
    if fields[0].key != key {
      PutBack(fields[1..], key);
    }
  }

  lemma {:induction false} PutNew(fields: seq<Field>, key: string, value: Json)
    requires key !in Keys(fields)
    ensures Put(fields, key, value) == fields + [Field(key, value)]
  {
    if fields != [] {
      assert Keys(fields)[0] == fields[0].key;
      assert Keys(fields)[1..] == Keys(fields[1..]);
      PutNew(fields[1..], key, value);
    }
  }

  lemma {:induction false} PutKeys(fields: seq<Field>, key: string, value: Json)
    ensures Keys(Put(fields, key, value)) == if key in Keys(fields) then Keys(fields) else Keys(fields) + [key]
  {
    if fields != [] && fields[0].key != key {
      PutKeys(fields[1..], key, value);
    }
  }

  lemma PutKeepsUnique(fields: seq<Field>, key: string, value: Json)
    requires UniqueKeys(fields)
    ensures UniqueKeys(Put(fields, key, value))
  {
    var after := Put(fields, key, value);
    PutKeys(fields, key, value);
    var keys := Keys(fields);
    forall i, j | 0 <= i < j < |after| ensures after[i].key != after[j].key {
      assert after[i].key == Keys(after)[i] && after[j].key == Keys(after)[j];
      if j < |fields| {
        assert keys[i] == fields[i].key && keys[j] == fields[j].key;
      } else {
        assert keys[i] in keys;
      }
    }
  }

  lemma {:induction false} GetIn(fields: seq<Field>, key: string)
    ensures Get(fields, key).Some? <==> key in Keys(fields)
    ensures Get(fields, key).Some? ==>
      exists i :: 0 <= i < |fields| && fields[i] == Field(key, Get(fields, key).value)
  {
    if fields != [] {
      assert Keys(fields) == [fields[0].key] + Keys(fields[1..]);
      GetIn(fields[1..], key);
      if fields[0].key == key {
        assert fields[0] == Field(key, Get(fields, key).value);
      } else if Get(fields, key).Some? {
        var i :| 0 <= i < |fields[1..]| && fields[1..][i] == Field(key, Get(fields[1..], key).value);
        assert fields[i + 1] == fields[1..][i];
      }
    }
  }
}
