/** Reading and writing `a.b.c` inside a stored value, on the values themselves: what the
    in-place code of VariableStore is proved against (agent/canvas.py). */
module VariableTree {
  import opened PyValues

  /** A stored value; `Opaque` stands for any other object. */
  datatype Tree =
    | Nil
    | Text(s: string)
    | Number(n: int)
    | Flag(b: bool)
    | List(items: seq<Tree>)
    | Dict(entries: map<string, Tree>)
    | Opaque(tag: int)

  /** Library code the reader leans on: `json.loads` (None when it raises), `int` on a text, and
      `getattr` with a default of None. */
  datatype Library = Library(loads: string -> Option<Tree>, index: string -> Option<int>, attr: (Tree, string) -> Tree)

  type Keys = seq<string>

  // ---- reading ----

  /** Python's `items[i]`; None when it raises. */
  function ItemAt(items: seq<Tree>, i: int): Tree {
    if 0 <= i < |items| then items[i]
    else if -|items| <= i < 0 then items[|items| + i]
    else Nil
  }

  /** One key deeper; a text is parsed first and must parse. */
  function GetKey(lib: Library, t: Tree, key: string): Tree {
    if t.Nil? || (t.Text? && lib.loads(t.s).None?) then Nil
    else
      var cur := if t.Text? then lib.loads(t.s).value else t;
      match cur
      case Dict(entries) => if key in entries then entries[key] else Nil
      case List(items) => if lib.index(key).Some? then ItemAt(items, lib.index(key).value) else Nil
      case _ => lib.attr(cur, key)
  }

  function GetPath(lib: Library, t: Tree, keys: Keys): Tree
    decreases |keys|
  {
    if keys == [] then t else GetPath(lib, GetKey(lib, t, keys[0]), keys[1..])
  }

  // ---- writing ----

  function EntriesOf(t: Tree): map<string, Tree> {
    if t.Dict? then t.entries else map[]
  }

  /** Every key but the last is made to hold a dictionary. */
  function SetPath(entries: map<string, Tree>, keys: Keys, v: Tree): map<string, Tree>
    requires keys != []
    decreases |keys|
  {
    if |keys| == 1 then entries[keys[0] := v]
    else
      var inner := if keys[0] in entries then EntriesOf(entries[keys[0]]) else map[];
      entries[keys[0] := Dict(SetPath(inner, keys[1..], v))]
  }

  // ---- what a write does to every read ----

  /** How far two paths agree. */
  function Shared(a: Keys, b: Keys): (n: nat)
    ensures n <= |a| && n <= |b| && a[..n] == b[..n]
    ensures n < |a| && n < |b| ==> a[n] != b[n]
  {
    if a == [] || b == [] || a[0] != b[0] then 0
    else
      var n := 1 + Shared(a[1..], b[1..]);
      assert a[..n] == [a[0]] + a[1..][..n - 1] && b[..n] == [b[0]] + b[1..][..n - 1];
      n
  }

  /** The first `n` keys lead through dictionaries only. */
  predicate DictsAlong(entries: map<string, Tree>, keys: Keys, n: nat)
    requires n <= |keys|
    decreases n
  {
    n == 0 ||
      (keys[0] in entries && entries[keys[0]].Dict? && DictsAlong(entries[keys[0]].entries, keys[1..], n - 1))
  }

  lemma {:induction false} NilStaysNil(lib: Library, keys: Keys)
    ensures GetPath(lib, Nil, keys) == Nil
    decreases |keys|
  {
    if keys != [] {
      NilStaysNil(lib, keys[1..]);
    }
  }

  /** The longer path reads inside the written value; in particular the written path reads it
      back. */
  lemma {:induction false} ReadBelow(lib: Library, entries: map<string, Tree>, keys: Keys, more: Keys, v: Tree)
    requires keys != []
    ensures GetPath(lib, Dict(SetPath(entries, keys, v)), keys + more) == GetPath(lib, v, more)
    decreases |keys|
  {
    assert (keys + more)[0] == keys[0] && (keys + more)[1..] == keys[1..] + more;
    if |keys| == 1 {
      assert keys[1..] + more == more;
    } else {
      var inner := if keys[0] in entries then EntriesOf(entries[keys[0]]) else map[];
      ReadBelow(lib, inner, keys[1..], more, v);
    }
  }

  /** A path that leaves the written one after `n` shared keys reads what it read before if those
      keys led through dictionaries, and nothing if one of them did not. */
  /** What a write does at its first key. */
  lemma WriteAtHead(entries: map<string, Tree>, keys: Keys, v: Tree)
    requires keys != []
    ensures var inner := if keys[0] in entries then EntriesOf(entries[keys[0]]) else map[];
      SetPath(entries, keys, v) == entries[keys[0] := if |keys| == 1 then v else Dict(SetPath(inner, keys[1..], v))]
  {
  }

  lemma {:induction false} ReadBeside(lib: Library, entries: map<string, Tree>, keys: Keys, other: Keys, v: Tree)
    requires Shared(keys, other) < |keys| && Shared(keys, other) < |other|
    ensures GetPath(lib, Dict(SetPath(entries, keys, v)), other)
         == if DictsAlong(entries, keys, Shared(keys, other)) then GetPath(lib, Dict(entries), other) else Nil
    decreases |keys|
  {
    WriteAtHead(entries, keys, v);
    hide SetPath;
    if keys[0] == other[0] {
      var k, rest := keys[0], other[1..];
      var held := if k in entries then entries[k] else Nil;
      var inner := if k in entries then EntriesOf(entries[k]) else map[];
      ReadBeside(lib, inner, keys[1..], rest, v);
      if !held.Dict? {
        ReadEmpty(lib, rest);
      }
    }
  }

  lemma ReadEmpty(lib: Library, keys: Keys)
    requires keys != []
    ensures GetPath(lib, Dict(map[]), keys) == Nil
  {
    NilStaysNil(lib, keys[1..]);
  }

  /** A path that stops short of the written one reads a dictionary that holds the write. */
  lemma {:induction false} ReadAbove(lib: Library, entries: map<string, Tree>, keys: Keys, n: nat, v: Tree)
    requires n < |keys|
    ensures var inner := if DictsAlong(entries, keys, n) then EntriesOf(GetPath(lib, Dict(entries), keys[..n])) else map[];
      GetPath(lib, Dict(SetPath(entries, keys, v)), keys[..n]) == Dict(SetPath(inner, keys[n..], v))
    decreases n
  {
    if n > 0 {
      assert keys[..n][0] == keys[0] && keys[..n][1..] == keys[1..][..n - 1] && keys[1..][n - 1..] == keys[n..];
      var inner := if keys[0] in entries then EntriesOf(entries[keys[0]]) else map[];
      ReadAbove(lib, inner, keys[1..], n - 1, v);
    } else {
      assert keys[..0] == [] && keys[0..] == keys;
    }
  }

  /** Putting an empty dictionary where the write needs one changes nothing about the write. */
  lemma {:induction false} MakeRoom(entries: map<string, Tree>, keys: Keys, n: nat, v: Tree)
    requires n + 1 < |keys| && DictsAlong(entries, keys, n) && !DictsAlong(entries, keys, n + 1)
    ensures SetPath(SetPath(entries, keys[..n + 1], Dict(map[])), keys, v) == SetPath(entries, keys, v)
    decreases n
  {
    var k := keys[0];
    assert keys[..n + 1][0] == k && keys[..n + 1][1..] == keys[1..][..n];
    if n > 0 {
      MakeRoom(entries[k].entries, keys[1..], n - 1, v);
      var inner := SetPath(entries[k].entries, keys[1..][..n], Dict(map[]));
      assert SetPath(entries, keys[..n + 1], Dict(map[])) == entries[k := Dict(inner)];
    } else {
      assert SetPath(entries, keys[..1], Dict(map[])) == entries[k := Dict(map[])];
    }
  }
}
