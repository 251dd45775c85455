/** Reading and writing a variable by its expression, `component@output.a.b`
    (agent/canvas.py). */
module Variables {
  import opened PyValues
  import opened Coercion
  import opened CommaLists
  import opened VariableTree

  /** The canvas globals and, by component id, the component outputs. */
  datatype Store = Store(globals: map<string, Tree>, outputs: map<string, map<string, Tree>>)

  // ---- expressions ----

  function StripFront(s: string, c: char): string {
    if s != "" && s[0] == c then StripFront(s[1..], c) else s
  }

  function StripBack(s: string, c: char): string {
    if s != "" && s[|s| - 1] == c then StripBack(s[..|s| - 1], c) else s
  }

  /** `s.strip(c)` */
  function StripChar(s: string, c: char): string {
    StripBack(StripFront(s, c), c)
  }

  function Clean(exp: string): string {
    StripChar(StripChar(StripChar(StripChar(StripChar(exp, '{'), '}'), ' '), '{'), '}')
  }

  /** `s.split(c, 1)`: before and after the first `c`; None when there is none. */
  function SplitFirst(s: string, c: char): (r: Option<(string, string)>)
    ensures r.Some? ==> s == r.value.0 + [c] + r.value.1 && c !in r.value.0
    ensures r.None? ==> c !in s
  {
    if s == "" then None
    else if s[0] == c then (assert s == "" + [c] + s[1..]; Some(("", s[1..])))
    else
      var r := SplitFirst(s[1..], c);
      assert s == [s[0]] + s[1..];
      if r.None? then None
      else
        assert [s[0]] + (r.value.0 + [c] + r.value.1) == ([s[0]] + r.value.0) + [c] + r.value.1;
        Some(([s[0]] + r.value.0, r.value.1))
  }

  /** What an expression names: a global, or an output and a path inside it. */
  datatype Place = Global(name: string) | Output(component: string, root: string, keys: Keys)

  function PlaceOf(exp: string): Place {
    var e := Clean(exp);
    match SplitFirst(e, '@')
    case None => Global(e)
    case Some((component, name)) =>
      match SplitFirst(name, '.')
      case None => Output(component, name, [])
      case Some((root, rest)) => Output(component, root, if rest == "" then [] else SplitOn(rest, '.'))
  }

  /** An output has a name; an empty one means all outputs at once. */
  predicate HasName(p: Place) {
    p.Output? ==> p.root != ""
  }

  // ---- reading and writing ----

  /** `output(root)`: without a name, a new dictionary of all outputs. */
  function OutputOf(outputs: map<string, Tree>, root: string): Tree {
    if root == "" then Dict(outputs) else if root in outputs then outputs[root] else Text("")
  }

  /** The new dictionary shares the dictionaries in it with the outputs, so a deeper write through
      it changes the output it passes. */
  predicate SharesFirst(outputs: map<string, Tree>, keys: Keys) {
    |keys| >= 2 && keys[0] in outputs && outputs[keys[0]].Dict?
  }

  function PassedOn(outputs: map<string, Tree>, root: string, keys: Keys, v: Tree): map<string, Tree> {
    if root == "" && SharesFirst(outputs, keys)
    then outputs[keys[0] := Dict(SetPath(outputs[keys[0]].entries, keys[1..], v))]
    else outputs
  }

  predicate IsTruthy(t: Tree) {
    match t
    case Nil => false
    case Text(s) => s != ""
    case Number(n) => n != 0
    case Flag(b) => b
    case List(items) => items != []
    case Dict(entries) => entries != map[]
    case Opaque(_) => true
  }

  function GetAt(lib: Library, store: Store, p: Place): Result<Tree> {
    match p
    case Global(name) => if name in store.globals then Ok(store.globals[name]) else Raised("KeyError")
    case Output(component, root, keys) =>
      if component !in store.outputs then Raised("no such component")
      else Ok(GetPath(lib, OutputOf(store.outputs[component], root), keys))
  }

  function SetAt(store: Store, p: Place, v: Tree): Result<Store> {
    match p
    case Global(name) => Ok(store.(globals := store.globals[name := v]))
    case Output(component, root, keys) =>
      if component !in store.outputs then Raised("no such component")
      else
        var outputs := store.outputs[component];
        var held := OutputOf(outputs, root);
        if keys != [] && IsTruthy(held) && !held.Dict? then Raised("TypeError")
        else
          var value := if keys == [] then v else Dict(SetPath(EntriesOf(held), keys, v));
          Ok(store.(outputs := store.outputs[component := PassedOn(outputs, root, keys, v)[root := value]]))
  }

  /** `get_variable_value` */
  function GetVariable(lib: Library, store: Store, exp: string): Result<Tree> {
    GetAt(lib, store, PlaceOf(exp))
  }

  /** `set_variable_value` */
  function SetVariable(store: Store, exp: string, v: Tree): Result<Store> {
    SetAt(store, PlaceOf(exp), v)
  }

  // ---- what a write does to every read ----

  /** Is a write to this place read back? Without an output name only if it goes into a dictionary
      that is itself a named output. */
  predicate ReadsBack(store: Store, p: Place) {
    HasName(p) ||
      (p.component in store.outputs && SharesFirst(store.outputs[p.component], p.keys) && p.keys[0] != "")
  }

  lemma WrittenIsReadAt(lib: Library, store: Store, p: Place, v: Tree)
    requires ReadsBack(store, p) && SetAt(store, p, v).Ok?
    ensures GetAt(lib, SetAt(store, p, v).value, p) == Ok(v)
  {
    if p.Output? && p.keys != [] {
      var outputs := store.outputs[p.component];
      ReadBelow(lib, EntriesOf(OutputOf(outputs, p.root)), p.keys, [], v);
      assert p.keys + [] == p.keys;
      if p.root == "" {
        ReadBelow(lib, outputs[p.keys[0]].entries, p.keys[1..], [], v);
        assert p.keys[1..] + [] == p.keys[1..];
      }
    }
  }

  /** A path shorter than the written one does not read every written value. */
  lemma ShorterMisses(lib: Library, entries: map<string, Tree>, keys: Keys, other: Keys)
    requires |other| < |keys|
    ensures exists v :: GetPath(lib, Dict(SetPath(entries, keys, v)), other) != v
  {
    var n := Shared(keys, other);
    if n == |other| {
      assert other == keys[..n];
      ReadAbove(lib, entries, keys, n, Nil);
      assert GetPath(lib, Dict(SetPath(entries, keys, Nil)), other) != Nil;
    } else {
      var t := if DictsAlong(entries, keys, n) then GetPath(lib, Dict(entries), other) else Nil;
      ReadBeside(lib, entries, keys, other, Another(t));
      assert GetPath(lib, Dict(SetPath(entries, keys, Another(t))), other) != Another(t);
    }
  }

  function Another(t: Tree): (r: Tree)
    ensures r != t
  {
    if t == Nil then Number(0) else Nil
  }

  /** What the all-outputs read finds when it is not the output the write went into. */
  lemma UnnamedMisses(lib: Library, store: Store, p: Place)
    requires !HasName(p) && p.component in store.outputs && !ReadsBack(store, p)
    ensures exists v :: SetAt(store, p, v).Ok? && GetAt(lib, SetAt(store, p, v).value, p) != Ok(v)
  {
    var outputs, keys := store.outputs[p.component], p.keys;
    if keys == [] {
      assert GetAt(lib, SetAt(store, p, Nil).value, p) == Ok(Dict(outputs["" := Nil]));
    } else if keys[0] != "" {
      var t := GetPath(lib, Dict(outputs), keys);
      assert GetKey(lib, Dict(outputs), keys[0])
          == GetKey(lib, Dict(outputs["" := Dict(SetPath(outputs, keys, Another(t)))]), keys[0]);
      assert GetAt(lib, SetAt(store, p, Another(t)).value, p) == Ok(t);
    } else {
      ShorterMisses(lib, outputs, keys, keys[1..]);
      var v :| GetPath(lib, Dict(SetPath(outputs, keys, v)), keys[1..]) != v;
      assert GetAt(lib, SetAt(store, p, v).value, p) == Ok(GetPath(lib, Dict(SetPath(outputs, keys, v)), keys[1..]));
    }
  }

  /** Every value written at an expression of an existing component that does not raise is read
      back, if and only if the expression names an output, or goes through all outputs into a
      dictionary that is one. */
  lemma WrittenIsReadIff(lib: Library, store: Store, exp: string)
    requires PlaceOf(exp).Output? ==> PlaceOf(exp).component in store.outputs
    ensures (forall v :: SetVariable(store, exp, v).Ok? ==>
              GetVariable(lib, SetVariable(store, exp, v).value, exp) == Ok(v))
       <==> ReadsBack(store, PlaceOf(exp))
  {
    hide PlaceOf;
    var p := PlaceOf(exp);
    if ReadsBack(store, p) {
      forall v | SetAt(store, p, v).Ok? ensures GetAt(lib, SetAt(store, p, v).value, p) == Ok(v) {
        WrittenIsReadAt(lib, store, p, v);
      }
    } else {
      UnnamedMisses(lib, store, p);
    }
  }

  /** Do two expressions name the same global or the same output? */
  predicate SameRoot(p: Place, q: Place) {
    if p.Global? || q.Global? then p == q else p.component == q.component && p.root == q.root
  }

  predicate Diverge(p: Place, q: Place) {
    p.Output? && q.Output? && Shared(p.keys, q.keys) < |p.keys| && Shared(p.keys, q.keys) < |q.keys|
  }

  /** The named output a path through all outputs goes into. */
  function Through(q: Place): Place
    requires q.Output? && q.keys != []
  {
    Output(q.component, q.keys[0], q.keys[1..])
  }

  /** A write at a named output. Another global or output reads as before. Inside the same output,
      a path that leaves the written one after some shared keys reads as before if those led
      through dictionaries, and nothing otherwise; one that goes on behind the written path
      reads inside the new value. */
  lemma WriteLeavesTheRest(lib: Library, store: Store, exp: string, other: string, v: Tree)
    requires HasName(PlaceOf(exp)) && HasName(PlaceOf(other)) && SetVariable(store, exp, v).Ok?
    ensures var p, q := PlaceOf(exp), PlaceOf(other);
      var after := GetVariable(lib, SetVariable(store, exp, v).value, other);
      && (!SameRoot(p, q) ==> after == GetVariable(lib, store, other))
      && (SameRoot(p, q) && Diverge(p, q) ==>
            after == if OutputOf(store.outputs[p.component], p.root).Dict?
                        && DictsAlong(OutputOf(store.outputs[p.component], p.root).entries, p.keys, Shared(p.keys, q.keys))
                     then GetVariable(lib, store, other) else Ok(Nil))
      && (SameRoot(p, q) && p.Output? && p.keys <= q.keys ==>
            after == Ok(GetPath(lib, v, q.keys[|p.keys|..])))
  {
    hide PlaceOf;
    var p, q := PlaceOf(exp), PlaceOf(other);
    if SameRoot(p, q) && p.Output? {
      SameOutput(lib, store, p, q, v);
    }
  }

  /** Reads through all outputs after a write at a named one: the written output is seen in them,
      and everything else reads as before. */
  lemma AllOutputsSeeTheWrite(lib: Library, store: Store, exp: string, other: string, v: Tree)
    requires HasName(PlaceOf(exp)) && !HasName(PlaceOf(other)) && SetVariable(store, exp, v).Ok?
    ensures var p, q := PlaceOf(exp), PlaceOf(other);
      var written := SetVariable(store, exp, v).value;
      var after := GetVariable(lib, written, other);
      && (p.Global? || p.component != q.component ==> after == GetVariable(lib, store, other))
      && (p.Output? && p.component == q.component ==>
            if q.keys == [] then
              after == Ok(Dict(store.outputs[p.component][p.root := OutputOf(written.outputs[p.component], p.root)]))
            else
              after == if q.keys[0] == p.root then GetAt(lib, written, Through(q)) else GetVariable(lib, store, other))
  {
    hide PlaceOf;
  }

  /** A write through all outputs: outputs read as before, except the dictionary it goes into,
      which reads as after a write there. */
  lemma UnnamedWriteTouches(lib: Library, store: Store, exp: string, other: string, v: Tree)
    requires !HasName(PlaceOf(exp)) && SetVariable(store, exp, v).Ok?
    requires var q := PlaceOf(other); HasName(q) || (q.keys != [] && q.keys[0] != "")
    ensures var p, q := PlaceOf(exp), PlaceOf(other);
      var root := if q.Global? then "" else if HasName(q) then q.root else q.keys[0];
      GetVariable(lib, SetVariable(store, exp, v).value, other)
        == if q.Output? && q.component == p.component && SharesFirst(store.outputs[p.component], p.keys) && root == p.keys[0]
           then GetAt(lib, SetAt(store, Through(p), v).value, q) else GetVariable(lib, store, other)
  {
    hide PlaceOf, GetPath, SetPath;
    var q := PlaceOf(other);
    if !HasName(q) {
      FirstKey(lib, q.keys);
    }
  }

  lemma FirstKey(lib: Library, keys: Keys)
    requires keys != []
    ensures forall entries ::
      GetPath(lib, Dict(entries), keys)
        == GetPath(lib, if keys[0] in entries then entries[keys[0]] else Nil, keys[1..])
  {
  }

  lemma SameOutput(lib: Library, store: Store, p: Place, q: Place, v: Tree)
    requires HasName(p) && HasName(q) && p.Output? && SameRoot(p, q) && SetAt(store, p, v).Ok?
    ensures var held := OutputOf(store.outputs[p.component], p.root);
      var after := GetAt(lib, SetAt(store, p, v).value, q);
      && (Diverge(p, q) ==>
            after == if held.Dict? && DictsAlong(held.entries, p.keys, Shared(p.keys, q.keys))
                     then GetAt(lib, store, q) else Ok(Nil))
      && (p.keys <= q.keys ==> after == Ok(GetPath(lib, v, q.keys[|p.keys|..])))
  {
    hide DictsAlong, SetPath, GetPath;
    var held := OutputOf(store.outputs[p.component], p.root);
    if p.keys == [] {
      assert q.keys[0..] == q.keys;
    } else {
      if p.keys <= q.keys {
        var more := q.keys[|p.keys|..];
        assert q.keys == p.keys + more;
        ReadBelow(lib, EntriesOf(held), p.keys, more, v);
      }
      if Diverge(p, q) {
        ReadBeside(lib, EntriesOf(held), p.keys, q.keys, v);
        ReadEmpty(lib, q.keys);
      }
    }
  }
}
