/** Which global or output an expression names, and when reading and writing it raises
    (agent/canvas.py). */
module VariableNames {
  import opened PyValues
  import opened CommaLists
  import opened VariableTree
  import opened Variables

  // ---- expressions ----

  function Joined(keys: Keys): string {
    if keys == [] then "" else if |keys| == 1 then keys[0] else keys[0] + "." + Joined(keys[1..])
  }

  /** `name`, `component@root` or `component@root.a.b`. */
  function Spelled(p: Place): string {
    match p
    case Global(name) => name
    case Output(component, root, keys) => component + "@" + root + if keys == [] then "" else "." + Joined(keys)
  }

  /** What can be spelled: no at sign in a global or a component, no dot in a root or a key, and not
      the one empty key. */
  predicate IsSpellable(p: Place) {
    match p
    case Global(name) => '@' !in name
    case Output(component, root, keys) =>
      '@' !in component && '.' !in root && (forall key <- keys :: '.' !in key) && keys != [""]
  }

  /** Braces and blanks around an expression. */
  function Repeated(c: char, n: nat): (r: string)
    ensures |r| == n && forall i :: 0 <= i < n ==> r[i] == c
  {
    seq(n, _ => c)
  }

  function Wrapped(e: string, open: nat, before: nat, after: nat, close: nat): string {
    Repeated('{', open) + Repeated(' ', before) + e + Repeated(' ', after) + Repeated('}', close)
  }

  predicate IsBare(e: string) {
    e != "" && e[0] !in {'{', '}', ' '} && e[|e| - 1] !in {'{', '}', ' '}
  }

  lemma {:induction false} FrontStripped(c: char, n: nat, s: string)
    requires s == "" || s[0] != c
    ensures StripFront(Repeated(c, n) + s, c) == s
  {
    if n > 0 {
      assert (Repeated(c, n) + s)[1..] == Repeated(c, n - 1) + s;
      FrontStripped(c, n - 1, s);
    } else {
      assert Repeated(c, 0) + s == s;
    }
  }

  lemma {:induction false} BackStripped(c: char, n: nat, s: string)
    requires s == "" || s[|s| - 1] != c
    ensures StripBack(s + Repeated(c, n), c) == s
  {
    if n > 0 {
      var t := s + Repeated(c, n);
      assert t[..|t| - 1] == s + Repeated(c, n - 1);
      BackStripped(c, n - 1, s);
    } else {
      assert s + Repeated(c, 0) == s;
    }
  }

  lemma StrippedIs(c: char, a: nat, s: string, b: nat)
    requires s != "" && s[0] != c && s[|s| - 1] != c
    ensures StripChar(Repeated(c, a) + s + Repeated(c, b), c) == s
  {
    var rest := s + Repeated(c, b);
    assert Repeated(c, a) + s + Repeated(c, b) == Repeated(c, a) + rest;
    assert rest[0] == s[0];
    FrontStripped(c, a, rest);
    BackStripped(c, b, s);
  }

  /** Cleaning takes the wrapping off. */
  lemma CleanUnwraps(e: string, open: nat, before: nat, after: nat, close: nat)
    requires IsBare(e)
    ensures Clean(Wrapped(e, open, before, after, close)) == e
  {
    var blanks := Repeated(' ', before) + e + Repeated(' ', after);
    var closed := blanks + Repeated('}', close);
    assert blanks[0] == (if before > 0 then ' ' else e[0]);
    assert blanks[|blanks| - 1] == (if after > 0 then ' ' else e[|e| - 1]);
    assert Wrapped(e, open, before, after, close) == Repeated('{', open) + closed + Repeated('{', 0);
    assert closed[0] == blanks[0];
    assert closed[|closed| - 1] == (if close > 0 then '}' else blanks[|blanks| - 1]);
    StrippedIs('{', open, closed, 0);
    assert closed == Repeated('}', 0) + blanks + Repeated('}', close);
    StrippedIs('}', 0, blanks, close);
    StrippedIs(' ', before, e, after);
    assert e == Repeated('{', 0) + e + Repeated('{', 0) && e == Repeated('}', 0) + e + Repeated('}', 0);
    StrippedIs('{', 0, e, 0);
    StrippedIs('}', 0, e, 0);
  }

  lemma {:induction false} FirstIsFound(a: string, c: char, b: string)
    requires c !in a
    ensures SplitFirst(a + [c] + b, c) == Some((a, b))
  {
    if a == "" {
      assert a + [c] + b == [c] + b && ([c] + b)[1..] == b;
    } else {
      assert (a + [c] + b)[1..] == a[1..] + [c] + b;
      FirstIsFound(a[1..], c, b);
      assert [a[0]] + a[1..] == a;
    }
  }

  lemma {:induction false} SplitBehind(a: string, c: char, b: string)
    requires c !in a
    ensures SplitOn(a + [c] + b, c) == [a] + SplitOn(b, c)
  {
    if a == "" {
      assert a + [c] + b == [c] + b && ([c] + b)[1..] == b;
    } else {
      assert (a + [c] + b)[1..] == a[1..] + [c] + b;
      SplitBehind(a[1..], c, b);
      assert [a[0]] + a[1..] == a;
    }
  }

  lemma {:induction false} SplitNothing(a: string, c: char)
    requires c !in a
    ensures SplitOn(a, c) == [a]
  {
    if a != "" {
      SplitNothing(a[1..], c);
      assert [a[0]] + a[1..] == a;
    }
  }

  lemma {:induction false} SplitJoined(keys: Keys)
    requires keys != [] && forall key <- keys :: '.' !in key
    ensures SplitOn(Joined(keys), '.') == keys
  {
    if |keys| == 1 {
      SplitNothing(keys[0], '.');
    } else {
      assert keys == [keys[0]] + keys[1..];
      SplitJoined(keys[1..]);
      SplitBehind(keys[0], '.', Joined(keys[1..]));
    }
  }

  lemma JoinedIsNotEmpty(keys: Keys)
    requires keys != [] && keys != [""]
    ensures Joined(keys) != ""
  {
  }

  /** An expression names what it spells, in any number of braces and blanks. */
  lemma SpelledIsNamed(p: Place, open: nat, before: nat, after: nat, close: nat)
    requires IsSpellable(p) && IsBare(Spelled(p))
    ensures PlaceOf(Wrapped(Spelled(p), open, before, after, close)) == p
  {
    CleanUnwraps(Spelled(p), open, before, after, close);
    hide Clean;
    match p
    case Global(name) =>
      assert SplitFirst(name, '@').None?;
    case Output(component, root, keys) =>
      var tail := if keys == [] then "" else "." + Joined(keys);
      var name := root + tail;
      assert Spelled(p) == component + ['@'] + name;
      FirstIsFound(component, '@', name);
      if keys == [] {
        assert name == root;
        assert SplitFirst(name, '.').None?;
      } else {
        assert name == root + ['.'] + Joined(keys);
        FirstIsFound(root, '.', Joined(keys));
        JoinedIsNotEmpty(keys);
        SplitJoined(keys);
      }
  }

  // ---- errors ----

  /** Reading raises for a global or a component that does not exist, and for nothing else. */
  lemma ReadsIff(lib: Library, store: Store, exp: string)
    ensures GetVariable(lib, store, exp).Ok?
       <==> match PlaceOf(exp)
            case Global(name) => name in store.globals
            case Output(component, _, _) => component in store.outputs
  {
    hide PlaceOf, GetPath;
  }

  /** Writing raises for a component that does not exist, and below an output that holds something
      that is neither a dictionary nor empty. */
  lemma WritesIff(store: Store, exp: string, v: Tree)
    ensures SetVariable(store, exp, v).Ok?
       <==> match PlaceOf(exp)
            case Global(_) => true
            case Output(component, root, keys) =>
              && component in store.outputs
              && (keys == [] || root == "" || root !in store.outputs[component]
                  || store.outputs[component][root].Dict? || IsBlank(store.outputs[component][root]))
  {
    hide PlaceOf, SetPath;
  }

  /** Python's empty values. */
  predicate IsBlank(t: Tree) {
    t == Nil || t == Text("") || t == Number(0) || t == Flag(false) || t == Tree.List([]) || t == Dict(map[])
  }

  // ---- lists and texts on the way ----

  /** A number reads an item of a list, from the front or, negative, from the back. */
  lemma ItemsAreRead(lib: Library, items: seq<Tree>, key: string, more: Keys, i: int)
    requires lib.index(key) == Some(i)
    ensures GetPath(lib, Tree.List(items), [key] + more)
         == if 0 <= i < |items| then GetPath(lib, items[i], more)
            else if 1 <= -i <= |items| then GetPath(lib, items[|items| - (-i)], more)
            else Nil
  {
    NilStaysNil(lib, more);
    assert ([key] + more)[1..] == more;
  }

  /** A text is read as the JSON value it spells, and as nothing if it spells none. */
  lemma TextsAreParsed(lib: Library, s: string, keys: Keys)
    requires keys != [] && (lib.loads(s).Some? ==> !lib.loads(s).value.Text? && !lib.loads(s).value.Nil?)
    ensures GetPath(lib, Text(s), keys) == if lib.loads(s).Some? then GetPath(lib, lib.loads(s).value, keys) else Nil
  {
    NilStaysNil(lib, keys[1..]);
  }
}
