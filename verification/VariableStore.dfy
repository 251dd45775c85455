/** The nested dictionaries of a stored value, walked and changed in place
    (agent/canvas.py). A value is tree-shaped: no dictionary is reached by two ways. */
module VariableStore {
  import opened VariableTree

  class PyDict {
    var items: map<string, Val>

    constructor ()
      ensures items == map[]
    {
      items := map[];
    }
  }

  /** Dictionaries are objects; everything else is a value. */
  datatype Val = Leaf(t: Tree) | Node(d: PyDict)

  /** A value together with the dictionary objects it is made of. */
  datatype Shape = Atom(t: Tree) | Branch(d: PyDict, kids: map<string, Shape>)

  function ValOf(s: Shape): Val {
    match s
    case Atom(t) => Leaf(t)
    case Branch(d, _) => Node(d)
  }

  function Plain(s: Shape): Tree {
    match s
    case Atom(t) => t
    case Branch(_, kids) => Dict(map k <- kids :: Plain(kids[k]))
  }

  function Refs(s: Shape): set<PyDict> {
    match s
    case Atom(_) => {}
    case Branch(d, kids) => {d} + (set k, r | k in kids && r in Refs(kids[k]) :: r)
  }

  /** Tree-shaped: every object occurs once. */
  ghost predicate Separate(s: Shape) {
    match s
    case Atom(t) => !t.Dict?
    case Branch(d, kids) =>
      && (forall k <- kids :: d !in Refs(kids[k]) && Separate(kids[k]))
      && (forall k, l | k in kids && l in kids && k != l :: Refs(kids[k]) !! Refs(kids[l]))
  }

  /** What a set of objects holds at one moment. */
  type Heap = map<PyDict, map<string, Val>>

  ghost function Snapshot(objects: set<PyDict>): Heap
    reads objects
  {
    map o <- objects :: o.items
  }

  /** The objects hold what the shape says. */
  ghost predicate MatchesIn(h: Heap, s: Shape) {
    match s
    case Atom(_) => true
    case Branch(d, kids) =>
      d in h && h[d] == (map k <- kids :: ValOf(kids[k])) && forall k <- kids :: MatchesIn(h, kids[k])
  }

  ghost predicate Matches(s: Shape)
    reads Refs(s)
  {
    MatchesIn(Snapshot(Refs(s)), s)
  }

  lemma {:induction false} MatchesAgree(g: Heap, h: Heap, s: Shape)
    requires MatchesIn(g, s) && forall o <- Refs(s) | o in g :: o in h && h[o] == g[o]
    ensures MatchesIn(h, s)
  {
    if s.Branch? {
      forall k <- s.kids ensures MatchesIn(h, s.kids[k]) {
        assert forall o <- Refs(s.kids[k]) :: o in Refs(s);
        MatchesAgree(g, h, s.kids[k]);
      }
    }
  }

  // ---- places ----

  /** `path` leads through dictionary objects. */
  predicate Leads(s: Shape, path: Keys)
    decreases |path|
  {
    s.Branch? && (path == [] || (path[0] in s.kids && Leads(s.kids[path[0]], path[1..])))
  }

  function At(s: Shape, path: Keys): (r: Shape)
    requires Leads(s, path)
    ensures r.Branch? && r.d in Refs(s)
    decreases |path|
  {
    if path == [] then s else At(s.kids[path[0]], path[1..])
  }

  /** The shape after `d[key] = sub` in the dictionary at `path`. */
  function PutAt(s: Shape, path: Keys, key: string, sub: Shape): (r: Shape)
    requires Leads(s, path)
    ensures r.Branch? && r.d == s.d
    decreases |path|
  {
    if path == [] then Branch(s.d, s.kids[key := sub])
    else Branch(s.d, s.kids[path[0] := PutAt(s.kids[path[0]], path[1..], key, sub)])
  }

  lemma {:induction false} PutRefs(s: Shape, path: Keys, key: string, sub: Shape)
    requires Leads(s, path)
    ensures Refs(PutAt(s, path, key, sub)) <= Refs(s) + Refs(sub)
    decreases |path|
  {
    if path != [] {
      PutRefs(s.kids[path[0]], path[1..], key, sub);
    }
  }

  lemma {:induction false} PutSeparate(s: Shape, path: Keys, key: string, sub: Shape)
    requires Leads(s, path) && Separate(s) && Separate(sub) && Refs(s) !! Refs(sub)
    ensures Separate(PutAt(s, path, key, sub))
    decreases |path|
  {
    var changed := if path == [] then key else path[0];
    var kid := if path == [] then sub else PutAt(s.kids[path[0]], path[1..], key, sub);
    if path != [] {
      PutSeparate(s.kids[path[0]], path[1..], key, sub);
      PutRefs(s.kids[path[0]], path[1..], key, sub);
    }
    assert PutAt(s, path, key, sub) == Branch(s.d, s.kids[changed := kid]);
    forall k | k in s.kids && k != changed ensures Refs(s.kids[k]) !! Refs(kid) {
    }
  }

  lemma {:induction false} PutPlain(s: Shape, path: Keys, key: string, sub: Shape)
    requires Leads(s, path)
    ensures Plain(PutAt(s, path, key, sub)) == Dict(SetPath(EntriesOf(Plain(s)), path + [key], Plain(sub)))
    decreases |path|
  {
    if path != [] {
      PutPlain(s.kids[path[0]], path[1..], key, sub);
      assert (path + [key])[0] == path[0] && (path + [key])[1..] == path[1..] + [key];
    }
  }

  function KidVals(kids: map<string, Shape>): map<string, Val> {
    map k <- kids :: ValOf(kids[k])
  }

  lemma Rebuilt(h: Heap, s: Shape, changed: string, kid: Shape)
    requires s.Branch? && s.d in h && h[s.d] == KidVals(s.kids)[changed := ValOf(kid)]
    requires MatchesIn(h, kid) && forall k | k in s.kids && k != changed :: MatchesIn(h, s.kids[k])
    ensures MatchesIn(h, Branch(s.d, s.kids[changed := kid]))
  {
  }

  lemma OthersKeep(g: Heap, h: Heap, s: Shape, changed: string, d: PyDict)
    requires s.Branch? && MatchesIn(g, s) && d in g && d in h && h == g[d := h[d]]
    requires forall k | k in s.kids && k != changed :: d !in Refs(s.kids[k])
    ensures forall k | k in s.kids && k != changed :: MatchesIn(h, s.kids[k])
  {
    forall k | k in s.kids && k != changed ensures MatchesIn(h, s.kids[k]) {
      MatchesAgree(g, h, s.kids[k]);
    }
  }

  lemma SeparateAt(s: Shape, path: Keys)
    requires Leads(s, path) && Separate(s) && path != []
    ensures var kid := s.kids[path[0]];
      && Separate(kid) && At(s, path).d in Refs(kid) && At(s, path).d != s.d
      && forall k | k in s.kids && k != path[0] :: At(s, path).d !in Refs(s.kids[k])
  {
  }

  /** Assigning one key of one dictionary object is `PutAt` on the shape. */
  lemma {:induction false} Assigned(h: Heap, s: Shape, path: Keys, key: string, sub: Shape)
    requires Leads(s, path) && Separate(s) && At(s, path).d !in Refs(sub)
    requires MatchesIn(h, s) && MatchesIn(h, sub) && At(s, path).d in h
    ensures var d := At(s, path).d;
      MatchesIn(h[d := h[d][key := ValOf(sub)]], PutAt(s, path, key, sub))
    decreases |path|
  {
    var d := At(s, path).d;
    var h' := h[d := h[d][key := ValOf(sub)]];
    if path == [] {
      MatchesAgree(h, h', sub);
      hide Refs;
      OthersKeep(h, h', s, key, d) by { OwnObject(s); }
      Rebuilt(h', s, key, sub);
    } else {
      SeparateAt(s, path);
      hide Refs, Separate;
      OthersKeep(h, h', s, path[0], d);
      Assigned(h, s.kids[path[0]], path[1..], key, sub);
      Rebuilt(h', s, path[0], PutAt(s.kids[path[0]], path[1..], key, sub));
    }
  }

  lemma OwnObject(s: Shape)
    requires s.Branch? && Separate(s)
    ensures forall k <- s.kids :: s.d !in Refs(s.kids[k])
  {
  }

  lemma {:induction false} LeadsOn(s: Shape, path: Keys, key: string)
    requires Leads(s, path)
    ensures Leads(s, path + [key]) <==> key in At(s, path).kids && At(s, path).kids[key].Branch?
    ensures Leads(s, path + [key]) ==> At(s, path + [key]) == At(s, path).kids[key]
    decreases |path|
  {
    if path != [] {
      assert (path + [key])[0] == path[0] && (path + [key])[1..] == path[1..] + [key];
      LeadsOn(s.kids[path[0]], path[1..], key);
    } else {
      assert (path + [key])[0] == key && (path + [key])[1..] == [];
    }
  }

  lemma {:induction false} PutLeads(s: Shape, path: Keys, key: string, sub: Shape)
    requires Leads(s, path) && sub.Branch?
    ensures Leads(PutAt(s, path, key, sub), path + [key])
    ensures At(PutAt(s, path, key, sub), path + [key]) == sub
    decreases |path|
  {
    if path != [] {
      assert (path + [key])[0] == path[0] && (path + [key])[1..] == path[1..] + [key];
      PutLeads(s.kids[path[0]], path[1..], key, sub);
    } else {
      assert (path + [key])[0] == key && (path + [key])[1..] == [];
    }
  }

  lemma {:induction false} HeldAt(h: Heap, s: Shape, path: Keys)
    requires Leads(s, path) && MatchesIn(h, s)
    ensures At(s, path).d in h && h[At(s, path).d] == KidVals(At(s, path).kids)
    decreases |path|
  {
    if path != [] {
      HeldAt(h, s.kids[path[0]], path[1..]);
    }
  }

  /** Dictionary objects on the way are dictionaries on the way, and nothing else is. */
  lemma {:induction false} LeadsPlain(s: Shape, path: Keys, keys: Keys)
    requires Separate(s) && s.Branch? && path <= keys
    ensures Leads(s, path) <==> DictsAlong(EntriesOf(Plain(s)), keys, |path|)
    decreases |path|
  {
    if path != [] {
      assert path[1..] <= keys[1..];
      if path[0] in s.kids && s.kids[path[0]].Branch? {
        LeadsPlain(s.kids[path[0]], path[1..], keys[1..]);
      }
    }
  }

  /** The write is the same write after room was made for it. */
  lemma RoomInShape(s: Shape, path: Keys, keys: Keys, room: Shape, v: Tree)
    requires Separate(s) && Leads(s, path) && |path| + 1 < |keys| && path == keys[..|path|]
    requires !Leads(s, path + [keys[|path|]]) && Plain(room) == Dict(map[])
    ensures SetPath(EntriesOf(Plain(PutAt(s, path, keys[|path|], room))), keys, v)
         == SetPath(EntriesOf(Plain(s)), keys, v)
  {
    var n := |path|;
    assert path + [keys[n]] == keys[..n + 1];
    LeadsPlain(s, path, keys);
    LeadsPlain(s, path + [keys[n]], keys);
    PutPlain(s, path, keys[n], room);
    MakeRoom(EntriesOf(Plain(s)), keys, n, v);
  }

  /** `cur[key] = value` on the object at `path`. */
  method Assign(ghost s: Shape, ghost path: Keys, cur: PyDict, key: string, ghost sub: Shape, value: Val)
    requires Leads(s, path) && At(s, path).d == cur && Separate(s) && Matches(s)
    requires ValOf(sub) == value && Separate(sub) && Matches(sub) && Refs(s) !! Refs(sub)
    modifies cur
    ensures cur.items == old(cur.items)[key := value]
    ensures Separate(PutAt(s, path, key, sub)) && Matches(PutAt(s, path, key, sub))
  {
    hide MatchesIn, PutAt, Separate, Refs, Leads;
    ghost var all := Refs(s) + Refs(sub);
    ghost var h := Snapshot(all);
    ghost var after := PutAt(s, path, key, sub);
    BothMatch(s, sub, Snapshot(Refs(s)), Snapshot(Refs(sub)), h);
    AtIsInside(s, path);
    Assigned(h, s, path, key, sub);
    PutSeparate(s, path, key, sub);
    PutRefs(s, path, key, sub);
    cur.items := cur.items[key := value];
    assert Snapshot(all) == h[cur := h[cur][key := value]];
    MatchesAgree(Snapshot(all), Snapshot(Refs(after)), after);
  }

  lemma BothMatch(s: Shape, sub: Shape, g: Heap, g': Heap, h: Heap)
    requires MatchesIn(g, s) && MatchesIn(g', sub)
    requires (forall o <- Refs(s) | o in g :: o in h && h[o] == g[o])
    requires (forall o <- Refs(sub) | o in g' :: o in h && h[o] == g'[o])
    ensures MatchesIn(h, s) && MatchesIn(h, sub)
  {
    MatchesAgree(g, h, s);
    MatchesAgree(g', h, sub);
  }

  lemma AtIsInside(s: Shape, path: Keys)
    requires Leads(s, path)
    ensures At(s, path).Branch? && At(s, path).d in Refs(s)
  {
  }

  // ---- set_variable_param_value ----

  /** The object at `path`, and what the shape says about one of its keys. */
  lemma LookAt(s: Shape, path: Keys, key: string)
    requires Leads(s, path) && Matches(s)
    ensures var cur := At(s, path).d;
      && (Leads(s, path + [key]) <==> key in cur.items && cur.items[key].Node?)
      && (Leads(s, path + [key]) ==> Node(At(s, path + [key]).d) == cur.items[key])
  {
    LeadsOn(s, path, key);
    HeldAt(Snapshot(Refs(s)), s, path);
    AtIsInside(s, path);
  }

  /** One turn of the walk: make room when there is none, and step down. */
  method StepDown(ghost s: Shape, ghost path: Keys, cur: PyDict, key: string, ghost keys: Keys, ghost v: Tree)
    returns (next: PyDict, ghost after: Shape)
    requires Leads(s, path) && At(s, path).d == cur && Separate(s) && Matches(s)
    requires |path| + 1 < |keys| && path == keys[..|path|] && key == keys[|path|]
    modifies cur
    ensures Separate(after) && Matches(after) && ValOf(after) == ValOf(s)
    ensures Leads(after, path + [key]) && At(after, path + [key]).d == next
    ensures fresh(Refs(after) - Refs(s))
    ensures SetPath(EntriesOf(Plain(after)), keys, v) == SetPath(EntriesOf(Plain(s)), keys, v)
  {
    hide MatchesIn, Separate, Refs, Plain, SetPath;
    LookAt(s, path, key);
    after := s;
    if key !in cur.items || !cur.items[key].Node? {
      RefsExist(s);
      ghost var objects := Refs(s);
      ghost var h := Snapshot(objects);
      var room := new PyDict();
      ghost var sub := Branch(room, map[]);
      EmptyShape(room);
      assert room !in objects;
      assert Snapshot(objects) == h;
      after := PutAt(s, path, key, sub);
      PutRefs(s, path, key, sub);
      PutLeads(s, path, key, sub);
      RoomInShape(s, path, keys, sub, v);
      Assign(s, path, cur, key, sub, Node(room));
    }
    next := cur.items[key].d;
  }

  lemma EmptyShape(room: PyDict)
    requires room.items == map[]
    ensures var s := Branch(room, map[]);
      Separate(s) && Matches(s) && Refs(s) == {room} && Plain(s) == Dict(map[])
  {
  }

  lemma {:induction false} RefsExist(s: Shape)
    ensures forall o <- Refs(s) :: allocated(o)
  {
    if s.Branch? {
      forall k <- s.kids ensures forall o <- Refs(s.kids[k]) :: allocated(o) {
        RefsExist(s.kids[k]);
      }
    }
  }

  /** `set_variable_param_value` on a dictionary. The written value shares no object with the
      tree it goes into. */
  method SetParam(obj: PyDict, keys: Keys, value: Val, ghost s: Shape, ghost v: Shape) returns (ghost after: Shape)
    requires keys != [] && ValOf(s) == Node(obj) && ValOf(v) == value
    requires Separate(s) && Separate(v) && Refs(s) !! Refs(v) && Matches(s) && Matches(v)
    modifies Refs(s)
    ensures ValOf(after) == Node(obj) && Separate(after) && Matches(after)
    ensures fresh(Refs(after) - Refs(s) - Refs(v))
    ensures Plain(after) == Dict(SetPath(EntriesOf(Plain(s)), keys, Plain(v)))
  {
    hide MatchesIn, Separate, Refs, Plain, SetPath;
    RefsExist(v);
    ghost var objects, stored := Refs(s), Refs(v);
    ghost var h := Snapshot(stored);
    var last := |keys| - 1;
    var cur := obj;
    after := s;
    assert keys[..0] == [];
    for i := 0 to last
      invariant Leads(after, keys[..i]) && At(after, keys[..i]).d == cur
      invariant Separate(after) && Matches(after) && ValOf(after) == ValOf(s)
      invariant forall o <- Refs(after) :: o in objects || fresh(o)
      invariant Snapshot(stored) == h && Matches(v)
      invariant SetPath(EntriesOf(Plain(after)), keys, Plain(v)) == SetPath(EntriesOf(Plain(s)), keys, Plain(v))
    {
      assert keys[..i + 1] == keys[..i] + [keys[i]];
      AtIsInside(after, keys[..i]);
      ghost var was := after;
      RefsExist(was);
      label before:
      cur, after := StepDown(was, keys[..i], cur, keys[i], keys, Plain(v));
      assert Snapshot(stored) == h;
      forall o <- Refs(after) ensures o in objects || fresh(o) {
        if o !in Refs(was) {
          assert o in Refs(after) - Refs(was);
          assert old(allocated(o)) ==> old@before(allocated(o));
        }
      }
    }
    assert keys == keys[..last] + [keys[last]];
    AtIsInside(after, keys[..last]);
    ghost var room := after;
    Assign(room, keys[..last], cur, keys[last], v, value);
    after := PutAt(room, keys[..last], keys[last], v);
    PutRefs(room, keys[..last], keys[last], v);
    PutPlain(room, keys[..last], keys[last], v);
  }

  // ---- get_variable_param_value ----

  /** Where the reader stands: at a stored value, or inside a parsed text. */
  datatype Cursor = Stored(v: Val) | Parsed(t: Tree)

  /** The same, knowing the shape of what is stored. */
  datatype Reading = InStore(s: Shape) | InText(t: Tree)

  function CursorOf(r: Reading): Cursor {
    match r
    case InStore(s) => Stored(ValOf(s))
    case InText(t) => Parsed(t)
  }

  function Meaning(r: Reading): Tree {
    match r
    case InStore(s) => Plain(s)
    case InText(t) => t
  }

  function ReadKey(lib: Library, r: Reading, key: string): Reading {
    if r.InStore? && r.s.Branch? then
      if key in r.s.kids then InStore(r.s.kids[key]) else InText(Nil)
    else InText(GetKey(lib, Meaning(r), key))
  }

  function ReadPath(lib: Library, r: Reading, keys: Keys): Reading
    decreases |keys|
  {
    if keys == [] then r else ReadPath(lib, ReadKey(lib, r, keys[0]), keys[1..])
  }

  /** Reading among the objects reads what the path means; a stored result is an object or value
      of the store itself, no copy. */
  lemma {:induction false} ReadingMeans(lib: Library, r: Reading, keys: Keys)
    ensures Meaning(ReadPath(lib, r, keys)) == GetPath(lib, Meaning(r), keys)
    decreases |keys|
  {
    if keys != [] {
      ReadingMeans(lib, ReadKey(lib, r, keys[0]), keys[1..]);
    }
  }

  lemma KidsHeld(s: Shape, key: string)
    requires s.Branch? && Matches(s)
    ensures key in s.d.items <==> key in s.kids
    ensures key in s.kids ==> s.d.items[key] == ValOf(s.kids[key]) && Matches(s.kids[key])
  {
    if key in s.kids {
      MatchesAgree(Snapshot(Refs(s)), Snapshot(Refs(s.kids[key])), s.kids[key]);
    }
  }

  /** `get_variable_param_value`: the loop over the keys. */
  method GetParam(lib: Library, obj: Val, keys: Keys, ghost s: Shape) returns (r: Cursor)
    requires ValOf(s) == obj && Matches(s)
    ensures r == CursorOf(ReadPath(lib, InStore(s), keys))
    ensures Meaning(ReadPath(lib, InStore(s), keys)) == GetPath(lib, Plain(s), keys)
  {
    hide MatchesIn, Refs, Plain, GetKey;
    ReadingMeans(lib, InStore(s), keys);
    r := Stored(obj);
    ghost var place := InStore(s);
    assert keys[0..] == keys;
    for i := 0 to |keys|
      invariant r == CursorOf(place) && (place.InStore? ==> Matches(place.s))
      invariant ReadPath(lib, place, keys[i..]) == ReadPath(lib, InStore(s), keys)
    {
      assert keys[i..][0] == keys[i] && keys[i..][1..] == keys[i + 1..];
      ghost var next := ReadKey(lib, place, keys[i]);
      if r.Stored? && r.v.Node? {
        KidsHeld(place.s, keys[i]);
        r := if keys[i] in r.v.d.items then Stored(r.v.d.items[keys[i]]) else Parsed(Nil);
      } else {
        var t := if r.Stored? then r.v.t else r.t;
        PlainAtom(place);
        r := Parsed(GetKey(lib, t, keys[i]));
      }
      place := next;
    }
  }

  lemma PlainAtom(r: Reading)
    ensures r.InStore? && r.s.Atom? ==> Meaning(r) == r.s.t
  {
  }
}
