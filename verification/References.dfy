/** Variable references inside template texts, `{id@name}`, as the migration's regular
    expression finds and rewrites them (agent/dsl_migration.py), and as the runtime reads
    them (agent/component/base.py). */
module References {
  import opened Text
  import opened PyValues

  datatype Class = Space | IdChar | VarChar | Close

  predicate IsAlphaNumeric(c: char) {
    'a' <= c <= 'z' || 'A' <= c <= 'Z' || '0' <= c <= '9'
  }

  predicate InClass(c: char, k: Class) {
    match k
    case Space => IsSpace(c)
    case IdChar => IsAlphaNumeric(c) || c == ':' || c == '_' || c == '-'
    case VarChar => IsAlphaNumeric(c) || c == '_' || c == '.' || c == '-'
    case Close => c == '}'
  }

  /** The longest prefix within the class, and what follows. The classes that meet in the
      expression are disjoint, so its greedy repetitions never have to give anything back. */
  function Split(s: string, k: Class): (r: (string, string))
    ensures r.0 + r.1 == s
  {
    if s != "" && InClass(s[0], k) then
      var r := Split(s[1..], k);
      assert s == [s[0]] + s[1..];
      ([s[0]] + r.0, r.1)
    else ("", s)
  }

  /** What stands behind an opening brace: blanks, component id, `@` and name, blanks and
      closing braces, and the rest of the text. */
  datatype Body = Body(pre: string, id: string, tail: Tail)
  datatype Tail = Tail(name: string, blank: string, close: string, rest: string)

  function TailText(t: Tail): string {
    t.name + t.blank + t.close
  }

  function BodyText(b: Body): string {
    b.pre + b.id + "@" + TailText(b.tail)
  }

  lemma Regroup(a: string, b: string, c: string, d: string)
    ensures a + (b + (c + d)) == a + b + c + d
  {
  }

  lemma RegroupBody(pre: string, id: string, tail: string, rest: string)
    ensures pre + (id + ("@" + (tail + rest))) == pre + id + "@" + tail + rest
  {
  }

  /** From the name on. */
  function MatchTail(t: string): (r: Option<Tail>)
    ensures r.Some? ==> t == TailText(r.value) + r.value.rest
  {
    var (name, t1) := Split(t, VarChar);
    var (blank, t2) := Split(t1, Space);
    var (close, rest) := Split(t2, Close);
    Regroup(name, blank, close, rest);
    if name == "" || close == "" then None else Some(Tail(name, blank, close, rest))
  }

  function MatchBody(t: string): (r: Option<Body>)
    ensures r.Some? ==> t == BodyText(r.value) + r.value.tail.rest && |r.value.tail.rest| < |t|
  {
    hide MatchTail;
    var (pre, t1) := Split(t, Space);
    var (id, t2) := Split(t1, IdChar);
    if id == "" || t2 == "" || t2[0] != '@' || MatchTail(t2[1..]).None? then None
    else
      var tail := MatchTail(t2[1..]).value;
      assert t2 == "@" + t2[1..];
      RegroupBody(pre, id, TailText(tail), tail.rest);
      Some(Body(pre, id, tail))
  }

  /** `VARIABLE_REF_PATTERN.sub`: the id of every match goes through `f`; all else, including
      the opening braces, is copied. */
  function SubRefs(f: string -> string, s: string): string
    decreases |s|
  {
    if s == "" then ""
    else if s[0] == '{' && MatchBody(s[1..]).Some? then
      var b := MatchBody(s[1..]).value;
      "{" + BodyText(b.(id := f(b.id))) + SubRefs(f, b.tail.rest)
    else [s[0]] + SubRefs(f, s[1..])
  }

  /** A reference found in a text; `tight` ones, with no blanks and an id of letters, digits and
      colons, are what the runtime resolves. */
  datatype Ref = Ref(id: string, name: string, tight: bool)

  predicate IsTightId(id: string) {
    forall i | 0 <= i < |id| :: IsAlphaNumeric(id[i]) || id[i] == ':'
  }

  function RefOf(b: Body): Ref {
    Ref(b.id, b.tail.name, b.pre == "" && b.tail.blank == "" && IsTightId(b.id))
  }

  function Refs(s: string): seq<Ref>
    decreases |s|
  {
    if s == "" then []
    else if s[0] == '{' && MatchBody(s[1..]).Some? then
      var b := MatchBody(s[1..]).value;
      [RefOf(b)] + Refs(b.tail.rest)
    else Refs(s[1..])
  }

  function MapRefs(f: string -> string, refs: seq<Ref>): (r: seq<Ref>)
    ensures |r| == |refs|
    ensures forall i :: 0 <= i < |r| ==> r[i] == refs[i].(id := f(refs[i].id))
  {
    seq(|refs|, i requires 0 <= i < |refs| => refs[i].(id := f(refs[i].id)))
  }

  predicate IsIdText(id: string) {
    id != "" && forall i | 0 <= i < |id| :: InClass(id[i], IdChar)
  }

  /** `f` maps ids to ids, and tight ones to tight ones. */
  ghost predicate KeepsIdShape(f: string -> string) {
    forall id | IsIdText(id) :: IsIdText(f(id)) && (IsTightId(f(id)) <==> IsTightId(id))
  }

  // ---- rewriting nothing ----

  lemma {:induction false} SubNothing(f: string -> string, s: string)
    requires forall id :: f(id) == id
    ensures SubRefs(f, s) == s
    decreases |s|
  {
    hide MatchBody, BodyText, SubRefs;
    if s == "" {
      SubKeepsHead(f, s);
    } else {
      if s[0] == '{' && MatchBody(s[1..]).Some? {
        var b := MatchBody(s[1..]).value;
        SubNothing(f, b.tail.rest);
        assert b.(id := f(b.id)) == b;
        SubAtMatch(f, s);
      } else {
        SubNothing(f, s[1..]);
        SubAtNoMatch(f, s);
      }
      assert s == [s[0]] + s[1..];
    }
  }

  predicate NoBrace(s: string) {
    forall i | 0 <= i < |s| :: s[i] != '{'
  }

  /** Text without an opening brace is copied. */
  lemma {:induction false} SubPlain(f: string -> string, u: string, v: string)
    requires NoBrace(u)
    ensures SubRefs(f, u + v) == u + SubRefs(f, v)
    ensures Refs(u + v) == Refs(v)
    decreases |u|
  {
    hide MatchBody, BodyText;
    if u == "" {
      assert u + v == v;
    } else {
      assert (u + v)[1..] == u[1..] + v;
      SubPlain(f, u[1..], v);
    }
  }

  // ---- a body is read from the text before the next brace ----

  predicate AtBrace(x: string) {
    x == "" || x[0] == '{'
  }

  lemma {:induction false} SplitLocal(u: string, x: string, k: Class)
    requires x == "" || !InClass(x[0], k)
    ensures Split(u + x, k) == (Split(u, k).0, Split(u, k).1 + x)
  {
    if u == "" {
      assert u + x == x;
    } else {
      assert (u + x)[1..] == u[1..] + x;
      SplitLocal(u[1..], x, k);
    }
  }

  /** An opening brace belongs to no class. */
  lemma BraceEnds(x: string)
    requires AtBrace(x)
    ensures forall k: Class :: x == "" || !InClass(x[0], k)
  {
  }

  lemma TailLocal(u: string, x: string)
    requires AtBrace(x)
    ensures MatchTail(u + x)
         == if MatchTail(u).Some? then Some(MatchTail(u).value.(rest := MatchTail(u).value.rest + x)) else None
  {
    BraceEnds(x);
    var t1 := Split(u, VarChar).1;
    var t2 := Split(t1, Space).1;
    SplitLocal(u, x, VarChar);
    SplitLocal(t1, x, Space);
    SplitLocal(t2, x, Close);
  }

  /** What the body match says of the text once blanks and id are cut off. */
  function AfterId(pre: string, id: string, t: string): Option<Body> {
    if id == "" || t == "" || t[0] != '@' || MatchTail(t[1..]).None? then None
    else Some(Body(pre, id, MatchTail(t[1..]).value))
  }

  lemma MatchBodyParts(t: string)
    ensures MatchBody(t) == AfterId(Split(t, Space).0, Split(Split(t, Space).1, IdChar).0, Split(Split(t, Space).1, IdChar).1)
  {
    hide MatchTail, Split;
  }

  function WithRest(b: Option<Body>, x: string): Option<Body> {
    if b.Some? then Some(b.value.(tail := b.value.tail.(rest := b.value.tail.rest + x))) else None
  }

  lemma AfterIdLocal(pre: string, id: string, t: string, x: string)
    requires AtBrace(x)
    ensures AfterId(pre, id, t + x) == WithRest(AfterId(pre, id, t), x)
  {
    hide MatchTail;
    if t == "" {
      assert t + x == x;
    } else {
      assert (t + x)[0] == t[0] && (t + x)[1..] == t[1..] + x;
      TailLocal(t[1..], x);
    }
  }

  lemma MatchLocal(u: string, x: string)
    requires AtBrace(x)
    ensures MatchBody(u + x) == WithRest(MatchBody(u), x)
  {
    BraceEnds(x);
    MatchBodyParts(u);
    MatchBodyParts(u + x);
    hide MatchBody, AfterId, InClass, Split, WithRest;
    var t1 := Split(u, Space).1;
    SplitLocal(u, x, Space);
    SplitLocal(t1, x, IdChar);
    AfterIdLocal(Split(u, Space).0, Split(t1, IdChar).0, Split(t1, IdChar).1, x);
  }

  // ---- a rewritten body is read back ----

  predicate AllIn(s: string, k: Class) {
    forall i | 0 <= i < |s| :: InClass(s[i], k)
  }

  predicate EndsClass(x: string, k: Class) {
    x == "" || !InClass(x[0], k)
  }

  lemma {:induction false} SplitShape(s: string, k: Class)
    ensures AllIn(Split(s, k).0, k) && EndsClass(Split(s, k).1, k)
  {
    if s != "" && InClass(s[0], k) {
      SplitShape(s[1..], k);
    }
  }

  lemma {:induction false} SplitBack(w: string, x: string, k: Class)
    requires AllIn(w, k) && EndsClass(x, k)
    ensures Split(w + x, k) == (w, x)
  {
    if w == "" {
      assert w + x == x;
    } else {
      assert (w + x)[1..] == w[1..] + x;
      SplitBack(w[1..], x, k);
      assert w == [w[0]] + w[1..];
    }
  }

  /** The shape a matched tail has, whatever follows it. */
  ghost predicate TailShape(t: Tail) {
    && t.name != "" && AllIn(t.name, VarChar) && AllIn(t.blank, Space)
    && t.close != "" && AllIn(t.close, Close)
  }

  lemma MatchShape(t: string)
    requires MatchBody(t).Some?
    ensures var b := MatchBody(t).value;
      && AllIn(b.pre, Space) && IsIdText(b.id) && TailShape(b.tail) && EndsClass(b.tail.rest, Close)
  {
    var t1 := Split(t, Space).1;
    var t2 := Split(t1, IdChar).1;
    var t3 := Split(t2[1..], VarChar).1;
    var t4 := Split(t3, Space).1;
    SplitShape(t, Space);
    SplitShape(t1, IdChar);
    SplitShape(t2[1..], VarChar);
    SplitShape(t3, Space);
    SplitShape(t4, Close);
  }

  lemma TailBack(t: Tail, rest: string)
    requires TailShape(t) && EndsClass(rest, Close)
    ensures MatchTail(TailText(t) + rest) == Some(t.(rest := rest))
  {
    var r2 := t.close + rest;
    var r1 := t.blank + r2;
    assert TailText(t) + rest == t.name + r1;
    assert r2[0] == t.close[0];
    if t.blank != "" {
      assert r1[0] == t.blank[0];
    }
    SplitBack(t.name, r1, VarChar);
    SplitBack(t.blank, r2, Space);
    SplitBack(t.close, rest, Close);
  }

  lemma BodyBack(b: Body, rest: string)
    requires AllIn(b.pre, Space) && IsIdText(b.id) && TailShape(b.tail) && EndsClass(rest, Close)
    ensures MatchBody(BodyText(b) + rest) == Some(b.(tail := b.tail.(rest := rest)))
  {
    var r3 := TailText(b.tail) + rest;
    var r2 := "@" + r3;
    var r1 := b.id + r2;
    assert BodyText(b) + rest == b.pre + r1;
    assert r1[0] == b.id[0];
    SplitBack(b.pre, r1, Space);
    SplitBack(b.id, r2, IdChar);
    assert r2[1..] == r3;
    TailBack(b.tail, rest);
  }

  // ---- rewriting maps the references ----

  /** Rewriting never changes the first character. */
  lemma SubKeepsHead(f: string -> string, s: string)
    ensures s == "" <==> SubRefs(f, s) == ""
    ensures s != "" ==> SubRefs(f, s)[0] == s[0]
  {
  }

  function BraceFree(s: string): (n: nat)
    ensures n <= |s| && NoBrace(s[..n]) && AtBrace(s[n..])
  {
    if s == "" || s[0] == '{' then 0 else 1 + BraceFree(s[1..])
  }

  /** A brace that opens no reference opens none after the text behind it is rewritten. */
  lemma NoNewMatch(f: string -> string, t: string)
    requires MatchBody(t).None?
    ensures MatchBody(SubRefs(f, t)).None?
  {
    hide MatchBody, SubRefs, BodyText;
    var n := BraceFree(t);
    var u, v := t[..n], t[n..];
    assert t == u + v;
    SubPlain(f, u, v);
    SubKeepsHead(f, v);
    MatchLocal(u, v);
    MatchLocal(u, SubRefs(f, v));
  }

  /** The references of the rewritten text are the rewritten references, in the same order, with
      their names and their tightness; so is what the runtime resolves. */
  lemma {:induction false} RefsAreMapped(f: string -> string, s: string)
    requires KeepsIdShape(f)
    ensures Refs(SubRefs(f, s)) == MapRefs(f, Refs(s))
    decreases |s|
  {
    hide MatchBody, BodyText, KeepsIdShape, MapRefs, SubRefs;
    if s == "" {
      assert SubRefs(f, s) == "" by { SubKeepsHead(f, s); }
      NoRefs(f);
    } else {
      var t := s[1..];
      if s[0] == '{' && MatchBody(t).Some? {
        var b := MatchBody(t).value;
        var rest := b.tail.rest;
        RefsAreMapped(f, rest);
        MatchShape(t);
        SubKeepsHead(f, rest);
        var b' := b.(id := f(b.id));
        ShapeKept(f, b.id);
        BodyBack(b', SubRefs(f, rest));
        SubAtMatch(f, s);
        MapRefsCons(f, RefOf(b), Refs(rest));
      } else {
        RefsAreMapped(f, t);
        SubAtNoMatch(f, s);
        if s[0] == '{' {
          NoNewMatch(f, t);
        }
      }
    }
  }

  lemma NoRefs(f: string -> string)
    ensures MapRefs(f, []) == []
  {
  }

  lemma MapRefsCons(f: string -> string, r: Ref, refs: seq<Ref>)
    ensures MapRefs(f, [r] + refs) == [r.(id := f(r.id))] + MapRefs(f, refs)
  {
  }

  lemma SubAtMatch(f: string -> string, s: string)
    requires s != "" && s[0] == '{' && MatchBody(s[1..]).Some?
    ensures var b := MatchBody(s[1..]).value;
      var out := SubRefs(f, s);
      out != "" && out[0] == '{' && out[1..] == BodyText(b.(id := f(b.id))) + SubRefs(f, b.tail.rest)
  {
    var b := MatchBody(s[1..]).value;
    hide MatchBody, BodyText;
    var body, rest := BodyText(b.(id := f(b.id))), SubRefs(f, b.tail.rest);
    assert SubRefs(f, s) == "{" + body + rest;
    hide SubRefs;
    BehindBrace(body, rest);
  }

  lemma BehindBrace(body: string, rest: string)
    ensures var out := "{" + body + rest; out != "" && out[0] == '{' && out[1..] == body + rest
  {
  }

  lemma SubAtNoMatch(f: string -> string, s: string)
    requires s != "" && !(s[0] == '{' && MatchBody(s[1..]).Some?)
    ensures var out := SubRefs(f, s);
      out != "" && out[0] == s[0] && out[1..] == SubRefs(f, s[1..])
  {
    hide MatchBody, BodyText;
  }

  lemma ShapeKept(f: string -> string, id: string)
    requires KeepsIdShape(f) && IsIdText(id)
    ensures IsIdText(f(id)) && (IsTightId(f(id)) <==> IsTightId(id))
  {
  }

  lemma NoBraceNoRefs(s: string)
    requires NoBrace(s)
    ensures Refs(s) == []
  {
    SubPlain(id => id, s, "");
    assert s + "" == s;
  }
}
