/** Reading the component graph and the saved path out of a stored canvas document
    (agent/canvas.py, agent/component/base.py). */
module CanvasLoading {
  import opened PyValues
  import opened Json
  import opened Text
  import opened References
  import opened CanvasGraph

  function KindOf(name: string): Kind {
    var n := Lower(name);
    if n == "begin" then Begin
    else if n == "userfillup" then UserFillUp
    else if n == "message" then Message
    else if n == "categorize" then Categorize
    else if n == "switch" then Switch
    else if n == "iteration" then Iteration
    else if n == "iterationitem" then IterationItem
    else if n == "loop" then Loop
    else if n == "loopitem" then LoopItem
    else if n == "exitloop" then ExitLoop
    else Plain
  }

  /** Component names are told apart without regard to case. */
  lemma KindsByName(name: string)
    ensures KindOf(name) == Begin <==> SameLetters(name, "begin")
    ensures KindOf(name) == UserFillUp <==> SameLetters(name, "userfillup")
    ensures KindOf(name) == Message <==> SameLetters(name, "message")
    ensures KindOf(name) == Categorize <==> SameLetters(name, "categorize")
    ensures KindOf(name) == Switch <==> SameLetters(name, "switch")
    ensures KindOf(name) == Iteration <==> SameLetters(name, "iteration")
    ensures KindOf(name) == IterationItem <==> SameLetters(name, "iterationitem")
    ensures KindOf(name) == Loop <==> SameLetters(name, "loop")
    ensures KindOf(name) == LoopItem <==> SameLetters(name, "loopitem")
    ensures KindOf(name) == ExitLoop <==> SameLetters(name, "exitloop")
  {
    KindsByLower(name);
    hide KindOf, Lower, SameLetters;
    LowerIsName(name, "begin");
    LowerIsName(name, "userfillup");
    LowerIsName(name, "message");
    LowerIsName(name, "categorize");
    LowerIsName(name, "switch");
    LowerIsName(name, "iteration");
    LowerIsName(name, "iterationitem");
    LowerIsName(name, "loop");
    LowerIsName(name, "loopitem");
    LowerIsName(name, "exitloop");
  }

  predicate IsKindName(kind: string) {
    kind in {"begin", "userfillup", "message", "categorize", "switch", "iteration", "iterationitem", "loop", "loopitem",
             "exitloop"}
  }

  lemma LowerIsName(name: string, kind: string)
    requires IsKindName(kind)
    ensures Lower(name) == kind <==> SameLetters(name, kind)
  {
    assert Lower(kind) == kind;
    LowerIs(name, kind);
  }

  lemma KindsByLower(name: string)
    ensures KindOf(name) == Begin <==> Lower(name) == "begin"
    ensures KindOf(name) == UserFillUp <==> Lower(name) == "userfillup"
    ensures KindOf(name) == Message <==> Lower(name) == "message"
    ensures KindOf(name) == Categorize <==> Lower(name) == "categorize"
    ensures KindOf(name) == Switch <==> Lower(name) == "switch"
    ensures KindOf(name) == Iteration <==> Lower(name) == "iteration"
    ensures KindOf(name) == IterationItem <==> Lower(name) == "iterationitem"
    ensures KindOf(name) == Loop <==> Lower(name) == "loop"
    ensures KindOf(name) == LoopItem <==> Lower(name) == "loopitem"
    ensures KindOf(name) == ExitLoop <==> Lower(name) == "exitloop"
  {
    hide Lower;
    assert "begin"[0] == 'b' && "userfillup"[0] == 'u' && "message"[0] == 'm' && "categorize"[0] == 'c';
    assert "switch"[0] == 's' && "iteration"[0] == 'i' && "iterationitem"[0] == 'i' && "loop"[0] == 'l';
    assert "loopitem"[0] == 'l' && "exitloop"[0] == 'e';
    assert |"iteration"| == 9 && |"iterationitem"| == 13 && |"loop"| == 4 && |"loopitem"| == 8;
  }

  function FieldsOf(v: Option<Json>): seq<Field> {
    if v.Some? && v.value.JObject? then v.value.fields else []
  }

  function TextOf(v: Option<Json>): string {
    if v.Some? && v.value.JString? then v.value.s else ""
  }

  function StringItems(items: seq<Json>): seq<string> {
    if items == [] then []
    else (if items[0].JString? then [items[0].s] else []) + StringItems(items[1..])
  }

  function StringsOf(v: Option<Json>): seq<string> {
    if v.Some? && v.value.JArray? then StringItems(v.value.items) else []
  }

  function IsTruthy(v: Option<Json>): bool {
    match v
    case None => false
    case Some(JNull) => false
    case Some(JBool(b)) => b
    case Some(JNumber(n)) => n != 0
    case Some(JString(s)) => s != ""
    case Some(JArray(items)) => items != []
    case Some(JObject(fields)) => fields != []
  }

  /** All references in the texts of a value. */
  function RefsIn(v: Json): seq<Ref>
    decreases v, 0
  {
    match v
    case JString(s) => Refs(s)
    case JArray(items) => RefsInItems(items)
    case JObject(fields) => RefsInFields(fields)
    case _ => []
  }

  function RefsInItems(items: seq<Json>): seq<Ref>
    decreases items, 1
  {
    if items == [] then [] else RefsIn(items[0]) + RefsInItems(items[1..])
  }

  function RefsInFields(fields: seq<Field>): seq<Ref>
    decreases fields, 1
  {
    if fields == [] then [] else RefsIn(fields[0].value) + RefsInFields(fields[1..])
  }

  /** The component ids the runtime resolves. */
  function TightIds(refs: seq<Ref>): seq<Id> {
    if refs == [] then []
    else (if refs[0].tight then [refs[0].id] else []) + TightIds(refs[1..])
  }

  function HandlerOf(params: seq<Field>): Handler {
    if IsTruthy(Get(params, "exception_method"))
    then Handler(StringsOf(Get(params, "exception_goto")), IsTruthy(Get(params, "exception_default_value")))
    else Handler([], false)
  }

  function ParentOf(fields: seq<Field>): Option<Id> {
    var p := TextOf(Get(fields, "parent_id"));
    if p == "" then None else Some(p)
  }

  function ComponentOf(c: Json): Component {
    var fields := FieldsOf(Some(c));
    var obj := FieldsOf(Get(fields, "obj"));
    var params := FieldsOf(Get(obj, "params"));
    Component(KindOf(TextOf(Get(obj, "component_name"))),
              TightIds(RefsInFields(params)),
              StringsOf(Get(fields, "downstream")),
              ParentOf(fields),
              HandlerOf(params))
  }

  function ComponentAt(fields: seq<Field>, key: string): Component
    requires key in Keys(fields)
  {
    GetIn(fields, key);
    ComponentOf(Get(fields, key).value)
  }

  function GraphOf(fields: seq<Field>): Graph {
    Graph(Keys(fields), map key <- Keys(fields) :: ComponentAt(fields, key))
  }

  function PathOf(dsl: Json): seq<Id> {
    if dsl.JObject? then StringsOf(Get(dsl.fields, "path")) else []
  }

  // ---- what is written is loaded ----

  function Strings(texts: seq<string>): (r: seq<Json>)
    ensures |r| == |texts| && forall i :: 0 <= i < |r| ==> r[i] == JString(texts[i])
  {
    seq(|texts|, i requires 0 <= i < |texts| => JString(texts[i]))
  }

  function WrittenParams(prompt: string, handled: bool, goto: seq<Id>, default: string): seq<Field> {
    [Field("prompt", JString(prompt)),
     Field("exception_method", if handled then JString("comment") else JNull),
     Field("exception_goto", JArray(Strings(goto))),
     Field("exception_default_value", JString(default))]
  }

  function WrittenObj(name: string, prompt: string, handled: bool, goto: seq<Id>, default: string): seq<Field> {
    [Field("component_name", JString(name)), Field("params", JObject(WrittenParams(prompt, handled, goto, default)))]
  }

  /** A component as the editor stores it: the prompt stands for all its parameters. */
  function Written(name: string, prompt: string, downstream: seq<Id>, upstream: seq<Id>, parent: Id, handled: bool,
                   goto: seq<Id>, default: string): Json {
    JObject([
      Field("obj", JObject(WrittenObj(name, prompt, handled, goto, default))),
      Field("upstream", JArray(Strings(upstream))),
      Field("downstream", JArray(Strings(downstream))),
      Field("parent_id", JString(parent))])
  }

  lemma {:induction false} StringsBack(texts: seq<string>)
    ensures StringItems(Strings(texts)) == texts
  {
    if texts != [] {
      assert Strings(texts)[1..] == Strings(texts[1..]);
      StringsBack(texts[1..]);
      assert [texts[0]] + texts[1..] == texts;
    }
  }

  lemma {:induction false} NoRefsInStrings(texts: seq<string>)
    requires forall t <- texts :: Refs(t) == []
    ensures RefsInItems(Strings(texts)) == []
  {
    if texts != [] {
      assert Strings(texts)[1..] == Strings(texts[1..]);
      NoRefsInStrings(texts[1..]);
    }
  }

  lemma GetAmong(a: Field, b: Field, c: Field, d: Field, key: string)
    ensures Get([a, b, c, d], key) ==
      if a.key == key then Some(a.value) else if b.key == key then Some(b.value)
      else if c.key == key then Some(c.value) else if d.key == key then Some(d.value) else None
    ensures Get([a, b], key) == if a.key == key then Some(a.value) else if b.key == key then Some(b.value) else None
    ensures RefsInFields([a, b, c, d]) == RefsIn(a.value) + RefsIn(b.value) + RefsIn(c.value) + RefsIn(d.value)
  {
    hide RefsIn;
    assert [a, b, c, d][1..] == [b, c, d] && [b, c, d][1..] == [c, d] && [c, d][1..] == [d] && [d][1..] == [];
    assert [a, b][1..] == [b] && [b][1..] == [];
    assert Get([d], key) == if d.key == key then Some(d.value) else Get([], key);
    assert Get([c, d], key) == if c.key == key then Some(c.value) else Get([d], key);
    assert Get([b, c, d], key) == if b.key == key then Some(b.value) else Get([c, d], key);
    assert Get([b], key) == if b.key == key then Some(b.value) else Get([], key);
    assert RefsInFields([d]) == RefsIn(d.value) + [];
    assert RefsInFields([c, d]) == RefsIn(c.value) + RefsInFields([d]);
    assert RefsInFields([b, c, d]) == RefsIn(b.value) + RefsInFields([c, d]);
    assert RefsInFields([a, b, c, d]) == RefsIn(a.value) + RefsInFields([b, c, d]);
  }

  lemma ParamsLoaded(prompt: string, handled: bool, goto: seq<Id>, default: string)
    requires Refs(default) == [] && forall id <- goto :: Refs(id) == []
    ensures var params := WrittenParams(prompt, handled, goto, default);
      && RefsInFields(params) == Refs(prompt)
      && HandlerOf(params) == if handled then Handler(goto, default != "") else Handler([], false)
  {
    hide Refs, StringItems, Get, RefsInFields, RefsInItems;
    NoBraceNoRefs("comment");
    StringsBack(goto);
    NoRefsInStrings(goto);
    var ps := WrittenParams(prompt, handled, goto, default);
    assert |"exception_method"| == 16 && |"exception_goto"| == 14 && |"exception_default_value"| == 23 && |"prompt"| == 6;
    GetAmong(ps[0], ps[1], ps[2], ps[3], "exception_method");
    GetAmong(ps[0], ps[1], ps[2], ps[3], "exception_goto");
    GetAmong(ps[0], ps[1], ps[2], ps[3], "exception_default_value");
    assert ps == [ps[0], ps[1], ps[2], ps[3]];
    assert "comment" != "";
    assert Refs(prompt) + [] + [] + [] == Refs(prompt);
  }

  /** A component is loaded as it was written: its kind from the name, its dependencies from the
      references in the prompt, its edges, its parent and, if it handles failures, its handler. */
  lemma WrittenIsLoaded(name: string, prompt: string, downstream: seq<Id>, upstream: seq<Id>, parent: Id, handled: bool,
                        goto: seq<Id>, default: string)
    requires Refs(default) == [] && forall id <- goto :: Refs(id) == []
    ensures ComponentOf(Written(name, prompt, downstream, upstream, parent, handled, goto, default))
         == Component(KindOf(name), TightIds(Refs(prompt)), downstream, if parent == "" then None else Some(parent),
                      if handled then Handler(goto, default != "") else Handler([], false))
  {
    hide KindOf, Refs, TightIds, StringItems, Get, RefsInFields, HandlerOf, WrittenParams;
    ParamsLoaded(prompt, handled, goto, default);
    StringsBack(downstream);
    var fields := Written(name, prompt, downstream, upstream, parent, handled, goto, default).fields;
    var obj := WrittenObj(name, prompt, handled, goto, default);
    ObjLoaded(name, prompt, handled, goto, default);
    KeysOfComponent();
    hide WrittenObj;
    assert fields == [fields[0], fields[1], fields[2], fields[3]];
    GetAmong(fields[0], fields[1], fields[2], fields[3], "obj");
    GetAmong(fields[0], fields[1], fields[2], fields[3], "downstream");
    GetAmong(fields[0], fields[1], fields[2], fields[3], "parent_id");
  }

  lemma KeysOfComponent()
    ensures "obj" != "upstream" && "obj" != "downstream" && "obj" != "parent_id" && "upstream" != "downstream"
    ensures "upstream" != "parent_id" && "downstream" != "parent_id" && "component_name" != "params"
  {
    assert "obj"[0] == 'o' && "upstream"[0] == 'u' && "downstream"[0] == 'd' && "parent_id"[0] == 'p';
    assert "component_name"[0] == 'c' && "params"[0] == 'p';
  }

  lemma ObjLoaded(name: string, prompt: string, handled: bool, goto: seq<Id>, default: string)
    ensures var obj := WrittenObj(name, prompt, handled, goto, default);
      && Get(obj, "component_name") == Some(JString(name))
      && Get(obj, "params") == Some(JObject(WrittenParams(prompt, handled, goto, default)))
  {
    hide Get, WrittenParams, RefsInFields;
    KeysOfComponent();
    var obj := WrittenObj(name, prompt, handled, goto, default);
    assert obj == [obj[0], obj[1]];
    GetAmong(obj[0], obj[1], obj[0], obj[1], "component_name");
    GetAmong(obj[0], obj[1], obj[0], obj[1], "params");
  }
}
