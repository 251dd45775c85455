/** The migrated canvas runs as the original did: loading the migrated document gives the
    renamed graph, so every run of it is the renamed run. */
module MigrationRuns {
  import opened PyValues
  import opened Json
  import opened Migration
  import opened MigrationFixpoint
  import opened CanvasGraph
  import opened CanvasSpec
  import opened CanvasRenaming
  import opened CanvasLoading
  import opened MigrationIds
  import opened MigrationTexts

  // ---- a migrated component ----

  ghost predicate AreLinks(ids: seq<Id>, links: seq<Id>) {
    forall s <- links :: IsLink(ids, s)
  }

  /** What a component lists are ids of the canvas, or at least no texts that mention legacy ones. */
  ghost predicate HasLinks(ids: seq<Id>, c: Component) {
    && AreLinks(ids, c.downstream) && AreLinks(ids, c.handler.goto)
    && (c.parent.Some? ==> IsLink(ids, c.parent.value))
  }

  lemma ListRewritten(ids: seq<Id>, v: Option<Json>)
    ensures StringsOf(RewriteOption(IdMapOf(ids), v)) == RewriteTexts(IdMapOf(ids), StringsOf(v))
  {
    hide RewriteText, StringItems, IdMapOf;
    if v.Some? && v.value.JArray? {
      StringsRewritten(IdMapOf(ids), v.value.items);
    }
  }

  lemma LinksRewritten(ids: seq<Id>, links: seq<Id>)
    requires AreLinks(ids, links)
    ensures RewriteTexts(IdMapOf(ids), links) == MapIds(RenamingOf(ids), links)
  {
    hide RewriteText, IdMapOf, RenamingOf, IsLink;
    forall i | 0 <= i < |links| ensures RewriteText(IdMapOf(ids), links[i]) == RenamingOf(ids)(links[i]) {
      assert links[i] in links;
      LinkRewritten(ids, links[i]);
    }
  }

  /** Rewriting a list and then mapping its ids once more maps them once, exactly when the list
      holds links. */
  lemma ListMigratedIff(ids: seq<Id>, v: Option<Json>)
    ensures var r := RewriteOption(IdMapOf(ids), v);
      var mapped := StringsOf(Applied(x => MapList(y => MapId(IdMapOf(ids), y), x), r));
      mapped == MapIds(RenamingOf(ids), StringsOf(v)) <==> AreLinks(ids, StringsOf(v))
  {
    hide RewriteValue, RewriteText, StringItems, IdMapOf, RenamingOf, MapId, IsLink;
    var r, links, f := RewriteOption(IdMapOf(ids), v), StringsOf(v), RenamingOf(ids);
    ListRewritten(ids, v);
    var texts := RewriteTexts(IdMapOf(ids), links);
    var result := StringsOf(Applied(x => MapList(y => MapId(IdMapOf(ids), y), x), r));
    if r.Some? && r.value.JArray? {
      StringsMapped(ids, r.value.items);
    }
    assert result == MapIds(f, texts) by { assert texts == [] ==> MapIds(f, texts) == []; }
    forall i | 0 <= i < |links|
      ensures links[i] in links && (f(texts[i]) == f(links[i]) <==> IsLink(ids, links[i]))
    {
      LinkMigratedIff(ids, links[i]);
    }
    SameImages(f, texts, links);
  }

  lemma SameImages(f: Renaming, a: seq<Id>, b: seq<Id>)
    requires |a| == |b|
    ensures MapIds(f, a) == MapIds(f, b) <==> forall i | 0 <= i < |a| :: f(a[i]) == f(b[i])
  {
    if MapIds(f, a) == MapIds(f, b) {
      forall i | 0 <= i < |a| ensures f(a[i]) == f(b[i]) {
        assert MapIds(f, a)[i] == MapIds(f, b)[i];
      }
    }
  }

  lemma HandlerMigrated(ids: seq<Id>, params: seq<Field>)
    requires AreLinks(ids, HandlerOf(params).goto)
    ensures var r, h := HandlerOf(RewriteFields(IdMapOf(ids), params)), HandlerOf(params);
      r == Handler(MapIds(RenamingOf(ids), h.goto), h.hasDefault)
  {
    hide RewriteFields, RewriteValue, IdMapOf, RenamingOf, AreLinks, IsTruthy, StringsOf;
    GetRewritten(IdMapOf(ids), params, "exception_method");
    GetRewritten(IdMapOf(ids), params, "exception_goto");
    GetRewritten(IdMapOf(ids), params, "exception_default_value");
    TruthKept(ids, Get(params, "exception_method"));
    TruthKept(ids, Get(params, "exception_default_value"));
    if IsTruthy(Get(params, "exception_method")) {
      ListRewritten(ids, Get(params, "exception_goto"));
      LinksRewritten(ids, StringsOf(Get(params, "exception_goto")));
    }
    assert MapIds(RenamingOf(ids), []) == [];
  }

  lemma ParentMigrated(ids: seq<Id>, v: Option<Json>)
    requires TextOf(v) != "" ==> IsLink(ids, TextOf(v))
    ensures var r := RewriteOption(IdMapOf(ids), v);
      TextOf(Applied(x => MapId(IdMapOf(ids), x), r))
        == if TextOf(v) == "" then "" else RenamingOf(ids)(TextOf(v))
    ensures TextOf(v) != "" ==> RenamingOf(ids)(TextOf(v)) != ""
  {
    hide RewriteText, IsLink, RenamedId;
    RenamedShape(TextOf(v));
    RenamedShape("");
    if v.Some? && v.value.JString? {
      TextNonempty(IdMapOf(ids), v.value.s);
      if v.value.s != "" {
        LinkMigratedIff(ids, v.value.s);
      }
    }
  }

  function Applied(g: Json -> Json, v: Option<Json>): Option<Json> {
    if v.Some? then Some(g(v.value)) else None
  }

  lemma UpdatesGet(f0: seq<Field>, a: Json -> Json, b: Json -> Json, c: Json -> Json, d: Json -> Json)
    ensures var r := Update(Update(Update(Update(f0, "obj", a), "downstream", b), "upstream", c), "parent_id", d);
      && Get(r, "obj") == Applied(a, Get(f0, "obj"))
      && Get(r, "downstream") == Applied(b, Get(f0, "downstream"))
      && Get(r, "upstream") == Applied(c, Get(f0, "upstream"))
      && Get(r, "parent_id") == Applied(d, Get(f0, "parent_id"))
  {
    hide Update;
    var f1 := Update(f0, "obj", a);
    var f2 := Update(f1, "downstream", b);
    var f3 := Update(f2, "upstream", c);
    forall key | key in {"obj", "downstream", "upstream", "parent_id"}
      ensures Get(Update(f3, "parent_id", d), key)
           == if key == "obj" then Applied(a, Get(f0, key))
              else if key == "downstream" then Applied(b, Get(f0, key))
              else if key == "upstream" then Applied(c, Get(f0, key))
              else Applied(d, Get(f0, key))
    {
      UpdateGet(f0, "obj", a, key);
      UpdateGet(f1, "downstream", b, key);
      UpdateGet(f2, "upstream", c, key);
      UpdateGet(f3, "parent_id", d, key);
    }
  }

  /** The fields of a migrated component that loading reads. */
  lemma ComponentGet(m: IdMap, fields: seq<Field>)
    ensures MigrateComponent(m, JObject(fields)).JObject?
    ensures var r := MigrateComponent(m, JObject(fields)).fields;
      && Get(r, "obj") == Applied(MigrateObj, RewriteOption(m, Get(fields, "obj")))
      && Get(r, "downstream") == Applied(v => MapList(x => MapId(m, x), v), RewriteOption(m, Get(fields, "downstream")))
      && Get(r, "upstream") == Applied(v => MapList(x => MapId(m, x), v), RewriteOption(m, Get(fields, "upstream")))
      && Get(r, "parent_id") == Applied(v => MapId(m, v), RewriteOption(m, Get(fields, "parent_id")))
  {
    var f0 := RewriteFields(m, fields);
    assert RewriteValue(m, JObject(fields)) == JObject(f0);
    hide RewriteValue, RewriteFields, MigrateObj, MapId, MapList, Update, Applied;
    UpdatesGet(f0, MigrateObj, v => MapList(x => MapId(m, x), v), v => MapList(x => MapId(m, x), v), v => MapId(m, v));
    GetRewritten(m, fields, "obj");
    GetRewritten(m, fields, "downstream");
    GetRewritten(m, fields, "upstream");
    GetRewritten(m, fields, "parent_id");
  }

  lemma ObjGet(fields: seq<Field>)
    ensures MigrateObj(JObject(fields)).JObject?
    ensures var r := MigrateObj(JObject(fields)).fields;
      && Get(r, "params") == Get(fields, "params")
      && KindOf(TextOf(Get(r, "component_name"))) == KindOf(TextOf(Get(fields, "component_name")))
  {
    hide KindOf, NewName;
    var name := Get(fields, "component_name");
    var value := if name.Some? then RenameName(name.value) else JNull;
    GetPut(fields, "component_name", value, "component_name");
    GetPut(fields, "component_name", value, "params");
    KindKept(TextOf(name));
  }

  function ObjOf(c: Json): seq<Field> {
    FieldsOf(Get(FieldsOf(Some(c)), "obj"))
  }

  function ParamsOf(c: Json): seq<Field> {
    FieldsOf(Get(ObjOf(c), "params"))
  }

  lemma FieldsRewritten(m: IdMap, v: Option<Json>)
    ensures FieldsOf(RewriteOption(m, v)) == RewriteFields(m, FieldsOf(v))
  {
    RewriteNone(m);
  }

  lemma ParamsMigrated(ids: seq<Id>, c: Json)
    ensures ParamsOf(MigrateComponent(IdMapOf(ids), c)) == RewriteFields(IdMapOf(ids), ParamsOf(c))
    ensures KindOf(TextOf(Get(ObjOf(MigrateComponent(IdMapOf(ids), c)), "component_name")))
         == KindOf(TextOf(Get(ObjOf(c), "component_name")))
  {
    hide MigrateComponent, MigrateObj, RewriteFields, KindOf, IdMapOf, RewriteText;
    var m := IdMapOf(ids);
    RewriteNone(m);
    if c.JObject? {
      ComponentGet(m, c.fields);
      var obj := Get(c.fields, "obj");
      if obj.Some? && obj.value.JObject? {
        var fs := obj.value.fields;
        FieldsRewritten(m, obj);
        ObjGet(RewriteFields(m, fs));
        GetRewritten(m, fs, "params");
        GetRewritten(m, fs, "component_name");
        FieldsRewritten(m, Get(fs, "params"));
        var name := Get(fs, "component_name");
        if name.Some? && name.value.JString? {
          KindOfText(ids, name.value.s);
        }
      } else if obj.Some? {
        NoObjNoChange(m, obj.value);
      }
    } else {
      assert MigrateComponent(m, c) == RewriteValue(m, c) by { NoObjectNoChange(m, c); }
    }
  }

  lemma NoObjectNoChange(m: IdMap, c: Json)
    requires !c.JObject?
    ensures MigrateComponent(m, c) == RewriteValue(m, c) && !RewriteValue(m, c).JObject?
  {
  }

  lemma NoObjNoChange(m: IdMap, v: Json)
    requires !v.JObject?
    ensures !MigrateObj(RewriteValue(m, v)).JObject?
  {
  }

  lemma NoLinks(ids: seq<Id>, c: Json)
    requires !c.JObject?
    ensures ComponentOf(MigrateComponent(IdMapOf(ids), c)) == MapComponent(RenamingOf(ids), ComponentOf(c))
  {
    hide KindOf, IdMapOf;
    NoObjectNoChange(IdMapOf(ids), c);
  }

  /** Loading a migrated component gives the renamed component. */
  lemma ComponentMigrated(ids: seq<Id>, c: Json)
    requires QuietIds(ids) && HasLinks(ids, ComponentOf(c))
    ensures ComponentOf(MigrateComponent(IdMapOf(ids), c)) == MapComponent(RenamingOf(ids), ComponentOf(c))
  {
    hide MigrateComponent, RewriteFields, KindOf, IdMapOf, RenamingOf, QuietIds, HandlerOf, IsLink;
    hide StringsOf, TextOf, MapList, MapId, RefsInFields, TightIds, RewriteOption;
    if c.JObject? {
      var m := IdMapOf(ids);
      ParamsMigrated(ids, c);
      ComponentGet(m, c.fields);
      ListMigratedIff(ids, Get(c.fields, "downstream"));
      ParentMigrated(ids, Get(c.fields, "parent_id"));
      HandlerMigrated(ids, ParamsOf(c));
      FieldsRefsRewritten(ids, ParamsOf(c));
      TightIdsMapped(RenamingOf(ids), RefsInFields(ParamsOf(c)));
      DepsAreIds(ids, TightIds(RefsInFields(ParamsOf(c))));
    } else {
      NoLinks(ids, c);
    }
  }

  // ---- the component dictionary ----

  function MigratedFields(m: IdMap, fields: seq<Field>): (r: seq<Field>)
    ensures |r| == |fields|
    ensures forall i :: 0 <= i < |r| ==>
      r[i] == Field(Mapped(m, fields[i].key), MigrateComponent(m, fields[i].value))
  {
    seq(|fields|, i requires 0 <= i < |fields| =>
      Field(Mapped(m, fields[i].key), MigrateComponent(m, fields[i].value)))
  }

  /** The mapped keys meet neither each other nor what is already there. */
  ghost predicate KeepsApart(m: IdMap, fields: seq<Field>, done: seq<Field>) {
    && (forall i, j | 0 <= i < j < |fields| :: Mapped(m, fields[i].key) != Mapped(m, fields[j].key))
    && (forall i | 0 <= i < |fields| :: Mapped(m, fields[i].key) !in Keys(done))
  }

  lemma ApartCons(m: IdMap, fields: seq<Field>, done: seq<Field>)
    requires fields != []
    ensures var key := Mapped(m, fields[0].key);
      KeepsApart(m, fields, done) <==>
        key !in Keys(done) && KeepsApart(m, fields[1..], done + [Field(key, MigrateComponent(m, fields[0].value))])
  {
    hide Mapped, MigrateComponent;
    var key := Mapped(m, fields[0].key);
    var more := done + [Field(key, MigrateComponent(m, fields[0].value))];
    assert Keys(more) == Keys(done) + [key];
    var rest := fields[1..];
    if KeepsApart(m, fields, done) {
      forall i | 0 <= i < |rest| ensures Mapped(m, rest[i].key) !in Keys(more) {
        assert rest[i] == fields[i + 1];
      }
    }
    if key !in Keys(done) && KeepsApart(m, rest, more) {
      forall i, j | 0 <= i < j < |fields| ensures Mapped(m, fields[i].key) != Mapped(m, fields[j].key) {
        assert fields[j] == rest[j - 1];
        if i > 0 {
          assert fields[i] == rest[i - 1];
        }
      }
      forall i | 0 <= i < |fields| ensures Mapped(m, fields[i].key) !in Keys(done) {
        if i > 0 {
          assert fields[i] == rest[i - 1];
        }
      }
    }
  }

  lemma {:induction false} PutLength(fields: seq<Field>, key: string, value: Json)
    ensures |Put(fields, key, value)| == if key in Keys(fields) then |fields| else |fields| + 1
  {
    if fields != [] && fields[0].key != key {
      PutLength(fields[1..], key, value);
    }
  }

  lemma {:induction false} RewriteLength(m: IdMap, fields: seq<Field>, done: seq<Field>)
    ensures |RewriteComponents(m, fields, done)| <= |done| + |fields|
    decreases |fields|
  {
    hide Mapped, MigrateComponent;
    if fields != [] {
      var key, value := Mapped(m, fields[0].key), MigrateComponent(m, fields[0].value);
      PutLength(done, key, value);
      RewriteLength(m, fields[1..], Put(done, key, value));
    }
  }

  /** The rebuilt dictionary has as many components as the old one exactly when the mapped ids
      keep apart, and then it is the old one, entry by entry. */
  lemma {:induction false} RewrittenComponents(m: IdMap, fields: seq<Field>, done: seq<Field>)
    ensures |RewriteComponents(m, fields, done)| == |done| + |fields| <==> KeepsApart(m, fields, done)
    ensures KeepsApart(m, fields, done) ==> RewriteComponents(m, fields, done) == done + MigratedFields(m, fields)
    decreases |fields|
  {
    hide Mapped, MigrateComponent, KeepsApart, MigratedFields, Put, Keys;
    if fields == [] {
      NothingClashes(m, done);
    } else {
      var key, value := Mapped(m, fields[0].key), MigrateComponent(m, fields[0].value);
      ApartCons(m, fields, done);
      PutLength(done, key, value);
      if key in Keys(done) {
        RewriteLength(m, fields[1..], Put(done, key, value));
      } else {
        var more := done + [Field(key, value)];
        PutNew(done, key, value);
        RewrittenComponents(m, fields[1..], more);
        MigratedCons(m, fields, done);
      }
    }
  }

  lemma NothingClashes(m: IdMap, done: seq<Field>)
    ensures KeepsApart(m, [], done) && done + MigratedFields(m, []) == done
  {
  }

  lemma MigratedCons(m: IdMap, fields: seq<Field>, done: seq<Field>)
    requires fields != []
    ensures var head := Field(Mapped(m, fields[0].key), MigrateComponent(m, fields[0].value));
      done + MigratedFields(m, fields) == done + [head] + MigratedFields(m, fields[1..])
  {
    hide Mapped, MigrateComponent;
    var head := Field(Mapped(m, fields[0].key), MigrateComponent(m, fields[0].value));
    assert MigratedFields(m, fields) == [head] + MigratedFields(m, fields[1..]);
  }

  lemma ApartIffNoClash(fields: seq<Field>)
    requires UniqueKeys(fields)
    ensures KeepsApart(IdMapOf(Keys(fields)), fields, []) <==> NoClash(Keys(fields))
  {
    hide RenamedId, IsLegacyId, NoClash;
    var ids := Keys(fields);
    var m := IdMapOf(ids);
    InjectiveIffNoClash(ids);
    forall i | 0 <= i < |fields| ensures Mapped(m, fields[i].key) == RenamedId(ids[i]) {
      assert ids[i] in ids;
    }
    if NoClash(ids) {
      forall i, j | 0 <= i < j < |fields| ensures Mapped(m, fields[i].key) != Mapped(m, fields[j].key) {
        assert ids[i] in ids && ids[j] in ids && ids[i] != ids[j];
      }
    } else {
      var a, b :| a in ids && b in ids && RenamedId(a) == RenamedId(b) && a != b;
      var i :| 0 <= i < |ids| && ids[i] == a;
      var j :| 0 <= j < |ids| && ids[j] == b;
      assert Mapped(m, fields[i].key) == Mapped(m, fields[j].key);
      assert i < j || j < i;
    }
  }

  /** Migrating loses no component exactly when no legacy id is renamed to an id the canvas
      already has. */
  lemma ComponentsSurviveIffNoClash(fields: seq<Field>)
    requires UniqueKeys(fields)
    ensures |RewriteComponents(IdMapOf(Keys(fields)), fields, [])| == |fields| <==> NoClash(Keys(fields))
  {
    hide NoClash, KeepsApart, IdMapOf;
    RewrittenComponents(IdMapOf(Keys(fields)), fields, []);
    ApartIffNoClash(fields);
  }

  lemma {:induction false} GetAt(fields: seq<Field>, i: nat)
    requires UniqueKeys(fields) && i < |fields|
    ensures Get(fields, fields[i].key) == Some(fields[i].value)
    decreases i
  {
    if i > 0 {
      assert fields[0].key != fields[i].key;
      GetAt(fields[1..], i - 1);
    }
  }

  lemma GetMigrated(m: IdMap, fields: seq<Field>, key: string)
    requires UniqueKeys(fields) && key in Keys(fields)
    requires forall a, b | a in Keys(fields) && b in Keys(fields) && Mapped(m, a) == Mapped(m, b) :: a == b
    ensures Get(fields, key).Some?
    ensures Get(MigratedFields(m, fields), Mapped(m, key)) == Some(MigrateComponent(m, Get(fields, key).value))
  {
    hide Mapped, MigrateComponent;
    var keys, after := Keys(fields), MigratedFields(m, fields);
    var i :| 0 <= i < |keys| && keys[i] == key;
    forall i, j | 0 <= i < j < |after| ensures after[i].key != after[j].key {
      assert keys[i] in keys && keys[j] in keys && keys[i] != keys[j];
    }
    GetAt(fields, i);
    GetAt(after, i);
  }

  lemma MigratedKeys(ids: seq<Id>, fields: seq<Field>)
    ensures Keys(MigratedFields(IdMapOf(ids), fields)) == MapIds(RenamingOf(ids), Keys(fields))
  {
  }

  // ---- the migrated graph ----

  /** No id and no listed text holds a reference to a legacy id, other than by being one. */
  ghost predicate QuietGraph(g: Graph) {
    QuietIds(g.order) && forall id <- g.cpn :: HasLinks(g.order, g.cpn[id])
  }

  lemma RenamingInjective(fields: seq<Field>)
    requires NoClash(Keys(fields))
    ensures var m := IdMapOf(Keys(fields));
      forall a, b | a in Keys(fields) && b in Keys(fields) && Mapped(m, a) == Mapped(m, b) :: a == b
  {
    hide NoClash, RenamedId;
    InjectiveIffNoClash(Keys(fields));
  }

  lemma ComponentAtMigrated(fields: seq<Field>, key: string)
    requires UniqueKeys(fields) && NoClash(Keys(fields)) && QuietGraph(GraphOf(fields)) && key in Keys(fields)
    ensures var m, f := IdMapOf(Keys(fields)), RenamingOf(Keys(fields));
      && f(key) in Keys(MigratedFields(m, fields))
      && ComponentAt(MigratedFields(m, fields), f(key)) == MapComponent(f, ComponentAt(fields, key))
  {
    var ids := Keys(fields);
    assert key in GraphOf(fields).cpn && HasLinks(GraphOf(fields).order, GraphOf(fields).cpn[key]);
    assert forall id <- ids :: id in GraphOf(fields).cpn;
    hide NoClash, RenamedId, ComponentOf, MapComponent, MigrateComponent, HasLinks, QuietIds, IdMapOf;
    RenamingInjective(fields);
    GetMigrated(IdMapOf(ids), fields, key);
    GetIn(MigratedFields(IdMapOf(ids), fields), RenamingOf(ids)(key));
    ComponentMigrated(ids, Get(fields, key).value);
  }

  lemma RenamedByKeys(f: Renaming, g: Graph, h: Graph)
    requires g.cpn.Keys == (set id <- g.order) && h.cpn.Keys == (set id <- h.order)
    requires h.order == MapIds(f, g.order)
    requires forall id <- g.order :: f(id) in h.cpn && h.cpn[f(id)] == MapComponent(f, g.cpn[id])
    ensures IsRenamed(f, g, h)
  {
    hide MapIds, MapComponent;
    forall id' <- h.cpn ensures exists id <- g.cpn :: f(id) == id' {
      MapIdsContains(f, g.order, id');
    }
  }

  lemma MigratedGraphWithoutClash(fields: seq<Field>)
    requires UniqueKeys(fields) && NoClash(Keys(fields)) && QuietGraph(GraphOf(fields))
    ensures IsRenamed(RenamingOf(Keys(fields)), GraphOf(fields),
                      GraphOf(MigratedFields(IdMapOf(Keys(fields)), fields)))
  {
    hide NoClash, UniqueKeys, QuietGraph, RenamingOf, IdMapOf, ComponentAt, MapComponent, MigratedFields, IsRenamed;
    var ids := Keys(fields);
    var m, f := IdMapOf(ids), RenamingOf(ids);
    var after := MigratedFields(m, fields);
    MigratedKeys(ids, fields);
    forall id <- ids
      ensures f(id) in Keys(after) && ComponentAt(after, f(id)) == MapComponent(f, ComponentAt(fields, id))
    {
      ComponentAtMigrated(fields, id);
    }
    RenamedByKeys(f, GraphOf(fields), GraphOf(after));
  }

  /** The graph loaded from the migrated components is the renamed graph exactly when no new id is
      taken. */
  lemma MigratedGraphIsRenamedIff(fields: seq<Field>)
    requires UniqueKeys(fields) && QuietGraph(GraphOf(fields))
    ensures var h := GraphOf(RewriteComponents(IdMapOf(Keys(fields)), fields, []));
      IsRenamed(RenamingOf(Keys(fields)), GraphOf(fields), h) <==> NoClash(Keys(fields))
  {
    var ids := Keys(fields);
    var m := IdMapOf(ids);
    var after := RewriteComponents(m, fields, []);
    assert |GraphOf(after).order| == |after| && |GraphOf(fields).order| == |fields|;
    assert IsRenamed(RenamingOf(ids), GraphOf(fields), GraphOf(after)) ==> |after| == |fields|;
    hide NoClash, UniqueKeys, QuietGraph, IdMapOf, RenamingOf, RewriteComponents, KeepsApart, MigratedFields, GraphOf;
    ComponentsSurviveIffNoClash(fields);
    if NoClash(ids) {
      ApartIffNoClash(fields);
      RewrittenComponents(m, fields, []);
      assert [] + MigratedFields(m, fields) == MigratedFields(m, fields);
      MigratedGraphWithoutClash(fields);
    }
  }

  function ComponentsOf(dsl: Json): seq<Field> {
    if ComponentFields(dsl).Some? then ComponentFields(dsl).value else []
  }

  /** The saved path is mapped, whatever the components are. */
  lemma PathMigrated(dsl: Json)
    requires ComponentFields(dsl).Some?
    ensures PathOf(Normalize(dsl)) == MapIds(RenamingOf(Keys(ComponentsOf(dsl))), PathOf(dsl))
    ensures ComponentsOf(Normalize(dsl)) == RewriteComponents(IdMapOf(Keys(ComponentsOf(dsl))), ComponentsOf(dsl), [])
  {
    hide RenamingOf, IdMapOf, RewriteComponents, MigrateRest, MapId, StringItems;
    var fields := ComponentsOf(dsl);
    var ids := Keys(fields);
    var m := IdMapOf(ids);
    var rewritten := JObject(RewriteComponents(m, fields, []));
    var f1 := Put(dsl.fields, "components", rewritten);
    GetPut(dsl.fields, "components", rewritten, "components");
    GetPut(dsl.fields, "components", rewritten, "path");
    RestGet(m, ids, f1);
    var path := Get(dsl.fields, "path");
    if path.Some? && path.value.JArray? {
      StringsMapped(ids, path.value.items);
    }
    assert MapIds(RenamingOf(ids), []) == [];
  }

  /** The components are mapped entry by entry exactly when no new id is taken. */
  lemma ComponentsMigratedIff(dsl: Json)
    requires ComponentFields(dsl).Some? && UniqueKeys(ComponentsOf(dsl))
    ensures var ids := Keys(ComponentsOf(dsl));
      ComponentsOf(Normalize(dsl)) == MigratedFields(IdMapOf(ids), ComponentsOf(dsl)) <==> NoClash(ids)
  {
    hide NoClash, UniqueKeys, RenamingOf, IdMapOf, MigratedFields, RewriteComponents, KeepsApart, Normalize, ComponentFields;
    var fields := ComponentsOf(dsl);
    var m := IdMapOf(Keys(fields));
    PathMigrated(dsl);
    ApartIffNoClash(fields);
    RewrittenComponents(m, fields, []);
    assert [] + MigratedFields(m, fields) == MigratedFields(m, fields);
    assert |MigratedFields(m, fields)| == |fields| by { SameNumber(m, fields); }
  }

  lemma SameNumber(m: IdMap, fields: seq<Field>)
    ensures |MigratedFields(m, fields)| == |fields|
  {
  }

  /** The document has components under distinct keys, as a dictionary has, and they make a
      graph that can run. */
  ghost predicate Loads(dsl: Json) {
    ComponentFields(dsl).Some? && UniqueKeys(ComponentsOf(dsl)) && WellFormed(GraphOf(ComponentsOf(dsl)))
  }

  /** `n` turns of the stored canvas from its saved path. */
  function RunOf(dsl: Json, o: Oracle, n: nat): State
    requires Loads(dsl)
  {
    RunSteps(GraphOf(ComponentsOf(dsl)), o, Start(PathOf(dsl)), n)
  }

  /** Nothing in the canvas dangles, and no new name is taken. */
  ghost predicate Migratable(dsl: Json, o: Oracle)
    requires Loads(dsl)
  {
    var g := GraphOf(ComponentsOf(dsl));
    NoClash(Keys(ComponentsOf(dsl))) && QuietGraph(g) && NoDangling(g, o) && Known(g, PathOf(dsl))
  }

  function RenamingFor(dsl: Json): Renaming {
    RenamingOf(Keys(ComponentsOf(dsl)))
  }

  lemma NoEmptyKey(fields: seq<Field>, o: Oracle)
    requires WellFormed(GraphOf(fields)) && NoDangling(GraphOf(fields), o)
    ensures "" !in Keys(fields)
  {
    assert "" !in GraphOf(fields).cpn;
  }

  lemma MigratedKeysAreUnique(fields: seq<Field>)
    requires UniqueKeys(fields) && NoClash(Keys(fields))
    ensures UniqueKeys(MigratedFields(IdMapOf(Keys(fields)), fields))
  {
    hide NoClash, UniqueKeys, Mapped, MigrateComponent;
    ApartIffNoClash(fields);
    UniqueWhenApart(IdMapOf(Keys(fields)), fields);
  }

  lemma UniqueWhenApart(m: IdMap, fields: seq<Field>)
    requires KeepsApart(m, fields, [])
    ensures UniqueKeys(MigratedFields(m, fields))
  {
    hide Mapped, MigrateComponent;
  }

  lemma NormalizedHasComponents(dsl: Json)
    requires ComponentFields(dsl).Some?
    ensures ComponentFields(Normalize(dsl)).Some?
  {
    hide RewriteComponents, MigrateRest, IdMapOf;
    var ids := Keys(ComponentFields(dsl).value);
    var rewritten := JObject(RewriteComponents(IdMapOf(ids), ComponentFields(dsl).value, []));
    GetPut(dsl.fields, "components", rewritten, "components");
    RestGet(IdMapOf(ids), ids, Put(dsl.fields, "components", rewritten));
  }

  /** For a canvas in which no new name is taken: the migrated document loads, and every run of
      it, from its migrated saved path and with the same reports carried across, is the run of
      the original with its ids renamed, turn by turn. */
  lemma MigrationIsInvisible(dsl: Json, o: Oracle, n: nat)
    requires Loads(dsl) && Migratable(dsl, o)
    ensures Loads(Normalize(dsl))
    ensures RunOf(Normalize(dsl), MapOracle(RenamingFor(dsl), o), n) == MapState(RenamingFor(dsl), RunOf(dsl, o, n))
  {
    hide NoClash, UniqueKeys, RenamingOf, MigratedFields, QuietGraph, WellFormed, IsRenamed, IsFaithful;
    hide Normalize, ComponentFields, ComponentsOf, NoDangling, Known, RunSteps, Start, MapOracle, MapState;
    var fields := ComponentsOf(dsl);
    NoEmptyKey(fields, o);
    NormalizedHasComponents(dsl);
    PathMigrated(dsl);
    ComponentsMigratedIff(dsl);
    MigratedKeysAreUnique(fields);
    RenamingIsFaithful(fields);
    MigratedGraphWithoutClash(fields);
    RunsAreRenamed(RenamingFor(dsl), GraphOf(fields), GraphOf(ComponentsOf(Normalize(dsl))), o, PathOf(dsl), n);
  }

  // ---- links ----

  /** What a component lists under "downstream" or "upstream". */
  function LinksOf(c: Json, key: string): seq<Id> {
    StringsOf(Get(FieldsOf(Some(c)), key))
  }

  function ComponentJson(fields: seq<Field>, id: Id): Json
    requires id in Keys(fields)
  {
    GetIn(fields, id);
    Get(fields, id).value
  }

  lemma LinksMigrated(ids: seq<Id>, c: Json, key: string)
    requires key in {"downstream", "upstream"}
    ensures LinksOf(MigrateComponent(IdMapOf(ids), c), key) == MapIds(RenamingOf(ids), LinksOf(c, key))
       <==> AreLinks(ids, LinksOf(c, key))
  {
    hide MigrateComponent, IdMapOf, RenamingOf, IsLink, StringItems, MapList, MapId;
    if c.JObject? {
      ComponentGet(IdMapOf(ids), c.fields);
      ListMigratedIff(ids, Get(c.fields, key));
    } else {
      NoObjectNoChange(IdMapOf(ids), c);
      assert MapIds(RenamingOf(ids), []) == [];
    }
  }

  /** The edges of the migrated graph are the images of the old edges, and no others, except that
      an edge into nothing now leads somewhere when what it names is the new name of a
      component. */
  lemma EdgesAreKept(fields: seq<Field>, key: string, a: Id, b: Id)
    requires UniqueKeys(fields) && NoClash(Keys(fields))
    requires a in Keys(fields) && b in Keys(fields) && key in {"downstream", "upstream"}
    requires AreLinks(Keys(fields), LinksOf(ComponentJson(fields, a), key))
    ensures var f, after := RenamingOf(Keys(fields)), RewriteComponents(IdMapOf(Keys(fields)), fields, []);
      var links := LinksOf(ComponentJson(fields, a), key);
      && f(a) in Keys(after)
      && (f(b) in LinksOf(ComponentJson(after, f(a)), key) <==> b in links || f(b) in links)
      && (f(b) != b ==> f(b) !in Keys(fields))
  {
    hide NoClash, UniqueKeys, RewriteComponents, LinksOf, IsLink, IdMapOf, RenamingOf, ComponentJson;
    var ids := Keys(fields);
    MigratedAt(fields, a);
    LinksMigrated(ids, ComponentJson(fields, a), key);
    ImagesAmongLinks(fields, LinksOf(ComponentJson(fields, a), key), b);
  }

  /** Without a clash the migrated component is found under its new id. */
  lemma MigratedAt(fields: seq<Field>, a: Id)
    requires UniqueKeys(fields) && NoClash(Keys(fields)) && a in Keys(fields)
    ensures var m, f := IdMapOf(Keys(fields)), RenamingOf(Keys(fields));
      var after := RewriteComponents(m, fields, []);
      f(a) in Keys(after) && ComponentJson(after, f(a)) == MigrateComponent(m, ComponentJson(fields, a))
  {
    hide NoClash, UniqueKeys, MigrateComponent, MigratedFields, RewriteComponents, KeepsApart, IdMapOf;
    var m := IdMapOf(Keys(fields));
    ApartIffNoClash(fields);
    RewrittenComponents(m, fields, []);
    var after := MigratedFields(m, fields);
    assert [] + after == after;
    RenamingInjective(fields);
    GetMigrated(m, fields, a);
    GetIn(after, Mapped(m, a));
  }

  lemma ImagesAmongLinks(fields: seq<Field>, links: seq<Id>, b: Id)
    requires NoClash(Keys(fields)) && b in Keys(fields)
    ensures var f := RenamingOf(Keys(fields));
      && (f(b) in MapIds(f, links) <==> b in links || f(b) in links)
      && (f(b) != b ==> f(b) !in Keys(fields))
  {
    hide NoClash, IdMapOf;
    var ids, f := Keys(fields), RenamingOf(Keys(fields));
    RenamingInjective(fields);
    MapTwice(ids, b);
    MapIdsContains(f, links, f(b));
    assert forall x :: f(x) == Mapped(IdMapOf(ids), x);
    forall x <- links ensures f(x) == f(b) <==> x == b || x == f(b) {
      ImageOf(ids, x);
    }
  }

  lemma ImageOf(ids: seq<Id>, x: Id)
    ensures x !in ids ==> RenamingOf(ids)(x) == x
    ensures RenamingOf(ids)(RenamingOf(ids)(x)) == RenamingOf(ids)(x)
  {
    MapTwice(ids, x);
  }
}
