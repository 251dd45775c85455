/** The drawing stays attached to the components: what names a component in the migrated
    document's nodes and edges still names one. */
module MigrationDrawing {
  import opened PyValues
  import opened Json
  import opened Migration
  import opened MigrationFixpoint
  import opened References
  import opened CanvasLoading
  import opened CanvasRenaming
  import opened MigrationIds
  import opened MigrationTexts
  import opened MigrationRuns

  /** A text under `key` names one of the ids. */
  predicate Names(ids: seq<string>, v: Json, key: string) {
    match Get(FieldsOf(Some(v)), key)
    case Some(JString(s)) => s in ids
    case _ => true
  }

  function ItemsOf(v: Option<Json>): seq<Json> {
    if v.Some? && v.value.JArray? then v.value.items else []
  }

  ghost predicate NodesAttached(ids: seq<string>, nodes: seq<Json>) {
    forall node <- nodes :: Names(ids, node, "id") && Names(ids, node, "parentId")
  }

  ghost predicate EdgesAttached(ids: seq<string>, edges: seq<Json>) {
    forall edge <- edges :: Names(ids, edge, "source") && Names(ids, edge, "target")
  }

  ghost predicate Attached(ids: seq<string>, graph: Json) {
    && NodesAttached(ids, ItemsOf(Get(FieldsOf(Some(graph)), "nodes")))
    && EdgesAttached(ids, ItemsOf(Get(FieldsOf(Some(graph)), "edges")))
  }

  /** The rebuilt dictionary knows the image of every old id, clash or no clash. */
  lemma {:induction false} ImagesAreKeys(m: IdMap, fields: seq<Field>, done: seq<Field>, id: string)
    requires id in Keys(done) || exists k <- Keys(fields) :: Mapped(m, k) == id
    ensures id in Keys(RewriteComponents(m, fields, done))
    decreases |fields|
  {
    hide Mapped, MigrateComponent;
    if fields != [] {
      var key, value := Mapped(m, fields[0].key), MigrateComponent(m, fields[0].value);
      PutKeys(done, key, value);
      assert Keys(fields) == [fields[0].key] + Keys(fields[1..]);
      ImagesAreKeys(m, fields[1..], Put(done, key, value), id);
    }
  }

  /** The map carries the names of one document into the other. */
  ghost predicate Carries(m: IdMap, ids: seq<string>, after: seq<string>) {
    forall id <- ids :: Mapped(m, id) in after
  }

  lemma NamesMapped(m: IdMap, ids: seq<string>, after: seq<string>, fields: seq<Field>, key: string)
    requires Carries(m, ids, after) && Names(ids, JObject(fields), key)
    ensures Names(after, JObject(Update(fields, key, v => MapId(m, v))), key)
  {
    hide Mapped;
    UpdateGet(fields, key, v => MapId(m, v), key);
  }

  lemma NamesUntouched(ids: seq<string>, fields: seq<Field>, key: string, g: Json -> Json, other: string)
    requires other != key
    ensures Names(ids, JObject(Update(fields, key, g)), other) == Names(ids, JObject(fields), other)
  {
    UpdateGet(fields, key, g, other);
  }

  lemma NodeStaysAttached(m: IdMap, ids: seq<string>, after: seq<string>, node: Json)
    requires Carries(m, ids, after) && Names(ids, node, "id") && Names(ids, node, "parentId")
    ensures Names(after, MigrateNode(m, node), "id") && Names(after, MigrateNode(m, node), "parentId")
  {
    if node.JObject? {
      hide Carries, Names, Update, MapId, MigrateData;
      var f1 := Update(node.fields, "id", v => MapId(m, v));
      var f2 := Update(f1, "parentId", v => MapId(m, v));
      var f3 := Update(f2, "type", RenameType);
      NamesMapped(m, ids, after, node.fields, "id");
      NamesUntouched(after, f1, "parentId", v => MapId(m, v), "id");
      NamesUntouched(ids, node.fields, "id", v => MapId(m, v), "parentId");
      assert node == JObject(node.fields);
      NamesMapped(m, ids, after, f1, "parentId");
      forall key | key in {"id", "parentId"}
        ensures Names(after, MigrateNode(m, node), key) == Names(after, JObject(f2), key)
      {
        NamesUntouched(after, f2, "type", RenameType, key);
        NamesUntouched(after, f3, "data", v => MigrateData(m, v), key);
      }
    }
  }

  lemma EdgeStaysAttached(m: IdMap, ids: seq<string>, after: seq<string>, all: seq<string>, edge: Json)
    requires Carries(m, ids, after) && Names(ids, edge, "source") && Names(ids, edge, "target")
    ensures Names(after, MigrateEdge(m, all, edge), "source") && Names(after, MigrateEdge(m, all, edge), "target")
  {
    if edge.JObject? {
      hide Carries, Names, Update, MapId, MigrateEdgeId;
      var f1 := Update(edge.fields, "source", v => MapId(m, v));
      var f2 := Update(f1, "target", v => MapId(m, v));
      NamesMapped(m, ids, after, edge.fields, "source");
      NamesUntouched(after, f1, "target", v => MapId(m, v), "source");
      NamesUntouched(ids, edge.fields, "source", v => MapId(m, v), "target");
      assert edge == JObject(edge.fields);
      NamesMapped(m, ids, after, f1, "target");
      forall key | key in {"source", "target"}
        ensures Names(after, MigrateEdge(m, all, edge), key) == Names(after, JObject(f2), key)
      {
        NamesUntouched(after, f2, "id", v => MigrateEdgeId(m, all, v), key);
      }
    }
  }

  lemma GraphStaysAttached(m: IdMap, ids: seq<string>, after: seq<string>, graph: Json)
    requires Carries(m, ids, after) && Attached(ids, graph)
    ensures Attached(after, MigrateGraph(m, ids, graph))
  {
    hide Carries, Names, MigrateNode, MigrateEdge, Update;
    if graph.JObject? {
      var f1 := Update(graph.fields, "nodes", v => MapList(x => MigrateNode(m, x), v));
      UpdateGet(graph.fields, "nodes", v => MapList(x => MigrateNode(m, x), v), "nodes");
      UpdateGet(graph.fields, "nodes", v => MapList(x => MigrateNode(m, x), v), "edges");
      UpdateGet(f1, "edges", v => MapList(x => MigrateEdge(m, ids, x), v), "nodes");
      UpdateGet(f1, "edges", v => MapList(x => MigrateEdge(m, ids, x), v), "edges");
      var nodes, edges := ItemsOf(Get(graph.fields, "nodes")), ItemsOf(Get(graph.fields, "edges"));
      forall node <- nodes
        ensures Names(after, MigrateNode(m, node), "id") && Names(after, MigrateNode(m, node), "parentId")
      {
        NodeStaysAttached(m, ids, after, node);
      }
      forall edge <- edges
        ensures Names(after, MigrateEdge(m, ids, edge), "source") && Names(after, MigrateEdge(m, ids, edge), "target")
      {
        EdgeStaysAttached(m, ids, after, ids, edge);
      }
    }
  }

  /** The drawing names components only. */
  ghost predicate DrawingFits(dsl: Json) {
    Attached(Keys(ComponentsOf(dsl)), GraphIn(dsl))
  }

  function GraphIn(dsl: Json): Json {
    match Get(FieldsOf(Some(dsl)), "graph")
    case Some(g) => g
    case None => JNull
  }

  /** A drawing that fits its canvas fits the migrated canvas after the migration. */
  lemma DrawingStillFits(dsl: Json)
    requires ComponentFields(dsl).Some? && DrawingFits(dsl)
    ensures ComponentFields(Normalize(dsl)).Some? && DrawingFits(Normalize(dsl))
  {
    hide RewriteComponents, MigrateRest, MigrateGraph, IdMapOf, Mapped, Attached;
    var fields := ComponentsOf(dsl);
    var ids := Keys(fields);
    var m := IdMapOf(ids);
    var rewritten := RewriteComponents(m, fields, []);
    NormalizedHasComponents(dsl);
    GetPut(dsl.fields, "components", JObject(rewritten), "components");
    GetPut(dsl.fields, "components", JObject(rewritten), "graph");
    RestGet(m, ids, Put(dsl.fields, "components", JObject(rewritten)));
    forall id <- ids ensures Mapped(m, id) in Keys(rewritten) {
      ImagesAreKeys(m, fields, [], Mapped(m, id));
    }
    GraphStaysAttached(m, ids, Keys(rewritten), GraphIn(dsl));
    NoGraph(m, ids, Keys(rewritten));
  }

  lemma NoGraph(m: IdMap, ids: seq<string>, after: seq<string>)
    ensures Attached(after, JNull) && MigrateGraph(m, ids, JNull) == JNull
  {
  }

  // ---- references outside the components ----

  /** No reference among them names a component of the old document by a legacy id. */
  ghost predicate NoneLeftBehind(ids: seq<string>, refs: seq<Ref>) {
    forall r <- refs :: r.id !in ids || !IsLegacyId(r.id)
  }

  lemma MappedRefsAreCurrent(ids: seq<string>, refs: seq<Ref>)
    ensures NoneLeftBehind(ids, MapRefs(RenamingOf(ids), refs))
  {
    hide IsLegacyId, RenamedId;
    var mapped := MapRefs(RenamingOf(ids), refs);
    forall r <- mapped ensures r.id !in ids || !IsLegacyId(r.id) {
      var i :| 0 <= i < |mapped| && mapped[i] == r;
      RenameOnce(refs[i].id);
    }
  }

  lemma OtherTextsGet(m: IdMap, ids: seq<string>, fields: seq<Field>, key: string)
    requires key in {"history", "messages", "reference"}
    ensures Get(MigrateRest(m, ids, fields), key) == RewriteOption(m, Get(fields, key))
  {
    hide Update, MapList, MapId, MigrateGraph, RewriteValue;
    var f2 := Update(fields, "path", v => MapList(x => MapId(m, x), v));
    var f3 := Update(f2, "graph", v => MigrateGraph(m, ids, v));
    var f4 := Update(f3, "history", v => RewriteValue(m, v));
    var f5 := Update(f4, "messages", v => RewriteValue(m, v));
    UpdateGet(fields, "path", v => MapList(x => MapId(m, x), v), key);
    UpdateGet(f2, "graph", v => MigrateGraph(m, ids, v), key);
    UpdateGet(f3, "history", v => RewriteValue(m, v), key);
    UpdateGet(f4, "messages", v => RewriteValue(m, v), key);
    UpdateGet(f5, "reference", v => RewriteValue(m, v), key);
  }

  function OptionRefs(v: Option<Json>): seq<Ref> {
    if v.Some? then RefsIn(v.value) else []
  }

  lemma OptionRefsMapped(ids: seq<string>, v: Option<Json>)
    requires QuietIds(ids)
    ensures OptionRefs(RewriteOption(IdMapOf(ids), v)) == MapRefs(RenamingOf(ids), OptionRefs(v))
    ensures NoneLeftBehind(ids, OptionRefs(RewriteOption(IdMapOf(ids), v)))
  {
    hide RewriteValue, RefsIn, IdMapOf, RenamingOf;
    if v.Some? {
      RefsRewritten(ids, v.value);
    } else {
      NothingMapped(RenamingOf(ids));
    }
    MappedRefsAreCurrent(ids, OptionRefs(v));
  }

  lemma NothingMapped(f: Renaming)
    ensures MapRefs(f, []) == []
  {
  }

  /** History, messages and references of the document: every reference in them names the image of
      the component it named, and none a component by its legacy id. */
  lemma OtherTextsAreMigrated(dsl: Json, key: string)
    requires ComponentFields(dsl).Some? && QuietIds(Keys(ComponentsOf(dsl)))
    requires key in {"history", "messages", "reference"}
    ensures var ids := Keys(ComponentsOf(dsl));
      && Normalize(dsl).JObject?
      && OptionRefs(Get(Normalize(dsl).fields, key))
         == MapRefs(RenamingOf(ids), OptionRefs(Get(dsl.fields, key)))
      && NoneLeftBehind(ids, OptionRefs(Get(Normalize(dsl).fields, key)))
  {
    hide RewriteComponents, MigrateRest, IdMapOf, RenamingOf, QuietIds, OptionRefs, NoneLeftBehind, RewriteOption;
    var ids := Keys(ComponentsOf(dsl));
    var rewritten := JObject(RewriteComponents(IdMapOf(ids), ComponentsOf(dsl), []));
    GetPut(dsl.fields, "components", rewritten, key);
    OtherTextsGet(IdMapOf(ids), ids, Put(dsl.fields, "components", rewritten), key);
    OptionRefsMapped(ids, Get(dsl.fields, key));
  }

  function FormOf(node: Json): Option<Json> {
    Get(FieldsOf(Get(FieldsOf(Some(node)), "data")), "form")
  }

  lemma NodeForm(m: IdMap, node: Json)
    ensures FormOf(MigrateNode(m, node)) == RewriteOption(m, FormOf(node))
  {
    hide Update, MapId, RewriteValue, RenameName, RenameType;
    if node.JObject? {
      var f1 := Update(node.fields, "id", v => MapId(m, v));
      var f2 := Update(f1, "parentId", v => MapId(m, v));
      var f3 := Update(f2, "type", RenameType);
      UpdateGet(node.fields, "id", v => MapId(m, v), "data");
      UpdateGet(f1, "parentId", v => MapId(m, v), "data");
      UpdateGet(f2, "type", RenameType, "data");
      UpdateGet(f3, "data", v => MigrateData(m, v), "data");
      var data := Get(node.fields, "data");
      if data.Some? && data.value.JObject? {
        DataForm(m, data.value.fields);
      }
    }
  }

  lemma DataForm(m: IdMap, fields: seq<Field>)
    ensures MigrateData(m, JObject(fields)).JObject?
    ensures Get(MigrateData(m, JObject(fields)).fields, "form") == RewriteOption(m, Get(fields, "form"))
  {
    hide Update, RewriteValue, RenameName;
    var f1 := Update(fields, "label", RenameName);
    var f2 := Update(f1, "name", RenameName);
    UpdateGet(fields, "label", RenameName, "form");
    UpdateGet(f1, "name", RenameName, "form");
    UpdateGet(f2, "form", x => RewriteValue(m, x), "form");
  }

  /** The form a node shows refers to the same components as before, under their new ids. */
  lemma FormIsMigrated(ids: seq<string>, node: Json)
    requires QuietIds(ids)
    ensures var form := FormOf(MigrateNode(IdMapOf(ids), node));
      && OptionRefs(form) == MapRefs(RenamingOf(ids), OptionRefs(FormOf(node)))
      && NoneLeftBehind(ids, OptionRefs(form))
  {
    hide MigrateNode, IdMapOf, RenamingOf, OptionRefs, NoneLeftBehind, RewriteOption, FormOf;
    NodeForm(IdMapOf(ids), node);
    OptionRefsMapped(ids, FormOf(node));
  }

  // ---- bare references ----

  lemma {:induction false} KeysAreImages(m: IdMap, fields: seq<Field>, done: seq<Field>, id: string)
    requires id in Keys(RewriteComponents(m, fields, done))
    ensures id in Keys(done) || exists k <- Keys(fields) :: Mapped(m, k) == id
    decreases |fields|
  {
    hide Mapped, MigrateComponent;
    if fields != [] {
      var key, value := Mapped(m, fields[0].key), MigrateComponent(m, fields[0].value);
      PutKeys(done, key, value);
      assert Keys(fields) == [fields[0].key] + Keys(fields[1..]);
      assert fields[0].key in Keys(fields);
      KeysAreImages(m, fields[1..], Put(done, key, value), id);
    }
  }

  /** Some components read references without braces, `id@name`. Such a text is left as it is, so
      it names its component afterwards if and only if the id of that component is not legacy. */
  lemma BareReferenceSurvivesIff(fields: seq<Field>, id: string, name: string)
    requires id in Keys(fields) && NoBrace(id + "@" + name) && id + "@" + name !in Keys(fields)
    ensures var m := IdMapOf(Keys(fields));
      && RewriteText(m, id + "@" + name) == id + "@" + name
      && (id in Keys(RewriteComponents(m, fields, [])) <==> !IsLegacyId(id))
  {
    hide RenamedId, IsLegacyId, RewriteComponents;
    var ids := Keys(fields);
    var m := IdMapOf(ids);
    BraceKept(x => Mapped(m, x), id + "@" + name);
    RenameOnce(id);
    if id in Keys(RewriteComponents(m, fields, [])) {
      KeysAreImages(m, fields, [], id);
      var k :| k in ids && Mapped(m, k) == id;
      RenameOnce(k);
    }
    if !IsLegacyId(id) {
      ImagesAreKeys(m, fields, [], id);
    }
  }
}
