/** Field by field: what the migration does to each field of a document, a component, a node and an
    edge, and that it leaves every other field alone (agent/dsl_migration.py). */
module MigrationFields {
  import opened PyValues
  import opened Json
  import opened CanvasLoading
  import opened Migration
  import opened MigrationFixpoint
  import opened MigrationTexts
  import opened MigrationRuns
  import opened MigrationNames

  /** A text that is a component id is replaced by the new id; anything else is kept. */
  function NewId(ids: seq<string>, v: Json): Json {
    match v
    case JString(s) => if s in ids then JString(RenamedId(s)) else v
    case _ => v
  }

  function NewIds(ids: seq<string>, items: seq<Json>): (r: seq<Json>)
    ensures |r| == |items| && forall i :: 0 <= i < |r| ==> r[i] == NewId(ids, items[i])
  {
    seq(|items|, i requires 0 <= i < |items| => NewId(ids, items[i]))
  }

  function NewOption(ids: seq<string>, v: Option<Json>): Option<Json> {
    if v.Some? then Some(NewId(ids, v.value)) else None
  }

  /** A list has its ids replaced; anything else is kept. */
  function NewLinks(ids: seq<string>, v: Option<Json>): Option<Json> {
    if v.Some? && v.value.JArray? then Some(JArray(NewIds(ids, v.value.items))) else v
  }

  lemma MapIdIs(ids: seq<string>, v: Json)
    ensures MapId(IdMapOf(ids), v) == NewId(ids, v)
    ensures MapList(x => MapId(IdMapOf(ids), x), v) == if v.JArray? then JArray(NewIds(ids, v.items)) else v
  {
    hide RenamedId;
    forall x ensures MapId(IdMapOf(ids), x) == NewId(ids, x) {
    }
    if v.JArray? {
      hide MapId, NewId, IdMapOf;
      assert MapItems(x => MapId(IdMapOf(ids), x), v.items) == NewIds(ids, v.items);
    }
  }

  // ---- the document ----

  /** The components, the saved path, the drawing and three kinds of texts are rewritten; no other
      field of the document changes. */
  lemma DocumentFields(dsl: Json, key: string)
    requires ComponentFields(dsl).Some?
    ensures Normalize(dsl).JObject?
    ensures var ids := Keys(ComponentsOf(dsl));
      var m := IdMapOf(ids);
      var before, after := Get(dsl.fields, key), Get(Normalize(dsl).fields, key);
      match key
      case "components" => after == Some(JObject(RewriteComponents(m, ComponentsOf(dsl), [])))
      case "path" => after == Applied(v => MapList(x => MapId(m, x), v), before)
      case "graph" => after == Applied(v => MigrateGraph(m, ids, v), before)
      case "history" => after == RewriteOption(m, before)
      case "messages" => after == RewriteOption(m, before)
      case "reference" => after == RewriteOption(m, before)
      case _ => after == before
  {
    var ids := Keys(ComponentsOf(dsl));
    var m := IdMapOf(ids);
    var rewritten := JObject(RewriteComponents(m, ComponentsOf(dsl), []));
    var f1 := Put(dsl.fields, "components", rewritten);
    GetPut(dsl.fields, "components", rewritten, key);
    hide Update, MapList, MapId, MigrateGraph, RewriteValue, RewriteComponents, IdMapOf;
    RestFields(m, ids, f1, key);
    KeysDiffer();
  }

  lemma KeysDiffer()
    ensures "components" !in {"path", "graph", "history", "messages", "reference"}
    ensures "path" !in {"graph", "history", "messages", "reference"} && "graph" !in {"history", "messages", "reference"}
    ensures "history" !in {"messages", "reference"} && "messages" != "reference"
  {
    assert "components"[0] == 'c' && "path"[0] == 'p' && "graph"[0] == 'g' && "history"[0] == 'h';
    assert "messages"[0] == 'm' && "reference"[0] == 'r';
  }

  lemma RestFields(m: IdMap, ids: seq<string>, fields: seq<Field>, key: string)
    ensures Get(MigrateRest(m, ids, fields), key) ==
      if key == "path" then Applied(v => MapList(x => MapId(m, x), v), Get(fields, key))
      else if key == "graph" then Applied(v => MigrateGraph(m, ids, v), Get(fields, key))
      else if key == "history" || key == "messages" || key == "reference" then RewriteOption(m, Get(fields, key))
      else Get(fields, key)
  {
    hide Update, MapList, MapId, MigrateGraph, RewriteValue;
    KeysDiffer();
    var f2 := Update(fields, "path", v => MapList(x => MapId(m, x), v));
    var f3 := Update(f2, "graph", v => MigrateGraph(m, ids, v));
    var f4 := Update(f3, "history", v => RewriteValue(m, v));
    var f5 := Update(f4, "messages", v => RewriteValue(m, v));
    UpdateGet(fields, "path", v => MapList(x => MapId(m, x), v), key);
    UpdateGet(f2, "graph", v => MigrateGraph(m, ids, v), key);
    UpdateGet(f3, "history", v => RewriteValue(m, v), key);
    UpdateGet(f4, "messages", v => RewriteValue(m, v), key);
    UpdateGet(f5, "reference", v => RewriteValue(m, v), key);
  }

  // ---- a component ----

  /** Beyond the references in its texts, a component changes in its object's name, its neighbours
      and its parent only. */
  lemma ComponentFieldsMigrated(ids: seq<string>, fields: seq<Field>, key: string)
    ensures MigrateComponent(IdMapOf(ids), JObject(fields)).JObject?
    ensures var m := IdMapOf(ids);
      var before, after := RewriteOption(m, Get(fields, key)), Get(MigrateComponent(m, JObject(fields)).fields, key);
      match key
      case "obj" => after == Applied(MigrateObj, before)
      case "downstream" => after == NewLinks(ids, before)
      case "upstream" => after == NewLinks(ids, before)
      case "parent_id" => after == NewOption(ids, before)
      case _ => after == before
  {
    var m := IdMapOf(ids);
    var f0 := RewriteFields(m, fields);
    assert RewriteValue(m, JObject(fields)) == JObject(f0);
    hide RewriteValue, RewriteFields, MigrateObj, MapId, MapList, Update, Applied, IdMapOf, NewId;
    ComponentGet(m, fields);
    GetRewritten(m, fields, key);
    if key !in {"obj", "downstream", "upstream", "parent_id"} {
      OtherComponentField(m, f0, key);
    }
    var before := RewriteOption(m, Get(fields, key));
    if before.Some? {
      MapIdIs(ids, before.value);
    }
    AppliedIs(v => MapList(x => MapId(m, x), v), before);
    AppliedIs(v => MapId(m, v), before);
  }

  lemma AppliedIs(g: Json -> Json, v: Option<Json>)
    ensures Applied(g, v) == if v.Some? then Some(g(v.value)) else None
  {
  }

  lemma OtherComponentField(m: IdMap, f0: seq<Field>, key: string)
    requires key !in {"obj", "downstream", "upstream", "parent_id"}
    ensures Get(Update(Update(Update(Update(f0, "obj", MigrateObj), "downstream", v => MapList(x => MapId(m, x), v)),
                              "upstream", v => MapList(x => MapId(m, x), v)), "parent_id", v => MapId(m, v)), key)
         == Get(f0, key)
  {
    hide Update, MapList, MapId, MigrateObj;
    var f1 := Update(f0, "obj", MigrateObj);
    var f2 := Update(f1, "downstream", v => MapList(x => MapId(m, x), v));
    var f3 := Update(f2, "upstream", v => MapList(x => MapId(m, x), v));
    UpdateGet(f0, "obj", MigrateObj, key);
    UpdateGet(f1, "downstream", v => MapList(x => MapId(m, x), v), key);
    UpdateGet(f2, "upstream", v => MapList(x => MapId(m, x), v), key);
    UpdateGet(f3, "parent_id", v => MapId(m, v), key);
  }

  /** In its object the name is renamed, or null when there was none. */
  lemma ObjFields(fields: seq<Field>, key: string)
    ensures MigrateObj(JObject(fields)).JObject?
    ensures var before, after := Get(fields, key), Get(MigrateObj(JObject(fields)).fields, key);
      if key == "component_name" then
        match before
        case None => after == Some(JNull)
        case Some(JString(s)) => after == Some(JString(NewName(s)))
        case Some(v) => after == Some(v)
      else after == before
  {
    hide NewName;
    var name := Get(fields, "component_name");
    GetPut(fields, "component_name", if name.Some? then RenameName(name.value) else JNull, key);
  }

  // ---- the drawing ----

  lemma GraphFields(m: IdMap, ids: seq<string>, fields: seq<Field>, key: string)
    ensures var before, after := Get(fields, key), Get(MigrateGraph(m, ids, JObject(fields)).fields, key);
      if key == "nodes" then after == Applied(v => MapList(x => MigrateNode(m, x), v), before)
      else if key == "edges" then after == Applied(v => MapList(x => MigrateEdge(m, ids, x), v), before)
      else after == before
  {
    hide Update, MigrateNode, MigrateEdge, MapList;
    assert "nodes"[0] != "edges"[0];
    var f1 := Update(fields, "nodes", v => MapList(x => MigrateNode(m, x), v));
    UpdateGet(fields, "nodes", v => MapList(x => MigrateNode(m, x), v), key);
    UpdateGet(f1, "edges", v => MapList(x => MigrateEdge(m, ids, x), v), key);
  }

  /** A node keeps everything but its ids, its type and what its data says. */
  lemma NodeFields(ids: seq<string>, fields: seq<Field>, key: string)
    ensures var m := IdMapOf(ids);
      var before, after := Get(fields, key), Get(MigrateNode(m, JObject(fields)).fields, key);
      match key
      case "id" => after == NewOption(ids, before)
      case "parentId" => after == NewOption(ids, before)
      case "type" =>
        after == if before.Some? && before.value.JString? then Some(JString(NewType(before.value.s))) else before
      case "data" => after == Applied(v => MigrateData(m, v), before)
      case _ => after == before
  {
    hide Update, MapId, MigrateData, NewType, IdMapOf, NewId;
    var m := IdMapOf(ids);
    assert "id"[0] == 'i' && "parentId"[0] == 'p' && "type"[0] == 't' && "data"[0] == 'd';
    var f1 := Update(fields, "id", v => MapId(m, v));
    var f2 := Update(f1, "parentId", v => MapId(m, v));
    var f3 := Update(f2, "type", RenameType);
    UpdateGet(fields, "id", v => MapId(m, v), key);
    UpdateGet(f1, "parentId", v => MapId(m, v), key);
    UpdateGet(f2, "type", RenameType, key);
    UpdateGet(f3, "data", v => MigrateData(m, v), key);
    if Get(fields, key).Some? {
      MapIdIs(ids, Get(fields, key).value);
    }
  }

  /** Its data keeps everything but the label, the name and the references in the form. */
  lemma DataFields(m: IdMap, fields: seq<Field>, key: string)
    ensures var before, after := Get(fields, key), Get(MigrateData(m, JObject(fields)).fields, key);
      match key
      case "label" =>
        after == if before.Some? && before.value.JString? then Some(JString(NewName(before.value.s))) else before
      case "name" =>
        after == if before.Some? && before.value.JString? then Some(JString(NewName(before.value.s))) else before
      case "form" => after == RewriteOption(m, before)
      case _ => after == before
  {
    hide Update, NewName, RewriteValue;
    assert "label"[0] == 'l' && "name"[0] == 'n' && "form"[0] == 'f';
    var f1 := Update(fields, "label", RenameName);
    var f2 := Update(f1, "name", RenameName);
    UpdateGet(fields, "label", RenameName, key);
    UpdateGet(f1, "name", RenameName, key);
    UpdateGet(f2, "form", x => RewriteValue(m, x), key);
  }

  /** An edge keeps everything but its ends and its id. */
  lemma EdgeFields(ids: seq<string>, all: seq<string>, fields: seq<Field>, key: string)
    ensures var m := IdMapOf(ids);
      var before, after := Get(fields, key), Get(MigrateEdge(m, all, JObject(fields)).fields, key);
      match key
      case "source" => after == NewOption(ids, before)
      case "target" => after == NewOption(ids, before)
      case "id" => after == Applied(v => MigrateEdgeId(m, all, v), before)
      case _ => after == before
  {
    hide Update, MapId, MigrateEdgeId, IdMapOf, NewId;
    var m := IdMapOf(ids);
    assert "source"[0] == 's' && "target"[0] == 't' && "id"[0] == 'i';
    var f1 := Update(fields, "source", v => MapId(m, v));
    var f2 := Update(f1, "target", v => MapId(m, v));
    UpdateGet(fields, "source", v => MapId(m, v), key);
    UpdateGet(f1, "target", v => MapId(m, v), key);
    UpdateGet(f2, "id", v => MigrateEdgeId(m, all, v), key);
    if Get(fields, key).Some? {
      MapIdIs(ids, Get(fields, key).value);
    }
  }

  // ---- labels ----

  /** The label of a node whose id carries it. */
  ghost predicate NodeCarriesLabel(node: Json, name: string, rest: string) {
    && NoColon(name) && node.JObject?
    && Get(node.fields, "id") == Some(JString(name + ":" + rest))
    && Get(FieldsOf(Get(node.fields, "data")), "label") == Some(JString(name))
  }

  /** A node of a component whose id carries its label still does afterwards. */
  lemma NodeKeepsLabel(ids: seq<string>, node: Json, name: string, rest: string)
    requires NodeCarriesLabel(node, name, rest) && name + ":" + rest in ids
    ensures NodeCarriesLabel(MigrateNode(IdMapOf(ids), node), NewName(name), rest)
  {
    IdsCarryNames(name, rest);
    hide RenamedId, NewName, IdMapOf, MigrateNode, MigrateData;
    NodeFields(ids, node.fields, "id");
    NodeFields(ids, node.fields, "data");
    var data := Get(node.fields, "data").value;
    DataFields(IdMapOf(ids), data.fields, "label");
    NodeIsObject(IdMapOf(ids), node);
    DataIsObject(IdMapOf(ids), data);
  }

  lemma NodeIsObject(m: IdMap, node: Json)
    ensures MigrateNode(m, node).JObject? <==> node.JObject?
  {
  }

  lemma DataIsObject(m: IdMap, data: Json)
    ensures MigrateData(m, data).JObject? <==> data.JObject?
  {
  }
}
