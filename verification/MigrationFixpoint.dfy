/** One pass is enough: what the migration produces is current, and exactly the current
    documents are the ones it leaves alone. */
module MigrationFixpoint {
  import opened PyValues
  import opened Json
  import opened Text
  import opened References
  import opened Migration

  // ---- the rename rules ----

  lemma RenameOnce(id: string)
    ensures !IsLegacyId(RenamedId(id))
    ensures !IsLegacyId(id) ==> RenamedId(id) == id
    ensures RenamedId(RenamedId(id)) == RenamedId(id)
    ensures IsLegacyId(id) ==> RenamedId(id) != id
  {
    var r := RenamedId(id);
    if IsLegacyId(id) {
      assert r[0] == 'T' || r[0] == 'D';
      if StartsWith(id, "HierarchicalMerger:") {
        assert r[1] == 'i';
      }
    }
    assert "Splitter:"[0] == 'S' && "HierarchicalMerger:"[0] == 'H' && "PDFGenerator:"[0] == 'P';
  }

  /** The ids of the document are none of the legacy ones, so the map is the identity. */
  ghost predicate IsIdentity(m: IdMap) {
    forall id :: Mapped(m, id) == id
  }

  lemma CurrentIdsMapToThemselves(ids: seq<string>)
    requires forall id <- ids :: !IsLegacyId(id)
    ensures IsIdentity(IdMapOf(ids))
  {
    hide RenamedId, IsLegacyId;
    forall id ensures Mapped(IdMapOf(ids), id) == id {
      RenameOnce(id);
    }
  }

  /** Applying the map of one pass twice is applying it once. */
  lemma MapTwice(ids: seq<string>, id: string)
    ensures var m := IdMapOf(ids); Mapped(m, Mapped(m, id)) == Mapped(m, id)
  {
    hide RenamedId, IsLegacyId;
    RenameOnce(id);
  }

  // ---- what "current" means ----

  predicate CurrentName(v: Json) {
    v.JString? ==> NewName(v.s) == v.s
  }

  predicate CurrentType(v: Json) {
    v.JString? ==> NewType(v.s) == v.s
  }

  /** `key` is absent or its value is fine. */
  predicate Fine(fields: seq<Field>, key: string, p: Json -> bool) {
    Get(fields, key).Some? ==> p(Get(fields, key).value)
  }

  predicate CurrentObj(v: Json) {
    v.JObject? ==>
      Get(v.fields, "component_name").Some? && CurrentName(Get(v.fields, "component_name").value)
  }

  predicate CurrentComponent(c: Json) {
    c.JObject? ==> Fine(c.fields, "obj", CurrentObj)
  }

  ghost predicate CurrentComponents(fields: seq<Field>) {
    && UniqueKeys(fields)
    && forall i | 0 <= i < |fields| :: !IsLegacyId(fields[i].key) && CurrentComponent(fields[i].value)
  }

  predicate CurrentData(v: Json) {
    v.JObject? ==> Fine(v.fields, "label", CurrentName) && Fine(v.fields, "name", CurrentName)
  }

  predicate CurrentNode(v: Json) {
    v.JObject? ==> Fine(v.fields, "type", CurrentType) && Fine(v.fields, "data", CurrentData)
  }

  ghost predicate CurrentNodes(v: Json) {
    v.JArray? ==> forall x <- v.items :: CurrentNode(x)
  }

  ghost predicate CurrentGraph(v: Json) {
    v.JObject? ==> Get(v.fields, "nodes").Some? ==> CurrentNodes(Get(v.fields, "nodes").value)
  }

  /** No legacy component id, no legacy component name, label or node type, and every component
      object carries a name. Documents without components are left alone anyway. */
  ghost predicate Current(dsl: Json) {
    match ComponentFields(dsl)
    case None => true
    case Some(fields) =>
      && CurrentComponents(fields)
      && (Get(dsl.fields, "graph").Some? ==> CurrentGraph(Get(dsl.fields, "graph").value))
  }

  // ---- current documents are left alone ----

  lemma UpdateNothing(fields: seq<Field>, key: string, g: Json -> Json)
    requires Get(fields, key).Some? ==> g(Get(fields, key).value) == Get(fields, key).value
    ensures Update(fields, key, g) == fields
  {
    if Get(fields, key).Some? {
      PutBack(fields, key);
    }
  }

  lemma {:induction false} RewriteNothing(m: IdMap, v: Json)
    requires IsIdentity(m)
    ensures RewriteValue(m, v) == v
    decreases v
  {
    match v
    case JString(s) =>
      assert Mapped(m, s) == s;
      SubNothing(id => Mapped(m, id), s);
    case JArray(items) =>
      forall i | 0 <= i < |items| ensures RewriteValue(m, items[i]) == items[i] {
        RewriteNothing(m, items[i]);
      }
      assert RewriteValue(m, v).items == items;
    case JObject(fields) =>
      forall i | 0 <= i < |fields| ensures RewriteValue(m, fields[i].value) == fields[i].value {
        RewriteNothing(m, fields[i].value);
      }
      assert RewriteValue(m, v).fields == fields;
    case _ =>
  }

  lemma MapListNothing(g: Json -> Json, v: Json)
    requires v.JArray? ==> forall x <- v.items :: g(x) == x
    ensures MapList(g, v) == v
  {
    if v.JArray? {
      assert MapItems(g, v.items) == v.items;
    }
  }

  lemma MapIdNothing(m: IdMap, v: Json)
    requires IsIdentity(m)
    ensures MapId(m, v) == v
    ensures MapList(x => MapId(m, x), v) == v
  {
    hide Mapped;
    if v.JArray? {
      forall x <- v.items ensures MapId(m, x) == x {
        assert x.JString? ==> Mapped(m, x.s) == x.s;
      }
      MapListNothing(x => MapId(m, x), v);
    }
    assert v.JString? ==> Mapped(m, v.s) == v.s;
  }

  lemma ComponentNothing(m: IdMap, c: Json)
    requires IsIdentity(m) && CurrentComponent(c)
    ensures MigrateComponent(m, c) == c
  {
    hide IsIdentity, RewriteValue, MapId, MapList;
    RewriteNothing(m, c);
    if c.JObject? {
      var fs := c.fields;
      var obj := Get(fs, "obj");
      if obj.Some? && obj.value.JObject? {
        PutBack(obj.value.fields, "component_name");
      }
      UpdateNothing(fs, "obj", MigrateObj);
      if Get(fs, "downstream").Some? { MapIdNothing(m, Get(fs, "downstream").value); }
      UpdateNothing(fs, "downstream", v => MapList(x => MapId(m, x), v));
      if Get(fs, "upstream").Some? { MapIdNothing(m, Get(fs, "upstream").value); }
      UpdateNothing(fs, "upstream", v => MapList(x => MapId(m, x), v));
      if Get(fs, "parent_id").Some? { MapIdNothing(m, Get(fs, "parent_id").value); }
      UpdateNothing(fs, "parent_id", v => MapId(m, v));
    }
  }

  lemma UniqueIsNew(done: seq<Field>, fields: seq<Field>)
    requires fields != [] && UniqueKeys(done + fields)
    ensures fields[0].key !in Keys(done)
  {
    var all := done + fields;
    forall i | 0 <= i < |done| ensures Keys(done)[i] != fields[0].key {
      assert all[i] == done[i] && all[|done|] == fields[0];
    }
  }

  lemma {:induction false} ComponentsNothing(m: IdMap, fields: seq<Field>, done: seq<Field>)
    requires IsIdentity(m) && CurrentComponents(done + fields)
    ensures RewriteComponents(m, fields, done) == done + fields
    decreases |fields|
  {
    hide MigrateComponent, CurrentComponent, IsLegacyId, Mapped;
    if fields != [] {
      var all := done + fields;
      assert all[|done|] == fields[0];
      ComponentNothing(m, fields[0].value);
      assert Mapped(m, fields[0].key) == fields[0].key;
      UniqueIsNew(done, fields);
      PutNew(done, fields[0].key, fields[0].value);
      assert done + [fields[0]] + fields[1..] == all;
      ComponentsNothing(m, fields[1..], done + [fields[0]]);
    }
  }

  lemma NodeNothing(m: IdMap, node: Json)
    requires IsIdentity(m) && CurrentNode(node)
    ensures MigrateNode(m, node) == node
  {
    hide IsIdentity, MapId;
    if node.JObject? {
      var fs := node.fields;
      if Get(fs, "id").Some? { MapIdNothing(m, Get(fs, "id").value); }
      UpdateNothing(fs, "id", v => MapId(m, v));
      if Get(fs, "parentId").Some? { MapIdNothing(m, Get(fs, "parentId").value); }
      UpdateNothing(fs, "parentId", v => MapId(m, v));
      UpdateNothing(fs, "type", RenameType);
      if Get(fs, "data").Some? { DataNothing(m, Get(fs, "data").value); }
      UpdateNothing(fs, "data", v => MigrateData(m, v));
    }
  }

  lemma DataNothing(m: IdMap, v: Json)
    requires IsIdentity(m) && CurrentData(v)
    ensures MigrateData(m, v) == v
  {
    hide IsIdentity, RewriteValue;
    if v.JObject? {
      var fs := v.fields;
      UpdateNothing(fs, "label", RenameName);
      UpdateNothing(fs, "name", RenameName);
      if Get(fs, "form").Some? { RewriteNothing(m, Get(fs, "form").value); }
      UpdateNothing(fs, "form", x => RewriteValue(m, x));
    }
  }

  lemma {:induction false} ReplaceNothing(s: string, id: string)
    ensures ReplaceAll(s, id, id) == s
    decreases |s|
  {
    if s != "" && id != "" {
      if OccursAt(id, s, 0) {
        ReplaceNothing(s[|id|..], id);
        assert s == s[..|id|] + s[|id|..];
      } else {
        ReplaceNothing(s[1..], id);
        assert s == [s[0]] + s[1..];
      }
    }
  }

  lemma {:induction false} ReplaceIdsNothing(m: IdMap, ids: seq<string>, edgeId: string)
    requires IsIdentity(m)
    ensures ReplaceIds(m, ids, edgeId) == edgeId
    decreases |ids|
  {
    hide Mapped;
    if ids != [] {
      assert Mapped(m, ids[0]) == ids[0];
      ReplaceNothing(edgeId, ids[0]);
      ReplaceIdsNothing(m, ids[1..], edgeId);
    }
  }

  lemma EdgeNothing(m: IdMap, ids: seq<string>, edge: Json)
    requires IsIdentity(m)
    ensures MigrateEdge(m, ids, edge) == edge
  {
    hide IsIdentity, MapId, ReplaceIds, LongestFirst;
    if edge.JObject? {
      var fs := edge.fields;
      if Get(fs, "source").Some? { MapIdNothing(m, Get(fs, "source").value); }
      UpdateNothing(fs, "source", v => MapId(m, v));
      if Get(fs, "target").Some? { MapIdNothing(m, Get(fs, "target").value); }
      UpdateNothing(fs, "target", v => MapId(m, v));
      var id := Get(fs, "id");
      if id.Some? && id.value.JString? {
        ReplaceIdsNothing(m, LongestFirst(ids), id.value.s);
      }
      UpdateNothing(fs, "id", v => MigrateEdgeId(m, ids, v));
    }
  }

  lemma GraphNothing(m: IdMap, ids: seq<string>, graph: Json)
    requires IsIdentity(m) && CurrentGraph(graph)
    ensures MigrateGraph(m, ids, graph) == graph
  {
    hide IsIdentity, MigrateNode, MigrateEdge, CurrentNode;
    if graph.JObject? {
      var fs := graph.fields;
      var nodes, edges := Get(fs, "nodes"), Get(fs, "edges");
      if nodes.Some? {
        if nodes.value.JArray? {
          forall x <- nodes.value.items ensures MigrateNode(m, x) == x {
            NodeNothing(m, x);
          }
        }
        MapListNothing(x => MigrateNode(m, x), nodes.value);
      }
      UpdateNothing(fs, "nodes", v => MapList(x => MigrateNode(m, x), v));
      if edges.Some? {
        if edges.value.JArray? {
          forall x <- edges.value.items ensures MigrateEdge(m, ids, x) == x {
            EdgeNothing(m, ids, x);
          }
        }
        MapListNothing(x => MigrateEdge(m, ids, x), edges.value);
      }
      UpdateNothing(fs, "edges", v => MapList(x => MigrateEdge(m, ids, x), v));
    }
  }

  lemma RestNothing(m: IdMap, ids: seq<string>, fs: seq<Field>)
    requires IsIdentity(m)
    requires Get(fs, "graph").Some? ==> CurrentGraph(Get(fs, "graph").value)
    ensures MigrateRest(m, ids, fs) == fs
  {
    hide IsIdentity, MapList, MapId, MigrateGraph, RewriteValue, CurrentGraph;
    if Get(fs, "path").Some? { MapIdNothing(m, Get(fs, "path").value); }
    UpdateNothing(fs, "path", v => MapList(x => MapId(m, x), v));
    if Get(fs, "graph").Some? { GraphNothing(m, ids, Get(fs, "graph").value); }
    UpdateNothing(fs, "graph", v => MigrateGraph(m, ids, v));
    if Get(fs, "history").Some? { RewriteNothing(m, Get(fs, "history").value); }
    UpdateNothing(fs, "history", v => RewriteValue(m, v));
    if Get(fs, "messages").Some? { RewriteNothing(m, Get(fs, "messages").value); }
    UpdateNothing(fs, "messages", v => RewriteValue(m, v));
    if Get(fs, "reference").Some? { RewriteNothing(m, Get(fs, "reference").value); }
    UpdateNothing(fs, "reference", v => RewriteValue(m, v));
  }

  lemma KeysAreCurrent(fields: seq<Field>)
    requires CurrentComponents(fields)
    ensures IsIdentity(IdMapOf(Keys(fields)))
  {
    hide IsLegacyId, CurrentComponent;
    forall id <- Keys(fields) ensures !IsLegacyId(id) {
      var i :| 0 <= i < |fields| && Keys(fields)[i] == id;
      assert fields[i].key == id;
    }
    CurrentIdsMapToThemselves(Keys(fields));
  }

  lemma CurrentIsLeftAlone(dsl: Json)
    requires Current(dsl)
    ensures Normalize(dsl) == dsl
  {
    hide IsIdentity, RewriteComponents, CurrentComponents, CurrentGraph, MigrateRest, IdMapOf;
    if ComponentFields(dsl).Some? {
      var components := ComponentFields(dsl).value;
      var ids := Keys(components);
      KeysAreCurrent(components);
      assert [] + components == components;
      ComponentsNothing(IdMapOf(ids), components, []);
      PutBack(dsl.fields, "components");
      RestNothing(IdMapOf(ids), ids, dsl.fields);
    }
  }

  // ---- the result of a pass is current ----

  lemma NamesAreNew(v: Json)
    ensures CurrentName(RenameName(v)) && CurrentType(RenameType(v))
  {
  }

  lemma UpdateGet(fields: seq<Field>, key: string, g: Json -> Json, other: string)
    ensures Get(Update(fields, key, g), other)
         == if other == key && Get(fields, key).Some? then Some(g(Get(fields, key).value)) else Get(fields, other)
  {
    if Get(fields, key).Some? {
      GetPut(fields, key, g(Get(fields, key).value), other);
    }
  }

  lemma ObjBecomesCurrent(v: Json)
    ensures CurrentObj(MigrateObj(v))
  {
    if v.JObject? {
      var name := Get(v.fields, "component_name");
      var value := if name.Some? then RenameName(name.value) else JNull;
      if name.Some? {
        NamesAreNew(name.value);
      }
      GetPut(v.fields, "component_name", value, "component_name");
    }
  }

  lemma ComponentBecomesCurrent(m: IdMap, c: Json)
    ensures CurrentComponent(MigrateComponent(m, c))
  {
    hide RewriteValue, MigrateObj, Update, MapList, MapId, CurrentObj;
    var c1 := RewriteValue(m, c);
    if c1.JObject? {
      var f1 := Update(c1.fields, "obj", MigrateObj);
      var f2 := Update(f1, "downstream", v => MapList(x => MapId(m, x), v));
      var f3 := Update(f2, "upstream", v => MapList(x => MapId(m, x), v));
      UpdateGet(c1.fields, "obj", MigrateObj, "obj");
      UpdateGet(f1, "downstream", v => MapList(x => MapId(m, x), v), "obj");
      UpdateGet(f2, "upstream", v => MapList(x => MapId(m, x), v), "obj");
      UpdateGet(f3, "parent_id", v => MapId(m, v), "obj");
      if Get(c1.fields, "obj").Some? {
        ObjBecomesCurrent(Get(c1.fields, "obj").value);
      }
    }
  }

  lemma {:induction false} ComponentsBecomeCurrent(ids: seq<string>, fields: seq<Field>, done: seq<Field>)
    requires CurrentComponents(done) && forall i | 0 <= i < |fields| :: fields[i].key in ids
    ensures CurrentComponents(RewriteComponents(IdMapOf(ids), fields, done))
    decreases |fields|
  {
    hide MigrateComponent, CurrentComponent, IsLegacyId, RenamedId;
    if fields != [] {
      var m := IdMapOf(ids);
      var key, value := Mapped(m, fields[0].key), MigrateComponent(m, fields[0].value);
      assert fields[0].key in ids;
      assert key == RenamedId(fields[0].key);
      RenameOnce(fields[0].key);
      ComponentBecomesCurrent(m, fields[0].value);
      PutKeepsUnique(done, key, value);
      PutKeepsCurrent(done, key, value);
      forall i | 0 <= i < |fields| - 1 ensures fields[1..][i].key in ids {
        assert fields[1..][i] == fields[i + 1];
      }
      assert CurrentComponents(Put(done, key, value));
      ComponentsBecomeCurrent(ids, fields[1..], Put(done, key, value));
    }
  }

  lemma {:induction false} PutKeepsCurrent(fields: seq<Field>, key: string, value: Json)
    requires forall i | 0 <= i < |fields| :: !IsLegacyId(fields[i].key) && CurrentComponent(fields[i].value)
    requires !IsLegacyId(key) && CurrentComponent(value)
    ensures var r := Put(fields, key, value);
      forall i | 0 <= i < |r| :: !IsLegacyId(r[i].key) && CurrentComponent(r[i].value)
    decreases |fields|
  {
    hide IsLegacyId, CurrentComponent;
    var r := Put(fields, key, value);
    if fields != [] {
      var rest := fields[1..];
      PutKeepsCurrent(rest, key, value);
      forall i | 0 <= i < |r| ensures !IsLegacyId(r[i].key) && CurrentComponent(r[i].value) {
        if fields[0].key == key {
          assert r == [Field(key, value)] + rest;
          assert i > 0 ==> r[i] == fields[i];
        } else {
          assert r == [fields[0]] + Put(rest, key, value);
          assert i > 0 ==> r[i] == Put(rest, key, value)[i - 1];
        }
      }
    }
  }

  lemma DataBecomesCurrent(m: IdMap, v: Json)
    ensures CurrentData(MigrateData(m, v))
  {
    hide RewriteValue, RenameName, Update;
    if v.JObject? {
      var f1 := Update(v.fields, "label", RenameName);
      var f2 := Update(f1, "name", RenameName);
      var g := (x: Json) => RewriteValue(m, x);
      UpdateGet(v.fields, "label", RenameName, "label");
      UpdateGet(v.fields, "label", RenameName, "name");
      UpdateGet(f1, "name", RenameName, "label");
      UpdateGet(f1, "name", RenameName, "name");
      UpdateGet(f2, "form", g, "label");
      UpdateGet(f2, "form", g, "name");
      if Get(v.fields, "label").Some? { NamesAreNew(Get(v.fields, "label").value); }
      if Get(v.fields, "name").Some? { NamesAreNew(Get(v.fields, "name").value); }
      assert MigrateData(m, v).fields == Update(f2, "form", x => RewriteValue(m, x));
      UpdateGet(f2, "form", x => RewriteValue(m, x), "label");
      UpdateGet(f2, "form", x => RewriteValue(m, x), "name");
    }
  }

  lemma NodeBecomesCurrent(m: IdMap, v: Json)
    ensures CurrentNode(MigrateNode(m, v))
  {
    hide RenameType, MigrateData, MapId, Update, CurrentData, CurrentType;
    if v.JObject? {
      var f1 := Update(v.fields, "id", x => MapId(m, x));
      var f2 := Update(f1, "parentId", x => MapId(m, x));
      var f3 := Update(f2, "type", RenameType);
      UpdateGet(f2, "type", RenameType, "type");
      UpdateGet(f3, "data", x => MigrateData(m, x), "type");
      UpdateGet(f3, "data", x => MigrateData(m, x), "data");
      if Get(f2, "type").Some? { NamesAreNew(Get(f2, "type").value); }
      if Get(f3, "data").Some? { DataBecomesCurrent(m, Get(f3, "data").value); }
    }
  }

  lemma GraphBecomesCurrent(m: IdMap, ids: seq<string>, v: Json)
    ensures CurrentGraph(MigrateGraph(m, ids, v))
  {
    hide MigrateNode, MigrateEdge, Update, CurrentNode;
    if v.JObject? {
      var f1 := Update(v.fields, "nodes", x => MapList(y => MigrateNode(m, y), x));
      UpdateGet(v.fields, "nodes", x => MapList(y => MigrateNode(m, y), x), "nodes");
      UpdateGet(f1, "edges", x => MapList(y => MigrateEdge(m, ids, y), x), "nodes");
      var nodes := Get(v.fields, "nodes");
      if nodes.Some? && nodes.value.JArray? {
        var items := MapItems(y => MigrateNode(m, y), nodes.value.items);
        forall x <- items ensures CurrentNode(x) {
          var i :| 0 <= i < |items| && items[i] == x;
          NodeBecomesCurrent(m, nodes.value.items[i]);
        }
      }
    }
  }

  /** The updates besides the components touch the graph, and the components not at all. */
  lemma RestGet(m: IdMap, ids: seq<string>, fields: seq<Field>)
    ensures Get(MigrateRest(m, ids, fields), "components") == Get(fields, "components")
    ensures Get(MigrateRest(m, ids, fields), "graph")
         == if Get(fields, "graph").Some? then Some(MigrateGraph(m, ids, Get(fields, "graph").value)) else None
    ensures Get(MigrateRest(m, ids, fields), "path")
         == if Get(fields, "path").Some? then Some(MapList(x => MapId(m, x), Get(fields, "path").value)) else None
  {
    hide Update, MapList, MapId, MigrateGraph, RewriteValue;
    var f2 := Update(fields, "path", v => MapList(x => MapId(m, x), v));
    var f3 := Update(f2, "graph", v => MigrateGraph(m, ids, v));
    var f4 := Update(f3, "history", v => RewriteValue(m, v));
    var f5 := Update(f4, "messages", v => RewriteValue(m, v));
    forall key | key in {"components", "graph", "path"}
      ensures Get(MigrateRest(m, ids, fields), key) == Get(f3, key)
    {
      UpdateGet(f3, "history", v => RewriteValue(m, v), key);
      UpdateGet(f4, "messages", v => RewriteValue(m, v), key);
      UpdateGet(f5, "reference", v => RewriteValue(m, v), key);
    }
    forall key | key in {"components", "graph", "path"}
      ensures Get(f3, key) == if key == "graph" && Get(f2, "graph").Some?
                              then Some(MigrateGraph(m, ids, Get(f2, "graph").value)) else Get(f2, key)
    {
      UpdateGet(f2, "graph", v => MigrateGraph(m, ids, v), key);
    }
    forall key | key in {"components", "graph", "path"}
      ensures Get(f2, key) == if key == "path" && Get(fields, "path").Some?
                              then Some(MapList(x => MapId(m, x), Get(fields, "path").value)) else Get(fields, key)
    {
      UpdateGet(fields, "path", v => MapList(x => MapId(m, x), v), key);
    }
  }

  lemma MigratedIsCurrent(dsl: Json)
    ensures Current(Normalize(dsl))
  {
    if ComponentFields(dsl).Some? {
      hide RewriteComponents, MigrateRest, IdMapOf, CurrentComponents, CurrentGraph, MigrateGraph;
      var components := ComponentFields(dsl).value;
      var ids := Keys(components);
      var m := IdMapOf(ids);
      var rewritten := RewriteComponents(m, components, []);
      var f1 := Put(dsl.fields, "components", JObject(rewritten));
      GetPut(dsl.fields, "components", JObject(rewritten), "components");
      RestGet(m, ids, f1);
      NothingIsCurrent();
      forall i | 0 <= i < |components| ensures components[i].key in ids {
        assert ids[i] == components[i].key;
      }
      ComponentsBecomeCurrent(ids, components, []);
      if Get(f1, "graph").Some? {
        GraphBecomesCurrent(m, ids, Get(f1, "graph").value);
      }
    }
  }

  lemma NothingIsCurrent()
    ensures CurrentComponents([])
  {
  }

  /** The migration leaves a document alone exactly when it is current. A component object that
      has no name at all is not: it is given a null one. */
  lemma LeftAloneIffCurrent(dsl: Json)
    ensures Normalize(dsl) == dsl <==> Current(dsl)
  {
    hide Normalize, Current;
    MigratedIsCurrent(dsl);
    if Current(dsl) {
      CurrentIsLeftAlone(dsl);
    }
  }

  /** One pass is enough. */
  lemma MigrationIsIdempotent(dsl: Json)
    ensures Normalize(Normalize(dsl)) == Normalize(dsl)
  {
    hide Normalize, Current;
    MigratedIsCurrent(dsl);
    CurrentIsLeftAlone(Normalize(dsl));
  }
}
