/** Migration of a stored canvas to the current component names and ids
    (agent/dsl_migration.py). */
module Migration {
  import opened PyValues
  import opened Json
  import opened Text
  import opened References

  // ---- the rename rules ----

  function NewName(name: string): string {
    if name == "Splitter" then "TokenChunker"
    else if name == "HierarchicalMerger" then "TitleChunker"
    else if name == "PDFGenerator" then "DocGenerator"
    else name
  }

  function NewType(t: string): string {
    if t == "splitterNode" then "chunkerNode" else t
  }

  /** "Splitter:x" becomes "TokenChunker:x", and so on. */
  function RenamedId(id: string): string {
    if StartsWith(id, "Splitter:") then "TokenChunker:" + id[9..]
    else if StartsWith(id, "HierarchicalMerger:") then "TitleChunker:" + id[19..]
    else if StartsWith(id, "PDFGenerator:") then "DocGenerator:" + id[13..]
    else id
  }

  predicate IsLegacyId(id: string) {
    StartsWith(id, "Splitter:") || StartsWith(id, "HierarchicalMerger:") || StartsWith(id, "PDFGenerator:")
  }

  type IdMap = map<string, string>

  function IdMapOf(ids: seq<string>): IdMap {
    map id <- ids :: RenamedId(id)
  }

  /** `component_id_map.get(id, id)` */
  function Mapped(m: IdMap, id: string): string {
    if id in m then m[id] else id
  }

  // ---- texts and values ----

  function RewriteText(m: IdMap, text: string): string {
    if text in m then m[text] else SubRefs(id => Mapped(m, id), text)
  }

  function RewriteValue(m: IdMap, v: Json): Json {
    match v
    case JString(s) => JString(RewriteText(m, s))
    case JArray(items) => JArray(seq(|items|, i requires 0 <= i < |items| => RewriteValue(m, items[i])))
    case JObject(fields) =>
      JObject(seq(|fields|, i requires 0 <= i < |fields| => Field(fields[i].key, RewriteValue(m, fields[i].value))))
    case _ => v
  }

  function MapId(m: IdMap, v: Json): Json {
    if v.JString? then JString(Mapped(m, v.s)) else v
  }

  function MapItems(g: Json -> Json, items: seq<Json>): (r: seq<Json>)
    ensures |r| == |items| && forall i :: 0 <= i < |r| ==> r[i] == g(items[i])
  {
    seq(|items|, i requires 0 <= i < |items| => g(items[i]))
  }

  function MapList(g: Json -> Json, v: Json): Json {
    if v.JArray? then JArray(MapItems(g, v.items)) else v
  }

  function RenameName(v: Json): Json {
    if v.JString? then JString(NewName(v.s)) else v
  }

  function RenameType(v: Json): Json {
    if v.JString? then JString(NewType(v.s)) else v
  }

  /** `d[key] = g(d[key])` when the key is there. */
  function Update(fields: seq<Field>, key: string, g: Json -> Json): seq<Field> {
    match Get(fields, key)
    case None => fields
    case Some(v) => Put(fields, key, g(v))
  }

  // ---- components ----

  /** The name is looked up with `get` and always written back, as null when it was missing. */
  function MigrateObj(v: Json): Json {
    if !v.JObject? then v
    else
      var name := Get(v.fields, "component_name");
      JObject(Put(v.fields, "component_name", if name.Some? then RenameName(name.value) else JNull))
  }

  function MigrateComponent(m: IdMap, c: Json): Json {
    var c1 := RewriteValue(m, c);
    if !c1.JObject? then c1
    else
      var f1 := Update(c1.fields, "obj", MigrateObj);
      var f2 := Update(f1, "downstream", v => MapList(x => MapId(m, x), v));
      var f3 := Update(f2, "upstream", v => MapList(x => MapId(m, x), v));
      JObject(Update(f3, "parent_id", v => MapId(m, v)))
  }

  /** The rebuilt component dictionary; a renamed id that is already taken overwrites. */
  function RewriteComponents(m: IdMap, fields: seq<Field>, done: seq<Field>): seq<Field>
    decreases |fields|
  {
    if fields == [] then done
    else RewriteComponents(m, fields[1..],
                           Put(done, Mapped(m, fields[0].key), MigrateComponent(m, fields[0].value)))
  }

  // ---- the graph ----

  function MigrateData(m: IdMap, v: Json): Json {
    if !v.JObject? then v
    else
      var f1 := Update(v.fields, "label", RenameName);
      var f2 := Update(f1, "name", RenameName);
      JObject(Update(f2, "form", x => RewriteValue(m, x)))
  }

  function MigrateNode(m: IdMap, node: Json): Json {
    if !node.JObject? then node
    else
      var f1 := Update(node.fields, "id", v => MapId(m, v));
      var f2 := Update(f1, "parentId", v => MapId(m, v));
      var f3 := Update(f2, "type", RenameType);
      JObject(Update(f3, "data", v => MigrateData(m, v)))
  }

  /** Stable, longest first. */
  function InsertByLength(id: string, sorted: seq<string>): seq<string> {
    if sorted == [] || |id| >= |sorted[0]| then [id] + sorted
    else [sorted[0]] + InsertByLength(id, sorted[1..])
  }

  function LongestFirst(ids: seq<string>): seq<string> {
    if ids == [] then [] else InsertByLength(ids[0], LongestFirst(ids[1..]))
  }

  /** `s.replace(old, new)`; the empty id maps to itself, which replaces nothing. */
  function ReplaceAll(s: string, was: string, now: string): string
    decreases |s|
  {
    if s == "" || was == "" then s
    else if OccursAt(was, s, 0) then now + ReplaceAll(s[|was|..], was, now)
    else [s[0]] + ReplaceAll(s[1..], was, now)
  }

  function ReplaceIds(m: IdMap, ids: seq<string>, edgeId: string): string
    decreases |ids|
  {
    if ids == [] then edgeId
    else ReplaceIds(m, ids[1..], ReplaceAll(edgeId, ids[0], Mapped(m, ids[0])))
  }

  function MigrateEdgeId(m: IdMap, ids: seq<string>, v: Json): Json {
    if v.JString? then JString(ReplaceIds(m, LongestFirst(ids), v.s)) else v
  }

  function MigrateEdge(m: IdMap, ids: seq<string>, edge: Json): Json {
    if !edge.JObject? then edge
    else
      var f1 := Update(edge.fields, "source", v => MapId(m, v));
      var f2 := Update(f1, "target", v => MapId(m, v));
      JObject(Update(f2, "id", v => MigrateEdgeId(m, ids, v)))
  }

  function MigrateGraph(m: IdMap, ids: seq<string>, graph: Json): Json {
    if !graph.JObject? then graph
    else
      var f1 := Update(graph.fields, "nodes", v => MapList(x => MigrateNode(m, x), v));
      JObject(Update(f1, "edges", v => MapList(x => MigrateEdge(m, ids, x), v)))
  }

  // ---- the whole document ----

  function ComponentFields(dsl: Json): Option<seq<Field>> {
    if !dsl.JObject? then None
    else match Get(dsl.fields, "components")
      case Some(JObject(fields)) => Some(fields)
      case _ => None
  }


  /** Everything in the document besides the components. */
  function MigrateRest(m: IdMap, ids: seq<string>, fields: seq<Field>): seq<Field> {
    var f2 := Update(fields, "path", v => MapList(x => MapId(m, x), v));
    var f3 := Update(f2, "graph", v => MigrateGraph(m, ids, v));
    var f4 := Update(f3, "history", v => RewriteValue(m, v));
    var f5 := Update(f4, "messages", v => RewriteValue(m, v));
    Update(f5, "reference", v => RewriteValue(m, v))
  }

  function Normalize(dsl: Json): Json {
    match ComponentFields(dsl)
    case None => dsl
    case Some(components) =>
      var ids := Keys(components);
      var m := IdMapOf(ids);
      JObject(MigrateRest(m, ids, Put(dsl.fields, "components", JObject(RewriteComponents(m, components, [])))))
  }

  // ---- the loops ----

  /** The inner loop over the renames: the first matching prefix wins. */
  method RenameByPrefix(id: string) returns (newId: string)
    ensures newId == RenamedId(id)
  {
    var prefixes := ["Splitter:", "HierarchicalMerger:", "PDFGenerator:"];
    var names := ["TokenChunker:", "TitleChunker:", "DocGenerator:"];
    for k := 0 to 3
      invariant forall j :: 0 <= j < k ==> !StartsWith(id, prefixes[j])
    {
      if StartsWith(id, prefixes[k]) {
        assert k >= 1 ==> !StartsWith(id, prefixes[0]);
        assert k >= 2 ==> !StartsWith(id, prefixes[1]);
        assert |prefixes[0]| == 9 && |prefixes[1]| == 19 && |prefixes[2]| == 13;
        return names[k] + id[|prefixes[k]|..];
      }
    }
    assert !StartsWith(id, prefixes[0]) && !StartsWith(id, prefixes[1]) && !StartsWith(id, prefixes[2]);
    newId := id;
  }

  /** The first loop: one entry per component id. */
  method FillIdMap(ids: seq<string>) returns (m: IdMap)
    ensures m == IdMapOf(ids)
  {
    hide RenamedId;
    m := map[];
    for i := 0 to |ids|
      invariant m.Keys == set id <- ids[..i]
      invariant forall id <- m :: m[id] == RenamedId(id)
    {
      var newId := RenameByPrefix(ids[i]);
      assert ids[..i + 1] == ids[..i] + [ids[i]];
      m := m[ids[i] := newId];
    }
    assert ids[..|ids|] == ids;
  }

  /** The component loop, filling the new dictionary. */
  method RewriteComponentsLoop(m: IdMap, fields: seq<Field>) returns (rewritten: seq<Field>)
    ensures rewritten == RewriteComponents(m, fields, [])
  {
    rewritten := [];
    assert fields[0..] == fields;
    for i := 0 to |fields|
      invariant RewriteComponents(m, fields[i..], rewritten) == RewriteComponents(m, fields, [])
    {
      assert fields[i..][0] == fields[i] && fields[i..][1..] == fields[i + 1..];
      rewritten := Put(rewritten, Mapped(m, fields[i].key), MigrateComponent(m, fields[i].value));
    }
  }
}
