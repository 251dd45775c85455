/** Component names and their ids stay together: what the migration makes of the three legacy names,
    and field by field what it changes and what it does not (agent/dsl_migration.py). */
module MigrationNames {
  import opened Text
  import opened PyValues
  import opened Json
  import opened References
  import opened Migration
  import opened MigrationFixpoint
  import opened MigrationIds
  import opened MigrationTexts
  import opened MigrationRuns

  // ---- names ----

  /** The three names and the node type that are renamed, and no others. */
  lemma LegacyNames(name: string)
    ensures NewName("Splitter") == "TokenChunker" && NewName("HierarchicalMerger") == "TitleChunker"
    ensures NewName("PDFGenerator") == "DocGenerator" && NewType("splitterNode") == "chunkerNode"
    ensures name != "Splitter" && name != "HierarchicalMerger" && name != "PDFGenerator" ==> NewName(name) == name
    ensures name != "splitterNode" ==> NewType(name) == name
  {
    assert "Splitter"[0] == 'S' && "HierarchicalMerger"[0] == 'H' && "PDFGenerator"[0] == 'P';
  }

  predicate NoColon(s: string) {
    ':' !in s
  }

  /** The new id of a component is its new name, a colon and the rest. */
  lemma IdsCarryNames(name: string, rest: string)
    requires NoColon(name)
    ensures RenamedId(name + ":" + rest) == NewName(name) + ":" + rest && NoColon(NewName(name))
  {
    var id := name + ":" + rest;
    assert id[|name|] == ':';
    LegacyNames(name);
    HeadIsName(name, rest, "Splitter");
    HeadIsName(name, rest, "HierarchicalMerger");
    HeadIsName(name, rest, "PDFGenerator");
    hide NewName;
    NewNamesHaveNoColon();
    assert "Splitter" + ":" == "Splitter:" && "HierarchicalMerger" + ":" == "HierarchicalMerger:";
    assert "PDFGenerator" + ":" == "PDFGenerator:" && "TokenChunker" + ":" == "TokenChunker:";
    assert "TitleChunker" + ":" == "TitleChunker:" && "DocGenerator" + ":" == "DocGenerator:";
  }

  lemma NewNamesHaveNoColon()
    ensures NoColon("TokenChunker") && NoColon("TitleChunker") && NoColon("DocGenerator")
  {
  }

  /** Before its first colon an id stands its name. */
  lemma HeadIsName(name: string, rest: string, was: string)
    requires NoColon(name) && NoColon(was)
    ensures StartsWith(name + ":" + rest, was + ":") <==> name == was
    ensures name == was ==> (name + ":" + rest)[|was| + 1..] == rest
  {
    var id := name + ":" + rest;
    if StartsWith(id, was + ":") {
      assert id[..|was| + 1] == was + ":";
      assert id[|was|] == ':' && id[|name|] == ':';
      assert forall i | 0 <= i < |name| :: id[i] == name[i] && name[i] in name;
      assert forall i | 0 <= i < |was| :: id[i] == was[i] && was[i] in was;
      assert |name| == |was|;
      assert id[..|name|] == name;
    }
  }

  // ---- texts without a colon ----

  lemma {:induction false} RefsAreInside(s: string)
    ensures forall r <- Refs(s) :: forall c <- r.id :: c in s
    decreases |s|
  {
    hide MatchBody;
    if s != "" {
      assert s == [s[0]] + s[1..];
      if s[0] == '{' && MatchBody(s[1..]).Some? {
        var b := MatchBody(s[1..]).value;
        assert s[1..] == BodyText(b) + b.tail.rest;
        RefsAreInside(b.tail.rest);
      } else {
        RefsAreInside(s[1..]);
      }
    }
  }

  lemma LettersOfPrefix(s: string, p: string)
    requires StartsWith(s, p)
    ensures forall c <- p :: c in s
  {
    forall c <- p ensures c in s {
      var i :| 0 <= i < |p| && p[i] == c;
      assert s[i] == c;
    }
  }

  lemma NoColonNotLegacy(s: string)
    requires NoColon(s)
    ensures !IsLegacyId(s)
  {
    assert "Splitter:"[8] == ':' && "HierarchicalMerger:"[18] == ':' && "PDFGenerator:"[12] == ':';
    if StartsWith(s, "Splitter:") {
      LettersOfPrefix(s, "Splitter:");
    } else if StartsWith(s, "HierarchicalMerger:") {
      LettersOfPrefix(s, "HierarchicalMerger:");
    } else if StartsWith(s, "PDFGenerator:") {
      LettersOfPrefix(s, "PDFGenerator:");
    }
  }

  /** They name no legacy component and mention none. */
  lemma NoColonUnchanged(ids: seq<string>, s: string)
    requires NoColon(s)
    ensures RewriteText(IdMapOf(ids), s) == s
  {
    hide RenamedId, IsLegacyId, SubRefs, Refs;
    NoColonNotLegacy(s);
    RenameOnce(s);
    if s !in ids {
      RefsAreInside(s);
      forall r <- Refs(s) ensures !IsLegacyId(r.id) {
        NoColonNotLegacy(r.id);
      }
      SubstitutesNothingIff(ids, s);
      assert RewriteText(IdMapOf(ids), s) == SubRefs(RenamingOf(ids), s);
    }
  }

  // ---- components ----

  function NameOf(c: Json): Option<Json> {
    Get(ObjOf(c), "component_name")
  }

  /** The component's id is its name, a colon and the rest. */
  ghost predicate CarriesName(id: string, c: Json, name: string, rest: string) {
    NoColon(name) && id == name + ":" + rest && NameOf(c) == Some(JString(name))
  }

  lemma ObjNameGet(fields: seq<Field>)
    ensures MigrateObj(JObject(fields)).JObject?
    ensures Get(fields, "component_name").Some? ==>
      Get(MigrateObj(JObject(fields)).fields, "component_name") == Some(RenameName(Get(fields, "component_name").value))
  {
    hide RenameName;
    var name := Get(fields, "component_name");
    GetPut(fields, "component_name", if name.Some? then RenameName(name.value) else JNull, "component_name");
  }

  /** A component without a colon in its name has the new name afterwards. */
  lemma ComponentNameMigrated(ids: seq<string>, c: Json, name: string)
    requires NoColon(name) && NameOf(c) == Some(JString(name))
    ensures NameOf(MigrateComponent(IdMapOf(ids), c)) == Some(JString(NewName(name)))
  {
    var m := IdMapOf(ids);
    hide IdMapOf, MigrateComponent, NewName, RewriteText, MigrateObj;
    ComponentGet(m, c.fields);
    var obj := Get(c.fields, "obj").value;
    assert RewriteValue(m, obj) == JObject(RewriteFields(m, obj.fields));
    GetRewritten(m, obj.fields, "component_name");
    NoColonUnchanged(ids, name);
    assert RewriteOption(m, Some(JString(name))) == Some(JString(name));
    ObjNameGet(RewriteFields(m, obj.fields));
  }

  /** A component whose id carries its name still carries it after the migration. */
  lemma ComponentKeepsName(ids: seq<string>, id: string, c: Json, name: string, rest: string)
    requires id in ids && CarriesName(id, c, name, rest)
    ensures CarriesName(Mapped(IdMapOf(ids), id), MigrateComponent(IdMapOf(ids), c), NewName(name), rest)
  {
    hide RenamedId, NewName, MigrateComponent, NameOf;
    IdsCarryNames(name, rest);
    ComponentNameMigrated(ids, c, name);
  }

  ghost predicate HasItsName(field: Field) {
    exists name, rest :: CarriesName(field.key, field.value, name, rest)
  }

  /** Every component's id carries its name. */
  ghost predicate AllCarryNames(fields: seq<Field>) {
    forall field <- fields :: HasItsName(field)
  }

  lemma {:induction false} PutCarries(fields: seq<Field>, key: string, value: Json)
    requires AllCarryNames(fields) && HasItsName(Field(key, value))
    ensures AllCarryNames(Put(fields, key, value))
  {
    hide HasItsName;
    if fields != [] {
      assert fields == [fields[0]] + fields[1..] && fields[0] in fields;
      if fields[0].key != key {
        PutCarries(fields[1..], key, value);
      }
    }
  }

  lemma {:induction false} RewrittenCarry(ids: seq<string>, fields: seq<Field>, done: seq<Field>)
    requires AllCarryNames(fields) && AllCarryNames(done) && forall field <- fields :: field.key in ids
    ensures AllCarryNames(RewriteComponents(IdMapOf(ids), fields, done))
    decreases |fields|
  {
    hide CarriesName, Mapped, MigrateComponent, Put, IdMapOf;
    if fields != [] {
      var m, field := IdMapOf(ids), fields[0];
      assert fields == [field] + fields[1..] && field in fields && HasItsName(field);
      var name, rest :| CarriesName(field.key, field.value, name, rest);
      ComponentKeepsName(ids, field.key, field.value, name, rest);
      assert HasItsName(Field(Mapped(m, field.key), MigrateComponent(m, field.value)));
      PutCarries(done, Mapped(m, field.key), MigrateComponent(m, field.value));
      RewrittenCarry(ids, fields[1..], Put(done, Mapped(m, field.key), MigrateComponent(m, field.value)));
    }
  }

  lemma KeysOfFields(fields: seq<Field>)
    ensures forall field <- fields :: field.key in Keys(fields)
  {
    forall field <- fields ensures field.key in Keys(fields) {
      var i :| 0 <= i < |fields| && fields[i] == field;
      assert Keys(fields)[i] == field.key;
    }
  }

  /** A document whose component ids carry their names is migrated to such a document, clashes or
      not. */
  lemma NamesStayWithIds(dsl: Json)
    requires ComponentFields(dsl).Some? && AllCarryNames(ComponentsOf(dsl))
    ensures AllCarryNames(ComponentsOf(Normalize(dsl)))
  {
    hide AllCarryNames, RewriteComponents, Normalize, ComponentFields, IdMapOf;
    PathMigrated(dsl);
    var fields := ComponentsOf(dsl);
    KeysOfFields(fields);
    NoFieldsCarry();
    RewrittenCarry(Keys(fields), fields, []);
  }

  lemma NoFieldsCarry()
    ensures AllCarryNames([])
  {
  }

  /** And one component at a time, whatever the others are called, when no new id is taken. */
  lemma NameStaysWithId(dsl: Json, i: nat, name: string, rest: string)
    requires ComponentFields(dsl).Some? && UniqueKeys(ComponentsOf(dsl)) && NoClash(Keys(ComponentsOf(dsl)))
    requires i < |ComponentsOf(dsl)|
    requires CarriesName(ComponentsOf(dsl)[i].key, ComponentsOf(dsl)[i].value, name, rest)
    ensures var after := ComponentsOf(Normalize(dsl));
      i < |after| && CarriesName(after[i].key, after[i].value, NewName(name), rest)
  {
    hide Normalize, ComponentFields, CarriesName, NewName, NoClash, Mapped, MigrateComponent, IdMapOf, UniqueKeys;
    var fields := ComponentsOf(dsl);
    ComponentsMigratedIff(dsl);
    KeysOfFields(fields);
    ComponentKeepsName(Keys(fields), fields[i].key, fields[i].value, name, rest);
  }
}
