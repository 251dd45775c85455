/** A canvas with a legacy component, to which the migration theorem applies. */
module MigrationExample {
  import opened PyValues
  import opened Json
  import opened Text
  import opened References
  import opened Migration
  import opened MigrationFixpoint
  import opened MigrationDrawing
  import opened CanvasGraph
  import opened CanvasSpec
  import opened CanvasRenaming
  import opened CanvasLoading
  import opened MigrationIds
  import opened MigrationTexts
  import opened MigrationRuns

  const SPLITTER: string := "Splitter:a"

  function BeginJson(): Json {
    JObject([Field("obj", JObject([Field("component_name", JString("Begin"))])),
             Field("downstream", JArray([JString(SPLITTER)]))])
  }

  function SplitterJson(): Json {
    JObject([Field("obj", JObject([Field("component_name", JString("Splitter"))])),
             Field("downstream", JArray([]))])
  }

  function Components(): seq<Field> {
    [Field("begin", BeginJson()), Field(SPLITTER, SplitterJson())]
  }

  function Example(): Json {
    JObject([Field("components", JObject(Components())), Field("path", JArray([]))])
  }

  function Quiet(): Oracle {
    Oracle(_ => Report(false, {}, false, []), _ => false)
  }

  lemma BeginLoads()
    ensures ComponentOf(BeginJson()) == Component(Begin, [], [SPLITTER], None, Handler([], false))
  {
    var c := BeginJson();
    assert Get(c.fields, "obj") == Some(c.fields[0].value);
    assert c.fields[1..] == [c.fields[1]];
    assert Get(c.fields, "downstream") == Some(JArray([JString(SPLITTER)]));
    assert c.fields[1..][1..] == [];
    assert Get(c.fields[1..], "parent_id") == None;
    assert Get(c.fields, "parent_id") == None;
    assert Lower("Begin") == "begin";
    assert Get([Field("component_name", JString("Begin"))], "params") == None;
    assert StringItems([JString(SPLITTER)]) == [SPLITTER];
  }

  lemma SplitterLoads()
    ensures ComponentOf(SplitterJson()) == Component(Plain, [], [], None, Handler([], false))
  {
    var c := SplitterJson();
    assert c.fields[1..] == [c.fields[1]];
    assert Get(c.fields, "downstream") == Some(JArray([]));
    assert c.fields[1..][1..] == [];
    assert Get(c.fields, "parent_id") == None;
    assert Lower("Splitter")[0] == 's' && Lower("Splitter")[1] == 'p';
    assert Get([Field("component_name", JString("Splitter"))], "params") == None;
  }

  lemma ExampleGraph()
    ensures var g := GraphOf(Components());
      && g.order == ["begin", SPLITTER]
      && g.cpn.Keys == {"begin", SPLITTER}
      && g.cpn["begin"] == ComponentOf(BeginJson())
      && g.cpn[SPLITTER] == ComponentOf(SplitterJson())
  {
    hide ComponentOf, BeginJson, SplitterJson;
    var fs := Components();
    assert fs[1..] == [fs[1]] && fs[1..][1..] == [];
    assert Keys(fs) == ["begin", SPLITTER];
    assert "begin"[0] != SPLITTER[0];
    assert Get(fs, "begin") == Some(BeginJson()) && Get(fs, SPLITTER) == Some(SplitterJson());
  }

  lemma ExampleParts()
    ensures ComponentFields(Example()).Some? && ComponentsOf(Example()) == Components()
    ensures PathOf(Example()) == []
  {
    hide Components;
    var fs := Example().fields;
    assert fs[1..] == [fs[1]];
    assert Get(fs, "path") == Some(JArray([]));
  }

  function ExampleGraphValue(): Graph {
    Graph(["begin", SPLITTER],
          map["begin" := Component(Begin, [], [SPLITTER], None, Handler([], false)),
              SPLITTER := Component(Kind.Plain, [], [], None, Handler([], false))])
  }

  lemma ExampleGraphIs()
    ensures GraphOf(Components()) == ExampleGraphValue()
  {
    hide ComponentOf, BeginJson, SplitterJson, GraphOf, Components;
    ExampleGraph();
    BeginLoads();
    SplitterLoads();
    assert "begin"[0] != SPLITTER[0];
  }

  lemma ExampleIsWellFormed()
    ensures WellFormed(ExampleGraphValue())
  {
    hide GetStart;
    assert "begin"[0] != SPLITTER[0];
  }

  lemma ExampleEdges(r: Report)
    requires WellFormed(ExampleGraphValue()) && !r.failed
    ensures Contributes(ExampleGraphValue(), "begin", r) == [SPLITTER]
    ensures Contributes(ExampleGraphValue(), SPLITTER, r) == []
  {
    hide WellFormed, GetStart;
    assert "begin"[0] != SPLITTER[0];
  }

  lemma ExampleDoesNotDangle()
    requires WellFormed(ExampleGraphValue())
    ensures NoDangling(ExampleGraphValue(), Quiet())
  {
    hide WellFormed, Contributes;
    var g := ExampleGraphValue();
    assert "begin"[0] != SPLITTER[0];
    forall id, i: nat, x | id in g.cpn && x in Contributes(g, id, Quiet().report(i)) ensures x in g.cpn {
      ExampleEdges(Quiet().report(i));
    }
  }

  lemma ExampleIsQuiet()
    ensures QuietGraph(ExampleGraphValue())
  {
    hide Refs;
    assert "begin"[0] != SPLITTER[0];
    NoBraceNoRefs("begin");
    NoBraceNoRefs(SPLITTER);
  }

  lemma ExampleDoesNotClash()
    ensures Keys(Components()) == ["begin", SPLITTER] && UniqueKeys(Components())
    ensures IsLegacyId(SPLITTER) && NoClash(["begin", SPLITTER])
  {
    hide BeginJson, SplitterJson;
    var fs := Components();
    assert fs[1..] == [fs[1]] && fs[1..][1..] == [];
    assert "begin"[0] == 'b' && SPLITTER[0] == 'S';
    assert RenamedId(SPLITTER)[0] == 'T';
    assert "Splitter:" == SPLITTER[..9];
    assert !IsLegacyId("begin");
  }

  /** The example loads, is migratable with a legacy id in it, and so is covered by
      MigrationIsInvisible. */
  lemma ExampleIsMigratable()
    ensures Loads(Example()) && Migratable(Example(), Quiet()) && SPLITTER in Keys(ComponentsOf(Example()))
    ensures IsLegacyId(SPLITTER)
  {
    hide *;
    ExampleParts();
    ExampleGraphIs();
    ExampleIsWellFormed();
    ExampleDoesNotDangle();
    ExampleIsQuiet();
    ExampleDoesNotClash();
    NothingKnown(ExampleGraphValue());
    Assembled();
  }

  lemma NothingKnown(g: Graph)
    ensures Known(g, [])
  {
  }

  lemma Assembled()
    requires ComponentFields(Example()).Some? && ComponentsOf(Example()) == Components() && PathOf(Example()) == []
    requires GraphOf(Components()) == ExampleGraphValue() && WellFormed(ExampleGraphValue())
    requires NoDangling(ExampleGraphValue(), Quiet()) && QuietGraph(ExampleGraphValue())
    requires UniqueKeys(Components()) && NoClash(Keys(Components())) && Known(ExampleGraphValue(), [])
    ensures Loads(Example()) && Migratable(Example(), Quiet())
  {
    hide ComponentFields, ComponentsOf, Components, GraphOf, ExampleGraphValue, WellFormed, NoDangling, QuietGraph;
    hide UniqueKeys, NoClash, Known, Example, PathOf, Keys;
  }

  // ---- where the migration does not keep everything ----

  const TAKEN: string := "TokenChunker:a"

  lemma TakenIsNew()
    ensures RenamedId(SPLITTER) == TAKEN && IsLegacyId(SPLITTER) && SPLITTER != TAKEN
  {
    assert "Splitter:" == SPLITTER[..9] && SPLITTER[9..] == "a";
    assert "TokenChunker:" + "a" == TAKEN;
  }

  /** "Splitter:a" beside "TokenChunker:a": one of the two components is lost. */
  lemma CollisionLosesAComponent(v: Json, w: Json)
    ensures var fields := [Field(SPLITTER, v), Field(TAKEN, w)];
      && UniqueKeys(fields) && !NoClash(Keys(fields))
      && |RewriteComponents(IdMapOf(Keys(fields)), fields, [])| < |fields|
  {
    var fields := [Field(SPLITTER, v), Field(TAKEN, w)];
    TakenIsNew();
    assert Keys(fields)[0] == SPLITTER && Keys(fields)[1] == TAKEN;
    assert SPLITTER in Keys(fields) && TAKEN in Keys(fields);
    hide RenamedId, IsLegacyId;
    ComponentsSurviveIffNoClash(fields);
    RewriteLength(IdMapOf(Keys(fields)), fields, []);
  }

  /** A component object without a name is given a null one. */
  lemma NamelessIsChanged()
    ensures var dsl := JObject([Field("components", JObject([Field("begin", JObject([Field("obj", JObject([]))]))]))]);
      Normalize(dsl) != dsl
  {
    var component := JObject([Field("obj", JObject([]))]);
    var fields := [Field("begin", component)];
    var dsl := JObject([Field("components", JObject(fields))]);
    assert !CurrentComponent(component);
    assert ComponentFields(dsl) == Some(fields) && !CurrentComponents(fields) by {
      assert fields[0].value == component;
    }
    LeftAloneIffCurrent(dsl);
  }

  /** A bare reference to a renamed component names nothing afterwards. */
  lemma BareReferenceIsLost(v: Json)
    ensures var fields := [Field(SPLITTER, v)];
      && RewriteText(IdMapOf(Keys(fields)), SPLITTER + "@text") == SPLITTER + "@text"
      && SPLITTER !in Keys(RewriteComponents(IdMapOf(Keys(fields)), fields, []))
  {
    var fields := [Field(SPLITTER, v)];
    assert Keys(fields)[0] == SPLITTER;
    assert |SPLITTER + "@" + "text"| > |SPLITTER|;
    assert NoBrace(SPLITTER + "@" + "text");
    assert SPLITTER + "@" + "text" == SPLITTER + "@text" by { assert "@" + "text" == "@text"; }
    TakenIsNew();
    hide RenamedId, IsLegacyId, RewriteText, NoBrace;
    BareReferenceSurvivesIff(fields, SPLITTER, "text");
  }

  // ---- an id that holds a reference ----

  const BRACED: string := "{Splitter:a@x}"

  function BracedBody(): Body {
    Body("", SPLITTER, Tail("x", "", "}", ""))
  }

  lemma BracedBodyText()
    ensures BodyText(BracedBody()) == "Splitter:a@x}"
  {
    var b := BracedBody();
    assert TailText(b.tail) == "x}";
    assert BodyText(b) == "Splitter:a" + "@" + "x}";
  }

  lemma BracedText()
    ensures BRACED[0] == '{' && BRACED[1..] == BodyText(BracedBody()) + "" && BRACED != SPLITTER
    ensures IsIdText(SPLITTER) && TailShape(BracedBody().tail)
  {
    BracedBodyText();
    assert BRACED == "{" + "Splitter:a@x}";
    assert |BRACED| != |SPLITTER|;
  }

  lemma BracedRefs()
    ensures exists r <- Refs(BRACED) :: r.id == SPLITTER
  {
    BracedText();
    hide BodyText, MatchBody, TailText;
    BodyBack(BracedBody(), "");
    assert MatchBody(BRACED[1..]) == Some(BracedBody());
    var refs := Refs(BRACED);
    assert refs == [RefOf(BracedBody())] + Refs("");
    assert refs[0].id == SPLITTER && refs[0] in refs;
  }

  lemma BracedIsNotLeftAlone(ids: seq<Id>)
    requires SPLITTER in ids
    ensures !LeftAlone(ids, BRACED)
  {
    BracedRefs();
    TakenIsNew();
    hide Refs, IsLegacyId, RenamedId;
  }

  /** "{Splitter:a@x}" beside "Splitter:a": as a text the id keeps a reference that should have been
      rewritten. */
  lemma BracedIdKeepsOldReference()
    ensures var ids := [SPLITTER, BRACED];
      && !QuietIds(ids)
      && RefsIn(RewriteValue(IdMapOf(ids), JString(BRACED))) != MapRefs(RenamingOf(ids), RefsIn(JString(BRACED)))
  {
    var ids := [SPLITTER, BRACED];
    assert SPLITTER in ids && BRACED in ids;
    BracedIsNotLeftAlone(ids);
    hide LeftAlone, RewriteText, IdMapOf, RenamingOf;
    TextRefsRewritten(ids, BRACED);
    assert RefsIn(JString(BRACED)) == Refs(BRACED);
    assert RefsIn(RewriteValue(IdMapOf(ids), JString(BRACED))) == Refs(RewriteText(IdMapOf(ids), BRACED));
  }

  /** Listed as an id in a canvas that has no such component, it is changed. */
  lemma BracedLinkIsChanged()
    ensures var ids := [SPLITTER];
      !IsLink(ids, BRACED) && RenamingOf(ids)(RewriteText(IdMapOf(ids), BRACED)) != RenamingOf(ids)(BRACED)
  {
    var ids := [SPLITTER];
    assert SPLITTER in ids;
    BracedIsNotLeftAlone(ids);
    BracedText();
    assert forall id <- ids :: id == SPLITTER;
    hide LeftAlone, RewriteText, IdMapOf, RenamingOf;
    LinkMigratedIff(ids, BRACED);
  }
}
