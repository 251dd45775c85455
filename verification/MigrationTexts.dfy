/** What the migration does to the texts of a document: references, lists of ids and component
    names. */
module MigrationTexts {
  import opened PyValues
  import opened Json
  import opened Text
  import opened References
  import opened Migration
  import opened MigrationFixpoint
  import opened CanvasGraph
  import opened CanvasRenaming
  import opened CanvasLoading
  import opened MigrationIds

  // ---- values ----

  lemma TextNonempty(m: IdMap, s: string)
    requires forall id <- m :: m[id] == RenamedId(id)
    ensures RewriteText(m, s) == "" <==> s == ""
  {
    hide RenamedId, SubRefs;
    RenamedShape(s);
    SubKeepsHead(id => Mapped(m, id), s);
  }

  lemma BraceKept(f: string -> string, s: string)
    ensures NoBrace(SubRefs(f, s)) <==> NoBrace(s)
    ensures NoBrace(s) ==> SubRefs(f, s) == s
  {
    hide MatchBody, BodyText, SubRefs;
    var n := BraceFree(s);
    var u, v := s[..n], s[n..];
    assert s == u + v;
    SubPlain(f, u, v);
    SubKeepsHead(f, v);
    if v == "" {
      assert u == s && SubRefs(f, v) == "";
    } else {
      assert s[n] == '{';
      assert SubRefs(f, s)[n] == SubRefs(f, v)[0] == '{';
    }
  }

  // ---- component names ----

  /** Letters only. */
  predicate IsWord(s: string) {
    forall i | 0 <= i < |s| :: 'a' <= LowerChar(s[i]) <= 'z'
  }

  lemma KindsAreWords(name: string)
    requires !KindOf(name).Plain?
    ensures IsWord(name)
  {
    var n := Lower(name);
    KindNamesAreWords();
    assert forall i | 0 <= i < |n| :: 'a' <= n[i] <= 'z';
  }

  predicate AllLetters(s: string) {
    forall i | 0 <= i < |s| :: 'a' <= s[i] <= 'z'
  }

  lemma KindNamesAreWords()
    ensures AllLetters("begin") && AllLetters("userfillup") && AllLetters("message")
    ensures AllLetters("categorize") && AllLetters("switch") && AllLetters("iteration")
    ensures AllLetters("iterationitem") && AllLetters("loop") && AllLetters("loopitem") && AllLetters("exitloop")
  {
  }

  /** No kind but Plain has a name that begins like this. */
  lemma PlainHead(name: string)
    requires |name| > 1
    requires var c, d := Lower(name)[0], Lower(name)[1];
      c == 'h' || c == 'p' || c == 't' || c == 'd' || (c == 's' && d == 'p')
    ensures KindOf(name) == Plain
  {
    hide Lower;
    assert "begin"[0] == 'b' && "userfillup"[0] == 'u' && "message"[0] == 'm' && "categorize"[0] == 'c';
    assert "switch"[1] == 'w' && "iteration"[0] == 'i' && "iterationitem"[0] == 'i';
    assert "loop"[0] == 'l' && "loopitem"[0] == 'l' && "exitloop"[0] == 'e';
  }

  /** Renaming never changes what kind a component is. */
  lemma KindKept(name: string)
    ensures KindOf(NewName(name)) == KindOf(name)
  {
    if name != NewName(name) {
      hide KindOf, Lower;
      PlainHead(name);
      PlainHead(NewName(name));
    }
  }

  lemma LegacyIsNoWord(id: string)
    requires IsLegacyId(id)
    ensures !IsWord(id) && !IsWord(RenamedId(id))
  {
    if StartsWith(id, "Splitter:") {
      assert id[8] == ':' && RenamedId(id)[12] == ':';
    } else if StartsWith(id, "HierarchicalMerger:") {
      assert id[18] == ':' && RenamedId(id)[12] == ':';
    } else {
      assert id[12] == ':' && RenamedId(id)[12] == ':';
    }
  }

  lemma KindOfText(ids: seq<string>, name: string)
    ensures KindOf(RewriteText(IdMapOf(ids), name)) == KindOf(name)
  {
    hide KindOf, SubRefs, RenamedId, IsLegacyId;
    var m := IdMapOf(ids);
    var out := RewriteText(m, name);
    if name in ids {
      assert out == RenamedId(name);
      RenameOnce(name);
      if IsLegacyId(name) {
        LegacyIsNoWord(name);
        WordsOnly(name);
        WordsOnly(out);
      }
    } else {
      BraceKept(id => Mapped(m, id), name);
      if !NoBrace(name) {
        WordsOnly(name);
        WordsOnly(out);
      }
    }
  }

  lemma WordsOnly(name: string)
    ensures !IsWord(name) ==> KindOf(name).Plain?
    ensures !NoBrace(name) ==> !IsWord(name)
  {
    if !KindOf(name).Plain? {
      KindsAreWords(name);
    }
  }

  // ---- rewritten values ----

  function RewriteOption(m: IdMap, v: Option<Json>): Option<Json> {
    if v.Some? then Some(RewriteValue(m, v.value)) else None
  }

  function RewriteFields(m: IdMap, fields: seq<Field>): seq<Field> {
    RewriteValue(m, JObject(fields)).fields
  }

  function RewriteItems(m: IdMap, items: seq<Json>): seq<Json> {
    RewriteValue(m, JArray(items)).items
  }

  lemma RewriteCons(m: IdMap, fields: seq<Field>)
    requires fields != []
    ensures RewriteFields(m, fields)
         == [Field(fields[0].key, RewriteValue(m, fields[0].value))] + RewriteFields(m, fields[1..])
  {
  }

  lemma RewriteConsItems(m: IdMap, items: seq<Json>)
    requires items != []
    ensures RewriteItems(m, items) == [RewriteValue(m, items[0])] + RewriteItems(m, items[1..])
  {
  }

  lemma RewriteNone(m: IdMap)
    ensures RewriteFields(m, []) == [] && RewriteItems(m, []) == []
  {
  }

  lemma {:induction false} GetRewritten(m: IdMap, fields: seq<Field>, key: string)
    ensures Get(RewriteFields(m, fields), key) == RewriteOption(m, Get(fields, key))
    decreases |fields|
  {
    hide RewriteFields, RewriteValue;
    RewriteNone(m);
    if fields != [] {
      RewriteCons(m, fields);
      GetRewritten(m, fields[1..], key);
    }
  }

  // ---- texts that name components ----

  lemma RenamingFixes(ids: seq<Id>, id: Id)
    ensures RenamingOf(ids)(id) == id <==> (id in ids ==> !IsLegacyId(id))
  {
    hide RenamedId, IsLegacyId;
    RenameOnce(id);
  }

  /** No reference in the text names a component of the canvas by a legacy id. */
  ghost predicate LeftAlone(ids: seq<Id>, s: string) {
    forall r <- Refs(s) :: r.id in ids ==> !IsLegacyId(r.id)
  }

  /** No component id contains such a reference. An id without braces contains none at all. */
  ghost predicate QuietIds(ids: seq<Id>) {
    forall id <- ids :: LeftAlone(ids, id)
  }

  lemma RefsFixed(ids: seq<Id>, s: string)
    ensures LeftAlone(ids, s) <==> MapRefs(RenamingOf(ids), Refs(s)) == Refs(s)
  {
    hide IsLegacyId, RenamedId, Refs;
    var f, refs := RenamingOf(ids), Refs(s);
    forall i | 0 <= i < |refs| ensures f(refs[i].id) == refs[i].id <==> (refs[i].id in ids ==> !IsLegacyId(refs[i].id)) {
      RenamingFixes(ids, refs[i].id);
    }
    if MapRefs(f, refs) == refs {
      forall r <- refs ensures r.id in ids ==> !IsLegacyId(r.id) {
        var i :| 0 <= i < |refs| && refs[i] == r;
        assert MapRefs(f, refs)[i] == refs[i];
      }
    } else {
      var i :| 0 <= i < |refs| && MapRefs(f, refs)[i] != refs[i];
      assert refs[i] in refs;
    }
  }

  /** A text is left as it is exactly when every reference in it keeps its id. */
  lemma SubstitutesNothingIff(ids: seq<Id>, s: string)
    ensures SubRefs(RenamingOf(ids), s) == s <==> LeftAlone(ids, s)
  {
    hide SubRefs, Refs, RenamedId, KeepsIdShape, LeftAlone;
    var f := RenamingOf(ids);
    RefsFixed(ids, s);
    if SubRefs(f, s) == s {
      RenamingKeepsShape(ids);
      RefsAreMapped(f, s);
    }
    if MapRefs(f, Refs(s)) == Refs(s) {
      SubFixed(f, s);
    }
  }

  lemma {:induction false} SubFixed(f: string -> string, s: string)
    requires MapRefs(f, Refs(s)) == Refs(s)
    ensures SubRefs(f, s) == s
    decreases |s|
  {
    hide MatchBody, BodyText, SubRefs, MapRefs;
    if s == "" {
      SubKeepsHead(f, s);
    } else {
      if s[0] == '{' && MatchBody(s[1..]).Some? {
        var b := MatchBody(s[1..]).value;
        var rest := Refs(b.tail.rest);
        MapRefsCons(f, RefOf(b), rest);
        assert Refs(s) == [RefOf(b)] + rest;
        assert Refs(s)[0] == RefOf(b) && Refs(s)[1..] == rest;
        assert ([RefOf(b).(id := f(b.id))] + MapRefs(f, rest))[1..] == MapRefs(f, rest);
        SubFixed(f, b.tail.rest);
        assert b.(id := f(b.id)) == b;
        SubAtMatch(f, s);
      } else {
        SubFixed(f, s[1..]);
        SubAtNoMatch(f, s);
      }
      assert s == [s[0]] + s[1..];
    }
  }

  /** A renamed id holds the references the id held. */
  lemma RenamedRefs(id: string)
    ensures Refs(RenamedId(id)) == Refs(id)
  {
    hide Refs;
    PrefixesHaveNoBrace();
    if StartsWith(id, "Splitter:") {
      SamePrefixRefs("Splitter:", "TokenChunker:", id);
    } else if StartsWith(id, "HierarchicalMerger:") {
      SamePrefixRefs("HierarchicalMerger:", "TitleChunker:", id);
    } else if StartsWith(id, "PDFGenerator:") {
      SamePrefixRefs("PDFGenerator:", "DocGenerator:", id);
    }
  }

  lemma PrefixesHaveNoBrace()
    ensures NoBrace("Splitter:") && NoBrace("TokenChunker:")
    ensures NoBrace("HierarchicalMerger:") && NoBrace("TitleChunker:")
    ensures NoBrace("PDFGenerator:") && NoBrace("DocGenerator:")
  {
  }

  lemma SamePrefixRefs(p: string, q: string, id: string)
    requires NoBrace(p) && NoBrace(q) && StartsWith(id, p)
    ensures Refs(q + id[|p|..]) == Refs(id)
  {
    assert id == p + id[|p|..];
    SubPlain(x => x, p, id[|p|..]);
    SubPlain(x => x, q, id[|p|..]);
  }

  /** The references of a rewritten text are the mapped ones, unless the text is itself an id that
      holds a reference to a legacy one. */
  lemma TextRefsRewritten(ids: seq<Id>, s: string)
    ensures Refs(RewriteText(IdMapOf(ids), s)) == MapRefs(RenamingOf(ids), Refs(s))
       <==> s !in ids || LeftAlone(ids, s)
  {
    hide RenamedId, SubRefs, Refs, KeepsIdShape, LeftAlone;
    if s in ids {
      assert RewriteText(IdMapOf(ids), s) == RenamedId(s);
      RenamedRefs(s);
      RefsFixed(ids, s);
    } else {
      RenamingKeepsShape(ids);
      RefsAreMapped(RenamingOf(ids), s);
      assert RewriteText(IdMapOf(ids), s) == SubRefs(RenamingOf(ids), s);
    }
  }

  lemma MapRefsConcat(f: Renaming, a: seq<Ref>, b: seq<Ref>)
    ensures MapRefs(f, a + b) == MapRefs(f, a) + MapRefs(f, b)
  {
  }

  /** Every template reference in a rewritten value names the image of the component it named,
      under the same variable name; none appears and none is lost. */
  lemma {:induction false} RefsRewritten(ids: seq<Id>, v: Json)
    requires QuietIds(ids)
    ensures RefsIn(RewriteValue(IdMapOf(ids), v)) == MapRefs(RenamingOf(ids), RefsIn(v))
    decreases v, 0
  {
    hide RewriteText, QuietIds, IdMapOf, RenamingOf;
    match v
    case JString(s) =>
      TextRefsRewritten(ids, s);
      assert s in ids ==> LeftAlone(ids, s) by { QuietAt(ids); }
    case JArray(items) => ItemsRefsRewritten(ids, items);
    case JObject(fields) => FieldsRefsRewritten(ids, fields);
    case JNull =>
    case JBool(_) =>
    case JNumber(_) =>
  }

  lemma {:induction false} ItemsRefsRewritten(ids: seq<Id>, items: seq<Json>)
    requires QuietIds(ids)
    ensures RefsInItems(RewriteItems(IdMapOf(ids), items)) == MapRefs(RenamingOf(ids), RefsInItems(items))
    decreases items, 1
  {
    hide RewriteItems, RewriteValue, QuietIds, IdMapOf, RenamingOf, RefsIn;
    var m := IdMapOf(ids);
    RewriteNone(m);
    if items != [] {
      RewriteConsItems(m, items);
      RefsRewritten(ids, items[0]);
      ItemsRefsRewritten(ids, items[1..]);
      MapRefsConcat(RenamingOf(ids), RefsIn(items[0]), RefsInItems(items[1..]));
    }
  }

  lemma {:induction false} FieldsRefsRewritten(ids: seq<Id>, fields: seq<Field>)
    requires QuietIds(ids)
    ensures RefsInFields(RewriteFields(IdMapOf(ids), fields)) == MapRefs(RenamingOf(ids), RefsInFields(fields))
    decreases fields, 1
  {
    hide RewriteFields, RewriteValue, QuietIds, IdMapOf, RenamingOf, RefsIn;
    var m := IdMapOf(ids);
    RewriteNone(m);
    if fields != [] {
      RewriteCons(m, fields);
      RefsRewritten(ids, fields[0].value);
      FieldsRefsRewritten(ids, fields[1..]);
      MapRefsConcat(RenamingOf(ids), RefsIn(fields[0].value), RefsInFields(fields[1..]));
    }
  }

  lemma QuietAt(ids: seq<Id>)
    requires QuietIds(ids)
    ensures forall id <- ids :: LeftAlone(ids, id)
  {
  }

  /** References survive in every value exactly when no id holds a reference to a legacy one. */
  lemma RefsSurviveIffQuiet(ids: seq<Id>)
    ensures (forall v: Json :: RefsIn(RewriteValue(IdMapOf(ids), v)) == MapRefs(RenamingOf(ids), RefsIn(v)))
       <==> QuietIds(ids)
  {
    hide RewriteText, IdMapOf, RenamingOf, LeftAlone;
    if QuietIds(ids) {
      forall v: Json ensures RefsIn(RewriteValue(IdMapOf(ids), v)) == MapRefs(RenamingOf(ids), RefsIn(v)) {
        RefsRewritten(ids, v);
      }
    } else {
      var id :| id in ids && !LeftAlone(ids, id);
      TextRefsRewritten(ids, id);
      assert RefsIn(JString(id)) == Refs(id);
      assert RefsIn(RewriteValue(IdMapOf(ids), JString(id))) == Refs(RewriteText(IdMapOf(ids), id));
    }
  }

  lemma {:induction false} TightIdsMapped(f: Renaming, refs: seq<Ref>)
    ensures TightIds(MapRefs(f, refs)) == MapIds(f, TightIds(refs))
  {
    if refs != [] {
      assert MapRefs(f, refs)[1..] == MapRefs(f, refs[1..]);
      TightIdsMapped(f, refs[1..]);
    }
  }

  lemma DepsAreIds(ids: seq<Id>, deps: seq<Id>)
    ensures MapDeps(RenamingOf(ids), deps) == MapIds(RenamingOf(ids), deps)
  {
    assert RenamingOf(ids)("") == "" by { RenamedShape(""); }
  }

  lemma TruthKept(ids: seq<Id>, v: Option<Json>)
    ensures IsTruthy(RewriteOption(IdMapOf(ids), v)) == IsTruthy(v)
  {
    hide RewriteText;
    if v.Some? && v.value.JString? {
      TextNonempty(IdMapOf(ids), v.value.s);
    }
  }

  // ---- lists of ids ----

  /** A listed text is a component id, or holds no reference to one by a legacy id. */
  ghost predicate IsLink(ids: seq<Id>, s: string) {
    s in ids || LeftAlone(ids, s)
  }

  lemma LinkRewritten(ids: seq<Id>, s: string)
    requires IsLink(ids, s)
    ensures RewriteText(IdMapOf(ids), s) == RenamingOf(ids)(s)
  {
    hide SubRefs, LeftAlone, RenamedId;
    SubstitutesNothingIff(ids, s);
    assert s !in ids ==> RewriteText(IdMapOf(ids), s) == SubRefs(RenamingOf(ids), s);
  }

  /** A listed text, rewritten and then mapped, is mapped once: exactly for such texts. */
  lemma LinkMigratedIff(ids: seq<Id>, s: string)
    ensures RenamingOf(ids)(RewriteText(IdMapOf(ids), s)) == RenamingOf(ids)(s) <==> IsLink(ids, s)
  {
    hide SubRefs, LeftAlone, RenamedId, IsLegacyId;
    var f, t := RenamingOf(ids), RewriteText(IdMapOf(ids), s);
    if IsLink(ids, s) {
      LinkRewritten(ids, s);
      MapTwice(ids, s);
    } else {
      assert t == SubRefs(f, s);
      SubstitutesNothingIff(ids, s);
      SubKeepsHead(f, s);
      if f(t) != t {
        RenamingFixes(ids, t);
        LegacyHeadChanges(t);
        assert f(t) == RenamedId(t);
      }
      assert f(s) == s;
    }
  }

  lemma LegacyHeadChanges(id: string)
    requires IsLegacyId(id)
    ensures id != "" && RenamedId(id) != "" && RenamedId(id)[0] != id[0]
  {
    assert "Splitter:"[0] == 'S' && "HierarchicalMerger:"[0] == 'H' && "PDFGenerator:"[0] == 'P';
  }

  function RewriteTexts(m: IdMap, texts: seq<string>): (r: seq<string>)
    ensures |r| == |texts| && forall i :: 0 <= i < |r| ==> r[i] == RewriteText(m, texts[i])
  {
    seq(|texts|, i requires 0 <= i < |texts| => RewriteText(m, texts[i]))
  }

  lemma StringsCons(items: seq<Json>)
    ensures StringItems([]) == []
    ensures items != [] ==>
      StringItems(items) == (if items[0].JString? then [items[0].s] else []) + StringItems(items[1..])
  {
  }

  lemma TextsConcat(m: IdMap, a: seq<string>, b: seq<string>)
    ensures RewriteTexts(m, a + b) == RewriteTexts(m, a) + RewriteTexts(m, b)
  {
    hide RewriteText;
  }

  lemma RewriteOne(m: IdMap, v: Json)
    ensures v.JString? ==> RewriteValue(m, v) == JString(RewriteText(m, v.s)) && RewriteTexts(m, [v.s]) == [RewriteText(m, v.s)]
    ensures !v.JString? ==> !RewriteValue(m, v).JString?
  {
    hide RewriteText;
  }

  lemma {:induction false} StringsRewritten(m: IdMap, items: seq<Json>)
    ensures StringItems(RewriteItems(m, items)) == RewriteTexts(m, StringItems(items))
    decreases |items|
  {
    hide RewriteItems, RewriteText, RewriteValue, StringItems;
    RewriteNone(m);
    StringsCons(items);
    if items != [] {
      var v, rest := RewriteValue(m, items[0]), RewriteItems(m, items[1..]);
      RewriteConsItems(m, items);
      RewriteOne(m, items[0]);
      assert ([v] + rest)[1..] == rest;
      StringsCons([v] + rest);
      TextsConcat(m, if items[0].JString? then [items[0].s] else [], StringItems(items[1..]));
      StringsRewritten(m, items[1..]);
    }
  }

  lemma {:induction false} StringsMapped(ids: seq<Id>, items: seq<Json>)
    ensures StringItems(MapItems(x => MapId(IdMapOf(ids), x), items)) == MapIds(RenamingOf(ids), StringItems(items))
    decreases |items|
  {
    hide IdMapOf, Mapped;
    var g := x => MapId(IdMapOf(ids), x);
    if items != [] {
      assert MapItems(g, items)[1..] == MapItems(g, items[1..]);
      StringsMapped(ids, items[1..]);
    }
  }
}
