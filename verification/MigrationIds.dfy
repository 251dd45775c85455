/** The renaming of component ids: when it is injective, and what of an id it leaves visible. */
module MigrationIds {
  import opened Json
  import opened Text
  import opened References
  import opened Migration
  import opened MigrationFixpoint
  import opened CanvasGraph
  import opened CanvasRenaming
  import opened CanvasLoading

  function RenamingOf(ids: seq<string>): Renaming {
    id => Mapped(IdMapOf(ids), id)
  }

  /** The new name of a legacy id is not taken already. */
  ghost predicate NoClash(ids: seq<string>) {
    forall id <- ids | IsLegacyId(id) :: RenamedId(id) !in ids
  }

  /** Legacy ids keep apart from each other; only a taken new name can make two ids one. */
  lemma LegacyIdsStayApart(a: string, b: string)
    requires IsLegacyId(a) && IsLegacyId(b) && RenamedId(a) == RenamedId(b)
    ensures a == b
  {
    var r := RenamedId(a);
    assert r == RenamedId(b);
    if StartsWith(a, "Splitter:") {
      assert r[1] == 'o' && r[0] == 'T';
      assert StartsWith(b, "Splitter:");
      assert a[9..] == r[13..] == b[9..];
      assert a == a[..9] + a[9..] && b == b[..9] + b[9..];
    } else if StartsWith(a, "HierarchicalMerger:") {
      assert r[1] == 'i' && r[0] == 'T';
      assert StartsWith(b, "HierarchicalMerger:");
      assert a[19..] == r[13..] == b[19..];
      assert a == a[..19] + a[19..] && b == b[..19] + b[19..];
    } else {
      assert r[0] == 'D';
      assert StartsWith(b, "PDFGenerator:");
      assert a[13..] == r[13..] == b[13..];
      assert a == a[..13] + a[13..] && b == b[..13] + b[13..];
    }
  }

  /** The id map is injective on the component ids exactly when no new name is taken. */
  lemma InjectiveIffNoClash(ids: seq<string>)
    ensures (forall a, b | a in ids && b in ids && RenamedId(a) == RenamedId(b) :: a == b) <==> NoClash(ids)
  {
    hide RenamedId, IsLegacyId;
    forall a ensures IsLegacyId(a) ==> RenamedId(a) != a
             ensures !IsLegacyId(a) ==> RenamedId(a) == a
             ensures RenamedId(RenamedId(a)) == RenamedId(a) {
      RenameOnce(a);
    }
    forall a, b | IsLegacyId(a) && IsLegacyId(b) && RenamedId(a) == RenamedId(b) ensures a == b {
      LegacyIdsStayApart(a, b);
    }
  }

  lemma MappedIs(ids: seq<string>, id: string)
    requires id in ids
    ensures RenamingOf(ids)(id) == RenamedId(id)
  {
  }

  // ---- what the renaming leaves visible ----

  lemma RenamedShape(id: string)
    ensures RenamedId(id) == "" <==> id == ""
    ensures IsIdText(id) ==> IsIdText(RenamedId(id)) && (IsTightId(RenamedId(id)) <==> IsTightId(id))
  {
    hide IsIdText, IsTightId;
    PrefixesAreTight();
    if StartsWith(id, "Splitter:") {
      PrefixShape("Splitter:", "TokenChunker:", id);
    } else if StartsWith(id, "HierarchicalMerger:") {
      PrefixShape("HierarchicalMerger:", "TitleChunker:", id);
    } else if StartsWith(id, "PDFGenerator:") {
      PrefixShape("PDFGenerator:", "DocGenerator:", id);
    }
  }

  lemma PrefixesAreTight()
    ensures IsTightId("Splitter:") && IsTightId("TokenChunker:")
    ensures IsTightId("HierarchicalMerger:") && IsTightId("TitleChunker:")
    ensures IsTightId("PDFGenerator:") && IsTightId("DocGenerator:")
  {
  }

  lemma PrefixShape(p: string, q: string, id: string)
    requires p != "" && q != "" && IsTightId(p) && IsTightId(q) && StartsWith(id, p)
    ensures IsIdText(id) ==> IsIdText(q + id[|p|..])
    ensures IsTightId(q + id[|p|..]) <==> IsTightId(id)
  {
    var w := id[|p|..];
    forall i | 0 <= i < |w| ensures w[i] == id[|p| + i] == (q + w)[|q| + i] {
    }
    assert forall i | 0 <= i < |p| :: id[i] == p[i];
    assert forall i | 0 <= i < |q| :: (q + w)[i] == q[i];
  }

  lemma RenamingKeepsShape(ids: seq<string>)
    ensures KeepsIdShape(RenamingOf(ids))
  {
    hide RenamedId, IsIdText, IsTightId;
    var f := RenamingOf(ids);
    forall id | IsIdText(id) ensures IsIdText(f(id)) && (IsTightId(f(id)) <==> IsTightId(id)) {
      RenamedShape(id);
    }
  }

  /** No occurrence of "userfillup" starts inside the prefix. */
  ghost predicate HidesNothing(p: string) {
    forall i | 0 <= i < |p| :: LowerChar(p[i]) == 'u' ==> i + 1 < |p| && LowerChar(p[i + 1]) != 's'
  }

  lemma FillUpBehind(p: string, w: string)
    requires HidesNothing(p)
    ensures LooksLikeFillUp(p + w) <==> LooksLikeFillUp(w)
  {
    var t, x, y := "userfillup", Lower(p + w), Lower(w);
    forall i | 0 <= i <= |w| ensures OccursAt(t, y, i) <==> OccursAt(t, x, |p| + i) {
      if i <= |w| - |t| {
        assert y[i..i + |t|] == x[|p| + i..|p| + i + |t|];
      }
    }
    assert t[0] == 'u' && t[1] == 's';
    forall i | 0 <= i < |p| ensures !OccursAt(t, x, i) {
      if i <= |x| - |t| {
        var cut := x[i..i + |t|];
        assert cut[0] == LowerChar(p[i]);
        if i + 1 < |p| {
          assert cut[1] == LowerChar(p[i + 1]);
        }
      }
    }
    if LooksLikeFillUp(p + w) {
      var i :| 0 <= i <= |x| && OccursAt(t, x, i);
      assert OccursAt(t, y, i - |p|);
    }
    if LooksLikeFillUp(w) {
      var i :| 0 <= i <= |y| && OccursAt(t, y, i);
      assert OccursAt(t, x, |p| + i);
    }
  }

  lemma OldPrefixesHideNothing()
    ensures HidesNothing("Splitter:") && HidesNothing("HierarchicalMerger:") && HidesNothing("PDFGenerator:")
  {
  }

  lemma NewPrefixesHideNothing()
    ensures HidesNothing("TokenChunker:") && HidesNothing("TitleChunker:") && HidesNothing("DocGenerator:")
  {
  }

  lemma RenamedLooksTheSame(id: string)
    ensures LooksLikeFillUp(RenamedId(id)) <==> LooksLikeFillUp(id)
  {
    hide LooksLikeFillUp, HidesNothing;
    OldPrefixesHideNothing();
    NewPrefixesHideNothing();
    if StartsWith(id, "Splitter:") {
      Swapped("Splitter:", "TokenChunker:", id);
    } else if StartsWith(id, "HierarchicalMerger:") {
      Swapped("HierarchicalMerger:", "TitleChunker:", id);
    } else if StartsWith(id, "PDFGenerator:") {
      Swapped("PDFGenerator:", "DocGenerator:", id);
    }
  }

  lemma Swapped(p: string, q: string, id: string)
    requires HidesNothing(p) && HidesNothing(q) && StartsWith(id, p)
    ensures LooksLikeFillUp(q + id[|p|..]) <==> LooksLikeFillUp(id)
  {
    hide LooksLikeFillUp, HidesNothing;
    FillUpBehind(p, id[|p|..]);
    FillUpBehind(q, id[|p|..]);
    assert id == p + id[|p|..];
  }

  lemma RenamingIsFaithful(fields: seq<Field>)
    requires NoClash(Keys(fields)) && "" !in Keys(fields)
    ensures IsFaithful(RenamingOf(Keys(fields)), GraphOf(fields))
  {
    hide RenamedId, LooksLikeFillUp, ComponentAt, NoClash;
    var ids := Keys(fields);
    var f, g := RenamingOf(ids), GraphOf(fields);
    InjectiveIffNoClash(ids);
    forall a, b | a in g.cpn.Keys && b in g.cpn.Keys && f(a) == f(b) ensures a == b {
      MappedIs(ids, a);
      MappedIs(ids, b);
    }
    BeginStays();
    forall id <- g.cpn ensures f(id) != "" && (LooksLikeFillUp(f(id)) <==> LooksLikeFillUp(id)) {
      MappedIs(ids, id);
      RenamedShape(id);
      RenamedLooksTheSame(id);
    }
  }

  lemma BeginStays()
    ensures RenamedId(BEGIN) == BEGIN
  {
    assert BEGIN[0] == 'b';
  }
}
