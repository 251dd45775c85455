/** Building the inverted index from the stored documents, and the in-memory filter from end to
    end (api/db/services/doc_metadata_service.py, common/metadata_utils.py). */
module MetaIndex {
  import opened PyValues
  import opened EsQuery
  import opened EsFilter
  import opened MetaFilter
  import opened Pushdown

  /** `meta[k][sv].append(id)`, the bucket made first if there is none. */
  function AddToBuckets(buckets: seq<Bucket>, text: string, id: DocId): seq<Bucket> {
    if buckets == [] then [Bucket(text, [id])]
    else if buckets[0].text == text then [Bucket(text, buckets[0].ids + [id])] + buckets[1..]
    else [buckets[0]] + AddToBuckets(buckets[1..], text, id)
  }

  function Add(metas: Index, key: string, text: string, id: DocId): Index {
    metas[key := AddToBuckets(if key in metas then metas[key] else [], text, id)]
  }

  ghost predicate NoEmptyBucket(buckets: seq<Bucket>) {
    forall b <- buckets :: b.ids != []
  }

  lemma {:induction false} AddedAt(buckets: seq<Bucket>, text: string, id: DocId, t: string, i: DocId)
    ensures InBucket(AddToBuckets(buckets, text, id), t, i) <==> InBucket(buckets, t, i) || (t == text && i == id)
    decreases |buckets|
  {
    var r := AddToBuckets(buckets, text, id);
    if buckets == [] {
      assert r[0] == Bucket(text, [id]);
    } else {
      InHeadOrTail(buckets, t, i);
      InHeadOrTail(r, t, i);
      if buckets[0].text != text {
        AddedAt(buckets[1..], text, id, t, i);
      }
    }
  }

  lemma InHeadOrTail(buckets: seq<Bucket>, t: string, i: DocId)
    requires buckets != []
    ensures InBucket(buckets, t, i) <==> (buckets[0].text == t && i in buckets[0].ids) || InBucket(buckets[1..], t, i)
  {
    assert buckets == [buckets[0]] + buckets[1..];
  }

  lemma {:induction false} AddKeepsFull(buckets: seq<Bucket>, text: string, id: DocId)
    requires NoEmptyBucket(buckets)
    ensures NoEmptyBucket(AddToBuckets(buckets, text, id))
    decreases |buckets|
  {
    if buckets != [] {
      assert buckets == [buckets[0]] + buckets[1..];
      AddKeepsFull(buckets[1..], text, id);
    }
  }

  /** One more value of one document. */
  function WithValue(docs: Docs, id: DocId, key: string, d: Datum): Docs
    requires id in docs
  {
    docs[id := docs[id].(meta := docs[id].meta[key := Values(docs[id], key) + [d]])]
  }

  function WithValues(docs: Docs, id: DocId, key: string, values: seq<Datum>): Docs
    requires id in docs
  {
    docs[id := docs[id].(meta := docs[id].meta[key := values])]
  }

  lemma OneMoreValue(docs: Docs, id: DocId, key: string, values: seq<Datum>, d: Datum)
    requires id in docs
    ensures WithValue(WithValues(docs, id, key, values), id, key, d) == WithValues(docs, id, key, values + [d])
  {
    var meta := docs[id].meta;
    assert meta[key := values][key := values + [d]] == meta[key := values + [d]];
  }

  lemma AddKeepsRepresents(py: Python, metas: Index, docs: Docs, kbs: seq<string>, id: DocId, key: string, d: Datum)
    requires Represents(py, metas, docs, kbs)
    requires id in docs && docs[id].kb in kbs
    ensures Represents(py, Add(metas, key, DatumText(py, d), id), WithValue(docs, id, key, d), kbs)
  {
    hide InBucket, DatumText, AddToBuckets, HasText;
    var text := DatumText(py, d);
    var was := if key in metas then metas[key] else [];
    var after, later := Add(metas, key, text, id), WithValue(docs, id, key, d);
    forall t, i ensures InBucket(after[key], t, i) <==> InBucket(was, t, i) || (t == text && i == id) {
      AddedAt(was, text, id, t, i);
    }
    NothingInNoBuckets();
    assert NoEmptyBucket(was);
    AddKeepsFull(was, text, id);
    var values := Values(docs[id], key);
    assert Values(later[id], key) == values + [d];
    forall t ensures HasText(py, values + [d], t) <==> HasText(py, values, t) || t == text {
      HasTextSnoc(py, values, d, t);
    }
    forall k, t, i | k in after && InBucket(after[k], t, i)
      ensures Carries(later, kbs, i, k) && HasText(py, Values(later[i], k), t)
    {
      if !(k == key && t == text && i == id) {
        assert InBucket(metas[k], t, i);
        assert Carries(docs, kbs, i, k);
      }
    }
    forall k, i | Carries(later, kbs, i, k)
      ensures k in after && forall v <- Values(later[i], k) :: InBucket(after[k], DatumText(py, v), i)
    {
      if k == key && i == id {
        forall v <- values + [d] ensures InBucket(after[k], DatumText(py, v), i) {
          assert v in values ==> Carries(docs, kbs, i, k);
        }
      } else {
        assert Carries(docs, kbs, i, k);
      }
    }
  }

  lemma HasTextSnoc(py: Python, values: seq<Datum>, d: Datum, t: string)
    ensures HasText(py, values + [d], t) <==> HasText(py, values, t) || t == DatumText(py, d)
  {
    hide DatumText;
    assert forall v :: v in values + [d] <==> v in values || v == d;
  }

  lemma NothingInNoBuckets()
    ensures forall t, i :: !InBucket([], t, i)
  {
  }

  /** The stored rows of the knowledge bases: distinct ids, each in one of them. */
  ghost predicate Rows(rows: seq<(DocId, Doc)>, kbs: seq<string>) {
    && (forall i, j | 0 <= i < j < |rows| :: rows[i].0 != rows[j].0)
    && (forall row <- rows :: row.1.kb in kbs)
  }

  function DocsOf(rows: seq<(DocId, Doc)>): (r: Docs)
    ensures forall id :: id in r <==> exists row <- rows :: row.0 == id
  {
    if rows == [] then map[]
    else
      var n := |rows| - 1;
      assert rows == rows[..n] + [rows[n]];
      DocsOf(rows[..n])[rows[n].0 := rows[n].1]
  }

  lemma EmptyDocument(py: Python, metas: Index, docs: Docs, kbs: seq<string>, id: DocId, kb: string)
    requires Represents(py, metas, docs, kbs) && id !in docs
    ensures Represents(py, metas, docs[id := Doc(kb, map[])], kbs)
  {
    hide InBucket, DatumText, HasText;
    var after := docs[id := Doc(kb, map[])];
    forall k, i ensures Carries(after, kbs, i, k) <==> Carries(docs, kbs, i, k) {
    }
  }

  /** `if k not in meta: meta[k] = {}` */
  function WithKey(metas: Index, key: string): Index {
    if key in metas then metas else metas[key := []]
  }

  lemma KeyKeepsRepresents(py: Python, metas: Index, docs: Docs, kbs: seq<string>, id: DocId, key: string)
    requires Represents(py, metas, docs, kbs) && id in docs && key !in docs[id].meta
    ensures Represents(py, WithKey(metas, key), WithValues(docs, id, key, []), kbs)
  {
    hide InBucket, DatumText, HasText;
    NothingInNoBuckets();
    var later := WithValues(docs, id, key, []);
    forall k, i ensures Carries(later, kbs, i, k) <==> Carries(docs, kbs, i, k) {
    }
    forall i, k | i in docs ensures Values(later[i], k) == Values(docs[i], k) {
    }
  }

  /** The innermost loop: the values of one key, each under its text. */
  method IndexValues(py: Python, metas: Index, id: DocId, key: string, values: seq<Datum>, kbs: seq<string>, ghost docs: Docs)
    returns (after: Index)
    requires Represents(py, metas, docs, kbs) && id in docs && docs[id].kb in kbs && key !in docs[id].meta
    ensures Represents(py, after, WithValues(docs, id, key, values), kbs)
  {
    hide Represents, Add, DatumText;
    after := WithKey(metas, key);
    KeyKeepsRepresents(py, metas, docs, kbs, id, key);
    assert values[..0] == [];
    for i := 0 to |values|
      invariant Represents(py, after, WithValues(docs, id, key, values[..i]), kbs)
    {
      assert values[..i + 1] == values[..i] + [values[i]];
      AddKeepsRepresents(py, after, WithValues(docs, id, key, values[..i]), kbs, id, key, values[i]);
      OneMoreValue(docs, id, key, values[..i], values[i]);
      after := Add(after, key, DatumText(py, values[i]), id);
    }
    assert values[..|values|] == values;
  }

  /** The loop over the keys of one document, which come in any order. */
  method IndexDocument(py: Python, metas: Index, id: DocId, doc: Doc, kbs: seq<string>, ghost docs: Docs)
    returns (after: Index)
    requires Represents(py, metas, docs, kbs) && id !in docs && doc.kb in kbs
    ensures Represents(py, after, docs[id := doc], kbs)
  {
    hide Represents, DatumText;
    after := metas;
    var left := doc.meta.Keys;
    ghost var sofar := docs[id := Doc(doc.kb, map[])];
    EmptyDocument(py, metas, docs, kbs, id, doc.kb);
    assert doc.meta - left == map[];
    while left != {}
      invariant left <= doc.meta.Keys
      invariant id in sofar && sofar == docs[id := Doc(doc.kb, doc.meta - left)]
      invariant Represents(py, after, sofar, kbs)
      decreases left
    {
      var key :| key in left;
      after := IndexValues(py, after, id, key, doc.meta[key], kbs, sofar);
      assert (doc.meta - left)[key := doc.meta[key]] == doc.meta - (left - {key});
      sofar := WithValues(sofar, id, key, doc.meta[key]);
      left := left - {key};
    }
    assert doc.meta - {} == doc.meta;
  }

  lemma RowsUpTo(rows: seq<(DocId, Doc)>, n: nat)
    requires n < |rows| && forall i, j | 0 <= i < j < |rows| :: rows[i].0 != rows[j].0
    ensures rows[n].0 !in DocsOf(rows[..n])
    ensures DocsOf(rows[..n + 1]) == DocsOf(rows[..n])[rows[n].0 := rows[n].1]
  {
    assert rows[..n + 1][..n] == rows[..n] && rows[..n + 1][n] == rows[n];
  }

  /** `get_flatted_meta_by_kbs`, once the rows are fetched. */
  method BuildIndex(py: Python, rows: seq<(DocId, Doc)>, kbs: seq<string>) returns (metas: Index)
    requires Rows(rows, kbs)
    ensures Represents(py, metas, DocsOf(rows), kbs)
  {
    hide Represents, DocsOf;
    metas := map[];
    NothingIsRepresented(py, kbs);
    assert rows[..0] == [];
    for n := 0 to |rows|
      invariant Represents(py, metas, DocsOf(rows[..n]), kbs)
    {
      RowsUpTo(rows, n);
      assert rows[n] in rows;
      metas := IndexDocument(py, metas, rows[n].0, rows[n].1, kbs, DocsOf(rows[..n]));
    }
    assert rows[..|rows|] == rows;
  }

  lemma NothingIsRepresented(py: Python, kbs: seq<string>)
    ensures Represents(py, map[], DocsOf([]), kbs)
  {
  }

  /** The documents within the index that the compiled query hits. */
  predicate IsHit(py: Python, e: Engine, docs: Docs, kbs: seq<string>, filters: seq<Filter>, logic: Logic, id: DocId) {
    && id in docs && PlanPushdown(py, filters, logic).Ok?
    && Hits(e, docs[id], PlanPushdown(py, filters, logic).value.ToQuery(kbs))
  }

  ghost predicate AllAgreeable(py: Python, docs: Docs, kbs: seq<string>, filters: seq<Filter>) {
    Sane(py) && filters != [] && forall f <- filters :: Agreeable(py, docs, kbs, f)
  }

  /** The in-memory path from the stored rows to the chosen documents, which for the conditions
      the two sides are meant to agree on are the hits of the compiled query: it does not matter
      which of the two ways a request takes. */
  method FilterInMemory(py: Python, rows: seq<(DocId, Doc)>, kbs: seq<string>, filters: seq<Filter>, logic: Logic)
    returns (found: set<DocId>)
    requires Rows(rows, kbs)
    ensures AllAgreeable(py, DocsOf(rows), kbs, filters) && !logic.BadLogic? ==>
      forall e: Engine, id: DocId :: id in found <==> IsHit(py, e, DocsOf(rows), kbs, filters, logic, id)
  {
    hide Represents, DocsOf, Chosen, IsHit, AllAgreeable;
    var metas := BuildIndex(py, rows, kbs);
    found := Run(py, metas, filters, logic);
    if AllAgreeable(py, DocsOf(rows), kbs, filters) && !logic.BadLogic? {
      forall e: Engine, id: DocId ensures id in found <==> IsHit(py, e, DocsOf(rows), kbs, filters, logic, id) {
        ChosenIsHit(py, e, DocsOf(rows), kbs, metas, filters, logic, id);
      }
    }
  }

  lemma ChosenIsHit(
    py: Python, e: Engine, docs: Docs, kbs: seq<string>, metas: Index,
    filters: seq<Filter>, logic: Logic, id: DocId)
    requires Represents(py, metas, docs, kbs) && AllAgreeable(py, docs, kbs, filters) && !logic.BadLogic?
    ensures Chosen(py, metas, filters, logic, id) <==> IsHit(py, e, docs, kbs, filters, logic, id)
  {
    hide Represents, Hits, Agreeable, Sane, PlanPushdown, Chosen;
    PushdownPreservesMeaning(py, e, docs, kbs, metas, filters, logic, id);
  }
}
