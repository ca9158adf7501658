/** What composing a primary, or a chunk of primaries, finds and sends. */
module Compose {
  import opened Order
  import opened Json
  import opened Keys
  import opened Config
  import opened Index
  import opened JoinModel
  import opened Incremental
  import opened Lookups
  import opened Backfill
  import opened RowState

  // ---- embedding what lookups found --------------------------------------

  /** Embed the rows found per relation; a relation without a key is skipped. */
  function EmbedFound(related: seq<RelatedDef>, fields: Fields, found: seq<Option<seq<Json>>>): Fields
    requires |found| == |related|
  {
    if related == [] then fields
    else
      var n := |related| - 1;
      var before := EmbedFound(related[..n], fields, found[..n]);
      if found[n].Some? then before[related[n].embedAs := Shape(related[n], found[n].value)] else before
  }

  function EmbedDoc(related: seq<RelatedDef>, row: Json, found: seq<Option<seq<Json>>>): Json
    requires |found| == |related|
  {
    if row.Obj? then Obj(EmbedFound(related, row.fields, found)) else row
  }

  lemma EmbedNext(related: seq<RelatedDef>, j: nat, row: Json, found: seq<Option<seq<Json>>>, f: Option<seq<Json>>)
    requires j < |related| && |found| == j && row.Obj?
    ensures EmbedDoc(related[..j + 1], row, found + [f]) ==
      var before := EmbedDoc(related[..j], row, found);
      if f.Some? then Obj(before.fields[related[j].embedAs := Shape(related[j], f.value)]) else before
  {
    assert related[..j + 1][..j] == related[..j] && (found + [f])[..j] == found;
  }

  /** What a primary with these keys may have found for one relation. */
  ghost predicate FoundAt(fetch: Fetcher, d: JoinDef, r: RelatedDef, st: State, fks: map<string, PkValue>,
                          f: Option<seq<Json>>)
  {
    if r.id in fks then f.Some? && Answers(fetch, d, r, st, fks[r.id], f.value) else f.None?
  }

  /** The first `j` relations of one primary are looked up and embedded. */
  ghost predicate ComposedSoFar(fetch: Fetcher, d: JoinDef, st: State, row: Json, fks: map<string, PkValue>, j: nat,
                                found: seq<Option<seq<Json>>>, doc: Json, now: State)
    requires j <= |d.related|
  {
    && row.Obj? && |found| == j && doc == EmbedDoc(d.related[..j], row, found)
    && now == AfterRelations(fetch, d, d.related[..j], st, fks)
    && now.primary == st.primary && now.reverse == st.reverse
    && forall i :: 0 <= i < j ==>
      FoundAt(fetch, d, d.related[i], AfterRelations(fetch, d, d.related[..i], st, fks), fks, found[i])
  }

  lemma {:induction false} ComposeStart(fetch: Fetcher, d: JoinDef, st: State, row: Json, fks: map<string, PkValue>)
    requires row.Obj?
    ensures ComposedSoFar(fetch, d, st, row, fks, 0, [], row, st)
  {
    assert d.related[..0] == [];
  }

  lemma {:induction false} ComposeStep(fetch: Fetcher, d: JoinDef, st: State, row: Json, fks: map<string, PkValue>,
                                       j: nat, found: seq<Option<seq<Json>>>, doc: Json, now: State,
                                       f: Option<seq<Json>>)
    requires j < |d.related| && ComposedSoFar(fetch, d, st, row, fks, j, found, doc, now)
    requires FoundAt(fetch, d, d.related[j], now, fks, f)
    ensures doc.Obj?
    ensures var r := d.related[j];
      ComposedSoFar(fetch, d, st, row, fks, j + 1, found + [f],
        if f.Some? then Obj(doc.fields[r.embedAs := Shape(r, f.value)]) else doc,
        if r.id in fks then AfterLookup(fetch, d, r, now, fks[r.id]) else now)
  {
    hide Answers, AfterLookup, Shape, EmbedFound;
    EmbedNext(d.related, j, row, found, f);
    assert d.related[..j + 1][..j] == d.related[..j];
    if d.related[j].id in fks { LookupKeepsPrimaries(fetch, d, d.related[j], now, fks[d.related[j].id]); }
  }

  lemma {:induction false} SourceAnswers(fetch: Fetcher, d: JoinDef, r: RelatedDef, st: State, key: PkValue,
                                         rows: seq<Json>)
    requires Consults(d, r, st, key) && Ask(fetch, r, key) == Fetched(rows)
    ensures Answers(fetch, d, r, st, key, rows)
  {
  }

  lemma {:induction false} LookupKeepsPrimaries(fetch: Fetcher, d: JoinDef, r: RelatedDef, st: State, key: PkValue)
    ensures var st' := AfterLookup(fetch, d, r, st, key);
      st'.primary == st.primary && st'.reverse == st.reverse
    ensures d.backfill.NoBackfill? ==> !Consults(d, r, st, key)
  {
    StoreAnswerFrame(fetch, st, r, key, r);
  }

  // ---- a chunk of primaries ----------------------------------------------

  function StoredOf(st: State, table: string, affected: seq<RowKey>): (keys: seq<RowKey>)
    ensures forall p :: p in keys <==> p in affected && p.0 == table && p in st.primary
  {
    if affected == [] then []
    else
      var n := |affected| - 1;
      var p := affected[n];
      StoredOf(st, table, affected[..n]) + if p.0 == table && p in st.primary then [p] else []
  }

  lemma {:induction false} StoredOfNone(st: State, table: string, affected: seq<RowKey>)
    ensures StoredOf(st, table, affected[..0]) == [] && RawsOf(st, []) == [] && FksOf(st, []) == []
  {
  }

  lemma {:induction false} StoredOfNext(st: State, table: string, affected: seq<RowKey>, i: nat)
    requires i < |affected|
    ensures var keys, p := StoredOf(st, table, affected[..i]), affected[i];
      var next := if p.0 == table && p in st.primary then keys + [p] else keys;
      && StoredOf(st, table, affected[..i + 1]) == next
      && (p.0 == table && p in st.primary ==>
           RawsOf(st, next) == RawsOf(st, keys) + [st.primary[p].raw]
             && FksOf(st, next) == FksOf(st, keys) + [st.primary[p].fks])
  {
    assert affected[..i + 1][..i] == affected[..i];
  }

  function RawsOf(st: State, keys: seq<RowKey>): (rows: seq<Json>)
    requires forall p :: p in keys ==> p in st.primary
    ensures |rows| == |keys|
  {
    seq(|keys|, i requires 0 <= i < |keys| => st.primary[keys[i]].raw)
  }

  function FksOf(st: State, keys: seq<RowKey>): (rows: seq<map<string, PkValue>>)
    requires forall p :: p in keys ==> p in st.primary
    ensures |rows| == |keys|
  {
    seq(|keys|, i requires 0 <= i < |keys| => st.primary[keys[i]].fks)
  }

  function ChunkOf(d: JoinDef, st: State, affected: seq<RowKey>): seq<map<string, PkValue>> {
    FksOf(st, StoredOf(st, d.table, affected))
  }

  function Upserts(keys: seq<RowKey>, docs: seq<Json>): (sent: seq<Emission>)
    requires |keys| == |docs|
    ensures |sent| == |keys|
  {
    seq(|keys|, i requires 0 <= i < |keys| => Upsert(keys[i], docs[i]))
  }

  function EmbedOne(r: RelatedDef, outcomes: map<PkValue, seq<Json>>, fks: map<string, PkValue>, doc: Json): Json {
    var found := FoundOne(r, outcomes, fks);
    if found.Some? && doc.Obj? then Obj(doc.fields[r.embedAs := Shape(r, found.value)]) else doc
  }

  function FoundOne(r: RelatedDef, outcomes: map<PkValue, seq<Json>>, fks: map<string, PkValue>): Option<seq<Json>> {
    if r.id !in fks then None
    else Some(if fks[r.id] in outcomes then outcomes[fks[r.id]] else [])
  }

  /** Primary `i` of the chunk found, for relation `j`, what a lookup answers once
      the relations before it have been resolved for the whole chunk. */
  ghost predicate FoundFor(fetch: Fetcher, d: JoinDef, st: State, chunk: seq<map<string, PkValue>>,
                           founds: seq<seq<Option<seq<Json>>>>, i: int, j: int)
    requires 0 <= i < |founds| && |founds| == |chunk| && 0 <= j < |d.related|
  {
    j < |founds[i]| && FoundAt(fetch, d, d.related[j], AfterBatches(fetch, d, d.related[..j], st, chunk), chunk[i],
      founds[i][j])
  }

  /** One upsert per stored primary of the chunk, in order, carrying its document. */
  ghost predicate ChunkSent(d: JoinDef, st: State, affected: seq<RowKey>, founds: seq<seq<Option<seq<Json>>>>,
                            was: seq<Emission>, now: seq<Emission>)
  {
    var keys := StoredOf(st, d.table, affected);
    |founds| == |keys| && (forall i :: 0 <= i < |keys| ==> |founds[i]| == |d.related|)
    && exists docs :: DocsSent(d, RawsOf(st, keys), founds, keys, docs, was, now)
  }

  ghost predicate DocsSent(d: JoinDef, raws: seq<Json>, founds: seq<seq<Option<seq<Json>>>>, keys: seq<RowKey>,
                           docs: seq<Json>, was: seq<Emission>, now: seq<Emission>)
  {
    |docs| == |keys| && now == was + Upserts(keys, docs) && ChunkComposed(d, raws, founds, |d.related|, docs)
  }

  /** The first `j` relations are embedded in every document of the chunk. */
  ghost predicate ChunkComposed(d: JoinDef, raws: seq<Json>, founds: seq<seq<Option<seq<Json>>>>, j: nat,
                                docs: seq<Json>)
    requires j <= |d.related|
  {
    |docs| == |founds| == |raws| &&
    forall i :: 0 <= i < |docs| ==> |founds[i]| == j && docs[i] == EmbedDoc(d.related[..j], raws[i], founds[i])
  }

  lemma {:induction false} ComposedSizes(d: JoinDef, raws: seq<Json>, founds: seq<seq<Option<seq<Json>>>>,
                                         docs: seq<Json>)
    requires ChunkComposed(d, raws, founds, |d.related|, docs)
    ensures |docs| == |founds| == |raws| && forall i :: 0 <= i < |founds| ==> |founds[i]| == |d.related|
  {
  }

  lemma {:induction false} NotStoredAsObject(st: State, d: JoinDef, affected: seq<RowKey>)
    ensures var raws := RawsOf(st, StoredOf(st, d.table, affected));
      (exists i :: 0 <= i < |raws| && !raws[i].Obj?) ==> exists p :: p in st.primary && !st.primary[p].raw.Obj?
  {
    var keys := StoredOf(st, d.table, affected);
    forall i | 0 <= i < |keys| && !RawsOf(st, keys)[i].Obj?
      ensures exists p :: p in st.primary && !st.primary[p].raw.Obj?
    {
      assert keys[i] in st.primary;
    }
  }

  lemma {:induction false} NothingEmbedded(d: JoinDef, docs: seq<Json>, founds: seq<seq<Option<seq<Json>>>>)
    requires |docs| == |founds| && forall i :: 0 <= i < |founds| ==> founds[i] == []
    ensures ChunkComposed(d, docs, founds, 0, docs)
  {
  }

  ghost function NextFounds(r: RelatedDef, outcomes: map<PkValue, seq<Json>>, chunk: seq<map<string, PkValue>>,
                            founds: seq<seq<Option<seq<Json>>>>): (next: seq<seq<Option<seq<Json>>>>)
    requires |founds| == |chunk|
    ensures |next| == |founds|
  {
    seq(|chunk|, i requires 0 <= i < |chunk| => founds[i] + [FoundOne(r, outcomes, chunk[i])])
  }

  lemma {:induction false} EmbedSteps(d: JoinDef, j: nat, raws: seq<Json>, founds: seq<seq<Option<seq<Json>>>>,
                                      outcomes: map<PkValue, seq<Json>>, chunk: seq<map<string, PkValue>>,
                                      docs: seq<Json>, docs': seq<Json>)
    requires j < |d.related| && |docs| == |docs'| == |chunk| && |founds| == |chunk|
    requires ChunkComposed(d, raws, founds, j, docs)
    requires forall i :: 0 <= i < |chunk| ==> docs'[i] == EmbedOne(d.related[j], outcomes, chunk[i], docs[i])
    requires forall i :: 0 <= i < |chunk| && d.related[j].id in chunk[i] ==> docs[i].Obj?
    ensures ChunkComposed(d, raws, NextFounds(d.related[j], outcomes, chunk, founds), j + 1, docs')
  {
    hide EmbedDoc, EmbedOne, FoundOne;
    forall i | 0 <= i < |chunk|
      ensures docs'[i] == EmbedDoc(d.related[..j + 1], raws[i], NextFounds(d.related[j], outcomes, chunk, founds)[i])
    {
      EmbedStep(d, j, raws[i], founds[i], outcomes, chunk[i], docs[i]);
    }
  }

  lemma {:induction false} FoundSteps(fetch: Fetcher, d: JoinDef, st: State, chunk: seq<map<string, PkValue>>,
                                      founds: seq<seq<Option<seq<Json>>>>, j: nat, at: State,
                                      outcomes: map<PkValue, seq<Json>>)
    requires j < |d.related| && |founds| == |chunk| && at == AfterBatches(fetch, d, d.related[..j], st, chunk)
    requires forall i :: 0 <= i < |founds| ==> |founds[i]| == j
    requires forall k :: k in ChunkKeys(chunk, d.related[j].id) ==>
      k in outcomes && Answers(fetch, d, d.related[j], at, k, outcomes[k])
    requires forall i, a :: 0 <= i < |chunk| && 0 <= a < j ==> FoundFor(fetch, d, st, chunk, founds, i, a)
    ensures forall i, a :: 0 <= i < |chunk| && 0 <= a < j + 1 ==>
      FoundFor(fetch, d, st, chunk, NextFounds(d.related[j], outcomes, chunk, founds), i, a)
  {
    hide FoundAt, Answers, AfterBatches, ChunkKeys;
    var next := NextFounds(d.related[j], outcomes, chunk, founds);
    forall i, a | 0 <= i < |chunk| && 0 <= a < j + 1 ensures FoundFor(fetch, d, st, chunk, next, i, a) {
      if a == j {
        FoundStep(fetch, d, st, chunk, next, i, j, at, outcomes);
      } else {
        assert FoundFor(fetch, d, st, chunk, founds, i, a);
      }
    }
  }

  lemma {:induction false} BatchesStart(fetch: Fetcher, d: JoinDef, st: State, chunk: seq<map<string, PkValue>>)
    ensures AfterBatches(fetch, d, d.related[..0], st, chunk) == st
  {
  }

  lemma {:induction false} BatchStep(fetch: Fetcher, d: JoinDef, st: State, chunk: seq<map<string, PkValue>>, j: nat)
    requires j < |d.related|
    ensures var at := AfterBatches(fetch, d, d.related[..j], st, chunk);
      var next := AfterBatches(fetch, d, d.related[..j + 1], st, chunk);
      && next == AfterBatch(fetch, d, d.related[j], at, ChunkKeys(chunk, d.related[j].id))
      && next.primary == at.primary && next.reverse == at.reverse
    ensures d.backfill.NoBackfill? ==> forall st', k :: !Consults(d, d.related[j], st', k)
  {
    assert d.related[..j + 1][..j] == d.related[..j];
    var r, at := d.related[j], AfterBatches(fetch, d, d.related[..j], st, chunk);
    StoreAnswersFrame(fetch, at, r, Unresolved(d, r, at, Unique(ChunkKeys(chunk, r.id))), r);
  }

  lemma {:induction false} NotAnObject(d: JoinDef, j: nat, docs: seq<Json>, raws: seq<Json>,
                                       founds: seq<seq<Option<seq<Json>>>>, r: RelatedDef,
                                       chunk: seq<map<string, PkValue>>)
    requires j <= |d.related| && |docs| == |chunk| && ChunkComposed(d, raws, founds, j, docs)
    requires exists i :: 0 <= i < |chunk| && r.id in chunk[i] && !docs[i].Obj?
    ensures exists i :: 0 <= i < |raws| && !raws[i].Obj?
  {
    var i :| 0 <= i < |chunk| && r.id in chunk[i] && !docs[i].Obj?;
    assert !raws[i].Obj?;
  }

  lemma {:induction false} EmbedStep(d: JoinDef, j: nat, raw: Json, found: seq<Option<seq<Json>>>,
                                     outcomes: map<PkValue, seq<Json>>, fks: map<string, PkValue>, doc: Json)
    requires j < |d.related| && |found| == j && doc == EmbedDoc(d.related[..j], raw, found)
    requires d.related[j].id in fks ==> doc.Obj?
    ensures EmbedOne(d.related[j], outcomes, fks, doc) ==
      EmbedDoc(d.related[..j + 1], raw, found + [FoundOne(d.related[j], outcomes, fks)])
  {
    if raw.Obj? { EmbedNext(d.related, j, raw, found, FoundOne(d.related[j], outcomes, fks)); }
  }

  lemma {:induction false} FoundStep(fetch: Fetcher, d: JoinDef, st: State, chunk: seq<map<string, PkValue>>,
                                     founds: seq<seq<Option<seq<Json>>>>, i: nat, j: nat, at: State,
                                     outcomes: map<PkValue, seq<Json>>)
    requires j < |d.related| && i < |founds| && |founds| == |chunk| && |founds[i]| == j + 1
    requires at == AfterBatches(fetch, d, d.related[..j], st, chunk)
    requires founds[i][j] == FoundOne(d.related[j], outcomes, chunk[i])
    requires forall k :: k in ChunkKeys(chunk, d.related[j].id) ==>
      k in outcomes && Answers(fetch, d, d.related[j], at, k, outcomes[k])
    ensures FoundFor(fetch, d, st, chunk, founds, i, j)
  {
    hide Answers, AfterBatches;
    var r := d.related[j];
    if r.id in chunk[i] {
      ChunkKeyAt(chunk, r.id, i);
      var before := ChunkKeys(chunk[..i], r.id);
      assert ChunkKeys(chunk, r.id)[|before|] == chunk[i][r.id];
    }
  }

  // ---- without backfill ---------------------------------------------------

  lemma {:induction false} NoneUnresolved(d: JoinDef, r: RelatedDef, st: State, keys: seq<PkValue>)
    requires d.backfill.NoBackfill?
    ensures Unresolved(d, r, st, keys) == []
  {
    if keys != [] { NoneUnresolved(d, r, st, keys[..|keys| - 1]); }
  }

  lemma {:induction false} NoBackfillBatches(fetch: Fetcher, d: JoinDef, related: seq<RelatedDef>, st: State,
                                             chunk: seq<map<string, PkValue>>)
    requires d.backfill.NoBackfill?
    ensures AfterBatches(fetch, d, related, st, chunk) == st
  {
    if related != [] {
      var n := |related| - 1;
      NoBackfillBatches(fetch, d, related[..n], st, chunk);
      NoneUnresolved(d, related[n], st, Unique(ChunkKeys(chunk, related[n].id)));
    }
  }

  lemma {:induction false} NoBackfillRelations(fetch: Fetcher, d: JoinDef, related: seq<RelatedDef>, st: State,
          fks: map<string, PkValue>)
    requires d.backfill.NoBackfill?
    ensures AfterRelations(fetch, d, related, st, fks) == st
  {
    if related != [] { NoBackfillRelations(fetch, d, related[..|related| - 1], st, fks); }
  }

  ghost predicate KeyedBy(d: JoinDef, row: Json, fks: map<string, PkValue>) {
    forall r :: r in d.related ==> r.id in fks && fks[r.id] == KeyOf(row, r.from)
  }

  function Plain(found: seq<Option<seq<Json>>>): (rows: seq<seq<Json>>)
    ensures |rows| == |found|
  {
    seq(|found|, i requires 0 <= i < |found| => found[i].GetOr([]))
  }

  lemma {:induction false} EmbedAll(related: seq<RelatedDef>, fields: Fields, found: seq<Option<seq<Json>>>)
    requires |found| == |related| && forall j :: 0 <= j < |found| ==> found[j].Some?
    ensures EmbedFound(related, fields, found) == Embed(related, fields, Plain(found))
  {
    if related != [] {
      var n := |related| - 1;
      EmbedAll(related[..n], fields, found[..n]);
      assert Plain(found)[..n] == Plain(found[..n]);
    }
  }

  lemma {:induction false} CacheAnswers(fetch: Fetcher, d: JoinDef, r: RelatedDef, st: State, key: PkValue,
                                        rows: seq<Json>)
    requires d.backfill.NoBackfill? && !key.IsNull() && Answers(fetch, d, r, st, key, rows)
    ensures FoundIn(rows, IndexedRows(st, r, key))
  {
    if Bucket(st.byFk, r.id, key) == {} {
      assert IndexedRows(st, r, key) == map[];
      assert Lists([], map[]) && RowsIn([], map[]) == [];
    }
  }

  lemma {:induction false} KeyNotNull(row: Json, columns: seq<string>)
    ensures !KeyOf(row, columns).IsNull()
  {
  }

  /** Without backfill a composed document is the cached view of its row. */
  lemma {:induction false} DocRenders(fetch: Fetcher, d: JoinDef, st: State, row: Json, fks: map<string, PkValue>,
                                      found: seq<Option<seq<Json>>>)
    requires d.backfill.NoBackfill? && row.Obj? && KeyedBy(d, row, fks) && |found| == |d.related|
    requires forall j :: 0 <= j < |d.related| ==> FoundAt(fetch, d, d.related[j], st, fks, found[j])
    ensures Renders(d, EmbedDoc(d.related, row, found), DocView(row, IndexedMatches(d, st, row)))
  {
    hide FoundIn, IndexedRows, KeyOf, Answers, EmbedFound, Embed;
    var v := DocView(row, IndexedMatches(d, st, row));
    forall j | 0 <= j < |d.related| ensures found[j].Some? && FoundIn(found[j].value, v.matches[j]) {
      var r := d.related[j];
      assert r in d.related && FoundAt(fetch, d, r, st, fks, found[j]);
      KeyNotNull(row, r.from);
      CacheAnswers(fetch, d, r, st, fks[r.id], found[j].value);
    }
    EmbedAll(d.related, row.fields, found);
    assert RendersWith(d, EmbedDoc(d.related, row, found), v, Plain(found));
  }

  // ---- what has been sent -------------------------------------------------

  /** One emission for each of `keys` and none other. */
  ghost predicate Sends(sent: seq<Emission>, keys: set<RowKey>) {
    && (forall i, j :: 0 <= i < j < |sent| ==> sent[i].key != sent[j].key)
    && (forall p :: p in keys <==> exists i :: 0 <= i < |sent| && sent[i].key == p)
  }

  /** Each emission carries what the cache holds for its primary. */
  ghost predicate SentShow(d: JoinDef, st: State, sent: seq<Emission>) {
    forall i :: 0 <= i < |sent| ==> Shows(d, EntryOf(sent[i]), IndexView(d, st, sent[i].key))
  }

  /** The stored primaries of `d` among `rows`. */
  ghost function Listed(d: JoinDef, st: State, rows: set<RowKey>): set<RowKey> {
    set p | p in rows && p.0 == d.table && p in st.primary
  }

  lemma {:induction false} StoredOfDistinct(st: State, table: string, affected: seq<RowKey>)
    requires Distinct(affected)
    ensures Distinct(StoredOf(st, table, affected))
  {
    if affected != [] {
      var n := |affected| - 1;
      StoredOfDistinct(st, table, affected[..n]);
      assert affected[n] !in affected[..n];
    }
  }

  lemma {:induction false} SendsMore(d: JoinDef, st: State, sent: seq<Emission>, reached: set<RowKey>,
                                     affected: seq<RowKey>, docs: seq<Json>)
    requires Sends(sent, Listed(d, st, reached)) && Distinct(affected) && reached !! Elements(affected)
    requires |docs| == |StoredOf(st, d.table, affected)|
    ensures Sends(sent + Upserts(StoredOf(st, d.table, affected), docs), Listed(d, st, reached + Elements(affected)))
  {
    hide StoredOf;
    var keys := StoredOf(st, d.table, affected);
    StoredOfDistinct(st, d.table, affected);
    var more := Upserts(keys, docs);
    forall i, j | 0 <= i < j < |sent + more| ensures (sent + more)[i].key != (sent + more)[j].key {
      if i < |sent| <= j {
        assert more[j - |sent|].key == keys[j - |sent|] && keys[j - |sent|] in keys;
        assert sent[i].key in Listed(d, st, reached);
      }
    }
    forall p
      ensures p in Listed(d, st, reached + Elements(affected)) <==>
        exists i :: 0 <= i < |sent + more| && (sent + more)[i].key == p
    {
      if p in Listed(d, st, reached) {
        var i :| 0 <= i < |sent| && sent[i].key == p;
        assert (sent + more)[i].key == p;
      } else if p in keys {
        var i :| 0 <= i < |keys| && keys[i] == p;
        assert (sent + more)[|sent| + i].key == p;
      }
      if i :| 0 <= i < |sent + more| && (sent + more)[i].key == p {
        if i >= |sent| { assert keys[i - |sent|] in keys; } else { assert sent[i].key in Listed(d, st, reached); }
      }
    }
  }

  /** The configuration in which documents are exactly the cached join. */
  ghost predicate Quiet(joins: seq<JoinDef>, d: JoinDef, st: State) {
    Sane(joins, st) && d in joins && d.backfill.NoBackfill?
  }

  lemma {:induction false} StoredKeyedBy(joins: seq<JoinDef>, d: JoinDef, st: State, p: RowKey)
    requires Sane(joins, st) && d in joins && p in st.primary && p.0 == d.table
    ensures st.primary[p].raw.Obj? && KeyedBy(d, st.primary[p].raw, st.primary[p].fks)
  {
    assert StoredWell(joins, st, p);
    PrimaryFks(joins, st, d, p);
    StoredFks(joins, d, st.primary[p].raw);
  }

  lemma {:induction false} ChunkShows(fetch: Fetcher, joins: seq<JoinDef>, d: JoinDef, st: State, affected: seq<RowKey>,
                                      founds: seq<seq<Option<seq<Json>>>>, docs: seq<Json>)
    requires Quiet(joins, d, st) && |founds| == |ChunkOf(d, st, affected)|
    requires ChunkComposed(d, RawsOf(st, StoredOf(st, d.table, affected)), founds, |d.related|, docs)
    requires forall i, j :: 0 <= i < |founds| && 0 <= j < |d.related| ==>
      FoundFor(fetch, d, st, ChunkOf(d, st, affected), founds, i, j)
    ensures SentShow(d, st, Upserts(StoredOf(st, d.table, affected), docs))
  {
    hide StoredOf, Wired, EmbedDoc, FoundAt, Renders, AfterBatches;
    var keys, chunk := StoredOf(st, d.table, affected), ChunkOf(d, st, affected);
    assert d.related[..|d.related|] == d.related;
    forall i | 0 <= i < |keys| ensures Renders(d, docs[i], IndexView(d, st, keys[i]).value) {
      assert keys[i] in keys;
      StoredKeyedBy(joins, d, st, keys[i]);
      forall j | 0 <= j < |d.related| ensures FoundAt(fetch, d, d.related[j], st, chunk[i], founds[i][j]) {
        assert FoundFor(fetch, d, st, chunk, founds, i, j);
        NoBackfillBatches(fetch, d, d.related[..j], st, chunk);
      }
      DocRenders(fetch, d, st, st.primary[keys[i]].raw, chunk[i], founds[i]);
    }
  }

  // ---- walking the pages --------------------------------------------------

  lemma {:induction false} WalkStarts(d: JoinDef, st: State, all: set<RowKey>)
    ensures Reached(all, None) == {} && Sends([], Listed(d, st, {})) && SentShow(d, st, [])
  {
  }

  lemma {:induction false} QuietNeverFails(joins: seq<JoinDef>, d: JoinDef, st: State)
    ensures Quiet(joins, d, st) ==> d.backfill.NoBackfill? && forall p :: p in st.primary ==> st.primary[p].raw.Obj?
  {
    if Quiet(joins, d, st) {
      forall p | p in st.primary ensures st.primary[p].raw.Obj? { assert StoredWell(joins, st, p); }
    }
  }

  lemma {:induction false} AscendsDistinct(rows: seq<RowKey>)
    requires Ascends(RowLt, rows)
    ensures Distinct(rows)
  {
    RowStrictTotal();
  }

  /** Sending one page extends what the walk has sent to exactly the rows reached. */
  lemma {:induction false} WalkSteps(fetch: Fetcher, joins: seq<JoinDef>, d: JoinDef, st: State, at: State,
                                     all: set<RowKey>, after: Option<RowKey>, chunk: seq<RowKey>,
                                     founds: seq<seq<Option<seq<Json>>>>, start: seq<Emission>, was: seq<Emission>,
                                     now: seq<Emission>, limit: nat)
    requires Page(chunk, all, after, limit) && chunk != []
    requires at.primary == st.primary && |was| >= |start| && was[..|start|] == start
    requires ChunkSent(d, at, chunk, founds, was, now)
    requires Sends(was[|start|..], Listed(d, st, Reached(all, after)))
    requires Quiet(joins, d, st) ==> at == st && SentShow(d, st, was[|start|..])
    requires |founds| == |ChunkOf(d, at, chunk)|
    requires forall i, j :: 0 <= i < |founds| && 0 <= j < |d.related| ==>
      FoundFor(fetch, d, at, ChunkOf(d, at, chunk), founds, i, j)
    ensures |now| >= |start| && now[..|start|] == start
    ensures var next := Some(chunk[|chunk| - 1]);
      && Sends(now[|start|..], Listed(d, st, Reached(all, next)))
      && |Reached(all, next)| == |Reached(all, after)| + |chunk|
      && |all - Reached(all, next)| < |all - Reached(all, after)|
    ensures Quiet(joins, d, st) ==>
      SentShow(d, st, now[|start|..]) && AfterBatches(fetch, d, d.related, at, ChunkOf(d, at, chunk)) == st
  {
    hide Page, Sends, SentShow, Quiet, ChunkComposed, StoredOf, FoundFor, AfterBatches, Listed, Upserts, ChunkOf;
    var keys := StoredOf(at, d.table, chunk);
    var docs :| DocsSent(d, RawsOf(at, keys), founds, keys, docs, was, now);
    assert now[|start|..] == was[|start|..] + Upserts(keys, docs);
    WalkReaches(chunk, all, after, limit);
    SameListed(d, at, st, Reached(all, after));
    SendsMore(d, at, was[|start|..], Reached(all, after), chunk, docs);
    SameListed(d, at, st, Reached(all, Some(chunk[|chunk| - 1])));
    if Quiet(joins, d, st) {
      ChunkShows(fetch, joins, d, st, chunk, founds, docs);
      ShowsBoth(d, st, was[|start|..], Upserts(keys, docs));
      QuietNeverFails(joins, d, st);
      NoBackfillBatches(fetch, d, d.related, at, ChunkOf(d, at, chunk));
    }
  }

  lemma {:induction false} SameListed(d: JoinDef, a: State, b: State, rows: set<RowKey>)
    requires a.primary == b.primary
    ensures Listed(d, a, rows) == Listed(d, b, rows)
  {
  }

  /** A page moves the walk on by its rows, all of them new. */
  lemma {:induction false} WalkReaches(chunk: seq<RowKey>, all: set<RowKey>, after: Option<RowKey>, limit: nat)
    requires Page(chunk, all, after, limit) && chunk != []
    ensures Distinct(chunk) && Reached(all, after) !! Elements(chunk)
    ensures var next := Some(chunk[|chunk| - 1]);
      && Reached(all, next) == Reached(all, after) + Elements(chunk)
      && |Reached(all, next)| == |Reached(all, after)| + |chunk|
      && |all - Reached(all, next)| < |all - Reached(all, after)|
  {
    hide Page, Reached;
    PageIsAscending(chunk, all, after, limit);
    PageAdvances(chunk, all, after, limit);
    AscendsDistinct(chunk);
    AscendingSize(chunk);
    assert all - Reached(all, Some(chunk[|chunk| - 1])) == (all - Reached(all, after)) - Elements(chunk);
    FewerLeft(all - Reached(all, after), chunk);
  }

  lemma {:induction false} PageIsAscending(rows: seq<RowKey>, all: set<RowKey>, after: Option<RowKey>, limit: nat)
    requires Page(rows, all, after, limit)
    ensures Ascends(RowLt, rows) && Elements(rows) <= all - Reached(all, after)
  {
  }

  lemma {:induction false} FewerLeft(left: set<RowKey>, chunk: seq<RowKey>)
    requires chunk != [] && Elements(chunk) <= left
    ensures |left - Elements(chunk)| < |left|
  {
    assert chunk[0] in Elements(chunk);
    assert |left - Elements(chunk)| == |left| - |Elements(chunk)|;
  }

  lemma {:induction false} ShowsBoth(d: JoinDef, st: State, a: seq<Emission>, b: seq<Emission>)
    requires SentShow(d, st, a) && SentShow(d, st, b)
    ensures SentShow(d, st, a + b)
  {
  }

  // ---- from what was sent to what an operation announces -----------------

  lemma {:induction false} AnnouncesSent(joins: seq<JoinDef>, d: JoinDef, st: State, touched: set<RowKey>,
                                         sent: seq<Emission>)
    requires OneRolePerKind(joins) && d in joins && Sends(sent, touched) && SentShow(d, st, sent)
    requires forall p: RowKey :: p in touched ==> p.0 == d.table
    ensures Announces(joins, st, touched, sent)
  {
    forall i, d' | 0 <= i < |sent| && d' in joins && d'.table == sent[i].key.0
      ensures Shows(d', EntryOf(sent[i]), IndexView(d', st, sent[i].key))
    {
      assert sent[i].key in touched;
      SameTableSameDef(joins, d, d');
    }
  }

  lemma {:induction false} StillQuiet(joins: seq<JoinDef>, d: JoinDef, st: State, op: RowOp)
    requires Quiet(joins, d, st) && OpIn(joins, op)
    ensures Quiet(joins, d, Apply(st, op))
  {
    ApplyWired(joins, st, op);
  }

  /** The primaries under a relation's keys are those whose rows hold them. */
  lemma {:induction false} KeyRowsAreReferencing(joins: seq<JoinDef>, d: JoinDef, r: RelatedDef, st: State,
          key: PkValue, secondary: Option<PkValue>)
    requires Sane(joins, st) && Has(joins, d, r)
    ensures Listed(d, st, KeyRows(st.reverse, r.id, key, secondary)) ==
      Referencing(TablesOf(st), d, r, {key} + OptionSet(secondary))
  {
    hide KeyOf, Wired, OneRolePerKind, Bucket;
    var keys := {key} + OptionSet(secondary);
    forall p ensures p in KeyRows(st.reverse, r.id, key, secondary) <==> p in Referencing(TablesOf(st), d, r, keys) {
      LinkedIff(joins, st, d, r, p, key);
      if secondary.Some? { LinkedIff(joins, st, d, r, p, secondary.value); }
    }
    assert forall p :: p in Referencing(TablesOf(st), d, r, keys) ==> p.0 == d.table && p in st.primary;
  }

  /** Every stored primary is linked under each of its relations. */
  lemma {:induction false} RelationRowsAreAll(joins: seq<JoinDef>, d: JoinDef, r: RelatedDef, st: State)
    requires Sane(joins, st) && Has(joins, d, r)
    ensures Listed(d, st, RelationRows(st.reverse, r.id)) == OfTable(TablesOf(st).prim, d.table)
  {
    hide KeyOf, Wired;
    forall p | p in st.primary && p.0 == d.table ensures p in RelationRows(st.reverse, r.id) {
      var key := KeyOf(st.primary[p].raw, r.from);
      LinkedIff(joins, st, d, r, p, key);
      assert r.id in st.reverse && key in st.reverse[r.id] && p in st.reverse[r.id][key];
    }
    assert forall p :: p in TablesOf(st).prim <==> p in st.primary;
  }

  lemma {:induction false} OneSent(d: JoinDef, st: State, e: Emission)
    requires Shows(d, EntryOf(e), IndexView(d, st, e.key))
    ensures Sends([e], {e.key}) && SentShow(d, st, [e])
  {
    assert [e][0].key == e.key;
  }

  /** Storing a primary and composing it from the new state shows the new state. */
  lemma {:induction false} StoredDocShows(fetch: Fetcher, joins: seq<JoinDef>, d: JoinDef, st: State, p: RowKey,
                                          fks: map<string, PkValue>, found: seq<Option<seq<Json>>>, doc: Json,
                                          now: State)
    requires Quiet(joins, d, st) && p in st.primary && p.0 == d.table && st.primary[p].fks == fks
    requires ComposedSoFar(fetch, d, st, st.primary[p].raw, fks, |d.related|, found, doc, now)
    ensures now == st && Shows(d, Some(doc), IndexView(d, st, p))
  {
    hide Wired, EmbedDoc, FoundAt, Renders;
    var row := st.primary[p].raw;
    StoredKeyedBy(joins, d, st, p);
    assert d.related[..|d.related|] == d.related;
    NoBackfillRelations(fetch, d, d.related, st, fks);
    forall j | 0 <= j < |d.related| ensures FoundAt(fetch, d, d.related[j], st, fks, found[j]) {
      NoBackfillRelations(fetch, d, d.related[..j], st, fks);
    }
    DocRenders(fetch, d, st, row, fks, found);
  }

  // ---- documents in any backfill mode ------------------------------------

  lemma {:induction false} RelationsFill(joins: seq<JoinDef>, fetch: Fetcher, d: JoinDef, related: seq<RelatedDef>,
                                         st: State, fks: map<string, PkValue>)
    requires d in joins && forall r :: r in related ==> r in d.related
    ensures Filled(joins, fetch, st, AfterRelations(fetch, d, related, st, fks))
  {
    hide Filled, AfterLookup;
    FilledNothing(joins, fetch, st);
    if related != [] {
      var n := |related| - 1;
      var before := AfterRelations(fetch, d, related[..n], st, fks);
      RelationsFill(joins, fetch, d, related[..n], st, fks);
      assert related[n] in related;
      if related[n].id in fks {
        LookupFills(joins, fetch, d, related[n], before, fks[related[n].id]);
        FilledTwice(joins, fetch, st, before, AfterRelations(fetch, d, related, st, fks));
      }
    }
  }

  lemma {:induction false} BatchesFill(joins: seq<JoinDef>, fetch: Fetcher, d: JoinDef, related: seq<RelatedDef>,
                                       st: State, chunk: seq<map<string, PkValue>>)
    requires d in joins && forall r :: r in related ==> r in d.related
    ensures Filled(joins, fetch, st, AfterBatches(fetch, d, related, st, chunk))
  {
    hide Filled, AfterBatch;
    FilledNothing(joins, fetch, st);
    if related != [] {
      var n := |related| - 1;
      var before := AfterBatches(fetch, d, related[..n], st, chunk);
      BatchesFill(joins, fetch, d, related[..n], st, chunk);
      assert related[n] in related;
      BatchFills(joins, fetch, d, related[n], before, ChunkKeys(chunk, related[n].id));
      FilledTwice(joins, fetch, st, before, AfterBatches(fetch, d, related, st, chunk));
    }
  }

  /** A lookup may have found this once the cache had been filled from `st` on. */
  ghost predicate AnsweredFor(joins: seq<JoinDef>, fetch: Fetcher, d: JoinDef, st: State, r: RelatedDef,
                              fks: map<string, PkValue>, f: Option<seq<Json>>)
  {
    exists mid :: Filled(joins, fetch, st, mid) && FoundAt(fetch, d, r, mid, fks, f)
  }

  /** The document is the stored row with, for each relation, what a lookup may have found. */
  ghost predicate AnsweredDoc(joins: seq<JoinDef>, fetch: Fetcher, d: JoinDef, st: State, p: RowKey, doc: Json) {
    p in st.primary && exists found :: AnsweredWith(joins, fetch, d, st, st.primary[p], doc, found)
  }

  ghost predicate AnsweredWith(joins: seq<JoinDef>, fetch: Fetcher, d: JoinDef, st: State, row: PrimaryRow, doc: Json,
                               found: seq<Option<seq<Json>>>)
  {
    && |found| == |d.related| && doc == EmbedDoc(d.related, row.raw, found)
    && forall j :: 0 <= j < |d.related| ==> AnsweredFor(joins, fetch, d, st, d.related[j], row.fks, found[j])
  }

  ghost predicate AllAnswered(joins: seq<JoinDef>, fetch: Fetcher, d: JoinDef, st: State, sent: seq<Emission>) {
    forall i :: 0 <= i < |sent| ==> sent[i].Upsert? && AnsweredDoc(joins, fetch, d, st, sent[i].key, sent[i].doc)
  }

  lemma {:induction false} ComposedIsAnswered(joins: seq<JoinDef>, fetch: Fetcher, d: JoinDef, st: State, p: RowKey,
                                              found: seq<Option<seq<Json>>>, doc: Json, now: State)
    requires d in joins && p in st.primary
    requires ComposedSoFar(fetch, d, st, st.primary[p].raw, st.primary[p].fks, |d.related|, found, doc, now)
    ensures AnsweredDoc(joins, fetch, d, st, p, doc) && Filled(joins, fetch, st, now)
  {
    hide Filled, FoundAt, EmbedDoc, AfterRelations;
    var fks := st.primary[p].fks;
    assert d.related[..|d.related|] == d.related;
    RelationsFill(joins, fetch, d, d.related, st, fks);
    forall j | 0 <= j < |d.related| ensures AnsweredFor(joins, fetch, d, st, d.related[j], fks, found[j]) {
      RelationsFill(joins, fetch, d, d.related[..j], st, fks);
    }
    assert AnsweredWith(joins, fetch, d, st, st.primary[p], doc, found);
  }

  lemma {:induction false} ChunkIsAnswered(joins: seq<JoinDef>, fetch: Fetcher, d: JoinDef, st: State, at: State,
                                           affected: seq<RowKey>, founds: seq<seq<Option<seq<Json>>>>, docs: seq<Json>)
    requires d in joins && Filled(joins, fetch, st, at) && |founds| == |ChunkOf(d, at, affected)|
    requires ChunkComposed(d, RawsOf(at, StoredOf(at, d.table, affected)), founds, |d.related|, docs)
    requires forall i, j :: 0 <= i < |founds| && 0 <= j < |d.related| ==>
      FoundFor(fetch, d, at, ChunkOf(d, at, affected), founds, i, j)
    ensures AllAnswered(joins, fetch, d, st, Upserts(StoredOf(at, d.table, affected), docs))
  {
    hide StoredOf, EmbedDoc, FoundAt, AfterBatches, Filled;
    var keys, chunk := StoredOf(at, d.table, affected), ChunkOf(d, at, affected);
    FilledPrimaries(joins, fetch, st, at);
    assert d.related[..|d.related|] == d.related;
    forall i | 0 <= i < |keys| ensures AnsweredDoc(joins, fetch, d, st, keys[i], docs[i]) {
      assert keys[i] in keys;
      forall j | 0 <= j < |d.related| ensures AnsweredFor(joins, fetch, d, st, d.related[j], chunk[i], founds[i][j]) {
        assert FoundFor(fetch, d, at, chunk, founds, i, j);
        var mid := AfterBatches(fetch, d, d.related[..j], at, chunk);
        BatchesFill(joins, fetch, d, d.related[..j], at, chunk);
        FilledTwice(joins, fetch, st, at, mid);
      }
      assert AnsweredWith(joins, fetch, d, st, st.primary[keys[i]], docs[i], founds[i]);
    }
  }

  lemma {:induction false} FilledPrimaries(joins: seq<JoinDef>, fetch: Fetcher, st: State, now: State)
    requires Filled(joins, fetch, st, now)
    ensures now.primary == st.primary && now.reverse == st.reverse && (NoEmpties(st.byFk) ==> NoEmpties(now.byFk))
  {
  }

  lemma {:induction false} NoneAnswered(joins: seq<JoinDef>, fetch: Fetcher, d: JoinDef, st: State)
    ensures AllAnswered(joins, fetch, d, st, [])
  {
  }

  lemma {:induction false} AnsweredBoth(joins: seq<JoinDef>, fetch: Fetcher, d: JoinDef, st: State, a: seq<Emission>,
                                        b: seq<Emission>)
    requires AllAnswered(joins, fetch, d, st, a) && AllAnswered(joins, fetch, d, st, b)
    ensures AllAnswered(joins, fetch, d, st, a + b)
  {
    hide AnsweredDoc;
  }

  /** Sending one page: its documents too are answered from the cache as filled so far. */
  lemma {:induction false} WalkAnswers(fetch: Fetcher, joins: seq<JoinDef>, d: JoinDef, st: State, at: State,
                                       chunk: seq<RowKey>, founds: seq<seq<Option<seq<Json>>>>, start: seq<Emission>,
                                       was: seq<Emission>, now: seq<Emission>)
    requires d in joins && Filled(joins, fetch, st, at) && |was| >= |start| && was[..|start|] == start
    requires ChunkSent(d, at, chunk, founds, was, now) && AllAnswered(joins, fetch, d, st, was[|start|..])
    requires |founds| == |ChunkOf(d, at, chunk)|
    requires forall i, j :: 0 <= i < |founds| && 0 <= j < |d.related| ==>
      FoundFor(fetch, d, at, ChunkOf(d, at, chunk), founds, i, j)
    ensures |now| >= |start| && AllAnswered(joins, fetch, d, st, now[|start|..])
    ensures Filled(joins, fetch, st, AfterBatches(fetch, d, d.related, at, ChunkOf(d, at, chunk)))
  {
    hide ChunkComposed, StoredOf, FoundFor, AfterBatches, Upserts, ChunkOf, Filled, AllAnswered;
    var keys := StoredOf(at, d.table, chunk);
    var docs :| DocsSent(d, RawsOf(at, keys), founds, keys, docs, was, now);
    assert now[|start|..] == was[|start|..] + Upserts(keys, docs);
    ChunkIsAnswered(joins, fetch, d, st, at, chunk, founds, docs);
    AnsweredBoth(joins, fetch, d, st, was[|start|..], Upserts(keys, docs));
    BatchesFill(joins, fetch, d, d.related, at, ChunkOf(d, at, chunk));
    FilledTwice(joins, fetch, st, at, AfterBatches(fetch, d, d.related, at, ChunkOf(d, at, chunk)));
  }
}
