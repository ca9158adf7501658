/** The join engine object: it handles one event at a time, updating its state and
    sending emissions to its output. */
module Engine {
  import opened Order
  import opened Json
  import opened Keys
  import opened Config
  import opened Index
  import opened JoinModel
  import opened Incremental
  import opened Events
  import opened Lookups
  import opened Backfill
  import opened RowState
  import opened Compose
  import opened Batches
  import opened Documents
  import opened Payloads
  import opened Carries

  // ---- the engine --------------------------------------------------------

  class JoinEngine {
    const joins: seq<JoinDef>
    var fetch: Fetcher   // the source as it stands while an event is handled
    const state: JoinState
    var out: seq<Emission>

    constructor (joins: seq<JoinDef>, fetch: Fetcher)
      ensures Valid() && View() == EMPTY_STATE && out == [] && fresh(state)
      ensures this.joins == joins && this.fetch == fetch
    {
      this.joins, this.fetch, out := joins, fetch, [];
      state := new JoinState();
    }

    function View(): State
      reads state
    {
      state.View()
    }

    ghost predicate Valid()
      reads state
    {
      state.Valid()
    }

    // ---- looking related rows up -----------------------------------------

    /** The cached rows for a key, in whatever order the bucket yields them. */
    method CachedRows(r: RelatedDef, key: PkValue) returns (rows: seq<Json>)
      ensures FoundIn(rows, IndexedRows(View(), r, key))
    {
      var pks := Bucket(state.foreignByFk, r.id, key);
      ghost var m := IndexedRows(View(), r, key);
      ghost var order: seq<RowKey> := [];
      rows := [];
      while pks != {}
        invariant pks <= Bucket(state.foreignByFk, r.id, key)
        invariant Distinct(order) && forall k :: k in order <==> k in m && k.1 !in pks
        invariant rows == RowsIn(order, m)
      {
        var pk :| pk in pks;
        var k := (r.table, pk);
        if k in state.foreignRows {
          assert k !in order;
          order := order + [k];
          rows := rows + [state.foreignRows[k]];
          assert rows == RowsIn(order, m);
        }
        pks := pks - {pk};
      }
      assert Lists(order, m);
    }

    method StoreRows(r: RelatedDef, key: PkValue, rows: seq<Json>)
      requires Valid()
      modifies state
      ensures Valid() && View() == StoreFetched(old(View()), r, key, rows)
    {
      for i := 0 to |rows|
        invariant Valid() && View() == StoreFetched(old(View()), r, key, rows[..i])
      {
        var pk := ExtractKey(rows[i], r.pk);
        if pk.Some? {
          state.SetForeign(r.table, pk.value, rows[i]);
          state.AddForeignByFk(r.id, key, pk.value);
        }
        assert rows[..i + 1][..i] == rows[..i];
      }
      assert rows[..|rows|] == rows;
    }

    method LookupRelated(d: JoinDef, r: RelatedDef, key: PkValue) returns (res: Result<seq<Json>>)
      requires Valid()
      modifies state
      ensures Valid()
      ensures res.Err? <==> Consults(d, r, old(View()), key) && !Ask(fetch, r, key).Fetched?
      ensures res.Err? ==> res.error == FetcherFailed
      ensures res.Ok? ==> Answers(fetch, d, r, old(View()), key, res.value)
      ensures View() == AfterLookup(fetch, d, r, old(View()), key)
    {
      if key.IsNull() { return Ok([]); }
      if !Reconciles(d, r) && Bucket(state.foreignByFk, r.id, key) != {} {
        var rows := CachedRows(r, key);
        return Ok(rows);
      }
      if d.backfill.NoBackfill? { return Ok([]); }
      var columns := AddFkColumns(r.select, r.to);
      var fetched := fetch(r.table, r.to, key, columns);
      if fetched.Unreachable? { return Err(FetcherFailed); }
      StoreRows(r, key, fetched.rows);
      res := Ok(fetched.rows);
    }

    /** Each key once, in order of first appearance. */
    static method FirstAppearances(keys: seq<PkValue>) returns (unique: seq<PkValue>)
      ensures unique == Unique(keys)
    {
      unique := [];
      var seen: set<PkValue> := {};
      for i := 0 to |keys|
        invariant unique == Unique(keys[..i]) && forall k :: k in seen <==> k in unique
      {
        assert keys[..i + 1][..i] == keys[..i];
        if keys[i] !in seen {
          seen := seen + {keys[i]};
          unique := unique + [keys[i]];
        }
      }
      assert keys[..|keys|] == keys;
    }

    /** One source query per key. */
    method FetchManyBatch(r: RelatedDef, keys: seq<PkValue>) returns (res: Result<map<PkValue, seq<Json>>>)
      ensures res.Err? <==> exists k :: k in keys && !Ask(fetch, r, k).Fetched?
      ensures res.Err? ==> res.error == FetcherFailed
      ensures res.Ok? ==> forall k :: k in keys ==> k in res.value && Fetched(res.value[k]) == Ask(fetch, r, k)
    {
      var columns := AddFkColumns(r.select, r.to);
      var results: map<PkValue, seq<Json>> := map[];
      for i := 0 to |keys|
        invariant forall k :: k in keys[..i] ==> k in results && Fetched(results[k]) == Ask(fetch, r, k)
      {
        var fetched := fetch(r.table, r.to, keys[i], columns);
        if fetched.Unreachable? {
          assert keys[i] in keys && !Ask(fetch, r, keys[i]).Fetched?;
          return Err(FetcherFailed);
        }
        results := results[keys[i] := fetched.rows];
      }
      assert keys[..|keys|] == keys;
      res := Ok(results);
    }

    /** The keys that need no source, answered; the others, in order. */
    method ResolveFromState(d: JoinDef, r: RelatedDef, unique: seq<PkValue>)
      returns (outcomes: map<PkValue, seq<Json>>, unresolved: seq<PkValue>)
      ensures unresolved == Unresolved(d, r, View(), unique)
      ensures forall k :: k in unique && !Consults(d, r, View(), k) ==>
        k in outcomes && Answers(fetch, d, r, View(), k, outcomes[k])
    {
      outcomes, unresolved := map[], [];
      for i := 0 to |unique|
        invariant unresolved == Unresolved(d, r, View(), unique[..i])
        invariant forall k :: k in unique[..i] && !Consults(d, r, View(), k) ==>
          k in outcomes && Answers(fetch, d, r, View(), k, outcomes[k])
      {
        var key := unique[i];
        assert unique[..i + 1][..i] == unique[..i];
        if key.IsNull() {
          outcomes := outcomes[key := []];
        } else if !Reconciles(d, r) && Bucket(state.foreignByFk, r.id, key) != {} {
          var rows := CachedRows(r, key);
          outcomes := outcomes[key := rows];
        } else if d.backfill.NoBackfill? {
          outcomes := outcomes[key := []];
        } else {
          unresolved := unresolved + [key];
        }
      }
      assert unique[..|unique|] == unique;
    }

    method LookupRelatedBatch(d: JoinDef, r: RelatedDef, keys: seq<PkValue>)
      returns (res: Result<map<PkValue, seq<Json>>>)
      requires Valid()
      modifies state
      ensures Valid()
      ensures res.Err? <==> exists k :: k in keys && Consults(d, r, old(View()), k) && !Ask(fetch, r, k).Fetched?
      ensures res.Err? ==> res.error == FetcherFailed && View() == old(View())
      ensures res.Ok? ==> View() == AfterBatch(fetch, d, r, old(View()), keys)
      ensures res.Ok? ==> forall k :: k in keys ==> k in res.value && Answers(fetch, d, r, old(View()), k, res.value[k])
    {
      hide Answers, Consults, Ask, StoreAnswer;
      var unique := FirstAppearances(keys);
      var outcomes, unresolved := ResolveFromState(d, r, unique);
      UniqueKeys(keys);
      UnresolvedKeys(d, r, View(), unique);
      var fetched := FetchManyBatch(r, unresolved);
      if fetched.Err? { return Err(fetched.error); }
      ghost var before := View();
      outcomes := StoreBatch(r, unresolved, fetched.value, outcomes);
      forall k | k in keys ensures k in outcomes && Answers(fetch, d, r, before, k, outcomes[k]) {
        if Consults(d, r, before, k) { SourceAnswers(fetch, d, r, before, k, outcomes[k]); }
      }
      res := Ok(outcomes);
    }

    /** Cache what was fetched for each key and add it to the outcomes. */
    method StoreBatch(r: RelatedDef, keys: seq<PkValue>, fetched: map<PkValue, seq<Json>>,
                      outcomes0: map<PkValue, seq<Json>>)
      returns (outcomes: map<PkValue, seq<Json>>)
      requires Valid() && forall k :: k in keys ==> k in fetched && Fetched(fetched[k]) == Ask(fetch, r, k)
      modifies state
      ensures Valid() && View() == StoreAnswers(fetch, old(View()), r, keys)
      ensures forall k :: k in keys ==> k in outcomes && outcomes[k] == fetched[k]
      ensures forall k :: k in outcomes0 && k !in keys ==> k in outcomes && outcomes[k] == outcomes0[k]
    {
      outcomes := outcomes0;
      for i := 0 to |keys|
        invariant Valid() && View() == StoreAnswers(fetch, old(View()), r, keys[..i])
        invariant forall k :: k in keys[..i] ==> k in outcomes && outcomes[k] == fetched[k]
        invariant forall k :: k in outcomes0 && k !in keys[..i] ==> k in outcomes && outcomes[k] == outcomes0[k]
      {
        assert keys[..i + 1][..i] == keys[..i] && keys[i] in keys;
        StoreRows(r, keys[i], fetched[keys[i]]);
        outcomes := outcomes[keys[i] := fetched[keys[i]]];
      }
      assert keys[..|keys|] == keys;
    }

    // ---- composing documents ---------------------------------------------

    method ComposePrimary(d: JoinDef, row: Json, fks: map<string, PkValue>)
      returns (res: Result<Json>, ghost found: seq<Option<seq<Json>>>)
      requires Valid()
      modifies state
      ensures Valid()
      ensures state.primaryRows == old(state.primaryRows) && state.primaryReverse == old(state.primaryReverse)
      ensures res.Ok? ==> ComposedSoFar(fetch, d, old(View()), row, fks, |d.related|, found, res.value, View())
      ensures res.Ok? ==> RowDoc(fetch, d, old(View()), row, fks, res.value)
      ensures res.Ok? ==> DocHolds(d.related, row, found, res.value)
      ensures row.Obj? && res.Err? ==> SourceDown(fetch, d, res.error)
      ensures !row.Obj? ==> res == Err(InvalidPayload) && View() == old(View())
      ensures d in joins ==> Filled(joins, fetch, old(View()), View())
    {
      hide Answers, AfterLookup, Ask, Consults, ComposedSoFar, Filled, RowDoc, DocHolds;
      FilledNothing(joins, fetch, View());
      found := [];
      if !row.Obj? { return Err(InvalidPayload), []; }
      var doc := row;
      ghost var before := View();
      ComposeStart(fetch, d, before, row, fks);
      for j := 0 to |d.related|
        invariant Valid() && ComposedSoFar(fetch, d, before, row, fks, j, found, doc, View())
        invariant d in joins ==> Filled(joins, fetch, before, View())
        invariant state.primaryRows == old(state.primaryRows) && state.primaryReverse == old(state.primaryReverse)
      {
        var r := d.related[j];
        ghost var at, doc0 := View(), doc;
        if r.id in fks {
          LookupKeepsPrimaries(fetch, d, r, at, fks[r.id]);
          if d in joins {
            LookupFills(joins, fetch, d, r, at, fks[r.id]);
            FilledTwice(joins, fetch, before, at, AfterLookup(fetch, d, r, at, fks[r.id]));
          }
          var rows := LookupRelated(d, r, fks[r.id]);
          if rows.Err? { return Err(rows.error), found; }
          ComposeStep(fetch, d, before, row, fks, j, found, doc0, at, Some(rows.value));
          doc := Obj(doc.fields[r.embedAs := Shape(r, rows.value)]);
          found := found + [Some(rows.value)];
        } else {
          ComposeStep(fetch, d, before, row, fks, j, found, doc0, at, None);
          found := found + [None];
        }
      }
      ComposedIsRowDoc(fetch, d, before, row, fks, found, doc, View());
      ComposedHolds(fetch, d, before, row, fks, found, doc, View());
      res := Ok(doc);
    }

    /** The stored rows of `d` among `affected`, in order. */
    method Gather(d: JoinDef, affected: seq<RowKey>)
      returns (keys: seq<RowKey>, docs: seq<Json>, chunk: seq<map<string, PkValue>>)
      ensures keys == StoredOf(View(), d.table, affected)
      ensures docs == RawsOf(View(), keys) && chunk == FksOf(View(), keys)
    {
      hide StoredOf, RawsOf, FksOf;
      keys, docs, chunk := [], [], [];
      StoredOfNone(View(), d.table, affected);
      for i := 0 to |affected|
        invariant keys == StoredOf(View(), d.table, affected[..i])
        invariant docs == RawsOf(View(), keys) && chunk == FksOf(View(), keys)
      {
        StoredOfNext(View(), d.table, affected, i);
        var p := affected[i];
        if p.0 == d.table && p in state.primaryRows {
          keys := keys + [p];
          docs := docs + [state.primaryRows[p].raw];
          chunk := chunk + [state.primaryRows[p].fks];
        }
      }
      assert affected[..|affected|] == affected;
    }

    /** Embed one relation into every document of a chunk. */
    static method EmbedChunk(r: RelatedDef, outcomes: map<PkValue, seq<Json>>, chunk: seq<map<string, PkValue>>,
                             docs0: seq<Json>)
      returns (res: Result<seq<Json>>)
      requires |docs0| == |chunk|
      ensures res.Err? <==> exists i :: 0 <= i < |chunk| && r.id in chunk[i] && !docs0[i].Obj?
      ensures res.Err? ==> res.error == InvalidPayload
      ensures res.Ok? ==> |res.value| == |docs0| && forall i :: 0 <= i < |chunk| ==>
        res.value[i] == EmbedOne(r, outcomes, chunk[i], docs0[i])
    {
      var docs := docs0;
      for i := 0 to |chunk|
        invariant |docs| == |docs0| && forall k :: i <= k < |chunk| ==> docs[k] == docs0[k]
        invariant forall k :: 0 <= k < i ==> docs[k] == EmbedOne(r, outcomes, chunk[k], docs0[k])
        invariant forall k :: 0 <= k < i && r.id in chunk[k] ==> docs0[k].Obj?
      {
        if r.id in chunk[i] {
          var key := chunk[i][r.id];
          var rows := if key in outcomes then outcomes[key] else [];
          if !docs[i].Obj? { return Err(InvalidPayload); }
          docs := docs[i := Obj(docs[i].fields[r.embedAs := Shape(r, rows)])];
        }
      }
      res := Ok(docs);
    }

    /** The documents of a chunk, each relation resolved for all of them at once. */
    method ComposeChunk(d: JoinDef, raws: seq<Json>, chunk: seq<map<string, PkValue>>)
      returns (res: Result<seq<Json>>, ghost founds: seq<seq<Option<seq<Json>>>>)
      requires Valid() && |raws| == |chunk|
      modifies state
      ensures Valid()
      ensures state.primaryRows == old(state.primaryRows) && state.primaryReverse == old(state.primaryReverse)
      ensures res.Err? ==>
        SourceDown(fetch, d, res.error) || exists i :: 0 <= i < |raws| && !raws[i].Obj?
      ensures d in joins ==> Filled(joins, fetch, old(View()), View())
      ensures res.Ok? ==> ChunkComposed(d, raws, founds, |d.related|, res.value)
      ensures res.Ok? ==> ChunkHolds(d.related, raws, founds, res.value)
      ensures res.Ok? ==> View() == AfterBatches(fetch, d, d.related, old(View()), chunk)
      ensures res.Ok? ==> forall i, j :: 0 <= i < |chunk| && 0 <= j < |d.related| ==>
        FoundFor(fetch, d, old(View()), chunk, founds, i, j)
    {
      hide EmbedDoc, AfterBatch, AfterBatches, FoundAt, ChunkComposed, Answers, Filled, ChunkHolds;
      ghost var before := View();
      FilledNothing(joins, fetch, before);
      var docs := raws;
      founds := seq(|chunk|, i => []);
      NothingEmbedded(d, docs, founds);
      BatchesStart(fetch, d, before, chunk);
      for j := 0 to |d.related|
        invariant Valid() && state.primaryRows == old(state.primaryRows)
        invariant state.primaryReverse == old(state.primaryReverse)
        invariant |docs| == |founds| == |chunk| && forall i :: 0 <= i < |founds| ==> |founds[i]| == j
        invariant View() == AfterBatches(fetch, d, d.related[..j], before, chunk)
        invariant ChunkComposed(d, raws, founds, j, docs)
        invariant d in joins ==> Filled(joins, fetch, before, View())
        invariant forall i, a :: 0 <= i < |chunk| && 0 <= a < j ==> FoundFor(fetch, d, before, chunk, founds, i, a)
      {
        var r := d.related[j];
        ghost var at := View();
        var outcomes := LookupRelatedBatch(d, r, ChunkKeys(chunk, r.id));
        BatchStep(fetch, d, before, chunk, j);
        if d in joins {
          BatchFills(joins, fetch, d, r, at, ChunkKeys(chunk, r.id));
          FilledTwice(joins, fetch, before, at, AfterBatch(fetch, d, r, at, ChunkKeys(chunk, r.id)));
        }
        if outcomes.Err? { return Err(outcomes.error), founds; }
        var embedded := EmbedChunk(r, outcomes.value, chunk, docs);
        if embedded.Err? {
          NotAnObject(d, j, docs, raws, founds, r, chunk);
          return Err(embedded.error), founds;
        }
        ghost var next := NextFounds(r, outcomes.value, chunk, founds);
        EmbedSteps(d, j, raws, founds, outcomes.value, chunk, docs, embedded.value);
        FoundSteps(fetch, d, before, chunk, founds, j, at, outcomes.value);
        docs, founds := embedded.value, next;
      }
      assert d.related[..|d.related|] == d.related;
      ComposedChunkHolds(d, raws, founds, docs);
      res := Ok(docs);
    }

    /** Recompose a chunk of primaries. Nothing is sent unless every document could
        be composed. */
    method ReEmitPrimaryChunk(d: JoinDef, affected: seq<RowKey>)
      returns (res: Result<()>, ghost founds: seq<seq<Option<seq<Json>>>>)
      requires Valid()
      modifies state, this`out
      ensures Valid()
      ensures state.primaryRows == old(state.primaryRows) && state.primaryReverse == old(state.primaryReverse)
      ensures res.Err? ==> out == old(out)
      ensures res.Err? ==>
        SourceDown(fetch, d, res.error) || exists p ::
          p in state.primaryRows && !state.primaryRows[p].raw.Obj?
      ensures d in joins ==> Filled(joins, fetch, old(View()), View())
      ensures res.Ok? ==> ChunkSent(d, old(View()), affected, founds, old(out), out)
      ensures res.Ok? ==> BatchSent(fetch, d, old(View()), affected, old(out), out)
      ensures res.Ok? ==> SentHolds(d, old(View()), affected, founds, old(out), out)
      ensures res.Ok? ==> View() == AfterBatches(fetch, d, d.related, old(View()), ChunkOf(d, old(View()), affected))
      ensures res.Ok? ==>
        |founds| == |ChunkOf(d, old(View()), affected)| && forall i, j :: 0 <= i < |founds| && 0 <= j < |d.related| ==>
        FoundFor(fetch, d, old(View()), ChunkOf(d, old(View()), affected), founds, i, j)
    {
      hide AfterBatches, FoundFor, EmbedDoc, ChunkComposed, StoredOf, Upserts, FksOf, RawsOf, Filled, BatchSent,
        ChunkHolds;
      ghost var before := View();
      var keys, raws, chunk := Gather(d, affected);
      var docs;
      docs, founds := ComposeChunk(d, raws, chunk);
      if docs.Err? {
        NotStoredAsObject(before, d, affected);
        return Err(docs.error), founds;
      }
      ComposedSizes(d, raws, founds, docs.value);
      SendUpserts(keys, docs.value);
      assert DocsSent(d, raws, founds, keys, docs.value, old(out), out);
      ComposedIsBatchSent(fetch, d, before, affected, founds, docs.value, old(out));
      assert SentHoldsWith(d, raws, founds, keys, docs.value, old(out), out);
      res := Ok(());
    }

    method SendUpserts(keys: seq<RowKey>, docs: seq<Json>)
      requires |keys| == |docs|
      modifies this`out
      ensures out == old(out) + Upserts(keys, docs)
    {
      for i := 0 to |keys|
        invariant out == old(out) + Upserts(keys, docs)[..i]
      {
        out := out + [Upsert(keys[i], docs[i])];
      }
    }

    // ---- paged fan-out ---------------------------------------------------

    /** Recompose, page by page, every primary under one or two keys: each exactly
        once, and the walk ends. */
    method ReEmitPrimariesForKeys(d: JoinDef, id: string, key: PkValue, secondary: Option<PkValue>)
      returns (res: Result<nat>)
      requires Valid()
      modifies state, this`out
      ensures Valid()
      ensures state.primaryRows == old(state.primaryRows) && state.primaryReverse == old(state.primaryReverse)
      ensures |out| >= |old(out)| && out[..|old(out)|] == old(out)
      ensures res.Ok? ==> res.value == |KeyRows(old(state.primaryReverse), id, key, secondary)|
      ensures res.Ok? ==>
        Sends(out[|old(out)|..], Listed(d, old(View()), KeyRows(old(state.primaryReverse), id, key, secondary)))
      ensures Quiet(joins, d, old(View())) ==>
        res.Ok? && View() == old(View()) && SentShow(d, View(), out[|old(out)|..])
      ensures d in joins ==> Filled(joins, fetch, old(View()), View())
      ensures d in joins && res.Ok? ==> AllAnswered(joins, fetch, d, old(View()), out[|old(out)|..])
      ensures res.Err? && StoredObjects(old(View())) ==> SourceDown(fetch, d, res.error)
    {
      hide Filled, AllAnswered, Sends, SentShow, Quiet, Page, KeyRows, ChunkSent, BatchSent, SentHolds, FoundFor,
        AfterBatches, Listed, Reached;
      ghost var all := KeyRows(state.primaryReverse, id, key, secondary);
      var after: Option<RowKey> := None;
      var affected := 0;
      ghost var before := View();
      WalkStarts(d, before, all);
      FilledNothing(joins, fetch, before);
      NoneAnswered(joins, fetch, d, before);
      assert out[|old(out)|..] == [];
      var chunk := state.PrimariesForKeysChunk(id, key, secondary, after, RE_EMIT_PRIMARY_CHUNK_SIZE);
      while chunk != []
        invariant Valid() && state.primaryRows == old(state.primaryRows)
        invariant state.primaryReverse == old(state.primaryReverse)
        invariant |out| >= |old(out)| && out[..|old(out)|] == old(out)
        invariant Page(chunk, all, after, RE_EMIT_PRIMARY_CHUNK_SIZE)
        invariant affected == |Reached(all, after)|
        invariant Sends(out[|old(out)|..], Listed(d, before, Reached(all, after)))
        invariant Quiet(joins, d, before) ==> View() == before && SentShow(d, before, out[|old(out)|..])
        invariant d in joins ==>
          Filled(joins, fetch, before, View()) && AllAnswered(joins, fetch, d, before, out[|old(out)|..])
        decreases |all - Reached(all, after)|
      {
        ghost var at, sent := View(), out;
        affected := affected + |chunk|;
        var sending, founds := ReEmitPrimaryChunk(d, chunk);
        if sending.Err? {
          if d in joins { FilledTwice(joins, fetch, before, at, View()); }
          QuietNeverFails(joins, d, before);
          return Err(sending.error);
        }
        WalkSteps(fetch, joins, d, before, at, all, after, chunk, founds, old(out), sent, out,
          RE_EMIT_PRIMARY_CHUNK_SIZE);
        if d in joins { WalkAnswers(fetch, joins, d, before, at, chunk, founds, old(out), sent, out); }
        after := Some(chunk[|chunk| - 1]);
        chunk := state.PrimariesForKeysChunk(id, key, secondary, after, RE_EMIT_PRIMARY_CHUNK_SIZE);
      }
      EmptyPageEnds(all, after, RE_EMIT_PRIMARY_CHUNK_SIZE);
      res := Ok(affected);
    }

    /** The same walk over every primary linked through a relation. */
    method ReEmitPrimariesForRelation(d: JoinDef, id: string) returns (res: Result<nat>)
      requires Valid()
      modifies state, this`out
      ensures Valid()
      ensures state.primaryRows == old(state.primaryRows) && state.primaryReverse == old(state.primaryReverse)
      ensures |out| >= |old(out)| && out[..|old(out)|] == old(out)
      ensures res.Ok? ==> res.value == |RelationRows(old(state.primaryReverse), id)|
      ensures res.Ok? ==> Sends(out[|old(out)|..], Listed(d, old(View()), RelationRows(old(state.primaryReverse), id)))
      ensures Quiet(joins, d, old(View())) ==>
        res.Ok? && View() == old(View()) && SentShow(d, View(), out[|old(out)|..])
      ensures d in joins ==> Filled(joins, fetch, old(View()), View())
      ensures d in joins && res.Ok? ==> AllAnswered(joins, fetch, d, old(View()), out[|old(out)|..])
      ensures res.Err? && StoredObjects(old(View())) ==> SourceDown(fetch, d, res.error)
    {
      hide Filled, AllAnswered, Sends, SentShow, Quiet, Page, RelationRows, ChunkSent, BatchSent, SentHolds, FoundFor,
        AfterBatches, Listed, Reached;
      ghost var all := RelationRows(state.primaryReverse, id);
      var after: Option<RowKey> := None;
      var affected := 0;
      ghost var before := View();
      WalkStarts(d, before, all);
      FilledNothing(joins, fetch, before);
      NoneAnswered(joins, fetch, d, before);
      assert out[|old(out)|..] == [];
      var chunk := state.PrimariesForRelationChunk(id, after, RE_EMIT_PRIMARY_CHUNK_SIZE);
      while chunk != []
        invariant Valid() && state.primaryRows == old(state.primaryRows)
        invariant state.primaryReverse == old(state.primaryReverse)
        invariant |out| >= |old(out)| && out[..|old(out)|] == old(out)
        invariant Page(chunk, all, after, RE_EMIT_PRIMARY_CHUNK_SIZE)
        invariant affected == |Reached(all, after)|
        invariant Sends(out[|old(out)|..], Listed(d, before, Reached(all, after)))
        invariant Quiet(joins, d, before) ==> View() == before && SentShow(d, before, out[|old(out)|..])
        invariant d in joins ==>
          Filled(joins, fetch, before, View()) && AllAnswered(joins, fetch, d, before, out[|old(out)|..])
        decreases |all - Reached(all, after)|
      {
        ghost var at, sent := View(), out;
        affected := affected + |chunk|;
        var sending, founds := ReEmitPrimaryChunk(d, chunk);
        if sending.Err? {
          if d in joins { FilledTwice(joins, fetch, before, at, View()); }
          QuietNeverFails(joins, d, before);
          return Err(sending.error);
        }
        WalkSteps(fetch, joins, d, before, at, all, after, chunk, founds, old(out), sent, out,
          RE_EMIT_PRIMARY_CHUNK_SIZE);
        if d in joins { WalkAnswers(fetch, joins, d, before, at, chunk, founds, old(out), sent, out); }
        after := Some(chunk[|chunk| - 1]);
        chunk := state.PrimariesForRelationChunk(id, after, RE_EMIT_PRIMARY_CHUNK_SIZE);
      }
      EmptyPageEnds(all, after, RE_EMIT_PRIMARY_CHUNK_SIZE);
      res := Ok(affected);
    }

    // ---- events on a primary table ---------------------------------------

    /** Remove a primary from every bucket its keys name, in whatever order the
        map yields them. */
    method ClearLinks(p: RowKey, fks: map<string, PkValue>)
      requires Valid()
      modifies state`primaryReverse
      ensures Valid() && state.primaryReverse == Unlink(old(state.primaryReverse), fks, p)
    {
      hide Cleared, Bucket, NoEmpties, Unlink, Remove;
      var ids := fks.Keys;
      ghost var before := state.primaryReverse;
      ClearStarts(before, fks, p);
      while ids != {}
        invariant ids <= fks.Keys && Cleared(before, state.primaryReverse, fks, ids, p) && Valid()
      {
        var id :| id in ids;
        ClearStep(before, state.primaryReverse, fks, ids, p, id);
        state.RemovePrimaryReverse(id, fks[id], p);
        ids := ids - {id};
      }
      ClearEnds(before, state.primaryReverse, fks, p);
    }

    /** Undo the links of the row stored before, then add the new ones. */
    method UpdatePrimaryIndexes(d: JoinDef, p: RowKey, fks: map<string, PkValue>)
      requires Valid()
      modifies state`primaryReverse
      ensures Valid()
      ensures state.primaryReverse == Link(
        if p in state.primaryRows then Unlink(old(state.primaryReverse), state.primaryRows[p].fks, p)
          else old(state.primaryReverse),
        d.related, fks, p)
    {
      hide Unlink, Add, NoEmpties;
      if p in state.primaryRows { ClearLinks(p, state.primaryRows[p].fks); }
      ghost var cleared := state.primaryReverse;
      for i := 0 to |d.related|
        invariant Valid() && state.primaryReverse == Link(cleared, d.related[..i], fks, p)
      {
        assert d.related[..i + 1][..i] == d.related[..i];
        var r := d.related[i];
        if r.id in fks && !fks[r.id].IsNull() { state.AddPrimaryReverse(r.id, fks[r.id], p); }
      }
      assert d.related[..|d.related|] == d.related;
    }

    method ForeignKeys(d: JoinDef, row: Json) returns (fks: map<string, PkValue>)
      ensures fks == FksFrom(d.related, row)
    {
      hide KeyOf;
      fks := map[];
      for i := 0 to |d.related|
        invariant fks == FksFrom(d.related[..i], row)
      {
        assert d.related[..i + 1][..i] == d.related[..i];
        fks := fks[d.related[i].id := KeyOf(row, d.related[i].from)];
      }
      assert d.related[..|d.related|] == d.related;
    }

    /** Store a primary row, merged over the row before it on an update. */
    method StorePrimaryRow(d: JoinDef, pk: PkValue, row: Json, merge: bool)
      returns (stored: Json, fks: map<string, PkValue>)
      requires Valid()
      modifies state
      ensures Valid() && View() == Apply(old(View()), PUpsert(d, pk, row, merge))
      ensures (d.table, pk) in state.primaryRows && state.primaryRows[(d.table, pk)] == PrimaryRow(stored, fks)
      ensures Overlays(Lookup(TablesOf(old(View())).prim, (d.table, pk)), row, merge, stored)
    {
      hide Unlink, Link, NoEmpties, FksFrom, Merge, Overlays;
      var p := (d.table, pk);
      stored := row;
      if merge && p in state.primaryRows { stored := Merge(state.primaryRows[p].raw, row); }
      WrittenOverlays(Lookup(TablesOf(View()).prim, p), row, merge, stored);
      fks := ForeignKeys(d, stored);
      UpdatePrimaryIndexes(d, p, fks);
      state.SetPrimary(p, PrimaryRow(stored, fks));
    }

    method HandlePrimary(d: JoinDef, kind: ChangeKind, e: Event) returns (res: Result<()>)
      requires Valid()
      modifies state, this`out
      ensures Valid() && |out| >= |old(out)| && out[..|old(out)|] == old(out)
      ensures DecodePrimary(d, kind, e).Err? ==>
        res == Err(DecodePrimary(d, kind, e).error) && View() == old(View()) && out == old(out)
      ensures DecodePrimary(d, kind, e).Ok? && Quiet(joins, d, old(View())) ==>
        res.Ok? && Carried(joins, DecodePrimary(d, kind, e).value, old(View()), View(), out[|old(out)|..])
      ensures DecodePrimary(d, kind, e).Ok? && res.Ok? ==>
        SameRows(View(), Apply(old(View()), DecodePrimary(d, kind, e).value))
        && Sends(out[|old(out)|..], Touched(TablesOf(old(View())), DecodePrimary(d, kind, e).value))
      ensures DecodePrimary(d, kind, e).Ok? && d in joins ==>
        PrimaryServed(joins, fetch, d, DecodePrimary(d, kind, e).value, old(View()), res, out[|old(out)|..], View())
    {
      hide RowDoc, Quiet, Apply, EventKey, CurrentRow, Carried, ComposedSoFar, Unlink, NoEmpties, Sends, PrimaryServed,
        Filled, Overlays, DocHolds;
      if kind.Truncate? {
        assert out[|old(out)|..] == [];
        NothingCarried(joins, View());
        NothingServed(joins, fetch, d, View());
        return Ok(());
      }
      if e.payload.None? { return Err(InvalidPayload); }
      var row := CurrentRow(e.payload.value, kind);
      var pk := EventKey(row, d.pk, e);
      if pk.None? { return Err(InvalidPayload); }
      var p := (d.table, pk.value);
      ghost var before := View();
      if kind.Delete? {
        var prior := state.TakePrimary(p);
        if prior.Some? { ClearLinks(p, prior.value.fks); }
        out := out + [Tombstone(p)];
        assert out[|old(out)|..] == [Tombstone(p)];
        SendsOne(Tombstone(p));
        DeleteCarried(joins, d, pk.value, before, View());
        DeleteServed(joins, fetch, d, pk.value, before, View());
        return Ok(());
      }
      if row.None? || !row.value.Obj? { return Err(InvalidPayload); }
      var stored, fks := StorePrimaryRow(d, pk.value, row.value, kind.Update?);
      ghost var st := View();
      var doc, found := ComposePrimary(d, stored, fks);
      UpsertNeverFails(joins, d, pk.value, row.value, kind.Update?, before, stored);
      if doc.Err? {
        FailedServed(joins, fetch, d, PUpsert(d, pk.value, row.value, kind.Update?), before, doc.error,
          out[|old(out)|..], View());
        return Err(doc.error);
      }
      out := out + [Upsert(p, doc.value)];
      assert out[|old(out)|..] == [Upsert(p, doc.value)];
      SendsOne(Upsert(p, doc.value));
      UpsertCarried(fetch, joins, d, pk.value, row.value, kind.Update?, before, found, doc.value, View());
      if d in joins {
        UpsertServed(joins, fetch, d, pk.value, row.value, kind.Update?, before, found, doc.value, View());
      }
      res := Ok(());
    }

    /** A tombstone per removed row, for each definition on the table. */
    method SendTombstones(table: string, pks: seq<PkValue>)
      modifies this`out
      ensures out == old(out) + Repeated(Tombstones(table, pks), DefsOn(joins, table))
    {
      for i := 0 to |joins|
        invariant out == old(out) + Repeated(Tombstones(table, pks), DefsOn(joins[..i], table))
      {
        assert joins[..i + 1][..i] == joins[..i];
        if joins[i].table == table {
          ghost var before := out;
          for n := 0 to |pks|
            invariant out == before + Tombstones(table, pks)[..n]
          {
            out := out + [Tombstone((table, pks[n]))];
          }
        }
      }
      assert joins[..|joins|] == joins;
    }

    /** Remove a truncated primary table page by page: the pages end, each row is
        tombstoned once per definition, and no row or link of the table is left. */
    method HandlePrimaryTruncate(table: string)
      requires Valid()
      modifies state, this`out
      ensures Valid() && |out| >= |old(out)| && out[..|old(out)|] == old(out)
      ensures View() == Apply(old(View()), PTruncate(table))
      ensures Buried(out[|old(out)|..], OfTable(old(state.primaryRows), table), DefsOn(joins, table))
    {
      hide Truncating, TookPage, Buried, Repeated, Tombstones, DefsOn, NoEmpties, Apply, DropPrimaries, Keyed, OfTable;
      ghost var before, gone: set<RowKey>, sent: seq<Emission> := View(), {}, [];
      var removed := state.TakePrimaryTablePage(table, RE_EMIT_PRIMARY_CHUNK_SIZE);
      TruncateStarts(before, View(), table, removed, DefsOn(joins, table));
      while removed != []
        invariant Valid() && out == old(out) + sent
        invariant Truncating(before, View(), table, gone, removed, sent, DefsOn(joins, table))
        decreases |OfTable(before.primary, table) - gone|
      {
        ghost var at, page := View(), removed;
        SendTombstones(table, removed);
        removed := state.TakePrimaryTablePage(table, RE_EMIT_PRIMARY_CHUNK_SIZE);
        TruncateStep(before, at, View(), table, gone, page, sent, DefsOn(joins, table), removed);
        gone, sent := gone + Keyed(table, page), sent + Repeated(Tombstones(table, page), DefsOn(joins, table));
      }
      TruncateEnds(before, View(), table, gone, sent, DefsOn(joins, table));
      assert out[|old(out)|..] == sent;
    }

    // ---- events on a related table ---------------------------------------

    /** Store a foreign row and index it under its key, dropping the key it moved
        away from. */
    method StoreForeignRow(r: RelatedDef, pk: PkValue, row: Json, merge: bool)
      returns (key: PkValue, moved: Option<PkValue>)
      requires Valid()
      modifies state
      ensures Valid() && View() == StoreForeign(old(View()), r, pk, row, merge)
      ensures var prior := Lookup(old(state.foreignRows), (r.table, pk));
        && key == KeyOf(Written(prior, row, merge), r.to) && moved == MovedFrom(prior, row, merge, r.to)
        && (r.table, pk) in state.foreignRows && Overlays(prior, row, merge, state.foreignRows[(r.table, pk)])
    {
      hide Add, Remove, Merge, FromValues, NoEmpties, Overlays;
      var prior := if merge then Lookup(state.foreignRows, (r.table, pk)) else None;
      var stored := row;
      if prior.Some? { stored := Merge(prior.value, row); }
      WrittenOverlays(Lookup(state.foreignRows, (r.table, pk)), row, merge, stored);
      state.SetForeign(r.table, pk, stored);
      var extracted := ExtractKey(stored, r.to);
      key := extracted.GetOr(EMPTY_KEY);
      state.AddForeignByFk(r.id, key, pk);
      moved := None;
      if prior.Some? {
        var was := ExtractKey(prior.value, r.to);
        if was.Some? && was.value != key {
          state.RemoveForeignByFk(r.id, was.value, pk);
          moved := was;
        }
      }
    }

    method DeleteForeignRow(r: RelatedDef, pk: PkValue, eventKey: PkValue) returns (key: PkValue)
      requires Valid()
      modifies state
      ensures Valid() && View() == DropForeign(old(View()), r, pk, eventKey)
      ensures key == DeletedKey(Lookup(old(state.foreignRows), (r.table, pk)), r.to, eventKey)
    {
      hide Remove, FromValues, NoEmpties;
      var prior := state.DeleteForeign(r.table, pk);
      key := eventKey;
      if prior.Some? {
        var recovered := ExtractKey(prior.value, r.to);
        key := recovered.GetOr(eventKey);
      }
      state.RemoveForeignByFk(r.id, key, pk);
    }

    /** Forget a truncated related table and recompose every primary linked to it. */
    method HandleRelatedTruncate(d: JoinDef, r: RelatedDef) returns (res: Result<()>)
      requires Valid()
      modifies state, this`out
      ensures Valid() && |out| >= |old(out)| && out[..|old(out)|] == old(out)
      ensures Quiet(joins, d, old(View())) && r in d.related ==>
        res.Ok? && Carried(joins, FTruncate(d, r), old(View()), View(), out[|old(out)|..])
      ensures res.Ok? ==>
        SameRows(View(), old(View())) && Sends(out[|old(out)|..], FanOut(old(View()), FTruncate(d, r)))
      ensures Has(joins, d, r) ==>
        RelatedServed(joins, fetch, FTruncate(d, r), old(View()), res, out[|old(out)|..], View())
    {
      hide Quiet, Carried, Sends, SentShow, RelationRows, Listed, Filled, AllAnswered, RelatedServed, StoredObjects;
      ghost var before, op := View(), FTruncate(d, r);
      state.PurgeRelatedTable(r.id, r.table);
      ghost var stored := View();
      RelatedStores(before, op);
      RelatedStillQuiet(joins, d, r, before, op);
      var count := ReEmitPrimariesForRelation(d, r.id);
      if count.Err? {
        if Has(joins, d, r) { RelatedServes(joins, fetch, op, before, Err(count.error), out[|old(out)|..], View()); }
        return Err(count.error);
      }
      SameFan(d, before, stored, RelationRows(before.reverse, r.id));
      RelatedCarried(joins, d, r, before, op, View(), out[|old(out)|..]);
      if Has(joins, d, r) { RelatedServes(joins, fetch, op, before, Ok(()), out[|old(out)|..], View()); }
      res := Ok(());
    }

    method HandleRelated(d: JoinDef, r: RelatedDef, kind: ChangeKind, e: Event) returns (res: Result<()>)
      requires Valid()
      modifies state, this`out
      ensures Valid() && |out| >= |old(out)| && out[..|old(out)|] == old(out)
      ensures DecodeRelated(d, r, kind, e).Err? ==>
        res == Err(DecodeRelated(d, r, kind, e).error) && View() == old(View()) && out == old(out)
      ensures DecodeRelated(d, r, kind, e).Ok? && Quiet(joins, d, old(View())) && r in d.related ==>
        res.Ok? && Carried(joins, DecodeRelated(d, r, kind, e).value, old(View()), View(), out[|old(out)|..])
      ensures DecodeRelated(d, r, kind, e).Ok? && res.Ok? ==>
        SameRows(View(), old(View())) && Sends(out[|old(out)|..],
          FanOut(old(View()), DecodeRelated(d, r, kind, e).value))
      ensures DecodeRelated(d, r, kind, e).Ok? && Has(joins, d, r) ==>
        RelatedServed(joins, fetch, DecodeRelated(d, r, kind, e).value, old(View()), res, out[|old(out)|..], View())
    {
      hide Quiet, EventKey, CurrentRow, Carried, Sends, SentShow, KeyOf, StoreForeign, DropForeign, KeyRows,
        RelationRows, Listed, Written, MovedFrom, DeletedKey, Filled, AllAnswered, RelatedServed, StoredObjects,
        Overlays;
      ghost var before := View();
      ghost var op := DecodeRelated(d, r, kind, e);
      if kind.Truncate? {
        res := HandleRelatedTruncate(d, r);
        return;
      }
      if e.payload.None? { return Err(InvalidPayload); }
      var row := CurrentRow(e.payload.value, kind);
      var pk := EventKey(row, r.pk, e);
      if pk.None? { return Err(InvalidPayload); }
      var key, moved;
      if kind.Delete? {
        moved := None;
        key := DeleteForeignRow(r, pk.value, KeyOf(row.GetOr(Null), r.to));
      } else {
        if row.None? { return Err(InvalidPayload); }
        key, moved := StoreForeignRow(r, pk.value, row.value, kind.Update?);
      }
      ghost var stored := View();
      RelatedStores(before, op.value);
      RelatedStillQuiet(joins, d, r, before, op.value);
      var count := ReEmitPrimariesForKeys(d, r.id, key, moved);
      if count.Err? {
        if Has(joins, d, r) {
          RelatedServes(joins, fetch, op.value, before, Err(count.error), out[|old(out)|..], View());
        }
        return Err(count.error);
      }
      SameFan(d, before, stored, KeyRows(before.reverse, r.id, key, moved));
      RelatedCarried(joins, d, r, before, op.value, View(), out[|old(out)|..]);
      if Has(joins, d, r) { RelatedServes(joins, fetch, op.value, before, Ok(()), out[|old(out)|..], View()); }
      res := Ok(());
    }

    // ---- routing ---------------------------------------------------------

    /** Handle an event in every role its table plays. `Ok(false)` means it is
        unrelated to the joins and passes through. In any backfill mode a permanent
        error is the planned one, so an event of a table with one role that ends in
        a permanent error has changed and sent nothing. */
    method HandleInner(e: Event) returns (res: Result<bool>, ghost outs: seq<seq<Emission>>)
      requires Valid()
      modifies state, this`out
      ensures Valid() && |out| >= |old(out)| && out[..|old(out)|] == old(out)
      ensures Ends(joins, fetch, old(View()), old(out), PlanEvent(joins, e), res, outs, View(), out)
      ensures AllQuiet(joins, old(View())) ==> res == Outcome(PlanEvent(joins, e).verdict)
      ensures AllQuiet(joins, old(View())) ==>
        Tracks(joins, fetch, old(View()), old(out), PlanEvent(joins, e).ops, outs, View(), out)
      ensures PlanEvent(joins, e).ops == [] ==>
        res == Outcome(PlanEvent(joins, e).verdict) && View() == old(View()) && out == old(out)
      ensures Sane(joins, old(View())) ==> Sane(joins, View())
      ensures StoredObjects(old(View())) ==> StoredObjects(View())
      ensures StoredObjects(old(View())) && res.Err? && res.error.IsPermanent() ==>
        res == Outcome(PlanEvent(joins, e).verdict)
      ensures StoredObjects(old(View())) && res.Err? && res.error.IsPermanent() && RolesFor(joins, e) <= 1 ==>
        View() == old(View()) && out == old(out)
      ensures Sane(joins, old(View())) && Tended(joins, old(View())) ==>
        (HonestSource(joins, fetch) && ObjectPlan(PlanEvent(joins, e)) ==> Tended(joins, View()))
      ensures StoredObjects(old(View())) && AllReachable(joins, fetch) ==> res == Outcome(PlanEvent(joins, e).verdict)
      ensures res.Ok? ==> EventLands(joins, fetch, e, old(View()), View())
    {
      hide Tracks, AllQuiet, PlanChange, SourceTable, SubjectKind, PlanEvent, Sane, StoredObjects, Ends, RolesFor,
        Tended, HonestSource, ObjectPlan, AllReachable, EventLands;
      ghost var st, start := View(), out;
      res, outs := Route(e);
      NothingPlannedNothingDone(joins, fetch, st, start, PlanEvent(joins, e), res, outs, View(), out);
      PlanWithinJoins(joins, e);
      EndsSoundly(joins, fetch, st, start, PlanEvent(joins, e), res, outs, View(), out);
      EventsLand(joins, fetch, e, st, start, res, outs, View(), out);
      PoisonOfOneRole(joins, e);
    }

    method Route(e: Event) returns (res: Result<bool>, ghost outs: seq<seq<Emission>>)
      requires Valid()
      modifies state, this`out
      ensures Valid() && |out| >= |old(out)| && out[..|old(out)|] == old(out)
      ensures Ends(joins, fetch, old(View()), old(out), PlanEvent(joins, e), res, outs, View(), out)
    {
      hide Tracks, AllQuiet, PlanChange, SourceTable, SubjectKind, StoredObjects;
      outs := [];
      TrackStarts(joins, fetch, View(), out);
      if Header(e, ACK_BARRIER_HEADER) == Some("true") { return Ok(false), []; }
      if Header(e, BOOTSTRAP_HEADER) == Some("snapshot-complete") { return Ok(true), []; }
      var table, kind := SourceTable(e), SubjectKind(e);
      if table.Err? { return Err(table.error), []; }
      if kind.Err? { return Err(kind.error), []; }
      res, outs := HandleChange(table.value, kind.value, e);
    }

    /** One role, with what has been done so far. */
    method ServePrimary(d: JoinDef, kind: ChangeKind, e: Event, ghost st: State, ghost start: seq<Emission>,
                        ghost ops: seq<RowOp>, ghost outs: seq<seq<Emission>>)
      returns (res: Result<()>, ghost outs': seq<seq<Emission>>)
      requires Valid() && d in joins && Tracks(joins, fetch, st, start, ops, outs, View(), out)
      modifies state, this`out
      ensures Valid() && |out| >= |old(out)| && out[..|old(out)|] == old(out)
      ensures DecodePrimary(d, kind, e).Err? ==>
        res == Err(DecodePrimary(d, kind, e).error) && View() == old(View()) && out == old(out)
      ensures DecodePrimary(d, kind, e).Ok? && res.Ok? ==>
        Tracks(joins, fetch, st, start, ops + [DecodePrimary(d, kind, e).value], outs', View(), out)
      ensures DecodePrimary(d, kind, e).Ok? && AllQuiet(joins, st) ==> res.Ok?
      ensures DecodePrimary(d, kind, e).Ok? ==>
        Filled(joins, fetch, Apply(old(View()), DecodePrimary(d, kind, e).value), View())
      ensures DecodePrimary(d, kind, e).Ok? && res.Err? ==> SomeSourceDown(joins, fetch, res.error)
    {
      hide Tracks, AllQuiet, Quiet, Carried, Sends, SameRows, Touched, Apply, Filled, KeysCarried, AllAnswered;
      ghost var at, was := View(), out;
      TracksOut(joins, fetch, st, start, ops, outs, at, was);
      if AllQuiet(joins, at) { QuietFor(joins, d, at); }
      res := HandlePrimary(d, kind, e);
      outs' := outs + [out[|was|..]];
      if DecodePrimary(d, kind, e).Ok? && res.Ok? {
        PrimaryOpIn(joins, d, kind, e);
        TrackStep(joins, fetch, st, start, ops, outs, at, was, DecodePrimary(d, kind, e).value, View(), out);
      }
    }

    method ServeRelated(d: JoinDef, r: RelatedDef, kind: ChangeKind, e: Event, ghost st: State,
                        ghost start: seq<Emission>, ghost ops: seq<RowOp>, ghost outs: seq<seq<Emission>>)
      returns (res: Result<()>, ghost outs': seq<seq<Emission>>)
      requires Valid() && d in joins && r in d.related && Tracks(joins, fetch, st, start, ops, outs, View(), out)
      modifies state, this`out
      ensures Valid() && |out| >= |old(out)| && out[..|old(out)|] == old(out)
      ensures DecodeRelated(d, r, kind, e).Err? ==>
        res == Err(DecodeRelated(d, r, kind, e).error) && View() == old(View()) && out == old(out)
      ensures DecodeRelated(d, r, kind, e).Ok? && res.Ok? ==>
        Tracks(joins, fetch, st, start, ops + [DecodeRelated(d, r, kind, e).value], outs', View(), out)
      ensures DecodeRelated(d, r, kind, e).Ok? && AllQuiet(joins, st) ==> res.Ok?
      ensures DecodeRelated(d, r, kind, e).Ok? ==>
        Filled(joins, fetch, Apply(old(View()), DecodeRelated(d, r, kind, e).value), View())
      ensures DecodeRelated(d, r, kind, e).Ok? && res.Err? && StoredObjects(old(View())) ==>
        SomeSourceDown(joins, fetch, res.error)
    {
      hide Tracks, AllQuiet, Quiet, Carried, Sends, SameRows, FanOut, Apply, KeyOf, Filled, KeysCarried, AllAnswered,
        StoredObjects, Sane, Tended, ChildGone, Referencing, Touched;
      ghost var at, was := View(), out;
      TracksOut(joins, fetch, st, start, ops, outs, at, was);
      if AllQuiet(joins, at) { QuietFor(joins, d, at); }
      res := HandleRelated(d, r, kind, e);
      outs' := outs + [out[|was|..]];
      if DecodeRelated(d, r, kind, e).Ok? && res.Ok? {
        RelatedOpIn(joins, d, r, kind, e);
        TrackStep(joins, fetch, st, start, ops, outs, at, was, DecodeRelated(d, r, kind, e).value, View(), out);
      }
    }

    method ServeTruncate(table: string) returns (ghost outs: seq<seq<Emission>>)
      requires Valid() && IsPrimaryTable(joins, table)
      modifies state, this`out
      ensures Valid() && Tracks(joins, fetch, old(View()), old(out), [PTruncate(table)], outs, View(), out)
      ensures |out| >= |old(out)| && out[..|old(out)|] == old(out)
    {
      hide Tracks, Carried, Apply, Buried, Filled, KeysCarried;
      ghost var at, was := View(), out;
      TrackStarts(joins, fetch, at, was);
      HandlePrimaryTruncate(table);
      FilledNothing(joins, fetch, View());
      DefsOnSome(joins, table);
      BuriedKeys(at, table, out[|was|..], DefsOn(joins, table));
      if AllQuiet(joins, at) {
        DefsOnOne(joins, table);
        TruncateCarried(joins, table, at, out[|was|..]);
      }
      TrackStep(joins, fetch, at, was, [], [], at, was, PTruncate(table), View(), out);
      assert [] + [PTruncate(table)] == [PTruncate(table)];
      outs := [] + [out[|was|..]];
    }

    /** The related roles of one definition, in order. */
    method ServeRelations(i: nat, table: string, kind: ChangeKind, e: Event, ghost st: State,
                          ghost start: seq<Emission>, ghost ops0: seq<RowOp>, ghost outs0: seq<seq<Emission>>)
      returns (res: Result<bool>, ghost ops: seq<RowOp>, ghost outs: seq<seq<Emission>>)
      requires Valid() && i < |joins| && Tracks(joins, fetch, st, start, ops0, outs0, View(), out)
      requires Served(Ahead(joins, table, kind), RolesUpTo(joins, table, i, 0), kind, e, ops0)
      requires forall op :: op in ops0 ==> OpIn(joins, op)
      modifies state, this`out
      ensures Valid() && |out| >= |old(out)| && out[..|old(out)|] == old(out)
      ensures res.Ok? ==> Tracks(joins, fetch, st, start, ops, outs, View(), out)
      ensures res.Ok? ==> Served(Ahead(joins, table, kind), Roles(joins[..i + 1], table), kind, e, ops)
      ensures res.Ok? ==> forall op :: op in ops ==> OpIn(joins, op)
      ensures res.Ok? ==> (res.value <==> RolesUpTo(joins, table, i, 0) != Roles(joins[..i + 1], table))
      ensures res.Err? ==> Stopped(joins, fetch, table, kind, e, st, start, res.error, outs, View(), out)
    {
      hide Tracks, AllQuiet, PlanChange, Served, Roles, RolesUpTo, DecodeRelated, Stopped, OpIn, Filled, Apply,
        StoredObjects;
      ops, outs := ops0, outs0;
      var d := joins[i];
      var matched := false;
      for j := 0 to |d.related|
        invariant Valid() && Tracks(joins, fetch, st, start, ops, outs, View(), out)
        invariant |out| >= |old(out)| && out[..|old(out)|] == old(out)
        invariant Served(Ahead(joins, table, kind), RolesUpTo(joins, table, i, j), kind, e, ops)
        invariant forall op :: op in ops ==> OpIn(joins, op)
        invariant |RolesUpTo(joins, table, i, j)| >= |RolesUpTo(joins, table, i, 0)|
        invariant matched <==> |RolesUpTo(joins, table, i, j)| > |RolesUpTo(joins, table, i, 0)|
        invariant !matched ==> RolesUpTo(joins, table, i, j) == RolesUpTo(joins, table, i, 0)
      {
        var r := d.related[j];
        ghost var done := RolesUpTo(joins, table, i, j);
        RolesUpToGrow(joins, table, i, j);
        RolesUpToGrow(joins, table, i, j + 1);
        if r.table == table {
          matched := true;
          ghost var at, was := View(), out;
          var served, outs1 := ServeRelated(d, r, kind, e, st, start, ops, outs);
          if served.Err? {
            StopsHere(joins, fetch, table, kind, e, st, start, ops, outs, at, was, done, AsRelated(d, r), served.error,
              View(), out);
            return Err(served.error), ops, outs;
          }
          ServeStep(Ahead(joins, table, kind), done, kind, e, ops, AsRelated(d, r));
          RelatedOpIn(joins, d, r, kind, e);
          ops, outs := ops + [DecodeRelated(d, r, kind, e).value], outs1;
        }
      }
      RolesUpToGrow(joins, table, i, |d.related|);
      res := Ok(matched);
    }

    method HandleChange(table: string, kind: ChangeKind, e: Event)
      returns (res: Result<bool>, ghost outs: seq<seq<Emission>>)
      requires Valid()
      modifies state, this`out
      ensures Valid() && |out| >= |old(out)| && out[..|old(out)|] == old(out)
      ensures Ends(joins, fetch, old(View()), old(out), PlanChange(joins, table, kind, e), res, outs, View(), out)
    {
      hide Tracks, AllQuiet, PlanChange, Served, Roles, RolesUpTo, Stopped, StoredObjects, OpIn, PassedPart;
      ghost var st, start := View(), out;
      ghost var ops := Ahead(joins, table, kind);
      outs := [];
      TrackStarts(joins, fetch, st, start);
      var primaryTruncate := kind.Truncate? && IsPrimaryTable(joins, table);
      if primaryTruncate { outs := ServeTruncate(table); }
      ServeStarts(ops, kind, e);
      AheadIn(joins, table, kind);
      NoRoles(joins, table);
      var matched := false;
      for i := 0 to |joins|
        invariant Valid() && Tracks(joins, fetch, st, start, ops, outs, View(), out)
        invariant |out| >= |old(out)| && out[..|old(out)|] == old(out)
        invariant matched <==> Roles(joins[..i], table) != []
        invariant Served(Ahead(joins, table, kind), Roles(joins[..i], table), kind, e, ops)
        invariant forall op :: op in ops ==> OpIn(joins, op)
      {
        var served, ops1, outs1 := ServeDefinition(i, table, kind, e, primaryTruncate, st, start, ops, outs);
        if served.Err? {
          StoppedEnds(joins, fetch, table, kind, e, st, start, served.error, outs1, View(), out);
          return Err(served.error), outs1;
        }
        ops, outs, matched := ops1, outs1, matched || served.value;
      }
      assert joins[..|joins|] == joins;
      ServedAll(joins, table, kind, e, ops);
      res := Ok(matched);
    }

    /** Every role the table plays in one definition, the primary one first. */
    method ServeDefinition(i: nat, table: string, kind: ChangeKind, e: Event, primaryTruncate: bool, ghost st: State,
                           ghost start: seq<Emission>, ghost ops0: seq<RowOp>, ghost outs0: seq<seq<Emission>>)
      returns (res: Result<bool>, ghost ops: seq<RowOp>, ghost outs: seq<seq<Emission>>)
      requires Valid() && i < |joins| && Tracks(joins, fetch, st, start, ops0, outs0, View(), out)
      requires primaryTruncate <==> kind.Truncate? && IsPrimaryTable(joins, table)
      requires Served(Ahead(joins, table, kind), Roles(joins[..i], table), kind, e, ops0)
      requires forall op :: op in ops0 ==> OpIn(joins, op)
      modifies state, this`out
      ensures Valid() && |out| >= |old(out)| && out[..|old(out)|] == old(out)
      ensures res.Ok? ==> Tracks(joins, fetch, st, start, ops, outs, View(), out)
      ensures res.Ok? ==> Served(Ahead(joins, table, kind), Roles(joins[..i + 1], table), kind, e, ops)
      ensures res.Ok? ==> forall op :: op in ops ==> OpIn(joins, op)
      ensures res.Ok? ==> (Roles(joins[..i + 1], table) != [] <==> Roles(joins[..i], table) != [] || res.value)
      ensures res.Err? ==> Stopped(joins, fetch, table, kind, e, st, start, res.error, outs, View(), out)
    {
      hide Tracks, AllQuiet, PlanChange, Served, Roles, RolesUpTo, DecodePrimary, Stopped, Ahead, OpIn, Filled, Apply,
        StoredObjects;
      ops, outs := ops0, outs0;
      var d := joins[i];
      var matched := false;
      ghost var pre, done := Ahead(joins, table, kind), Roles(joins[..i], table);
      FirstRole(joins, table, i);
      if d.table == table {
        matched := true;
        if primaryTruncate {
          SkippedRole(joins, fetch, d, kind, e, st, start, ops, outs, View(), out);
          outs := outs + [[]];
        } else {
          ghost var at, was := View(), out;
          var served, outs1 := ServePrimary(d, kind, e, st, start, ops, outs);
          if served.Err? {
            StopsHere(joins, fetch, table, kind, e, st, start, ops, outs, at, was, done, AsPrimary(d), served.error,
              View(), out);
            return Err(served.error), ops, outs;
          }
          outs := outs1;
        }
        ServeStep(pre, done, kind, e, ops, AsPrimary(d));
        PrimaryOpIn(joins, d, kind, e);
        ops := ops + [DecodePrimary(d, kind, e).value];
      }
      var related, ops1, outs1 := ServeRelations(i, table, kind, e, st, start, ops, outs);
      ops, outs := ops1, outs1;
      res := if related.Err? then Err(related.error) else Ok(matched || related.value);
    }

    // ---- the run loop ----------------------------------------------------

    /** Handle events in order, each with the source as it then stands. An event that
        can never be joined is set aside when that could be recorded, any other
        failure ends the run, and unrelated events are passed on. In any configuration
        and backfill mode the stored primaries are those the events describe and the
        sink has a document for exactly those; and while the sources are honest, every
        cached row stays found under its own join key, however the run ends. Started
        empty, without backfill, the emissions leave a sink holding exactly the join of
        the tables the events describe. */
    method Run(events: seq<Event>, sources: seq<Fetcher>, records: Event -> bool)
      returns (res: Result<()>, passed: seq<Event>, quarantined: seq<Event>)
      requires Valid() && |sources| == |events|
      modifies state, this
      ensures Valid()
      ensures Sane(joins, old(View())) ==> Sane(joins, View())
      ensures Sane(joins, old(View())) && Tended(joins, old(View())) ==>
        (HonestSources(joins, sources) && ObjectEvents(joins, events) ==> Tended(joins, View()))
      ensures StoredObjects(old(View())) && res.Ok? ==>
        passed == Ending(joins, events, false) && quarantined == Ending(joins, events, true)
      ensures StoredObjects(old(View())) && res.Ok? ==>
        Passes(joins, SourcesFor(joins, sources, events), old(View()), PlannedOps(joins, events), View())
      ensures StoredObjects(old(View())) && res.Ok? ==>
        Raws(state.primaryRows) == ReplayOps(TablesOf(old(View())), PlannedOps(joins, events)).prim
      ensures StoredObjects(old(View())) && res.Ok? && old(View()) == EMPTY_STATE && old(out) == [] ==>
        DeliverAll(map[], out).Keys == state.primaryRows.Keys
      ensures AllQuiet(joins, old(View())) ==>
        (res.Ok? <==> forall e :: e in Ending(joins, events, true) ==> records(e))
      ensures StoredObjects(old(View())) && SourcesAnswer(joins, sources) ==>
        (res.Ok? <==> forall e :: e in Ending(joins, events, true) ==> records(e))
      ensures AllQuiet(joins, old(View())) && res.Ok? ==> View() == ApplyOps(old(View()), PlannedOps(joins, events))
      ensures PlainJoins(joins) && Log(joins, PlannedOps(joins, events)) ==>
        (old(View()) == EMPTY_STATE && old(out) == [] && res.Ok? ==>
           SinkIsJoin(joins, DeliverAll(map[], out), ReplayAll(PlannedOps(joins, events))))
    {
      hide Tracks, TracksWith, AllQuiet, PlanEvent, Log, SinkIsJoin, PlannedOps, Ending, StoredObjects, Sane,
        PlainJoins, Ends, RolesFor, Passes, ApplyOps, ReplayOps, SourcesFor, Tended, HonestSource, ObjectPlan,
        AllReachable, EventLands, SourcesAnswer;
      ghost var st, start := View(), out;
      ghost var outs: seq<seq<Emission>> := [];
      ghost var tended := Sane(joins, st) && Tended(joins, st) && HonestSources(joins, sources)
        && ObjectEvents(joins, events);
      TrackStarts(joins, fetch, st, start);
      QuietStoresObjects(joins, st);
      QuietNeedsNoSource(joins, st, sources);
      RunStarts(joins, events);
      assert SourcesFor(joins, sources[..0], events[..0]) == [] by { RunSources(joins, sources, events); }
      passed, quarantined := [], [];
      for i := 0 to |events|
        invariant Valid() && (Sane(joins, st) ==> Sane(joins, View())) && (StoredObjects(st) ==> StoredObjects(View()))
        invariant tended ==> Tended(joins, View())
        invariant StoredObjects(st) ==>
          TracksWith(joins, SourcesFor(joins, sources[..i], events[..i]), st, start, PlannedOps(joins, events[..i]),
            outs, View(), out)
        invariant StoredObjects(st) ==>
          passed == Ending(joins, events[..i], false) && quarantined == Ending(joins, events[..i], true)
        invariant forall e :: e in quarantined ==> records(e)
      {
        ghost var at, was := View(), out;
        fetch := sources[i];
        EachAnswers(joins, sources, i);
        var handled, outs1 := HandleInner(events[i]);
        EndingStep(joins, events, i);
        if StoredObjects(st) {
          TracksWithOut(joins, SourcesFor(joins, sources[..i], events[..i]), st, start, PlannedOps(joins, events[..i]),
            outs, at, was);
          if handled.Ok? || handled.error.IsPermanent() {
            EndsAsPlanned(joins, fetch, at, was, PlanEvent(joins, events[i]), handled, outs1, View(), out);
            RunStep(joins, sources, st, start, events, i, outs, at, was, outs1, View(), out);
          }
        }
        outs := outs + outs1;
        if handled.Err? {
          if !handled.error.IsPermanent() || !records(events[i]) {
            EndingGrows(joins, events, i + 1);
            return Err(handled.error), passed, quarantined;
          }
          quarantined := quarantined + [events[i]];
        } else if !handled.value {
          passed := passed + [events[i]];
        }
      }
      assert events[..|events|] == events && sources[..|sources|] == sources;
      if StoredObjects(st) {
        RunEnds(joins, SourcesFor(joins, sources, events), st, start, PlannedOps(joins, events), outs, View(), out);
      }
      res := Ok(());
    }
  }
}
