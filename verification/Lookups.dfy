/** Resolving related rows: from the cache when it can be trusted, else from the
    source, one key at a time or for a chunk of keys at once. */
module Lookups {
  import opened Json
  import opened Keys
  import opened Config
  import opened Index
  import opened JoinModel

  datatype FetchResult = Fetched(rows: seq<Json>) | Unreachable

  /** Table, join columns, key and columns wanted; the source's rows for them. */
  type Fetcher = (string, seq<string>, PkValue, seq<string>) -> FetchResult

  // ---- the columns to fetch ----------------------------------------------

  /** `select` and the join columns it lacks; an empty `select` asks for all. */
  function WithColumns(select: seq<string>, extra: seq<string>): seq<string> {
    if extra == [] then select
    else
      var n := |extra| - 1;
      var before := WithColumns(select, extra[..n]);
      if extra[n] in before then before else before + [extra[n]]
  }

  function SelectWithFk(select: seq<string>, extra: seq<string>): seq<string> {
    if select == [] then [] else WithColumns(select, extra)
  }

  /** The fetched columns are the selected ones, in place, and every join column. */
  lemma {:induction false} WithColumnsAre(select: seq<string>, extra: seq<string>)
    ensures var cols := WithColumns(select, extra);
      && select <= cols
      && (forall c :: c in cols <==> c in select || c in extra)
      && (Distinct(select) ==> Distinct(cols))
  {
    if extra != [] {
      var n := |extra| - 1;
      WithColumnsAre(select, extra[..n]);
      assert extra == extra[..n] + [extra[n]];
    }
  }

  method AddFkColumns(select: seq<string>, extra: seq<string>) returns (cols: seq<string>)
    ensures cols == SelectWithFk(select, extra)
  {
    if select == [] { return []; }
    cols := select;
    for i := 0 to |extra|
      invariant cols == WithColumns(select, extra[..i])
    {
      assert extra[..i + 1][..i] == extra[..i];
      if extra[i] !in cols { cols := cols + [extra[i]]; }
    }
    assert extra[..|extra|] == extra;
  }

  // ---- one lookup --------------------------------------------------------

  function Ask(fetch: Fetcher, r: RelatedDef, key: PkValue): FetchResult {
    fetch(r.table, r.to, key, SelectWithFk(r.select, r.to))
  }

  /** A `Many` relation with backfill on is always read from the source: its
      cache may be incomplete. */
  predicate Reconciles(d: JoinDef, r: RelatedDef) {
    r.cardinality.Many? && d.backfill.SyncOnMiss?
  }

  /** The cache answers for this key. */
  predicate Cached(d: JoinDef, r: RelatedDef, st: State, key: PkValue) {
    !Reconciles(d, r) && Bucket(st.byFk, r.id, key) != {}
  }

  predicate Consults(d: JoinDef, r: RelatedDef, st: State, key: PkValue) {
    !key.IsNull() && !Cached(d, r, st, key) && d.backfill.SyncOnMiss?
  }

  /** The source answers every lookup the definition's relations may need. */
  ghost predicate Reachable(fetch: Fetcher, d: JoinDef) {
    d.backfill.SyncOnMiss? ==> forall r, key :: r in d.related ==> Ask(fetch, r, key).Fetched?
  }

  /** The rows a lookup may return: cached rows in some order, or what the source says. */
  ghost predicate Answers(fetch: Fetcher, d: JoinDef, r: RelatedDef, st: State, key: PkValue, rows: seq<Json>) {
    if key.IsNull() then rows == []
    else if Cached(d, r, st, key) then FoundIn(rows, IndexedRows(st, r, key))
    else if d.backfill.NoBackfill? then rows == []
    else Ask(fetch, r, key).Fetched? && rows == Ask(fetch, r, key).rows
  }

  function StoreRow(st: State, r: RelatedDef, key: PkValue, row: Json): State {
    match ExtractPk(row, r.pk)
    case None => st
    case Some(pk) => st.(foreign := st.foreign[(r.table, pk) := row], byFk := Add(st.byFk, r.id, key, pk))
  }

  function StoreFetched(st: State, r: RelatedDef, key: PkValue, rows: seq<Json>): State {
    if rows == [] then st
    else StoreRow(StoreFetched(st, r, key, rows[..|rows| - 1]), r, key, rows[|rows| - 1])
  }

  function StoreAnswer(fetch: Fetcher, st: State, r: RelatedDef, key: PkValue): State {
    if Ask(fetch, r, key).Fetched? then StoreFetched(st, r, key, Ask(fetch, r, key).rows) else st
  }

  function AfterLookup(fetch: Fetcher, d: JoinDef, r: RelatedDef, st: State, key: PkValue): State {
    if Consults(d, r, st, key) then StoreAnswer(fetch, st, r, key) else st
  }

  // ---- a batch of keys ---------------------------------------------------

  function Unique(keys: seq<PkValue>): seq<PkValue> {
    if keys == [] then []
    else
      var n := |keys| - 1;
      var before := Unique(keys[..n]);
      if keys[n] in before then before else before + [keys[n]]
  }

  function Unresolved(d: JoinDef, r: RelatedDef, st: State, keys: seq<PkValue>): seq<PkValue> {
    if keys == [] then []
    else
      var n := |keys| - 1;
      Unresolved(d, r, st, keys[..n]) + if Consults(d, r, st, keys[n]) then [keys[n]] else []
  }

  function StoreAnswers(fetch: Fetcher, st: State, r: RelatedDef, keys: seq<PkValue>): State {
    if keys == [] then st
    else StoreAnswer(fetch, StoreAnswers(fetch, st, r, keys[..|keys| - 1]), r, keys[|keys| - 1])
  }

  function AfterBatch(fetch: Fetcher, d: JoinDef, r: RelatedDef, st: State, keys: seq<PkValue>): State {
    StoreAnswers(fetch, st, r, Unresolved(d, r, st, Unique(keys)))
  }

  lemma {:induction false} UniqueKeys(keys: seq<PkValue>)
    ensures Distinct(Unique(keys)) && forall k :: k in Unique(keys) <==> k in keys
  {
    if keys != [] {
      var n := |keys| - 1;
      UniqueKeys(keys[..n]);
      assert keys == keys[..n] + [keys[n]];
    }
  }

  lemma {:induction false} UnresolvedKeys(d: JoinDef, r: RelatedDef, st: State, keys: seq<PkValue>)
    ensures forall k :: k in Unresolved(d, r, st, keys) <==> k in keys && Consults(d, r, st, k)
  {
    if keys != [] {
      var n := |keys| - 1;
      UnresolvedKeys(d, r, st, keys[..n]);
      assert keys == keys[..n] + [keys[n]];
    }
  }

  // ---- what a lookup leaves alone ----------------------------------------

  /** The two states hold the same rows and buckets for `r`. */
  ghost predicate SameFor(r: RelatedDef, a: State, b: State) {
    && (forall key :: Bucket(a.byFk, r.id, key) == Bucket(b.byFk, r.id, key))
    && (forall k: RowKey :: k.0 == r.table ==> Lookup(a.foreign, k) == Lookup(b.foreign, k))
  }

  lemma {:induction false} StoreFetchedFrame(st: State, r: RelatedDef, key: PkValue, rows: seq<Json>)
    ensures var st' := StoreFetched(st, r, key, rows);
      && st'.primary == st.primary && st'.reverse == st.reverse
      && (NoEmpties(st.byFk) ==> NoEmpties(st'.byFk))
      && (forall id, k :: (id, k) != (r.id, key) ==> Bucket(st'.byFk, id, k) == Bucket(st.byFk, id, k))
      && (forall k: RowKey :: k.0 != r.table ==> Lookup(st'.foreign, k) == Lookup(st.foreign, k))
  {
    if rows != [] {
      var n := |rows| - 1;
      var before := StoreFetched(st, r, key, rows[..n]);
      StoreFetchedFrame(st, r, key, rows[..n]);
      match ExtractPk(rows[n], r.pk)
      case None =>
      case Some(pk) => AddBuckets(before.byFk, r.id, key, pk);
    }
  }

  lemma {:induction false} AnswersSameFor(fetch: Fetcher, d: JoinDef, r: RelatedDef, a: State, b: State, key: PkValue,
                                          rows: seq<Json>)
    requires SameFor(r, a, b)
    ensures Answers(fetch, d, r, a, key, rows) <==> Answers(fetch, d, r, b, key, rows)
    ensures Consults(d, r, a, key) <==> Consults(d, r, b, key)
  {
    forall k ensures k in IndexedRows(a, r, key) <==> k in IndexedRows(b, r, key) {
      if k.0 == r.table { assert Lookup(a.foreign, k) == Lookup(b.foreign, k); }
    }
    forall k | k in IndexedRows(a, r, key) ensures IndexedRows(a, r, key)[k] == IndexedRows(b, r, key)[k] {
      assert Lookup(a.foreign, k) == Lookup(b.foreign, k);
    }
    assert IndexedRows(a, r, key) == IndexedRows(b, r, key);
  }

  lemma {:induction false} StoreAnswerFrame(fetch: Fetcher, st: State, r: RelatedDef, key: PkValue, r': RelatedDef)
    ensures var st' := StoreAnswer(fetch, st, r, key);
      && st'.primary == st.primary && st'.reverse == st.reverse
      && (NoEmpties(st.byFk) ==> NoEmpties(st'.byFk))
      && (!Clash(r, r') ==> SameFor(r', st', st))
  {
    if Ask(fetch, r, key).Fetched? { StoreFetchedFrame(st, r, key, Ask(fetch, r, key).rows); }
  }

  lemma {:induction false} StoreAnswersFrame(fetch: Fetcher, st: State, r: RelatedDef, keys: seq<PkValue>,
                                             r': RelatedDef)
    ensures var st' := StoreAnswers(fetch, st, r, keys);
      && st'.primary == st.primary && st'.reverse == st.reverse
      && (NoEmpties(st.byFk) ==> NoEmpties(st'.byFk))
      && (!Clash(r, r') ==> SameFor(r', st', st))
  {
    if keys != [] {
      var n := |keys| - 1;
      StoreAnswersFrame(fetch, st, r, keys[..n], r');
      StoreAnswerFrame(fetch, StoreAnswers(fetch, st, r, keys[..n]), r, keys[n], r');
    }
  }

  // ---- one relation, key after key ---------------------------------------

  function OneByOne(fetch: Fetcher, d: JoinDef, r: RelatedDef, st: State, keys: seq<PkValue>): State {
    if keys == [] then st
    else AfterLookup(fetch, d, r, OneByOne(fetch, d, r, st, keys[..|keys| - 1]), keys[|keys| - 1])
  }

  /** Looking `key` up in `st` caches `row` under `pk`. */
  ghost predicate Brings(fetch: Fetcher, d: JoinDef, r: RelatedDef, st: State, key: PkValue, pk: PkValue, row: Json) {
    Consults(d, r, st, key) && Ask(fetch, r, key) == Fetched([row]) && ExtractPk(row, r.pk) == Some(pk)
  }

  lemma StoreOne(st: State, r: RelatedDef, key: PkValue, row: Json)
    ensures StoreFetched(st, r, key, [row]) == StoreRow(st, r, key, row)
  {
    assert [row][..0] == [];
  }

  lemma {:induction false} FoundSingle(rows: seq<Json>, k: RowKey, row: Json)
    ensures FoundIn(rows, map[k := row]) <==> rows == [row]
  {
    var m := map[k := row];
    if rows == [row] {
      assert Lists([k], m) && rows == RowsIn([k], m);
    }
    if FoundIn(rows, m) {
      var order :| Lists(order, m) && rows == RowsIn(order, m);
      assert k in order;
      forall i | 0 <= i < |order| ensures order[i] == k { assert order[i] in order; }
      assert order[0] == order[|order| - 1];
      assert order == [k];
    }
  }

  lemma {:induction false} NothingFetched(fetch: Fetcher, d: JoinDef, r: RelatedDef, st: State, keys: seq<PkValue>)
    requires d.backfill.NoBackfill?
    ensures OneByOne(fetch, d, r, st, keys) == st
  {
    if keys != [] { NothingFetched(fetch, d, r, st, keys[..|keys| - 1]); }
  }

  // ---- a chunk of primaries ----------------------------------------------

  /** One primary's lookups, relation by relation. */
  function AfterRelations(fetch: Fetcher, d: JoinDef, related: seq<RelatedDef>, st: State, fks: map<string,
    PkValue>): State
  {
    if related == [] then st
    else
      var n := |related| - 1;
      var before := AfterRelations(fetch, d, related[..n], st, fks);
      if related[n].id in fks then AfterLookup(fetch, d, related[n], before, fks[related[n].id]) else before
  }

  /** Each primary composed in turn, given the keys it was stored with. */
  function AfterRows(fetch: Fetcher, d: JoinDef, st: State, chunk: seq<map<string, PkValue>>): State {
    if chunk == [] then st
    else
      var n := |chunk| - 1;
      AfterRelations(fetch, d, d.related, AfterRows(fetch, d, st, chunk[..n]), chunk[n])
  }

  /** The keys a chunk of primaries has for one relation. */
  function ChunkKeys(chunk: seq<map<string, PkValue>>, id: string): seq<PkValue> {
    if chunk == [] then []
    else
      var n := |chunk| - 1;
      ChunkKeys(chunk[..n], id) + if id in chunk[n] then [chunk[n][id]] else []
  }

  /** The chunk resolved relation by relation, each in one batch. */
  function AfterBatches(fetch: Fetcher, d: JoinDef, related: seq<RelatedDef>, st: State,
                        chunk: seq<map<string, PkValue>>): State
  {
    if related == [] then st
    else
      var n := |related| - 1;
      AfterBatch(fetch, d, related[n], AfterBatches(fetch, d, related[..n], st, chunk), ChunkKeys(chunk, related[n].id))
  }

  ghost predicate NoClash(related: seq<RelatedDef>) {
    forall i, j :: 0 <= i < j < |related| ==> !Clash(related[i], related[j])
  }

  lemma {:induction false} StoreFetchedSameFor(a: State, b: State, r: RelatedDef, key: PkValue, rows: seq<Json>)
    requires SameFor(r, a, b)
    ensures SameFor(r, StoreFetched(a, r, key, rows), StoreFetched(b, r, key, rows))
  {
    hide ExtractPk;
    if rows != [] {
      var n := |rows| - 1;
      StoreFetchedSameFor(a, b, r, key, rows[..n]);
      if ExtractPk(rows[n], r.pk).Some? {
        AddBuckets(StoreFetched(a, r, key, rows[..n]).byFk, r.id, key, ExtractPk(rows[n], r.pk).value);
        AddBuckets(StoreFetched(b, r, key, rows[..n]).byFk, r.id, key, ExtractPk(rows[n], r.pk).value);
      }
    }
  }

  lemma {:induction false} LookupSameFor(fetch: Fetcher, d: JoinDef, r: RelatedDef, a: State, b: State, key: PkValue)
    requires SameFor(r, a, b)
    ensures SameFor(r, AfterLookup(fetch, d, r, a, key), AfterLookup(fetch, d, r, b, key))
  {
    hide StoreFetched, SelectWithFk;
    assert Consults(d, r, a, key) <==> Consults(d, r, b, key);
    if Ask(fetch, r, key).Fetched? { StoreFetchedSameFor(a, b, r, key, Ask(fetch, r, key).rows); }
  }

  lemma {:induction false} OthersLeave(fetch: Fetcher, d: JoinDef, related: seq<RelatedDef>, st: State,
                                       fks: map<string, PkValue>, r: RelatedDef)
    requires forall r' :: r' in related ==> !Clash(r', r)
    ensures SameFor(r, AfterRelations(fetch, d, related, st, fks), st)
  {
    if related != [] {
      var n := |related| - 1;
      OthersLeave(fetch, d, related[..n], st, fks, r);
      assert related[n] in related;
      if related[n].id in fks {
        StoreAnswerFrame(fetch, AfterRelations(fetch, d, related[..n], st, fks), related[n], fks[related[n].id], r);
      }
    }
  }

  /** Composing one primary touches a relation's rows through that relation only. */
  lemma {:induction false} RowSameFor(fetch: Fetcher, d: JoinDef, related: seq<RelatedDef>, a: State, b: State,
                                      fks: map<string, PkValue>, j: nat)
    requires NoClash(related) && j < |related| && SameFor(related[j], a, b)
    ensures var r := related[j];
      SameFor(r, AfterRelations(fetch, d, related, a, fks), if r.id in fks then AfterLookup(fetch, d, r, b, fks[r.id])
        else b)
  {
    hide AfterLookup, Ask;
    var n, r := |related| - 1, related[j];
    if j == n {
      OthersLeave(fetch, d, related[..n], a, fks, r);
      if r.id in fks { LookupSameFor(fetch, d, r, AfterRelations(fetch, d, related[..n], a, fks), b, fks[r.id]); }
    } else {
      RowSameFor(fetch, d, related[..n], a, b, fks, j);
      if related[n].id in fks {
        LookupLeaves(fetch, d, related[n], AfterRelations(fetch, d, related[..n], a, fks), fks[related[n].id], r);
      }
    }
  }

  lemma {:induction false} LookupLeaves(fetch: Fetcher, d: JoinDef, r: RelatedDef, st: State, key: PkValue,
                                        r': RelatedDef)
    requires !Clash(r, r')
    ensures SameFor(r', AfterLookup(fetch, d, r, st, key), st)
  {
    StoreAnswerFrame(fetch, st, r, key, r');
  }

  lemma {:induction false} RowsSameFor(fetch: Fetcher, d: JoinDef, st: State, chunk: seq<map<string, PkValue>>, j: nat)
    requires NoClash(d.related) && j < |d.related|
    ensures var r := d.related[j];
      SameFor(r, AfterRows(fetch, d, st, chunk), OneByOne(fetch, d, r, st, ChunkKeys(chunk, r.id)))
  {
    hide AfterLookup;
    if chunk != [] {
      var n, r := |chunk| - 1, d.related[j];
      var keys := ChunkKeys(chunk[..n], r.id);
      RowsSameFor(fetch, d, st, chunk[..n], j);
      RowSameFor(fetch, d, d.related, AfterRows(fetch, d, st, chunk[..n]), OneByOne(fetch, d, r, st, keys), chunk[n],
        j);
      assert ChunkKeys(chunk, r.id) == if r.id in chunk[n] then keys + [chunk[n][r.id]] else keys;
      assert r.id in chunk[n] ==> (keys + [chunk[n][r.id]])[..|keys|] == keys;
    }
  }

  lemma {:induction false} BatchesLeave(fetch: Fetcher, d: JoinDef, related: seq<RelatedDef>, st: State,
                                        chunk: seq<map<string, PkValue>>, r: RelatedDef)
    requires forall r' :: r' in related ==> !Clash(r', r)
    ensures SameFor(r, AfterBatches(fetch, d, related, st, chunk), st)
  {
    if related != [] {
      var n := |related| - 1;
      BatchesLeave(fetch, d, related[..n], st, chunk, r);
      assert related[n] in related;
      var before := AfterBatches(fetch, d, related[..n], st, chunk);
      StoreAnswersFrame(fetch, before, related[n],
        Unresolved(d, related[n], before, Unique(ChunkKeys(chunk, related[n].id))), r);
    }
  }

  lemma {:induction false} ChunkKeyAt(chunk: seq<map<string, PkValue>>, id: string, i: nat)
    requires i < |chunk| && id in chunk[i]
    ensures ChunkKeys(chunk[..i], id) + [chunk[i][id]] <= ChunkKeys(chunk, id)
  {
    var n := |chunk| - 1;
    if i < n {
      ChunkKeyAt(chunk[..n], id, i);
      assert chunk[..n][..i] == chunk[..i];
    }
  }

  // ---- when batching shows ------------------------------------------------

  /** Fetching one key disturbs what the cache holds for another exactly when the
      row it brings is a different version of one in the other's bucket. */
  lemma {:induction false} FetchDisturbsIff(fetch: Fetcher, d: JoinDef, r: RelatedDef, st: State, key: PkValue,
                                            pk: PkValue, row: Json, other: PkValue)
    requires Brings(fetch, d, r, st, key, pk, row) && other != key
    ensures var after := AfterLookup(fetch, d, r, st, key);
      IndexedRows(after, r, other) != IndexedRows(st, r, other) <==>
        pk in Bucket(st.byFk, r.id, other) && Lookup(st.foreign, (r.table, pk)) != Some(row)
  {
    hide ExtractPk, SelectWithFk;
    var after := AfterLookup(fetch, d, r, st, key);
    StoreOne(st, r, key, row);
    AddBuckets(st.byFk, r.id, key, pk);
    var was, now := IndexedRows(st, r, other), IndexedRows(after, r, other);
    assert forall k :: k != (r.table, pk) ==> Lookup(was, k) == Lookup(now, k);
    if pk !in Bucket(st.byFk, r.id, other) || Lookup(st.foreign, (r.table, pk)) == Some(row) {
      assert forall k :: k in was <==> k in now;
      assert was == now;
    } else {
      assert Lookup(now, (r.table, pk)) == Some(row) != Lookup(was, (r.table, pk));
    }
  }

  /** Then a chunk holding both keys shows the difference: a batch embeds the
      cached row, composing in turn embeds the fetched one. */
  lemma {:induction false} BatchKeepsCachedRow(fetch: Fetcher, d: JoinDef, r: RelatedDef, st: State, key: PkValue,
          pk: PkValue, row: Json, other: PkValue, cached: Json)
    requires Brings(fetch, d, r, st, key, pk, row) && r.cardinality.One? && other != key && !other.IsNull()
    requires Bucket(st.byFk, r.id, other) == {pk} && Lookup(st.foreign, (r.table, pk)) == Some(cached) && cached != row
    ensures var after := AfterLookup(fetch, d, r, st, key);
      && (forall rows :: Answers(fetch, d, r, st, other, rows) <==> rows == [cached])
      && (forall rows :: Answers(fetch, d, r, after, other, rows) <==> rows == [row])
  {
    hide ExtractPk, SelectWithFk, FoundIn, Add, StoreFetched, IndexedRows;
    var after := AfterLookup(fetch, d, r, st, key);
    StoreOne(st, r, key, row);
    AddBuckets(st.byFk, r.id, key, pk);
    SingleAnswer(fetch, d, r, st, other, pk, cached);
    SingleAnswer(fetch, d, r, after, other, pk, row);
  }

  lemma {:induction false} SingleAnswer(fetch: Fetcher, d: JoinDef, r: RelatedDef, st: State, key: PkValue, pk: PkValue,
                                        row: Json)
    requires r.cardinality.One? && !key.IsNull() && Bucket(st.byFk, r.id, key) == {pk}
    requires Lookup(st.foreign, (r.table, pk)) == Some(row)
    ensures forall rows :: Answers(fetch, d, r, st, key, rows) <==> rows == [row]
  {
    hide FoundIn;
    assert IndexedRows(st, r, key) == map[(r.table, pk) := row];
    forall rows ensures Answers(fetch, d, r, st, key, rows) <==> rows == [row] {
      FoundSingle(rows, (r.table, pk), row);
    }
  }

  /** And a `One` relation whose key has two rows: a batch always embeds the
      first, a second lookup in turn may embed the other. */
  lemma {:induction false} SecondLookupMayDiffer(fetch: Fetcher, d: JoinDef, r: RelatedDef, st: State, key: PkValue,
                                                 a: Json, pa: PkValue, b: Json, pb: PkValue)
    requires Consults(d, r, st, key) && r.cardinality.One? && Ask(fetch, r, key) == Fetched([a, b]) && a != b
    requires ExtractPk(a, r.pk) == Some(pa) && ExtractPk(b, r.pk) == Some(pb) && pa != pb
    ensures Answers(fetch, d, r, AfterLookup(fetch, d, r, st, key), key, [b, a])
    ensures !Answers(fetch, d, r, st, key, [b, a])
  {
    hide ExtractPk, SelectWithFk, FoundIn, IndexedRows;
    TwoCached(st, r, key, a, pa, b, pb);
    FoundPair((r.table, pb), b, (r.table, pa), a);
  }

  lemma {:induction false} TwoCached(st: State, r: RelatedDef, key: PkValue, a: Json, pa: PkValue, b: Json, pb: PkValue)
    requires Bucket(st.byFk, r.id, key) == {}
    requires ExtractPk(a, r.pk) == Some(pa) && ExtractPk(b, r.pk) == Some(pb) && pa != pb
    ensures var after := StoreFetched(st, r, key, [a, b]);
      && Bucket(after.byFk, r.id, key) == {pa, pb}
      && IndexedRows(after, r, key) == map[(r.table, pb) := b, (r.table, pa) := a]
  {
    hide ExtractPk, Bucket, Add, StoreFetched;
    StoreTwo(st, r, key, a, b);
    AddBuckets(st.byFk, r.id, key, pa);
    AddBuckets(StoreRow(st, r, key, a).byFk, r.id, key, pb);
    var after := StoreFetched(st, r, key, [a, b]);
    assert after.foreign == st.foreign[(r.table, pa) := a][(r.table, pb) := b];
    assert Bucket(after.byFk, r.id, key) == {pa, pb};
    forall k ensures k in IndexedRows(after, r, key) <==> k == (r.table, pa) || k == (r.table, pb) {}
  }

  lemma StoreTwo(st: State, r: RelatedDef, key: PkValue, a: Json, b: Json)
    ensures StoreFetched(st, r, key, [a, b]) == StoreRow(StoreRow(st, r, key, a), r, key, b)
  {
    hide StoreRow;
    assert [a, b][..1] == [a];
    StoreOne(st, r, key, a);
  }

  lemma {:induction false} FoundPair(k1: RowKey, row1: Json, k2: RowKey, row2: Json)
    requires k1 != k2
    ensures FoundIn([row1, row2], map[k1 := row1, k2 := row2])
  {
    var m := map[k1 := row1, k2 := row2];
    assert Lists([k1, k2], m) && RowsIn([k1, k2], m) == [row1, row2];
  }

  // ---- recovering a key from a fetched row -------------------------------

  /** Projecting a row keeps its key for any columns among those kept. */
  lemma {:induction false} ProjectionKeepsKey(row: Json, select: seq<string>, columns: seq<string>)
    requires row.Obj? && (select == [] || forall c :: c in columns ==> c in select)
    ensures ExtractPk(ProjectRow(row, select), columns) == ExtractPk(row, columns)
  {
    if select != [] {
      var kept := ProjectRow(row, select);
      forall i | 0 <= i < |columns| ensures Columns(kept.fields, columns)[i] == Columns(row.fields, columns)[i] {
        assert columns[i] in select;
      }
      assert Columns(kept.fields, columns) == Columns(row.fields, columns);
    }
  }

  /** A source that answers with the requested columns of its own rows. */
  ghost predicate Honest(fetch: Fetcher, source: map<RowKey, Json>, r: RelatedDef) {
    forall key, row :: Ask(fetch, r, key).Fetched? && row in Ask(fetch, r, key).rows ==>
      FetchedFrom(source, r, key, row)
  }

  ghost predicate FetchedFrom(source: map<RowKey, Json>, r: RelatedDef, key: PkValue, row: Json) {
    exists k :: k in source && k.0 == r.table && source[k].Obj? && ExtractPk(source[k], r.pk) == Some(k.1)
      && KeyOf(source[k], r.to) == key && row == ProjectRow(source[k], SelectWithFk(r.select, r.to))
  }

  /** A row fetched for `key` still tells its join key, whatever `select` says, and
      its own key when `select` keeps the related key columns. */
  lemma {:induction false} FetchedRowKeepsKeys(source: map<RowKey, Json>, r: RelatedDef, key: PkValue, row: Json)
    requires FetchedFrom(source, r, key, row)
    ensures row.Obj? && KeyOf(row, r.to) == key
    ensures (r.select == [] || forall c :: c in r.pk ==> c in r.select) ==>
      exists k :: k in source && k.0 == r.table && KeyOf(source[k], r.to) == key && ExtractPk(row, r.pk) == Some(k.1)
  {
    hide FromValues;
    var k :| k in source && k.0 == r.table && source[k].Obj? && ExtractPk(source[k], r.pk) == Some(k.1)
      && KeyOf(source[k], r.to) == key && row == ProjectRow(source[k], SelectWithFk(r.select, r.to));
    WithColumnsAre(r.select, r.to);
    ProjectionKeepsKey(source[k], SelectWithFk(r.select, r.to), r.to);
    if r.select == [] || forall c :: c in r.pk ==> c in r.select {
      ProjectionKeepsKey(source[k], SelectWithFk(r.select, r.to), r.pk);
    }
  }

  /** Had the fetch asked for `select` alone, a join column outside it would have
      come back as null and the key would be lost. */
  lemma {:induction false} SelectAloneLosesKey(row: Json, select: seq<string>, column: string)
    requires row.Obj? && select != [] && column !in select && column in row.fields
    requires !row.fields[column].Null? && ScalarOrNull([row.fields[column]])
    ensures KeyOf(ProjectRow(row, select), [column]) != KeyOf(row, [column])
  {
    KeysEqualIff(Columns(ProjectRow(row, select).fields, [column]), Columns(row.fields, [column]));
    assert Columns(ProjectRow(row, select).fields, [column])[0] == Null;
    assert Columns(row.fields, [column])[0] == row.fields[column];
  }
}
