/** Recomposing a chunk in batches against composing its primaries one after the
    other: exactly when the two can give the same documents. */
module Batches {
  import opened Order
  import opened Json
  import opened Keys
  import opened Config
  import opened Index
  import opened JoinModel
  import opened Lookups
  import opened Compose

  // ---- what the keys fetched so far have left in the cache ---------------

  /** The keys under which the source's rows for `key` are cached. */
  function Pks(fetch: Fetcher, r: RelatedDef, key: PkValue): set<PkValue> {
    if Ask(fetch, r, key).Fetched? then PksIn(Ask(fetch, r, key).rows, r) else {}
  }

  function PksIn(rows: seq<Json>, r: RelatedDef): set<PkValue> {
    if rows == [] then {}
    else
      var n := |rows| - 1;
      PksIn(rows[..n], r) + match ExtractPk(rows[n], r.pk) case Some(pk) => {pk} case None => {}
  }

  /** The last of `rows` that is cached under `pk`. */
  function LastVersion(rows: seq<Json>, r: RelatedDef, pk: PkValue): Option<Json> {
    if rows == [] then None
    else
      var n := |rows| - 1;
      if ExtractPk(rows[n], r.pk) == Some(pk) then Some(rows[n]) else LastVersion(rows[..n], r, pk)
  }

  /** The version of a row once these keys have been fetched in order: the last one
      the source gave, else the cached one. */
  function Latest(fetch: Fetcher, r: RelatedDef, st: State, keys: seq<PkValue>, pk: PkValue): Option<Json> {
    if keys == [] then Lookup(st.foreign, (r.table, pk))
    else
      var n := |keys| - 1;
      var given := if Ask(fetch, r, keys[n]).Fetched? then LastVersion(Ask(fetch, r, keys[n]).rows, r, pk) else None;
      if given.Some? then given else Latest(fetch, r, st, keys[..n], pk)
  }

  lemma {:induction false} StoreFetchedIs(st: State, r: RelatedDef, key: PkValue, rows: seq<Json>, k: PkValue,
                                          pk: PkValue)
    ensures var now := StoreFetched(st, r, key, rows);
      && Bucket(now.byFk, r.id, k) == Bucket(st.byFk, r.id, k) + (if k == key then PksIn(rows, r) else {})
      && Lookup(now.foreign, (r.table, pk)) ==
         (if LastVersion(rows, r, pk).Some? then LastVersion(rows, r, pk) else Lookup(st.foreign, (r.table, pk)))
  {
    hide ExtractPk, Add;
    if rows != [] {
      var n := |rows| - 1;
      StoreFetchedIs(st, r, key, rows[..n], k, pk);
      if ExtractPk(rows[n], r.pk).Some? {
        AddBuckets(StoreFetched(st, r, key, rows[..n]).byFk, r.id, key, ExtractPk(rows[n], r.pk).value);
      }
    }
  }

  lemma {:induction false} StoreAnswersAre(fetch: Fetcher, st: State, r: RelatedDef, keys: seq<PkValue>, k: PkValue,
                                           pk: PkValue)
    ensures var now := StoreAnswers(fetch, st, r, keys);
      && Bucket(now.byFk, r.id, k) == Bucket(st.byFk, r.id, k) + (if k in keys then Pks(fetch, r, k) else {})
      && Lookup(now.foreign, (r.table, pk)) == Latest(fetch, r, st, keys, pk)
  {
    hide PksIn, LastVersion, StoreFetched, Ask;
    if keys != [] {
      var n := |keys| - 1;
      StoreAnswersAre(fetch, st, r, keys[..n], k, pk);
      assert keys == keys[..n] + [keys[n]];
      if Ask(fetch, r, keys[n]).Fetched? {
        StoreFetchedIs(StoreAnswers(fetch, st, r, keys[..n]), r, keys[n], Ask(fetch, r, keys[n]).rows, k, pk);
      }
    }
  }

  // ---- one after the other is a batch of the keys so far -----------------

  /** The keys fetched while the first `n` are looked up, in order. */
  function FetchedBefore(d: JoinDef, r: RelatedDef, st: State, keys: seq<PkValue>, n: nat): seq<PkValue>
    requires n <= |keys|
  {
    Unresolved(d, r, st, Unique(keys[..n]))
  }

  lemma {:induction false} UnresolvedSnoc(d: JoinDef, r: RelatedDef, st: State, keys: seq<PkValue>, key: PkValue)
    ensures Unresolved(d, r, st, keys + [key]) == if Consults(d, r, st, key) then Unresolved(d, r, st, keys) + [key]
      else Unresolved(d, r, st, keys)
  {
    assert (keys + [key])[..|keys|] == keys;
  }

  lemma {:induction false} BatchSnoc(fetch: Fetcher, d: JoinDef, r: RelatedDef, st: State, keys: seq<PkValue>,
                                     key: PkValue)
    ensures AfterBatch(fetch, d, r, st, keys + [key]) ==
      if key !in keys && Consults(d, r, st, key) then StoreAnswer(fetch, AfterBatch(fetch, d, r, st, keys), r, key)
      else AfterBatch(fetch, d, r, st, keys)
  {
    hide StoreAnswer, Consults;
    UniqueKeys(keys);
    var unique := Unique(keys);
    assert (keys + [key])[..|keys|] == keys;
    assert Unique(keys + [key]) == if key in keys then unique else unique + [key];
    UnresolvedSnoc(d, r, st, unique, key);
    var done := Unresolved(d, r, st, unique);
    assert (done + [key])[..|done|] == done;
  }

  lemma {:induction false} NothingToStore(fetch: Fetcher, st: State, r: RelatedDef, rows: seq<Json>, key: PkValue)
    requires PksIn(rows, r) == {}
    ensures StoreFetched(st, r, key, rows) == st
  {
    hide ExtractPk;
    if rows != [] { NothingToStore(fetch, st, r, rows[..|rows| - 1], key); }
  }

  /** For a one-to-one relation, looking keys up one after the other leaves the very
      state a batch of them leaves. */
  lemma {:induction false} OneByOneIsBatch(fetch: Fetcher, d: JoinDef, r: RelatedDef, st: State, keys: seq<PkValue>)
    requires r.cardinality.One?
    ensures OneByOne(fetch, d, r, st, keys) == AfterBatch(fetch, d, r, st, keys)
  {
    hide StoreFetched, Ask, PksIn;
    if keys == [] {
      assert Unique(keys) == [];
    } else {
      var n := |keys| - 1;
      var now := AfterBatch(fetch, d, r, st, keys[..n]);
      OneByOneIsBatch(fetch, d, r, st, keys[..n]);
      assert keys[..n] + [keys[n]] == keys;
      BatchSnoc(fetch, d, r, st, keys[..n], keys[n]);
      NextLookup(fetch, d, r, st, keys[..n], keys[n]);
    }
  }

  lemma {:induction false} NextLookup(fetch: Fetcher, d: JoinDef, r: RelatedDef, st: State, keys: seq<PkValue>,
                                      key: PkValue)
    requires r.cardinality.One?
    ensures var now := AfterBatch(fetch, d, r, st, keys);
      && Bucket(now.byFk, r.id, key) == Bucket(st.byFk, r.id, key)
        + (if key in keys && Consults(d, r, st, key) then Pks(fetch, r, key) else {})
      && AfterLookup(fetch, d, r, now, key) ==
        (if key !in keys && Consults(d, r, st, key) then StoreAnswer(fetch, now, r, key) else now)
  {
    hide StoreFetched, Ask, PksIn, StoreAnswers;
    var now := AfterBatch(fetch, d, r, st, keys);
    UniqueKeys(keys);
    UnresolvedKeys(d, r, st, Unique(keys));
    StoreAnswersAre(fetch, st, r, Unresolved(d, r, st, Unique(keys)), key, key);
    if Ask(fetch, r, key).Fetched? && Pks(fetch, r, key) == {} {
      NothingToStore(fetch, now, r, Ask(fetch, r, key).rows, key);
    }
  }

  // ---- what a lookup may embed -------------------------------------------

  function Missing(r: RelatedDef): Json {
    if r.onMissing.EmbedEmptyObject? then Obj(map[]) else Null
  }

  /** A lookup of `key` in this state may lead to `v` being embedded. */
  ghost predicate MayEmbed(fetch: Fetcher, d: JoinDef, r: RelatedDef, st: State, key: PkValue, v: Json) {
    exists rows :: Answers(fetch, d, r, st, key, rows) && v == Shape(r, rows)
  }

  ghost predicate SameValues(fetch: Fetcher, d: JoinDef, r: RelatedDef, a: State, b: State, key: PkValue) {
    forall v :: MayEmbed(fetch, d, r, a, key, v) <==> MayEmbed(fetch, d, r, b, key, v)
  }

  /** The versions of these rows, as they would be embedded. */
  function Shown(fetch: Fetcher, r: RelatedDef, st: State, fetched: seq<PkValue>, pks: set<PkValue>): set<Json> {
    set pk | pk in pks && Latest(fetch, r, st, fetched, pk).Some? ::
      ProjectRow(Latest(fetch, r, st, fetched, pk).value, r.select)
  }

  /** What a one-to-one relation may embed when these are the rows found. */
  function OneOf(r: RelatedDef, shown: set<Json>): set<Json> {
    if shown == {} then {Missing(r)} else shown
  }

  /** A listing of the rows that begins with a given one. */
  lemma {:induction false} ListedFirst(m: map<RowKey, Json>, k: RowKey) returns (rows: seq<Json>)
    requires k in m
    ensures FoundIn(rows, m) && rows != [] && rows[0] == m[k]
  {
    RowStrictTotal();
    hide RowLt;
    var rest := Ascending(RowLt, m.Keys - {k});
    var order := [k] + rest;
    forall i, j | 0 <= i < j < |order| ensures order[i] != order[j] {
      assert order[j] in rest;
      assert i > 0 ==> RowLt(order[i], order[j]);
    }
    assert Lists(order, m);
    rows := RowsIn(order, m);
  }

  lemma {:induction false} EmbedsOneOfFound(r: RelatedDef, m: map<RowKey, Json>, v: Json)
    requires r.cardinality.One?
    ensures (exists rows :: FoundIn(rows, m) && v == Shape(r, rows)) <==>
      (if m == map[] then v == Missing(r) else exists k :: k in m && v == ProjectRow(m[k], r.select))
  {
    hide ProjectRow;
    if rows :| FoundIn(rows, m) && v == Shape(r, rows) {
      var order :| Lists(order, m) && rows == RowsIn(order, m);
      if rows != [] { assert order[0] in order; } else { NoOrderNoRows(m, order); }
    }
    if m == map[] {
      var none: seq<RowKey> := [];
      assert Lists(none, m) && RowsIn(none, m) == [];
      assert FoundIn([], m);
    } else if k :| k in m && v == ProjectRow(m[k], r.select) {
      var rows := ListedFirst(m, k);
      assert v == Shape(r, rows);
    }
  }

  lemma {:induction false} NoOrderNoRows(m: map<RowKey, Json>, order: seq<RowKey>)
    requires Lists(order, m) && order == []
    ensures m == map[]
  {
    assert forall k :: k in m ==> k in order;
  }

  /** Once the keys in `fetched` have been fetched: a cached key may embed any of the
      versions its bucket then has. */
  lemma {:induction false} CachedEmbeds(fetch: Fetcher, d: JoinDef, r: RelatedDef, st: State, fetched: seq<PkValue>,
                                        key: PkValue, v: Json)
    requires r.cardinality.One? && !key.IsNull()
    requires var now := StoreAnswers(fetch, st, r, fetched); Bucket(now.byFk, r.id, key) != {}
    ensures var now := StoreAnswers(fetch, st, r, fetched);
      MayEmbed(fetch, d, r, now, key, v) <==> v in OneOf(r, Shown(fetch, r, st, fetched, Bucket(now.byFk, r.id, key)))
  {
    hide ProjectRow, StoreAnswers, Shape, FoundIn, Latest, Missing;
    var now := StoreAnswers(fetch, st, r, fetched);
    var m, pks := IndexedRows(now, r, key), Bucket(now.byFk, r.id, key);
    EmbedsOneOfFound(r, m, v);
    assert MayEmbed(fetch, d, r, now, key, v) <==> exists rows :: FoundIn(rows, m) && v == Shape(r, rows) by {
      assert forall rows :: Answers(fetch, d, r, now, key, rows) <==> FoundIn(rows, m);
    }
    forall pk ensures Lookup(now.foreign, (r.table, pk)) == Latest(fetch, r, st, fetched, pk) {
      StoreAnswersAre(fetch, st, r, fetched, key, pk);
    }
    ShownAreFound(fetch, r, st, fetched, now, key, v);
  }

  lemma {:induction false} ShownAreFound(fetch: Fetcher, r: RelatedDef, st: State, fetched: seq<PkValue>, now: State,
                                         key: PkValue, v: Json)
    requires forall pk :: Lookup(now.foreign, (r.table, pk)) == Latest(fetch, r, st, fetched, pk)
    ensures var m, shown := IndexedRows(now, r, key), Shown(fetch, r, st, fetched, Bucket(now.byFk, r.id, key));
      && (m == map[] <==> shown == {})
      && (v in shown <==> exists k :: k in m && v == ProjectRow(m[k], r.select))
  {
    hide ProjectRow, Latest, Bucket;
    var m, pks := IndexedRows(now, r, key), Bucket(now.byFk, r.id, key);
    var shown := Shown(fetch, r, st, fetched, pks);
    forall k | k in m ensures ProjectRow(m[k], r.select) in shown {
      assert k == (r.table, k.1) && Latest(fetch, r, st, fetched, k.1) == Some(m[k]);
    }
    forall w | w in shown ensures exists k :: k in m && w == ProjectRow(m[k], r.select) {
      var pk :| pk in pks && Latest(fetch, r, st, fetched, pk).Some?
        && w == ProjectRow(Latest(fetch, r, st, fetched, pk).value, r.select);
      assert (r.table, pk) in m && m[(r.table, pk)] == Latest(fetch, r, st, fetched, pk).value;
    }
    if m != map[] { var k :| k in m; assert ProjectRow(m[k], r.select) in shown; }
  }

  // ---- exactly when a lookup in turn answers like the batch --------------

  /** Nothing fetched for the keys before position `n` shows in what the lookup at `n`
      embeds. A cached key: the versions of its cached rows are embedded as before.
      A key fetched before: every row cached for it is embedded like the source's
      first row. Read off the keys in order, the cache and the source's rows. */
  predicate Undisturbed(fetch: Fetcher, d: JoinDef, r: RelatedDef, st: State, keys: seq<PkValue>, n: nat)
    requires n < |keys|
  {
    var key, fetched := keys[n], FetchedBefore(d, r, st, keys, n);
    if r.cardinality.Many? || d.backfill.NoBackfill? || key.IsNull() then true
    else if Bucket(st.byFk, r.id, key) != {} then
      OneOf(r, Shown(fetch, r, st, fetched, Bucket(st.byFk, r.id, key))) ==
        OneOf(r, Shown(fetch, r, st, [], Bucket(st.byFk, r.id, key)))
    else
      key in fetched && Pks(fetch, r, key) != {} ==>
        Shown(fetch, r, st, fetched, Pks(fetch, r, key)) == {ProjectRow(Ask(fetch, r, key).rows[0], r.select)}
  }

  lemma {:induction false} PksHaveRows(fetch: Fetcher, r: RelatedDef, key: PkValue)
    ensures Pks(fetch, r, key) != {} ==> Ask(fetch, r, key).Fetched? && Ask(fetch, r, key).rows != []
  {
  }

  /** A key the source answers, in a state where it is consulted. */
  lemma {:induction false} ConsultedEmbeds(fetch: Fetcher, d: JoinDef, r: RelatedDef, st: State, key: PkValue, v: Json)
    requires Consults(d, r, st, key)
    ensures MayEmbed(fetch, d, r, st, key, v) <==> Ask(fetch, r, key).Fetched? && v == Shape(r, Ask(fetch, r, key).rows)
  {
    hide Shape, Ask;
    if Ask(fetch, r, key).Fetched? { assert Answers(fetch, d, r, st, key, Ask(fetch, r, key).rows); }
  }

  lemma {:induction false} LookupSameIff(fetch: Fetcher, d: JoinDef, r: RelatedDef, st: State, keys: seq<PkValue>,
                                         n: nat)
    requires n < |keys|
    ensures SameValues(fetch, d, r, OneByOne(fetch, d, r, st, keys[..n]), st, keys[n]) <==>
      Undisturbed(fetch, d, r, st, keys, n)
    ensures !Ask(fetch, r, keys[n]).Fetched? ==>
      (Consults(d, r, OneByOne(fetch, d, r, st, keys[..n]), keys[n]) <==> Consults(d, r, st, keys[n]))
  {
    hide MayEmbed, OneByOne, AfterBatch, Ask, Shown, OneOf, PksIn;
    var key, now := keys[n], OneByOne(fetch, d, r, st, keys[..n]);
    if d.backfill.NoBackfill? {
      NothingFetched(fetch, d, r, st, keys[..n]);
    } else if r.cardinality.Many? || key.IsNull() {
      StateFreeAnswers(fetch, d, r, now, st, key);
    } else {
      OneByOneIsBatch(fetch, d, r, st, keys[..n]);
      NextLookup(fetch, d, r, st, keys[..n], key);
      if Bucket(st.byFk, r.id, key) != {} {
        CachedSameIff(fetch, d, r, st, keys, n);
      } else {
        FetchedSameIff(fetch, d, r, st, keys, n);
      }
    }
  }

  lemma {:induction false} StateFreeAnswers(fetch: Fetcher, d: JoinDef, r: RelatedDef, a: State, b: State, key: PkValue)
    requires Reconciles(d, r) || key.IsNull()
    ensures SameValues(fetch, d, r, a, b, key) && (Consults(d, r, a, key) <==> Consults(d, r, b, key))
  {
    hide Shape, Ask;
    forall v ensures MayEmbed(fetch, d, r, a, key, v) <==> MayEmbed(fetch, d, r, b, key, v) {
      assert forall rows :: Answers(fetch, d, r, a, key, rows) <==> Answers(fetch, d, r, b, key, rows);
    }
  }

  lemma {:induction false} CachedSameIff(fetch: Fetcher, d: JoinDef, r: RelatedDef, st: State, keys: seq<PkValue>,
                                         n: nat)
    requires n < |keys| && r.cardinality.One? && d.backfill.SyncOnMiss? && !keys[n].IsNull()
    requires Bucket(st.byFk, r.id, keys[n]) != {}
    ensures SameValues(fetch, d, r, AfterBatch(fetch, d, r, st, keys[..n]), st, keys[n]) <==>
      Undisturbed(fetch, d, r, st, keys, n)
  {
    hide MayEmbed, Ask, Shown, PksIn, Latest, StoreAnswers;
    var key, fetched := keys[n], FetchedBefore(d, r, st, keys, n);
    var now, pks := StoreAnswers(fetch, st, r, fetched), Bucket(st.byFk, r.id, key);
    NextLookup(fetch, d, r, st, keys[..n], key);
    assert Bucket(now.byFk, r.id, key) == pks;
    assert StoreAnswers(fetch, st, r, []) == st by { NoAnswers(fetch, st, r); }
    var inTurn, atOnce := OneOf(r, Shown(fetch, r, st, fetched, pks)), OneOf(r, Shown(fetch, r, st, [], pks));
    forall v ensures MayEmbed(fetch, d, r, now, key, v) <==> v in inTurn {
      CachedEmbeds(fetch, d, r, st, fetched, key, v);
    }
    forall v ensures MayEmbed(fetch, d, r, st, key, v) <==> v in atOnce { CachedEmbeds(fetch, d, r, st, [], key, v); }
    SetsSame(fetch, d, r, now, st, key, inTurn, atOnce);
  }

  lemma {:induction false} NoAnswers(fetch: Fetcher, st: State, r: RelatedDef)
    ensures StoreAnswers(fetch, st, r, []) == st
  {
  }

  lemma {:induction false} SetsSame(fetch: Fetcher, d: JoinDef, r: RelatedDef, a: State, b: State, key: PkValue,
                                    s: set<Json>, t: set<Json>)
    requires forall v :: MayEmbed(fetch, d, r, a, key, v) <==> v in s
    requires forall v :: MayEmbed(fetch, d, r, b, key, v) <==> v in t
    ensures SameValues(fetch, d, r, a, b, key) <==> s == t
  {
    hide MayEmbed;
    if SameValues(fetch, d, r, a, b, key) {
      forall v ensures v in s <==> v in t {
        assert MayEmbed(fetch, d, r, a, key, v) <==> MayEmbed(fetch, d, r, b, key, v);
      }
    }
  }

  lemma {:induction false} FetchedSameIff(fetch: Fetcher, d: JoinDef, r: RelatedDef, st: State, keys: seq<PkValue>,
                                          n: nat)
    requires n < |keys| && r.cardinality.One? && d.backfill.SyncOnMiss? && !keys[n].IsNull()
    requires Bucket(st.byFk, r.id, keys[n]) == {}
    ensures SameValues(fetch, d, r, AfterBatch(fetch, d, r, st, keys[..n]), st, keys[n]) <==>
      Undisturbed(fetch, d, r, st, keys, n)
  {
    hide MayEmbed, Ask, Shown, PksIn, Latest, StoreAnswers, Shape;
    var key, fetched := keys[n], FetchedBefore(d, r, st, keys, n);
    var now := StoreAnswers(fetch, st, r, fetched);
    NextLookup(fetch, d, r, st, keys[..n], key);
    UniqueKeys(keys[..n]);
    UnresolvedKeys(d, r, st, Unique(keys[..n]));
    if key in fetched && Pks(fetch, r, key) != {} {
      var pks := Pks(fetch, r, key);
      PksHaveRows(fetch, r, key);
      assert Bucket(now.byFk, r.id, key) == pks;
      var inTurn, atOnce := OneOf(r, Shown(fetch, r, st, fetched, pks)),
        {ProjectRow(Ask(fetch, r, key).rows[0], r.select)};
      forall v ensures MayEmbed(fetch, d, r, now, key, v) <==> v in inTurn {
        CachedEmbeds(fetch, d, r, st, fetched, key, v);
      }
      forall v ensures MayEmbed(fetch, d, r, st, key, v) <==> v in atOnce {
        ConsultedEmbeds(fetch, d, r, st, key, v);
        FirstShape(r, Ask(fetch, r, key).rows);
      }
      SetsSame(fetch, d, r, now, st, key, inTurn, atOnce);
      FetchedShown(fetch, r, st, fetched, key);
    } else {
      forall v ensures MayEmbed(fetch, d, r, now, key, v) <==> MayEmbed(fetch, d, r, st, key, v) {
        ConsultedEmbeds(fetch, d, r, st, key, v);
        ConsultedEmbeds(fetch, d, r, now, key, v);
      }
    }
  }

  lemma {:induction false} FirstShape(r: RelatedDef, rows: seq<Json>)
    requires r.cardinality.One? && rows != []
    ensures Shape(r, rows) == ProjectRow(rows[0], r.select)
  {
  }

  /** A key that was fetched has a version of each of its rows. */
  lemma {:induction false} FetchedShown(fetch: Fetcher, r: RelatedDef, st: State, fetched: seq<PkValue>, key: PkValue)
    requires key in fetched && Pks(fetch, r, key) != {}
    ensures Shown(fetch, r, st, fetched, Pks(fetch, r, key)) != {}
  {
    var pk :| pk in Pks(fetch, r, key);
    HasVersion(fetch, r, st, fetched, key, pk);
    assert ProjectRow(Latest(fetch, r, st, fetched, pk).value, r.select) in Shown(fetch, r, st, fetched,
      Pks(fetch, r, key));
  }

  lemma {:induction false} HasVersion(fetch: Fetcher, r: RelatedDef, st: State, fetched: seq<PkValue>, key: PkValue,
                                      pk: PkValue)
    requires key in fetched && pk in Pks(fetch, r, key)
    ensures Latest(fetch, r, st, fetched, pk).Some?
  {
    hide Ask, ExtractPk, LastVersion, PksIn;
    var n := |fetched| - 1;
    if fetched[n] == key {
      LastVersionExists(Ask(fetch, r, key).rows, r, pk);
    } else {
      HasVersion(fetch, r, st, fetched[..n], key, pk);
    }
  }

  lemma {:induction false} LastVersionExists(rows: seq<Json>, r: RelatedDef, pk: PkValue)
    requires pk in PksIn(rows, r)
    ensures LastVersion(rows, r, pk).Some?
  {
    hide ExtractPk;
    var n := |rows| - 1;
    if ExtractPk(rows[n], r.pk) != Some(pk) { LastVersionExists(rows[..n], r, pk); }
  }

  // ---- a source that agrees with itself and the cache ----------------------

  /** When a `One` relation is filled from the source: each key has at most one
      row, and a row fetched for one key is not a different version of a row held
      or fetched for another. */
  ghost predicate SourceAgrees(fetch: Fetcher, d: JoinDef, r: RelatedDef, st: State, keys: seq<PkValue>) {
    r.cardinality.One? && d.backfill.SyncOnMiss? ==>
      && (forall k :: k in keys && Consults(d, r, st, k) && Ask(fetch, r, k).Fetched? ==> |Ask(fetch, r, k).rows| <= 1)
      && (forall k1, k2, pk, row | k1 in keys && k2 in keys && Brings(fetch, d, r, st, k1, pk, row) ::
            pk in Bucket(st.byFk, r.id, k2) ==> Lookup(st.foreign, (r.table, pk)) == Some(row))
      && (forall k1, k2, pk, row1, row2 | k1 in keys && k2 in keys && Brings(fetch, d, r, st, k1, pk, row1) ::
            Brings(fetch, d, r, st, k2, pk, row2) ==> row1 == row2)
  }

  lemma {:induction false} LatestIsBrought(fetch: Fetcher, d: JoinDef, r: RelatedDef, st: State, done: seq<PkValue>,
                                           pk: PkValue)
    requires forall k :: k in done ==>
      Consults(d, r, st, k) && (Ask(fetch, r, k).Fetched? ==> |Ask(fetch, r, k).rows| <= 1)
    ensures Latest(fetch, r, st, done, pk) == Lookup(st.foreign, (r.table, pk)) ||
      exists k, row :: k in done && Brings(fetch, d, r, st, k, pk, row) && Latest(fetch, r, st, done, pk) == Some(row)
    ensures (exists k, row :: k in done && Brings(fetch, d, r, st, k, pk, row)) ==>
      exists k, row :: k in done && Brings(fetch, d, r, st, k, pk, row) && Latest(fetch, r, st, done, pk) == Some(row)
  {
    hide Ask, Consults, ExtractPk;
    if done != [] {
      var n := |done| - 1;
      var k := done[n];
      LatestIsBrought(fetch, d, r, st, done[..n], pk);
      assert done == done[..n] + [k];
      var given := if Ask(fetch, r, k).Fetched? then LastVersion(Ask(fetch, r, k).rows, r, pk) else None;
      GivenIsBrought(fetch, d, r, st, k, pk);
      if given.Some? {
        assert Brings(fetch, d, r, st, k, pk, given.value) && Latest(fetch, r, st, done, pk) == Some(given.value);
      } else {
        assert Latest(fetch, r, st, done, pk) == Latest(fetch, r, st, done[..n], pk);
        if k', row :| k' in done && Brings(fetch, d, r, st, k', pk, row) { assert k' in done[..n]; }
      }
    }
  }

  lemma {:induction false} GivenIsBrought(fetch: Fetcher, d: JoinDef, r: RelatedDef, st: State, k: PkValue, pk: PkValue)
    requires Consults(d, r, st, k) && (Ask(fetch, r, k).Fetched? ==> |Ask(fetch, r, k).rows| <= 1)
    ensures var given := if Ask(fetch, r, k).Fetched? then LastVersion(Ask(fetch, r, k).rows, r, pk) else None;
      forall row :: Brings(fetch, d, r, st, k, pk, row) <==> given == Some(row)
  {
    hide Ask, Consults, ExtractPk;
    if Ask(fetch, r, k).Fetched? && Ask(fetch, r, k).rows != [] {
      var rows := Ask(fetch, r, k).rows;
      assert rows == [rows[0]] && rows[..0] == [];
    }
  }

  /** A source with at most one row per key, whose rows are never another version of a
      row held or fetched for another key, disturbs nothing. */
  lemma {:induction false} AgreeingSourceUndisturbed(fetch: Fetcher, d: JoinDef, r: RelatedDef, st: State,
          keys: seq<PkValue>, n: nat)
    requires n < |keys| && SourceAgrees(fetch, d, r, st, keys)
    ensures Undisturbed(fetch, d, r, st, keys, n)
  {
    hide Ask, ExtractPk, Latest, ProjectRow;
    if r.cardinality.One? && d.backfill.SyncOnMiss? && !keys[n].IsNull() {
      var key, done := keys[n], FetchedBefore(d, r, st, keys, n);
      UniqueKeys(keys[..n]);
      UnresolvedKeys(d, r, st, Unique(keys[..n]));
      forall k | k in done
        ensures k in keys && Consults(d, r, st, k) && (Ask(fetch, r, k).Fetched? ==> |Ask(fetch, r, k).rows| <= 1) { }
      if Bucket(st.byFk, r.id, key) != {} {
        forall pk | pk in Bucket(st.byFk, r.id, key)
          ensures Latest(fetch, r, st, done, pk) == Latest(fetch, r, st, [], pk)
        {
          LatestIsBrought(fetch, d, r, st, done, pk);
          LatestIsBrought(fetch, d, r, st, [], pk);
        }
      } else if key in done && Pks(fetch, r, key) != {} {
        OnlyRow(fetch, r, key);
        var row := Ask(fetch, r, key).rows[0];
        var pk := ExtractPk(row, r.pk).value;
        assert Brings(fetch, d, r, st, key, pk, row);
        LatestIsBrought(fetch, d, r, st, done, pk);
        assert Latest(fetch, r, st, done, pk) == Some(row);
      }
    }
  }

  lemma {:induction false} OnlyRow(fetch: Fetcher, r: RelatedDef, key: PkValue)
    requires Pks(fetch, r, key) != {} && |Ask(fetch, r, key).rows| <= 1
    ensures Ask(fetch, r, key).Fetched? && |Ask(fetch, r, key).rows| == 1
    ensures var row := Ask(fetch, r, key).rows[0];
      ExtractPk(row, r.pk).Some? && Pks(fetch, r, key) == {ExtractPk(row, r.pk).value}
  {
    hide Ask, ExtractPk;
    var rows := Ask(fetch, r, key).rows;
    assert rows != [] && rows[..0] == [];
    assert PksIn(rows[..0], r) == {};
  }

  // ---- documents -----------------------------------------------------------

  /** The states in which a chunk's lookups happen, by primary and relation. */
  type Grid = seq<seq<State>>

  ghost function RowGrid(fetch: Fetcher, d: JoinDef, st: State, chunk: seq<map<string, PkValue>>): (g: Grid)
    ensures IsGrid(d, chunk, g)
  {
    seq(|chunk|, i requires 0 <= i < |chunk| => seq(|d.related|, j requires 0 <= j < |d.related| =>
      AfterRelations(fetch, d, d.related[..j], AfterRows(fetch, d, st, chunk[..i]), chunk[i])))
  }

  ghost function BatchGrid(fetch: Fetcher, d: JoinDef, st: State, chunk: seq<map<string, PkValue>>): (g: Grid)
    ensures IsGrid(d, chunk, g)
  {
    seq(|chunk|, i requires 0 <= i < |chunk| => seq(|d.related|, j requires 0 <= j < |d.related| =>
      AfterBatches(fetch, d, d.related[..j], st, chunk)))
  }

  ghost predicate IsGrid(d: JoinDef, chunk: seq<map<string, PkValue>>, g: Grid) {
    |g| == |chunk| && forall i :: 0 <= i < |g| ==> |g[i]| == |d.related|
  }

  /** With what was found, lookups in these states give this document. */
  ghost predicate DocWith(fetch: Fetcher, d: JoinDef, fks: map<string, PkValue>, states: seq<State>, raw: Json,
                          found: seq<Option<seq<Json>>>, doc: Json)
  {
    && |states| == |found| == |d.related| && doc == EmbedDoc(d.related, raw, found)
    && forall j :: 0 <= j < |d.related| ==> FoundAt(fetch, d, d.related[j], states[j], fks, found[j])
  }

  /** Lookups in these states may give a primary this document. */
  ghost predicate DocFrom(fetch: Fetcher, d: JoinDef, fks: map<string, PkValue>, states: seq<State>, raw: Json,
                          doc: Json)
  {
    exists found :: DocWith(fetch, d, fks, states, raw, found, doc)
  }

  /** And a chunk of primaries these documents. */
  ghost predicate DocsFrom(fetch: Fetcher, d: JoinDef, raws: seq<Json>, chunk: seq<map<string, PkValue>>, g: Grid,
                           docs: seq<Json>)
    requires |raws| == |chunk| == |g|
  {
    |docs| == |chunk| && forall i :: 0 <= i < |chunk| ==> DocFrom(fetch, d, chunk[i], g[i], raws[i], docs[i])
  }

  ghost predicate EmbeddedApart(d: JoinDef) {
    forall i, j :: 0 <= i < j < |d.related| ==> d.related[i].embedAs != d.related[j].embedAs
  }

  // ---- one primary ---------------------------------------------------------

  lemma {:induction false} EmbedAt(related: seq<RelatedDef>, fields: Fields, found: seq<Option<seq<Json>>>, j: nat)
    requires |found| == |related| && j < |related| && found[j].Some?
    requires forall i, k :: 0 <= i < k < |related| ==> related[i].embedAs != related[k].embedAs
    ensures var out := EmbedFound(related, fields, found);
      related[j].embedAs in out && out[related[j].embedAs] == Shape(related[j], found[j].value)
  {
    hide Shape;
    var n := |related| - 1;
    if j < n { EmbedAt(related[..n], fields, found[..n], j); }
  }

  /** The two hold the same values relation by relation. */
  ghost predicate SameShapes(related: seq<RelatedDef>, a: seq<Option<seq<Json>>>, b: seq<Option<seq<Json>>>) {
    |a| == |b| == |related| && forall j :: 0 <= j < |related| ==>
      (a[j].Some? <==> b[j].Some?) && (a[j].Some? ==> Shape(related[j], a[j].value) == Shape(related[j], b[j].value))
  }

  lemma {:induction false} SameShapesSameDoc(related: seq<RelatedDef>, fields: Fields, a: seq<Option<seq<Json>>>,
                                             b: seq<Option<seq<Json>>>)
    requires SameShapes(related, a, b)
    ensures EmbedFound(related, fields, a) == EmbedFound(related, fields, b)
  {
    hide Shape;
    if related != [] {
      var n := |related| - 1;
      SameShapesSameDoc(related[..n], fields, a[..n], b[..n]);
    }
  }

  /** The lookup has an answer: it does not need a source that cannot be reached. */
  predicate Answerable(fetch: Fetcher, d: JoinDef, r: RelatedDef, st: State, key: PkValue) {
    Consults(d, r, st, key) ==> Ask(fetch, r, key).Fetched?
  }

  lemma {:induction false} SomeAnswer(fetch: Fetcher, d: JoinDef, r: RelatedDef, st: State, key: PkValue)
    returns (rows: seq<Json>)
    requires Answerable(fetch, d, r, st, key)
    ensures Answers(fetch, d, r, st, key, rows)
  {
    hide Ask, FoundIn;
    if key.IsNull() || (!Cached(d, r, st, key) && d.backfill.NoBackfill?) {
      rows := [];
    } else if Cached(d, r, st, key) {
      rows := SomeListing(IndexedRows(st, r, key));
    } else {
      rows := Ask(fetch, r, key).rows;
    }
  }

  lemma {:induction false} SomeListing(m: map<RowKey, Json>) returns (rows: seq<Json>)
    ensures FoundIn(rows, m)
  {
    if m == map[] {
      var none: seq<RowKey> := [];
      assert Lists(none, m) && RowsIn(none, m) == [];
      rows := [];
    } else {
      var k :| k in m;
      rows := ListedFirst(m, k);
    }
  }

  ghost predicate RowAnswerable(fetch: Fetcher, d: JoinDef, fks: map<string, PkValue>, states: seq<State>)
    requires |states| == |d.related|
  {
    forall j :: 0 <= j < |d.related| && d.related[j].id in fks ==>
      Answerable(fetch, d, d.related[j], states[j], fks[d.related[j].id])
  }

  /** Something each lookup may find; for one relation, what is asked for. */
  lemma {:induction false} PickFound(fetch: Fetcher, d: JoinDef, fks: map<string, PkValue>, states: seq<State>, j0: nat,
                                     rows0: seq<Json>)
    returns (found: seq<Option<seq<Json>>>)
    requires |states| == |d.related| && RowAnswerable(fetch, d, fks, states)
    requires j0 < |d.related| ==>
      d.related[j0].id in fks && Answers(fetch, d, d.related[j0], states[j0], fks[d.related[j0].id], rows0)
    ensures |found| == |d.related|
    ensures forall j :: 0 <= j < |d.related| ==> FoundAt(fetch, d, d.related[j], states[j], fks, found[j])
    ensures j0 < |d.related| ==> found[j0] == Some(rows0)
  {
    hide Answers, Answerable;
    found := [];
    while |found| < |d.related|
      invariant |found| <= |d.related|
      invariant forall j :: 0 <= j < |found| ==> FoundAt(fetch, d, d.related[j], states[j], fks, found[j])
      invariant j0 < |found| ==> found[j0] == Some(rows0)
    {
      var j := |found|;
      var r := d.related[j];
      if r.id !in fks {
        found := found + [None];
      } else if j == j0 {
        found := found + [Some(rows0)];
      } else {
        var rows := SomeAnswer(fetch, d, r, states[j], fks[r.id]);
        found := found + [Some(rows)];
      }
    }
  }

  ghost predicate RowSame(fetch: Fetcher, d: JoinDef, fks: map<string, PkValue>, a: seq<State>, b: seq<State>)
    requires |a| == |b| == |d.related|
  {
    forall j :: 0 <= j < |d.related| && d.related[j].id in fks ==>
      SameValues(fetch, d, d.related[j], a[j], b[j], fks[d.related[j].id])
  }

  /** Rows found in `a` have counterparts in `b` that are embedded alike. */
  lemma {:induction false} Counterpart(fetch: Fetcher, d: JoinDef, fks: map<string, PkValue>, a: seq<State>,
                                       b: seq<State>, found: seq<Option<seq<Json>>>)
    returns (found': seq<Option<seq<Json>>>)
    requires |a| == |b| == |found| == |d.related| && RowSame(fetch, d, fks, a, b)
    requires forall j :: 0 <= j < |d.related| ==> FoundAt(fetch, d, d.related[j], a[j], fks, found[j])
    ensures |found'| == |d.related|
    ensures forall j :: 0 <= j < |d.related| ==> FoundAt(fetch, d, d.related[j], b[j], fks, found'[j])
    ensures SameShapes(d.related, found, found')
  {
    hide Answers, Shape;
    found' := [];
    while |found'| < |d.related|
      invariant |found'| <= |d.related|
      invariant forall j :: 0 <= j < |found'| ==> FoundAt(fetch, d, d.related[j], b[j], fks, found'[j])
      invariant forall j :: 0 <= j < |found'| ==> (found[j].Some? <==> found'[j].Some?)
      invariant forall j :: 0 <= j < |found'| && found[j].Some? ==>
        Shape(d.related[j], found[j].value) == Shape(d.related[j], found'[j].value)
    {
      var j := |found'|;
      var r := d.related[j];
      assert FoundAt(fetch, d, r, a[j], fks, found[j]);
      if r.id !in fks {
        found' := found' + [None];
      } else {
        var key, v := fks[r.id], Shape(r, found[j].value);
        assert MayEmbed(fetch, d, r, a[j], key, v);
        assert SameValues(fetch, d, r, a[j], b[j], key);
        var rows :| Answers(fetch, d, r, b[j], key, rows) && v == Shape(r, rows);
        found' := found' + [Some(rows)];
      }
    }
  }

  lemma {:induction false} SameRowSameDoc(fetch: Fetcher, d: JoinDef, fks: map<string, PkValue>, a: seq<State>,
                                          b: seq<State>, raw: Json, doc: Json)
    requires |a| == |b| == |d.related| && RowSame(fetch, d, fks, a, b) && DocFrom(fetch, d, fks, a, raw, doc)
    ensures DocFrom(fetch, d, fks, b, raw, doc)
  {
    hide FoundAt, SameShapes, EmbedFound, SameValues;
    var found :| DocWith(fetch, d, fks, a, raw, found, doc);
    var found' := Counterpart(fetch, d, fks, a, b, found);
    if raw.Obj? { SameShapesSameDoc(d.related, raw.fields, found, found'); }
    ShapeSizes(d.related, found, found');
    assert DocWith(fetch, d, fks, b, raw, found', doc);
  }

  lemma {:induction false} ShapeSizes(related: seq<RelatedDef>, a: seq<Option<seq<Json>>>, b: seq<Option<seq<Json>>>)
    requires SameShapes(related, a, b)
    ensures |a| == |b| == |related|
  {
  }

  /** A value one side may embed and the other may not shows in a document. */
  lemma {:induction false} DocShowsValue(fetch: Fetcher, d: JoinDef, fks: map<string, PkValue>, a: seq<State>,
                                         b: seq<State>, raw: Json, j: nat, v: Json)
    requires |a| == |b| == |d.related| && EmbeddedApart(d) && raw.Obj? && RowAnswerable(fetch, d, fks, a)
    requires j < |d.related| && d.related[j].id in fks
    requires MayEmbed(fetch, d, d.related[j], a[j], fks[d.related[j].id], v)
    requires forall doc :: DocFrom(fetch, d, fks, a, raw, doc) ==> DocFrom(fetch, d, fks, b, raw, doc)
    ensures MayEmbed(fetch, d, d.related[j], b[j], fks[d.related[j].id], v)
  {
    hide Answers, Shape, EmbedFound, RowAnswerable;
    var r, key := d.related[j], fks[d.related[j].id];
    var rows :| Answers(fetch, d, r, a[j], key, rows) && v == Shape(r, rows);
    var found := PickFound(fetch, d, fks, a, j, rows);
    var doc := EmbedDoc(d.related, raw, found);
    assert DocWith(fetch, d, fks, a, raw, found, doc);
    assert DocFrom(fetch, d, fks, b, raw, doc);
    var other :| DocWith(fetch, d, fks, b, raw, other, doc);
    EmbedAt(d.related, raw.fields, found, j);
    assert FoundAt(fetch, d, r, b[j], fks, other[j]);
    EmbedAt(d.related, raw.fields, other, j);
  }

  lemma {:induction false} SomeDoc(fetch: Fetcher, d: JoinDef, fks: map<string, PkValue>, states: seq<State>, raw: Json)
    returns (doc: Json)
    requires |states| == |d.related| && RowAnswerable(fetch, d, fks, states)
    ensures DocFrom(fetch, d, fks, states, raw, doc)
  {
    hide FoundAt, RowAnswerable, EmbedDoc;
    var found := PickFound(fetch, d, fks, states, |d.related|, []);
    doc := EmbedDoc(d.related, raw, found);
    assert DocWith(fetch, d, fks, states, raw, found, doc);
  }

  // ---- a chunk of primaries ------------------------------------------------

  ghost predicate ChunkAnswerable(fetch: Fetcher, d: JoinDef, chunk: seq<map<string, PkValue>>, g: Grid)
    requires IsGrid(d, chunk, g)
  {
    forall i :: 0 <= i < |chunk| ==> RowAnswerable(fetch, d, chunk[i], g[i])
  }

  ghost predicate GridsSame(fetch: Fetcher, d: JoinDef, chunk: seq<map<string, PkValue>>, a: Grid, b: Grid)
    requires IsGrid(d, chunk, a) && IsGrid(d, chunk, b)
  {
    forall i :: 0 <= i < |chunk| ==> RowSame(fetch, d, chunk[i], a[i], b[i])
  }

  lemma {:induction false} SomeDocs(fetch: Fetcher, d: JoinDef, raws: seq<Json>, chunk: seq<map<string, PkValue>>,
                                    g: Grid) returns (docs: seq<Json>)
    requires IsGrid(d, chunk, g) && |raws| == |chunk| && ChunkAnswerable(fetch, d, chunk, g)
    ensures DocsFrom(fetch, d, raws, chunk, g, docs)
  {
    hide DocFrom, RowAnswerable;
    docs := [];
    while |docs| < |chunk|
      invariant |docs| <= |chunk|
      invariant forall i :: 0 <= i < |docs| ==> DocFrom(fetch, d, chunk[i], g[i], raws[i], docs[i])
    {
      var i := |docs|;
      var doc := SomeDoc(fetch, d, chunk[i], g[i], raws[i]);
      docs := docs + [doc];
    }
  }

  lemma {:induction false} SameGridsSameDocs(fetch: Fetcher, d: JoinDef, raws: seq<Json>,
                                             chunk: seq<map<string, PkValue>>, a: Grid, b: Grid, docs: seq<Json>)
    requires IsGrid(d, chunk, a) && IsGrid(d, chunk, b) && |raws| == |chunk|
    requires GridsSame(fetch, d, chunk, a, b) && DocsFrom(fetch, d, raws, chunk, a, docs)
    ensures DocsFrom(fetch, d, raws, chunk, b, docs)
  {
    hide DocFrom, RowSame;
    forall i | 0 <= i < |chunk| ensures DocFrom(fetch, d, chunk[i], b[i], raws[i], docs[i]) {
      SameRowSameDoc(fetch, d, chunk[i], a[i], b[i], raws[i], docs[i]);
    }
  }

  lemma {:induction false} ChunkShowsRow(fetch: Fetcher, d: JoinDef, raws: seq<Json>, chunk: seq<map<string, PkValue>>,
                                         a: Grid, b: Grid, i: nat)
    requires IsGrid(d, chunk, a) && IsGrid(d, chunk, b) && |raws| == |chunk| && i < |chunk|
    requires ChunkAnswerable(fetch, d, chunk, a)
    requires forall docs :: DocsFrom(fetch, d, raws, chunk, a, docs) ==> DocsFrom(fetch, d, raws, chunk, b, docs)
    ensures forall doc :: DocFrom(fetch, d, chunk[i], a[i], raws[i], doc) ==>
      DocFrom(fetch, d, chunk[i], b[i], raws[i], doc)
  {
    hide DocFrom, ChunkAnswerable;
    forall doc | DocFrom(fetch, d, chunk[i], a[i], raws[i], doc)
      ensures DocFrom(fetch, d, chunk[i], b[i], raws[i], doc)
    {
      var docs := SomeDocs(fetch, d, raws, chunk, a);
      var changed := docs[i := doc];
      assert DocsFrom(fetch, d, raws, chunk, a, changed);
      assert DocsFrom(fetch, d, raws, chunk, b, changed);
      assert changed[i] == doc;
    }
  }

  lemma {:induction false} SameDocsSameRow(fetch: Fetcher, d: JoinDef, raws: seq<Json>,
                                           chunk: seq<map<string, PkValue>>, a: Grid, b: Grid, i: nat, j: nat)
    requires IsGrid(d, chunk, a) && IsGrid(d, chunk, b) && |raws| == |chunk| && i < |chunk| && j < |d.related|
    requires d.related[j].id in chunk[i]
    requires EmbeddedApart(d) && raws[i].Obj? && ChunkAnswerable(fetch, d, chunk, a)
    requires ChunkAnswerable(fetch, d, chunk, b)
    requires forall docs :: DocsFrom(fetch, d, raws, chunk, a, docs) <==> DocsFrom(fetch, d, raws, chunk, b, docs)
    ensures SameValues(fetch, d, d.related[j], a[i][j], b[i][j], chunk[i][d.related[j].id])
  {
    hide DocFrom, DocsFrom, RowAnswerable, EmbeddedApart, MayEmbed;
    var r, key := d.related[j], chunk[i][d.related[j].id];
    ChunkShowsRow(fetch, d, raws, chunk, a, b, i);
    ChunkShowsRow(fetch, d, raws, chunk, b, a, i);
    forall v ensures MayEmbed(fetch, d, r, a[i][j], key, v) <==> MayEmbed(fetch, d, r, b[i][j], key, v) {
      if MayEmbed(fetch, d, r, a[i][j], key, v) { DocShowsValue(fetch, d, chunk[i], a[i], b[i], raws[i], j, v); }
      if MayEmbed(fetch, d, r, b[i][j], key, v) { DocShowsValue(fetch, d, chunk[i], b[i], a[i], raws[i], j, v); }
    }
  }

  lemma {:induction false} SameBack(fetch: Fetcher, d: JoinDef, chunk: seq<map<string, PkValue>>, a: Grid, b: Grid)
    requires IsGrid(d, chunk, a) && IsGrid(d, chunk, b) && GridsSame(fetch, d, chunk, a, b)
    ensures GridsSame(fetch, d, chunk, b, a)
  {
    hide MayEmbed;
    forall i, j | 0 <= i < |chunk| && 0 <= j < |d.related| && d.related[j].id in chunk[i]
      ensures SameValues(fetch, d, d.related[j], b[i][j], a[i][j], chunk[i][d.related[j].id])
    {
      assert RowSame(fetch, d, chunk[i], a[i], b[i]);
      assert SameValues(fetch, d, d.related[j], a[i][j], b[i][j], chunk[i][d.related[j].id]);
    }
  }

  // ---- the engine's two ways -----------------------------------------------

  /** What composing one primary may give. */
  ghost predicate RowDoc(fetch: Fetcher, d: JoinDef, st: State, raw: Json, fks: map<string, PkValue>, doc: Json) {
    exists found ::
      ComposedSoFar(fetch, d, st, raw, fks, |d.related|, found, doc, AfterRelations(fetch, d, d.related, st, fks))
  }

  /** What composing the primaries one after the other may give. */
  ghost predicate RowDocs(fetch: Fetcher, d: JoinDef, st: State, raws: seq<Json>, chunk: seq<map<string, PkValue>>,
                          docs: seq<Json>)
    requires |raws| == |chunk|
  {
    |docs| == |chunk| && forall i :: 0 <= i < |chunk| ==>
      RowDoc(fetch, d, AfterRows(fetch, d, st, chunk[..i]), raws[i], chunk[i], docs[i])
  }

  /** What composing them as one chunk may give. */
  ghost predicate BatchDocs(fetch: Fetcher, d: JoinDef, st: State, raws: seq<Json>, chunk: seq<map<string, PkValue>>,
                            docs: seq<Json>)
    requires |raws| == |chunk|
  {
    exists founds :: BatchDocsWith(fetch, d, st, raws, chunk, founds, docs)
  }

  ghost predicate BatchDocsWith(fetch: Fetcher, d: JoinDef, st: State, raws: seq<Json>,
                                chunk: seq<map<string, PkValue>>, founds: seq<seq<Option<seq<Json>>>>, docs: seq<Json>)
    requires |raws| == |chunk|
  {
    && |founds| == |chunk| && ChunkComposed(d, raws, founds, |d.related|, docs)
    && forall i, j :: 0 <= i < |chunk| && 0 <= j < |d.related| ==> FoundFor(fetch, d, st, chunk, founds, i, j)
  }

  /** The stored primaries of the chunk were sent, in order, with such documents. */
  ghost predicate BatchSent(fetch: Fetcher, d: JoinDef, st: State, affected: seq<RowKey>, was: seq<Emission>,
                            now: seq<Emission>)
  {
    var keys := StoredOf(st, d.table, affected);
    exists docs ::
      BatchDocs(fetch, d, st, RawsOf(st, keys), ChunkOf(d, st, affected), docs) && |docs| == |keys|
        && now == was + Upserts(keys, docs)
  }

  lemma {:induction false} ComposedIsRowDoc(fetch: Fetcher, d: JoinDef, st: State, raw: Json, fks: map<string, PkValue>,
                                            found: seq<Option<seq<Json>>>, doc: Json, now: State)
    requires ComposedSoFar(fetch, d, st, raw, fks, |d.related|, found, doc, now)
    ensures RowDoc(fetch, d, st, raw, fks, doc)
  {
    assert d.related[..|d.related|] == d.related;
  }

  lemma {:induction false} ComposedIsBatchSent(fetch: Fetcher, d: JoinDef, st: State, affected: seq<RowKey>,
          founds: seq<seq<Option<seq<Json>>>>, docs: seq<Json>, was: seq<Emission>)
    requires var keys := StoredOf(st, d.table, affected);
      |docs| == |keys| && BatchDocsWith(fetch, d, st, RawsOf(st, keys), ChunkOf(d, st, affected), founds, docs)
    ensures BatchSent(fetch, d, st, affected, was, was + Upserts(StoredOf(st, d.table, affected), docs))
  {
  }

  lemma {:induction false} RelationsKeepPrimaries(fetch: Fetcher, d: JoinDef, related: seq<RelatedDef>, st: State,
          fks: map<string, PkValue>)
    ensures var now := AfterRelations(fetch, d, related, st, fks);
      now.primary == st.primary && now.reverse == st.reverse
  {
    hide AfterLookup;
    if related != [] {
      var n := |related| - 1;
      RelationsKeepPrimaries(fetch, d, related[..n], st, fks);
      if related[n].id in fks {
        LookupKeepsPrimaries(fetch, d, related[n], AfterRelations(fetch, d, related[..n], st, fks), fks[related[n].id]);
      }
    }
  }

  lemma {:induction false} RowDocIsFrom(fetch: Fetcher, d: JoinDef, st: State, raw: Json, fks: map<string, PkValue>,
                                        states: seq<State>, doc: Json)
    requires |states| == |d.related| && raw.Obj?
    requires forall j :: 0 <= j < |d.related| ==> states[j] == AfterRelations(fetch, d, d.related[..j], st, fks)
    ensures RowDoc(fetch, d, st, raw, fks, doc) <==> DocFrom(fetch, d, fks, states, raw, doc)
  {
    hide FoundAt, EmbedDoc, AfterRelations;
    var now := AfterRelations(fetch, d, d.related, st, fks);
    assert d.related[..|d.related|] == d.related;
    RelationsKeepPrimaries(fetch, d, d.related, st, fks);
    if DocFrom(fetch, d, fks, states, raw, doc) {
      var found :| DocWith(fetch, d, fks, states, raw, found, doc);
      assert ComposedSoFar(fetch, d, st, raw, fks, |d.related|, found, doc, now);
    }
    if RowDoc(fetch, d, st, raw, fks, doc) {
      var found :| ComposedSoFar(fetch, d, st, raw, fks, |d.related|, found, doc, now);
      assert DocWith(fetch, d, fks, states, raw, found, doc);
    }
  }

  lemma {:induction false} RowDocsAreFrom(fetch: Fetcher, d: JoinDef, st: State, raws: seq<Json>,
                                          chunk: seq<map<string, PkValue>>, docs: seq<Json>)
    requires |raws| == |chunk| && forall i :: 0 <= i < |raws| ==> raws[i].Obj?
    ensures RowDocs(fetch, d, st, raws, chunk, docs) <==>
      DocsFrom(fetch, d, raws, chunk, RowGrid(fetch, d, st, chunk), docs)
  {
    hide RowDoc, DocFrom, AfterRelations, AfterRows;
    var g := RowGrid(fetch, d, st, chunk);
    if |docs| == |chunk| {
      forall i | 0 <= i < |chunk|
        ensures RowDoc(fetch, d, AfterRows(fetch, d, st, chunk[..i]), raws[i], chunk[i], docs[i]) <==>
          DocFrom(fetch, d, chunk[i], g[i], raws[i], docs[i])
      {
        RowDocIsFrom(fetch, d, AfterRows(fetch, d, st, chunk[..i]), raws[i], chunk[i], g[i], docs[i]);
      }
    }
  }

  lemma {:induction false} BatchDocsAreFrom(fetch: Fetcher, d: JoinDef, st: State, raws: seq<Json>,
                                            chunk: seq<map<string, PkValue>>, docs: seq<Json>)
    requires |raws| == |chunk|
    ensures BatchDocs(fetch, d, st, raws, chunk, docs) <==>
      DocsFrom(fetch, d, raws, chunk, BatchGrid(fetch, d, st, chunk), docs)
  {
    hide FoundAt, EmbedDoc, AfterBatches;
    var g := BatchGrid(fetch, d, st, chunk);
    assert d.related[..|d.related|] == d.related;
    if BatchDocs(fetch, d, st, raws, chunk, docs) {
      var founds :| BatchDocsWith(fetch, d, st, raws, chunk, founds, docs);
      forall i | 0 <= i < |chunk| ensures DocFrom(fetch, d, chunk[i], g[i], raws[i], docs[i]) {
        forall j | 0 <= j < |d.related| ensures FoundAt(fetch, d, d.related[j], g[i][j], chunk[i], founds[i][j]) {
          assert FoundFor(fetch, d, st, chunk, founds, i, j);
        }
        assert DocWith(fetch, d, chunk[i], g[i], raws[i], founds[i], docs[i]);
      }
    }
    if DocsFrom(fetch, d, raws, chunk, g, docs) {
      var founds := CollectFounds(fetch, d, raws, chunk, g, docs);
      assert BatchDocsWith(fetch, d, st, raws, chunk, founds, docs);
    }
  }

  lemma {:induction false} CollectFounds(fetch: Fetcher, d: JoinDef, raws: seq<Json>, chunk: seq<map<string, PkValue>>,
                                         g: Grid, docs: seq<Json>)
    returns (founds: seq<seq<Option<seq<Json>>>>)
    requires |raws| == |chunk| == |g| && DocsFrom(fetch, d, raws, chunk, g, docs)
    ensures |founds| == |chunk|
    ensures forall i :: 0 <= i < |chunk| ==> DocWith(fetch, d, chunk[i], g[i], raws[i], founds[i], docs[i])
  {
    hide DocWith;
    founds := [];
    while |founds| < |chunk|
      invariant |founds| <= |chunk|
      invariant forall i :: 0 <= i < |founds| ==> DocWith(fetch, d, chunk[i], g[i], raws[i], founds[i], docs[i])
    {
      var i := |founds|;
      assert DocFrom(fetch, d, chunk[i], g[i], raws[i], docs[i]);
      var found :| DocWith(fetch, d, chunk[i], g[i], raws[i], found, docs[i]);
      founds := founds + [found];
    }
  }

  // ---- the law -------------------------------------------------------------

  lemma {:induction false} SameForSameValues(fetch: Fetcher, d: JoinDef, r: RelatedDef, a: State, b: State,
                                             key: PkValue)
    requires SameFor(r, a, b)
    ensures SameValues(fetch, d, r, a, b, key) && (Consults(d, r, a, key) <==> Consults(d, r, b, key))
  {
    hide Answers, Shape, SameFor, Consults;
    forall rows ensures Answers(fetch, d, r, a, key, rows) <==> Answers(fetch, d, r, b, key, rows) {
      AnswersSameFor(fetch, d, r, a, b, key, rows);
    }
    AnswersSameFor(fetch, d, r, a, b, key, []);
  }

  /** How many keys the primaries before `i` bring to a relation. */
  function At(chunk: seq<map<string, PkValue>>, id: string, i: nat): (n: nat)
    requires i < |chunk| && id in chunk[i]
    ensures n < |ChunkKeys(chunk, id)| && ChunkKeys(chunk, id)[n] == chunk[i][id]
  {
    ChunkKeyAt(chunk, id, i);
    |ChunkKeys(chunk[..i], id)|
  }

  lemma {:induction false} CellSameIff(fetch: Fetcher, d: JoinDef, st: State, chunk: seq<map<string, PkValue>>, i: nat,
                                       j: nat)
    requires NoClash(d.related) && i < |chunk| && j < |d.related| && d.related[j].id in chunk[i]
    ensures var r, key := d.related[j], chunk[i][d.related[j].id];
      var one, batched := RowGrid(fetch, d, st, chunk)[i][j], BatchGrid(fetch, d, st, chunk)[i][j];
      && (SameValues(fetch, d, r, one, batched, key) <==>
        Undisturbed(fetch, d, r, st, ChunkKeys(chunk, r.id), At(chunk, r.id, i)))
      && (Consults(d, r, batched, key) <==> Consults(d, r, st, key))
      && (!Ask(fetch, r, key).Fetched? ==> (Consults(d, r, one, key) <==> Consults(d, r, st, key)))
  {
    hide Consults, SameFor, Ask, AfterLookup, AfterRows, AfterRelations, AfterBatches, OneByOne, Undisturbed, MayEmbed;
    var r, key := d.related[j], chunk[i][d.related[j].id];
    var one, batched := RowGrid(fetch, d, st, chunk)[i][j], BatchGrid(fetch, d, st, chunk)[i][j];
    var keys, n := ChunkKeys(chunk, r.id), At(chunk, r.id, i);
    var rowsBefore, turn := AfterRows(fetch, d, st, chunk[..i]), OneByOne(fetch, d, r, st, keys[..n]);
    assert forall r' :: r' in d.related[..j] ==> !Clash(r', r);
    OthersLeave(fetch, d, d.related[..j], rowsBefore, chunk[i], r);
    SameForSameValues(fetch, d, r, one, rowsBefore, key);
    RowsSameFor(fetch, d, st, chunk[..i], j);
    ChunkKeyAt(chunk, r.id, i);
    assert keys[..n] == ChunkKeys(chunk[..i], r.id);
    SameForSameValues(fetch, d, r, rowsBefore, turn, key);
    BatchesLeave(fetch, d, d.related[..j], st, chunk, r);
    SameForSameValues(fetch, d, r, batched, st, key);
    LookupSameIff(fetch, d, r, st, keys, n);
    SameChain(fetch, d, r, one, rowsBefore, turn, st, batched, key);
  }

  lemma {:induction false} SameChain(fetch: Fetcher, d: JoinDef, r: RelatedDef, a: State, b: State, c: State, e: State,
                                     f: State, key: PkValue)
    requires SameValues(fetch, d, r, a, b, key) && SameValues(fetch, d, r, b, c, key)
    requires SameValues(fetch, d, r, f, e, key)
    ensures SameValues(fetch, d, r, a, f, key) <==> SameValues(fetch, d, r, c, e, key)
  {
    hide MayEmbed;
    if SameValues(fetch, d, r, a, f, key) {
      forall v ensures MayEmbed(fetch, d, r, c, key, v) <==> MayEmbed(fetch, d, r, e, key, v) {
        assert MayEmbed(fetch, d, r, b, key, v) <==> MayEmbed(fetch, d, r, a, key, v);
      }
    }
    if SameValues(fetch, d, r, c, e, key) {
      forall v ensures MayEmbed(fetch, d, r, a, key, v) <==> MayEmbed(fetch, d, r, f, key, v) {
        assert MayEmbed(fetch, d, r, b, key, v) <==> MayEmbed(fetch, d, r, c, key, v);
      }
    }
  }

  /** Some primary's lookup needs a source that cannot be reached. */
  ghost predicate SourceFails(fetch: Fetcher, d: JoinDef, st: State, chunk: seq<map<string, PkValue>>) {
    exists i, j :: 0 <= i < |chunk| && 0 <= j < |d.related| && d.related[j].id in chunk[i]
      && !Answerable(fetch, d, d.related[j], st, chunk[i][d.related[j].id])
  }

  /** No lookup is disturbed by the fetches before it. */
  ghost predicate NoneDisturbed(fetch: Fetcher, d: JoinDef, st: State, chunk: seq<map<string, PkValue>>) {
    forall i, j :: 0 <= i < |chunk| && 0 <= j < |d.related| && d.related[j].id in chunk[i] ==>
      Undisturbed(fetch, d, d.related[j], st, ChunkKeys(chunk, d.related[j].id), At(chunk, d.related[j].id, i))
  }

  lemma {:induction false} GridsSameIff(fetch: Fetcher, d: JoinDef, st: State, chunk: seq<map<string, PkValue>>)
    requires NoClash(d.related)
    ensures GridsSame(fetch, d, chunk, RowGrid(fetch, d, st, chunk), BatchGrid(fetch, d, st, chunk)) <==>
      NoneDisturbed(fetch, d, st, chunk)
  {
    hide NoClash, SameValues, Undisturbed, At, ChunkKeys, AfterRows, AfterRelations, AfterBatches, Consults, Ask;
    var one, batched := RowGrid(fetch, d, st, chunk), BatchGrid(fetch, d, st, chunk);
    forall i, j | 0 <= i < |chunk| && 0 <= j < |d.related| && d.related[j].id in chunk[i]
      ensures SameValues(fetch, d, d.related[j], one[i][j], batched[i][j], chunk[i][d.related[j].id]) <==>
        Undisturbed(fetch, d, d.related[j], st, ChunkKeys(chunk, d.related[j].id), At(chunk, d.related[j].id, i))
    {
      CellSameIff(fetch, d, st, chunk, i, j);
    }
    if GridsSame(fetch, d, chunk, one, batched) {
      assert forall i :: 0 <= i < |chunk| ==> RowSame(fetch, d, chunk[i], one[i], batched[i]);
    }
  }

  lemma {:induction false} BothAnswerable(fetch: Fetcher, d: JoinDef, st: State, chunk: seq<map<string, PkValue>>)
    requires NoClash(d.related) && !SourceFails(fetch, d, st, chunk)
    ensures ChunkAnswerable(fetch, d, chunk, RowGrid(fetch, d, st, chunk))
    ensures ChunkAnswerable(fetch, d, chunk, BatchGrid(fetch, d, st, chunk))
  {
    hide NoClash, SameValues, Undisturbed, At, ChunkKeys, AfterRows, AfterRelations, AfterBatches, Consults, Ask;
    var one, batched := RowGrid(fetch, d, st, chunk), BatchGrid(fetch, d, st, chunk);
    forall i, j | 0 <= i < |chunk| && 0 <= j < |d.related| && d.related[j].id in chunk[i]
      ensures var r, key := d.related[j], chunk[i][d.related[j].id];
        Answerable(fetch, d, r, one[i][j], key) && Answerable(fetch, d, r, batched[i][j], key)
    {
      CellSameIff(fetch, d, st, chunk, i, j);
      assert Answerable(fetch, d, d.related[j], st, chunk[i][d.related[j].id]);
    }
  }

  lemma {:induction false} NeedsAnswer(fetch: Fetcher, d: JoinDef, raws: seq<Json>, chunk: seq<map<string, PkValue>>,
                                       g: Grid, docs: seq<Json>, i: nat, j: nat)
    requires IsGrid(d, chunk, g) && |raws| == |chunk| && i < |chunk| && j < |d.related| && d.related[j].id in chunk[i]
    requires DocsFrom(fetch, d, raws, chunk, g, docs)
    ensures Answerable(fetch, d, d.related[j], g[i][j], chunk[i][d.related[j].id])
  {
    hide EmbedDoc;
    assert DocFrom(fetch, d, chunk[i], g[i], raws[i], docs[i]);
    var found :| DocWith(fetch, d, chunk[i], g[i], raws[i], found, docs[i]);
    assert FoundAt(fetch, d, d.related[j], g[i][j], chunk[i], found[j]);
  }

  /** With a source that fails a lookup, neither way gives documents. */
  lemma {:induction false} FailingGivesNothing(fetch: Fetcher, d: JoinDef, st: State, raws: seq<Json>,
          chunk: seq<map<string, PkValue>>, docs: seq<Json>)
    requires NoClash(d.related) && |raws| == |chunk| && SourceFails(fetch, d, st, chunk)
    ensures !DocsFrom(fetch, d, raws, chunk, RowGrid(fetch, d, st, chunk), docs)
    ensures !DocsFrom(fetch, d, raws, chunk, BatchGrid(fetch, d, st, chunk), docs)
  {
    hide NoClash, SameValues, Undisturbed, At, ChunkKeys, AfterRows, AfterRelations, AfterBatches, Consults, Ask,
      DocsFrom;
    var one, batched := RowGrid(fetch, d, st, chunk), BatchGrid(fetch, d, st, chunk);
    var i, j :| 0 <= i < |chunk| && 0 <= j < |d.related| && d.related[j].id in chunk[i]
      && !Answerable(fetch, d, d.related[j], st, chunk[i][d.related[j].id]);
    CellSameIff(fetch, d, st, chunk, i, j);
    if DocsFrom(fetch, d, raws, chunk, one, docs) { NeedsAnswer(fetch, d, raws, chunk, one, docs, i, j); }
    if DocsFrom(fetch, d, raws, chunk, batched, docs) { NeedsAnswer(fetch, d, raws, chunk, batched, docs, i, j); }
  }

  /** What either way may give is what its lookups' states may give. */
  lemma {:induction false} BothAreFrom(fetch: Fetcher, d: JoinDef, st: State, raws: seq<Json>,
                                       chunk: seq<map<string, PkValue>>)
    requires |raws| == |chunk| && forall i :: 0 <= i < |raws| ==> raws[i].Obj?
    ensures forall docs :: RowDocs(fetch, d, st, raws, chunk, docs) <==>
      DocsFrom(fetch, d, raws, chunk, RowGrid(fetch, d, st, chunk), docs)
    ensures forall docs :: BatchDocs(fetch, d, st, raws, chunk, docs) <==>
      DocsFrom(fetch, d, raws, chunk, BatchGrid(fetch, d, st, chunk), docs)
  {
    hide DocsFrom, RowDocs, BatchDocs, RowGrid, BatchGrid;
    forall docs
      ensures RowDocs(fetch, d, st, raws, chunk, docs) <==>
        DocsFrom(fetch, d, raws, chunk, RowGrid(fetch, d, st, chunk), docs)
      ensures BatchDocs(fetch, d, st, raws, chunk, docs) <==>
        DocsFrom(fetch, d, raws, chunk, BatchGrid(fetch, d, st, chunk), docs)
    {
      RowDocsAreFrom(fetch, d, st, raws, chunk, docs);
      BatchDocsAreFrom(fetch, d, st, raws, chunk, docs);
    }
  }

  /** With a source that fails a lookup of the chunk neither way gives documents; and
      when no lookup is disturbed by the fetches before it, both may give the same. */
  lemma {:induction false} UndisturbedSameDocuments(fetch: Fetcher, d: JoinDef, st: State, raws: seq<Json>,
          chunk: seq<map<string, PkValue>>, docs: seq<Json>)
    requires NoClash(d.related) && |raws| == |chunk| && forall i :: 0 <= i < |raws| ==> raws[i].Obj?
    ensures SourceFails(fetch, d, st, chunk) ==>
      !RowDocs(fetch, d, st, raws, chunk, docs) && !BatchDocs(fetch, d, st, raws, chunk, docs)
    ensures NoneDisturbed(fetch, d, st, chunk) ==>
      (RowDocs(fetch, d, st, raws, chunk, docs) <==> BatchDocs(fetch, d, st, raws, chunk, docs))
  {
    hide NoClash, DocsFrom, SourceFails, NoneDisturbed, RowDocs, BatchDocs, RowGrid, BatchGrid, GridsSame;
    var one, batched := RowGrid(fetch, d, st, chunk), BatchGrid(fetch, d, st, chunk);
    BothAreFrom(fetch, d, st, raws, chunk);
    if SourceFails(fetch, d, st, chunk) { FailingGivesNothing(fetch, d, st, raws, chunk, docs); }
    if NoneDisturbed(fetch, d, st, chunk) {
      GridsSameIff(fetch, d, st, chunk);
      SameBack(fetch, d, chunk, one, batched);
      if DocsFrom(fetch, d, raws, chunk, one, docs) { SameGridsSameDocs(fetch, d, raws, chunk, one, batched, docs); }
      if DocsFrom(fetch, d, raws, chunk, batched, docs) {
        SameGridsSameDocs(fetch, d, raws, chunk, batched, one, docs);
      }
    }
  }

  lemma {:induction false} SameDocumentsUndisturbed(fetch: Fetcher, d: JoinDef, st: State, raws: seq<Json>,
          chunk: seq<map<string, PkValue>>)
    requires NoClash(d.related) && EmbeddedApart(d) && |raws| == |chunk| && forall i :: 0 <= i < |raws| ==> raws[i].Obj?
    requires !SourceFails(fetch, d, st, chunk)
    requires forall docs :: RowDocs(fetch, d, st, raws, chunk, docs) <==> BatchDocs(fetch, d, st, raws, chunk, docs)
    ensures NoneDisturbed(fetch, d, st, chunk)
  {
    hide NoClash, EmbeddedApart, DocsFrom, SourceFails, NoneDisturbed, RowDocs, BatchDocs, RowGrid, BatchGrid,
      SameValues, ChunkAnswerable;
    var one, batched := RowGrid(fetch, d, st, chunk), BatchGrid(fetch, d, st, chunk);
    BothAreFrom(fetch, d, st, raws, chunk);
    BothAnswerable(fetch, d, st, chunk);
    GridsSameIff(fetch, d, st, chunk);
    forall i, j | 0 <= i < |chunk| && 0 <= j < |d.related| && d.related[j].id in chunk[i]
      ensures SameValues(fetch, d, d.related[j], one[i][j], batched[i][j], chunk[i][d.related[j].id])
    {
      SameDocsSameRow(fetch, d, raws, chunk, one, batched, i, j);
    }
  }

  /** Recomposing a chunk in batches may give exactly the documents that composing its
      primaries one after the other may give, if and only if the source fails a lookup
      of the chunk, when neither gives any, or no lookup is disturbed by the fetches
      before it. */
  lemma {:induction false} SameDocumentsIff(fetch: Fetcher, d: JoinDef, st: State, raws: seq<Json>,
                                            chunk: seq<map<string, PkValue>>)
    requires NoClash(d.related) && EmbeddedApart(d) && |raws| == |chunk| && forall i :: 0 <= i < |raws| ==> raws[i].Obj?
    ensures (forall docs :: RowDocs(fetch, d, st, raws, chunk, docs) <==>
      BatchDocs(fetch, d, st, raws, chunk, docs)) <==>
      SourceFails(fetch, d, st, chunk) || NoneDisturbed(fetch, d, st, chunk)
  {
    hide NoClash, EmbeddedApart, SourceFails, NoneDisturbed, RowDocs, BatchDocs;
    if SourceFails(fetch, d, st, chunk) || NoneDisturbed(fetch, d, st, chunk) {
      forall docs { UndisturbedSameDocuments(fetch, d, st, raws, chunk, docs); }
    } else if forall docs :: RowDocs(fetch, d, st, raws, chunk, docs) <==> BatchDocs(fetch, d, st, raws, chunk, docs) {
      SameDocumentsUndisturbed(fetch, d, st, raws, chunk);
    }
  }
}
