/** Entries that stay in the key index of a relation after their row has moved to
    another key: exactly when one is left behind, and what it does. */
module Leftovers {
  import opened Json
  import opened Keys
  import opened Config
  import opened Index
  import opened JoinModel
  import opened Incremental
  import opened Lookups
  import opened Backfill
  import opened Batches

  /** The relation's key index holds every stored row under its own key and nothing else. */
  ghost predicate KeyExact(st: State, r: RelatedDef) {
    forall pk :: RowExact(st, r, pk)
  }

  ghost predicate RowExact(st: State, r: RelatedDef, pk: PkValue) {
    forall key :: pk in Bucket(st.byFk, r.id, key) <==> KeyAt(TablesOf(st), r, pk) == Some(key)
  }

  lemma {:induction false} ForeignExactIsKeyExact(joins: seq<JoinDef>, st: State)
    ensures ForeignExact(joins, st) <==> forall d, r :: Has(joins, d, r) ==> KeyExact(st, r)
  {
    hide KeyAt, Bucket;
    if forall d, r :: Has(joins, d, r) ==> KeyExact(st, r) {
      forall d, r, pk, key | Has(joins, d, r)
        ensures pk in Bucket(st.byFk, r.id, key) <==> KeyAt(TablesOf(st), r, pk) == Some(key)
      {
        assert KeyExact(st, r) && RowExact(st, r, pk);
      }
    }
  }

  // ---- when a fetch leaves an entry behind -------------------------------

  /** Every row of the answer that can be cached holds the key asked for. */
  ghost predicate TellsKey(fetch: Fetcher, r: RelatedDef, key: PkValue) {
    Ask(fetch, r, key).Fetched? ==>
      forall row :: row in Ask(fetch, r, key).rows && ExtractPk(row, r.pk).Some? ==> KeyOf(row, r.to) == key
  }

  lemma {:induction false} HonestTellsKey(joins: seq<JoinDef>, fetch: Fetcher, d: JoinDef, r: RelatedDef, key: PkValue)
    requires HonestSource(joins, fetch) && Has(joins, d, r)
    ensures TellsKey(fetch, r, key)
  {
    hide HonestSource, ExtractPk, KeyOf;
    if Ask(fetch, r, key).Fetched? {
      forall row | row in Ask(fetch, r, key).rows && ExtractPk(row, r.pk).Some? ensures KeyOf(row, r.to) == key {
        assert Supplies(fetch, r, key, ExtractPk(row, r.pk).value, row);
        SuppliedTellsKey(joins, fetch, d, r, key, ExtractPk(row, r.pk).value, row);
      }
    }
  }

  /** Each row fetched for a key is not stored, or stored under that very key, and is
      fetched for no other key. */
  ghost predicate InPlace(fetch: Fetcher, r: RelatedDef, st: State, keys: seq<PkValue>) {
    forall pk :: RowInPlace(fetch, r, st, keys, pk)
  }

  ghost predicate RowInPlace(fetch: Fetcher, r: RelatedDef, st: State, keys: seq<PkValue>, pk: PkValue) {
    forall key :: key in keys && pk in Pks(fetch, r, key) ==>
      && KeyAt(TablesOf(st), r, pk).GetOr(key) == key
      && forall other :: other in keys && pk in Pks(fetch, r, other) ==> other == key
  }

  lemma {:induction false} LastVersionTells(rows: seq<Json>, r: RelatedDef, pk: PkValue)
    ensures LastVersion(rows, r, pk).Some? <==> pk in PksIn(rows, r)
    ensures LastVersion(rows, r, pk).Some? ==>
      LastVersion(rows, r, pk).value in rows && ExtractPk(LastVersion(rows, r, pk).value, r.pk) == Some(pk)
  {
    hide ExtractPk;
    if rows != [] {
      var n := |rows| - 1;
      LastVersionTells(rows[..n], r, pk);
      assert rows == rows[..n] + [rows[n]];
    }
  }

  /** Once the keys are fetched, a row brought for any of them is stored under one it
      was brought for, and every other row as before. */
  lemma {:induction false} LatestKey(fetch: Fetcher, r: RelatedDef, st: State, keys: seq<PkValue>, pk: PkValue)
    requires forall key :: key in keys ==> TellsKey(fetch, r, key)
    ensures var row := Latest(fetch, r, st, keys, pk);
      if exists key :: key in keys && pk in Pks(fetch, r, key) then
        row.Some? && KeyOf(row.value, r.to) in keys && pk in Pks(fetch, r, KeyOf(row.value, r.to))
      else row == Lookup(st.foreign, (r.table, pk))
  {
    hide ExtractPk, KeyOf, Ask, LastVersion, PksIn;
    if keys != [] {
      var n := |keys| - 1;
      LatestKey(fetch, r, st, keys[..n], pk);
      assert keys == keys[..n] + [keys[n]];
      if Ask(fetch, r, keys[n]).Fetched? {
        LastVersionTells(Ask(fetch, r, keys[n]).rows, r, pk);
        assert TellsKey(fetch, r, keys[n]);
      }
    }
  }

  lemma {:induction false} KeyAtAfter(fetch: Fetcher, r: RelatedDef, st: State, keys: seq<PkValue>, pk: PkValue)
    requires forall key :: key in keys ==> TellsKey(fetch, r, key)
    ensures var now := StoreAnswers(fetch, st, r, keys);
      var at := KeyAt(TablesOf(now), r, pk);
      && (forall key :: pk in Bucket(now.byFk, r.id, key) <==>
            pk in Bucket(st.byFk, r.id, key) || (key in keys && pk in Pks(fetch, r, key)))
      && (if exists key :: key in keys && pk in Pks(fetch, r, key) then
            at.Some? && at.value in keys && pk in Pks(fetch, r, at.value)
          else at == KeyAt(TablesOf(st), r, pk))
  {
    hide TellsKey, KeyOf, Latest, StoreAnswers, Pks, Bucket;
    var now := StoreAnswers(fetch, st, r, keys);
    LatestKey(fetch, r, st, keys, pk);
    StoreAnswersAre(fetch, st, r, keys, pk, pk);
    forall key
      ensures pk in Bucket(now.byFk, r.id, key) <==>
        pk in Bucket(st.byFk, r.id, key) || (key in keys && pk in Pks(fetch, r, key))
    {
      StoreAnswersAre(fetch, st, r, keys, key, pk);
    }
  }

  /** From an exact key index, caching what was fetched keeps it exact if and only if
      every fetched row is in place. */
  lemma {:induction false} AnswersExactIff(fetch: Fetcher, r: RelatedDef, st: State, keys: seq<PkValue>)
    requires KeyExact(st, r) && forall key :: key in keys ==> TellsKey(fetch, r, key)
    ensures KeyExact(StoreAnswers(fetch, st, r, keys), r) <==> InPlace(fetch, r, st, keys)
  {
    hide TellsKey, RowExact, RowInPlace, StoreAnswers, Pks, Bucket, KeyAt;
    var now := StoreAnswers(fetch, st, r, keys);
    forall pk ensures RowExact(now, r, pk) <==> RowInPlace(fetch, r, st, keys, pk) {
      KeyAtAfter(fetch, r, st, keys, pk);
      RowExactIff(fetch, r, st, keys, pk, now);
    }
  }

  lemma {:induction false} RowExactIff(fetch: Fetcher, r: RelatedDef, st: State, keys: seq<PkValue>, pk: PkValue,
                                       now: State)
    requires RowExact(st, r, pk)
    requires forall key :: pk in Bucket(now.byFk, r.id, key) <==>
      pk in Bucket(st.byFk, r.id, key) || (key in keys && pk in Pks(fetch, r, key))
    requires var at := KeyAt(TablesOf(now), r, pk);
      if exists key :: key in keys && pk in Pks(fetch, r, key) then
        at.Some? && at.value in keys && pk in Pks(fetch, r, at.value)
      else at == KeyAt(TablesOf(st), r, pk)
    ensures RowExact(now, r, pk) <==> RowInPlace(fetch, r, st, keys, pk)
  {
    hide KeyAt, Pks, Bucket;
    var was, at := KeyAt(TablesOf(st), r, pk), KeyAt(TablesOf(now), r, pk);
    if RowExact(now, r, pk) {
      forall key | key in keys && pk in Pks(fetch, r, key)
        ensures was.GetOr(key) == key && forall other :: other in keys && pk in Pks(fetch, r, other) ==> other == key
      {
        assert pk in Bucket(now.byFk, r.id, key);
        if was.Some? { assert pk in Bucket(now.byFk, r.id, was.value); }
        forall other | other in keys && pk in Pks(fetch, r, other) ensures other == key {
          assert pk in Bucket(now.byFk, r.id, other);
        }
      }
    }
  }

  // ---- when any move does --------------------------------------------------

  /** The keys a lookup or batch fetches. */
  function FetchedKeys(st: State, m: Move): seq<PkValue>
    requires !m.Carry?
  {
    match m
    case Look(fetch, d, r, key) => if Consults(d, r, st, key) then [key] else []
    case LookBatch(fetch, d, r, keys) => Unresolved(d, r, st, Unique(keys))
  }

  /** The move takes a stored row to another key without taking its entry away: an
      insert over a row stored under another key, or a fetch of a row out of place. */
  ghost predicate LeavesEntry(st: State, m: Move) {
    match m
    case Carry(op) =>
      op.FUpsert? && !op.merge && KeyAt(TablesOf(st), op.r, op.pk).GetOr(KeyOf(op.row, op.r.to)) != KeyOf(op.row,
        op.r.to)
    case _ => !InPlace(m.fetch, m.r, st, FetchedKeys(st, m))
  }

  lemma {:induction false} MovedIsStored(st: State, m: Move)
    requires !m.Carry?
    ensures Moved(st, m) == StoreAnswers(m.fetch, st, m.r, FetchedKeys(st, m))
  {
    hide StoreAnswer, Consults;
    match m {
      case Look(fetch, d, r, key) => assert [key][..0] == [];
      case LookBatch(fetch, d, r, keys) =>
    }
  }

  lemma {:induction false} FetchExactIff(joins: seq<JoinDef>, st: State, m: Move)
    requires OneRolePerKind(joins) && !m.Carry? && MoveIn(joins, m) && ForeignExact(joins, st)
    ensures ForeignExact(joins, Moved(st, m)) <==> InPlace(m.fetch, m.r, st, FetchedKeys(st, m))
  {
    hide OneRolePerKind, HonestSource, KeyExact, InPlace, Moved, FetchedKeys, TellsKey, ForeignExact;
    var keys, now := FetchedKeys(st, m), Moved(st, m);
    ForeignExactIsKeyExact(joins, st);
    ForeignExactIsKeyExact(joins, now);
    MovedIsStored(st, m);
    forall key | key in keys ensures TellsKey(m.fetch, m.r, key) { HonestTellsKey(joins, m.fetch, m.d, m.r, key); }
    AnswersExactIff(m.fetch, m.r, st, keys);
    forall d, r | Has(joins, d, r) && r != m.r ensures KeyExact(now, r) {
      if Clash(m.r, r) { SameRelation(joins, m.d, m.r, d, r); }
      StoreAnswersFrame(m.fetch, st, m.r, keys, r);
      SameForKeyExact(r, now, st);
    }
    assert Has(joins, m.d, m.r);
  }

  lemma {:induction false} SameForKeyExact(r: RelatedDef, now: State, st: State)
    requires SameFor(r, now, st) && KeyExact(st, r)
    ensures KeyExact(now, r)
  {
    hide KeyOf, Bucket;
    forall pk ensures RowExact(now, r, pk) {
      assert RowExact(st, r, pk);
      assert Lookup(now.foreign, (r.table, pk)) == Lookup(st.foreign, (r.table, pk));
    }
  }

  lemma {:induction false} CarryExactIff(joins: seq<JoinDef>, st: State, op: RowOp)
    requires OneRolePerKind(joins) && MoveIn(joins, Carry(op)) && ForeignExact(joins, st) && ObjectRows(TablesOf(st))
    ensures ForeignExact(joins, Apply(st, op)) <==> !LeavesEntry(st, Carry(op))
  {
    hide OneRolePerKind, KeyOf, OpIn, Apply, Replay, Bucket, ObjectRows;
    if FreshInsert(TablesOf(st), op) {
      ApplyForeignExact(joins, st, op);
    } else {
      InsertExactIff(joins, st, op);
    }
  }

  lemma {:induction false} InsertExactIff(joins: seq<JoinDef>, st: State, op: RowOp)
    requires OneRolePerKind(joins) && OpIn(joins, op) && ForeignExact(joins, st) && ObjectRows(TablesOf(st))
    requires op.FUpsert? && !op.merge && (op.r.table, op.pk) in st.foreign
    ensures ForeignExact(joins, Apply(st, op)) <==> KeyAt(TablesOf(st), op.r, op.pk) == Some(KeyOf(op.row, op.r.to))
  {
    hide OneRolePerKind, KeyOf, ObjectRows, Bucket;
    var now, was, key0 := Apply(st, op), KeyAt(TablesOf(st), op.r, op.pk).value, KeyOf(op.row, op.r.to);
    ApplyReplays(st, op);
    forall d, r, pk, key | Has(joins, d, r) && !Writes(op, r, pk)
      ensures pk in Bucket(now.byFk, r.id, key) <==> KeyAt(TablesOf(now), r, pk) == Some(key)
    {
      IndexStepElsewhere(joins, st, op, d, r, pk, key);
    }
    assert KeyAt(TablesOf(now), op.r, op.pk) == Some(key0);
    forall key ensures op.pk in Bucket(now.byFk, op.r.id, key) <==> key == key0 || key == was {
      IndexStepUpsert(st, op.r, op.pk, op.row, false, key);
    }
    assert Has(joins, op.d, op.r);
    if was != key0 {
      assert op.pk in Bucket(now.byFk, op.r.id, was);
    } else {
      forall d, r, pk, key | Has(joins, d, r)
        ensures pk in Bucket(now.byFk, r.id, key) <==> KeyAt(TablesOf(now), r, pk) == Some(key)
      {
        if Writes(op, r, pk) { assert r == op.r && pk == op.pk; }
      }
    }
  }

  /** From exact key indexes, an operation, a lookup or a batch keeps them exact if and
      only if it leaves no entry behind. */
  lemma {:induction false} MoveExactIff(joins: seq<JoinDef>, st: State, m: Move)
    requires OneRolePerKind(joins) && MoveIn(joins, m) && ForeignExact(joins, st) && ObjectRows(TablesOf(st))
    ensures ForeignExact(joins, Moved(st, m)) <==> !LeavesEntry(st, m)
  {
    hide OneRolePerKind, ForeignExact, ObjectRows, InPlace, FetchedKeys, KeyAt, KeyOf, MoveIn, Apply;
    match m {
      case Carry(op) => CarryExactIff(joins, st, op);
      case _ => FetchExactIff(joins, st, m);
    }
  }

  /** So they are exact after any interleaving in which no move left one. */
  lemma {:induction false} ExactUntilLeft(joins: seq<JoinDef>, moves: seq<Move>)
    requires OneRolePerKind(joins) && MovesIn(joins, moves)
    requires forall i :: 0 <= i < |moves| ==> !LeavesEntry(AfterMoves(EMPTY_STATE, moves[..i]), moves[i])
    ensures ForeignExact(joins, AfterMoves(EMPTY_STATE, moves))
  {
    hide OneRolePerKind, ForeignExact, LeavesEntry, MoveIn, Moved, ObjectRows, Indexed, Sane;
    if |moves| == 0 {
      StateInvariants(joins, []);
    } else {
      var n := |moves| - 1;
      var before := moves[..n];
      forall i | 0 <= i < |before| ensures !LeavesEntry(AfterMoves(EMPTY_STATE, before[..i]), before[i]) {
        assert before[..i] == moves[..i];
      }
      ExactUntilLeft(joins, before);
      AlwaysTended(joins, before);
      MoveExactIff(joins, AfterMoves(EMPTY_STATE, before), moves[n]);
    }
  }

  // ---- what an entry left behind does ----------------------------------------

  /** An entry of a row that is gone, or that joins on another key. */
  ghost predicate Leftover(st: State, r: RelatedDef, key: PkValue, pk: PkValue) {
    pk in Bucket(st.byFk, r.id, key) && KeyAt(TablesOf(st), r, pk) != Some(key)
  }

  /** Every stored row of the relation is found under its own key. */
  ghost predicate Found(st: State, r: RelatedDef) {
    forall pk :: KeyAt(TablesOf(st), r, pk).Some? ==> pk in Bucket(st.byFk, r.id, KeyAt(TablesOf(st), r, pk).value)
  }

  lemma {:induction false} TendedFinds(joins: seq<JoinDef>, st: State, d: JoinDef, r: RelatedDef)
    requires Tended(joins, st) && Has(joins, d, r)
    ensures Found(st, r)
  {
    hide KeyOf, Bucket;
  }

  /** What the cache finds under a key is what joins on it and the rows still stored of
      the entries left behind there; so it is the join exactly when there are none. */
  lemma {:induction false} LeftoversAreEmbedded(st: State, r: RelatedDef, key: PkValue)
    requires Found(st, r)
    ensures forall k :: k in IndexedRows(st, r, key) <==>
      k in JoinedRows(TablesOf(st), r, key) || (k in st.foreign && k.0 == r.table && Leftover(st, r, key, k.1))
    ensures IndexedRows(st, r, key) == JoinedRows(TablesOf(st), r, key) <==>
      forall pk :: (r.table, pk) in st.foreign ==> !Leftover(st, r, key, pk)
  {
    hide KeyOf, Bucket;
    var cached, joined := IndexedRows(st, r, key), JoinedRows(TablesOf(st), r, key);
    forall k ensures k in cached <==> k in joined || (k in st.foreign && k.0 == r.table && Leftover(st, r, key, k.1)) {
      if k.0 == r.table {
        assert k == (r.table, k.1);
        assert k in joined <==> KeyAt(TablesOf(st), r, k.1) == Some(key);
      }
    }
    if pk :| (r.table, pk) in st.foreign && Leftover(st, r, key, pk) {
      assert (r.table, pk) in cached && (r.table, pk) !in joined;
    } else {
      assert cached == joined;
    }
  }

  /** With backfill on, a key on which no cached row joins is answered without asking
      the source exactly when the relation is one-to-one and an entry was left there;
      the answer is then made of the rows left behind, nothing if they are gone. */
  lemma {:induction false} LeftoverHidesSourceIff(joins: seq<JoinDef>, fetch: Fetcher, d: JoinDef, r: RelatedDef,
          st: State, key: PkValue, rows: seq<Json>)
    requires Tended(joins, st) && Has(joins, d, r) && d.backfill.SyncOnMiss? && !key.IsNull()
    requires JoinedRows(TablesOf(st), r, key) == map[]
    ensures !Consults(d, r, st, key) <==> r.cardinality.One? && exists pk :: Leftover(st, r, key, pk)
    ensures !Consults(d, r, st, key) ==>
      (Answers(fetch, d, r, st, key, rows) <==> FoundIn(rows, IndexedRows(st, r, key)))
    ensures !Consults(d, r, st, key) && (forall pk :: Leftover(st, r, key, pk) ==> (r.table, pk) !in st.foreign) ==>
      (Answers(fetch, d, r, st, key, rows) <==> rows == [])
  {
    hide KeyOf, FoundIn, Ask, IndexedRows, JoinedRows, Tended;
    TendedFinds(joins, st, d, r);
    LeftoversAreEmbedded(st, r, key);
    NothingFound(rows);
    forall pk | pk in Bucket(st.byFk, r.id, key) ensures Leftover(st, r, key, pk) {
      NoneJoins(st, r, key, pk);
    }
    if Bucket(st.byFk, r.id, key) != {} { var pk :| pk in Bucket(st.byFk, r.id, key); assert Leftover(st, r, key, pk); }
  }

  lemma {:induction false} NoneJoins(st: State, r: RelatedDef, key: PkValue, pk: PkValue)
    requires JoinedRows(TablesOf(st), r, key) == map[]
    ensures KeyAt(TablesOf(st), r, pk) != Some(key)
  {
    hide KeyOf;
    assert KeyAt(TablesOf(st), r, pk) == Some(key) <==> (r.table, pk) in JoinedRows(TablesOf(st), r, key);
  }
}
