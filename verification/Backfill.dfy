/** What lookups may do to the cache in any order and any number, what they keep,
    and what that means for a child deleted later with only its own key. */
module Backfill {
  import opened Json
  import opened Keys
  import opened Config
  import opened Index
  import opened JoinModel
  import opened Incremental
  import opened Lookups

  // ---- a cache that has only been filled ---------------------------------

  /** The source's answer for `key` holds `row` under `pk`. */
  ghost predicate Supplies(fetch: Fetcher, r: RelatedDef, key: PkValue, pk: PkValue, row: Json) {
    Ask(fetch, r, key).Fetched? && row in Ask(fetch, r, key).rows && ExtractPk(row, r.pk) == Some(pk)
  }

  /** The entry was supplied by the source for a relation of that id, with its row. */
  ghost predicate EntrySupplied(joins: seq<JoinDef>, fetch: Fetcher, now: State, id: string, key: PkValue, pk: PkValue)
  {
    exists d, r, row ::
      Has(joins, d, r) && r.id == id && Supplies(fetch, r, key, pk, row) && (r.table, pk) in now.foreign
  }

  /** The row was supplied for a relation on its table, and is indexed for it. */
  ghost predicate RowSupplied(joins: seq<JoinDef>, fetch: Fetcher, now: State, k: RowKey, row: Json) {
    exists d, r, key ::
      Has(joins, d, r) && r.table == k.0 && Supplies(fetch, r, key, k.1, row) && k.1 in Bucket(now.byFk, r.id, key)
  }

  ghost predicate EntriesFilled(joins: seq<JoinDef>, fetch: Fetcher, st: State, now: State) {
    forall id, key, pk ::
      && (pk in Bucket(st.byFk, id, key) ==> pk in Bucket(now.byFk, id, key))
      && (pk in Bucket(now.byFk, id, key) ==>
        pk in Bucket(st.byFk, id, key) || EntrySupplied(joins, fetch, now, id, key, pk))
  }

  ghost predicate RowsFilled(joins: seq<JoinDef>, fetch: Fetcher, st: State, now: State) {
    forall k ::
      && (k in st.foreign ==> k in now.foreign)
      && (k in now.foreign && Lookup(st.foreign, k) != Some(now.foreign[k]) ==>
        RowSupplied(joins, fetch, now, k, now.foreign[k]))
  }

  /** `now` is `st` with rows the source supplied: primaries and links are the same,
      no entry is gone, and whatever is new or different came from the source. */
  ghost predicate Filled(joins: seq<JoinDef>, fetch: Fetcher, st: State, now: State) {
    && now.primary == st.primary && now.reverse == st.reverse && (NoEmpties(st.byFk) ==> NoEmpties(now.byFk))
    && EntriesFilled(joins, fetch, st, now) && RowsFilled(joins, fetch, st, now)
  }

  lemma {:induction false} FilledNothing(joins: seq<JoinDef>, fetch: Fetcher, st: State)
    ensures Filled(joins, fetch, st, st)
  {
  }

  lemma {:induction false} FilledTwice(joins: seq<JoinDef>, fetch: Fetcher, a: State, b: State, c: State)
    requires Filled(joins, fetch, a, b) && Filled(joins, fetch, b, c)
    ensures Filled(joins, fetch, a, c)
  {
    hide Supplies, NoEmpties, Bucket;
    forall id, key, pk | EntrySupplied(joins, fetch, b, id, key, pk)
      ensures EntrySupplied(joins, fetch, c, id, key, pk) { }
    forall k | k in c.foreign && Lookup(a.foreign, k) != Some(c.foreign[k])
      ensures RowSupplied(joins, fetch, c, k, c.foreign[k])
    {
      if Lookup(b.foreign, k) == Some(c.foreign[k]) {
        var d, r, key :| Has(joins, d, r) && r.table == k.0 && Supplies(fetch, r, key, k.1, b.foreign[k])
          && k.1 in Bucket(b.byFk, r.id, key);
        assert k.1 in Bucket(c.byFk, r.id, key);
      }
    }
  }

  lemma {:induction false} StoreRowFills(joins: seq<JoinDef>, fetch: Fetcher, d: JoinDef, r: RelatedDef, st: State,
                                         key: PkValue, row: Json)
    requires Has(joins, d, r) && Ask(fetch, r, key).Fetched? && row in Ask(fetch, r, key).rows
    ensures Filled(joins, fetch, st, StoreRow(st, r, key, row))
  {
    hide ExtractPk, Ask, Add;
    if ExtractPk(row, r.pk).Some? {
      var pk := ExtractPk(row, r.pk).value;
      var now := StoreRow(st, r, key, row);
      AddBuckets(st.byFk, r.id, key, pk);
      assert Supplies(fetch, r, key, pk, row);
      assert EntrySupplied(joins, fetch, now, r.id, key, pk);
      assert RowSupplied(joins, fetch, now, (r.table, pk), row);
    }
  }

  lemma {:induction false} StoreFetchedFills(joins: seq<JoinDef>, fetch: Fetcher, d: JoinDef, r: RelatedDef, st: State,
                                             key: PkValue, n: nat)
    requires Has(joins, d, r) && Ask(fetch, r, key).Fetched? && n <= |Ask(fetch, r, key).rows|
    ensures Filled(joins, fetch, st, StoreFetched(st, r, key, Ask(fetch, r, key).rows[..n]))
  {
    hide Filled, Ask, StoreRow;
    if n == 0 {
      FilledNothing(joins, fetch, st);
    } else {
      var rows := Ask(fetch, r, key).rows;
      StoreFetchedFills(joins, fetch, d, r, st, key, n - 1);
      assert rows[..n][..n - 1] == rows[..n - 1];
      StoreRowFills(joins, fetch, d, r, StoreFetched(st, r, key, rows[..n - 1]), key, rows[n - 1]);
      FilledTwice(joins, fetch, st, StoreFetched(st, r, key, rows[..n - 1]), StoreFetched(st, r, key, rows[..n]));
    }
  }

  lemma {:induction false} StoreAnswerFills(joins: seq<JoinDef>, fetch: Fetcher, d: JoinDef, r: RelatedDef, st: State,
                                            key: PkValue)
    requires Has(joins, d, r)
    ensures Filled(joins, fetch, st, StoreAnswer(fetch, st, r, key))
  {
    hide Filled, Ask, StoreFetched;
    FilledNothing(joins, fetch, st);
    if Ask(fetch, r, key).Fetched? {
      var rows := Ask(fetch, r, key).rows;
      assert rows[..|rows|] == rows;
      StoreFetchedFills(joins, fetch, d, r, st, key, |rows|);
    }
  }

  lemma {:induction false} LookupFills(joins: seq<JoinDef>, fetch: Fetcher, d: JoinDef, r: RelatedDef, st: State,
                                       key: PkValue)
    requires Has(joins, d, r)
    ensures Filled(joins, fetch, st, AfterLookup(fetch, d, r, st, key))
  {
    hide Filled, StoreAnswer;
    FilledNothing(joins, fetch, st);
    StoreAnswerFills(joins, fetch, d, r, st, key);
  }

  lemma {:induction false} StoreAnswersFill(joins: seq<JoinDef>, fetch: Fetcher, d: JoinDef, r: RelatedDef, st: State,
                                            keys: seq<PkValue>)
    requires Has(joins, d, r)
    ensures Filled(joins, fetch, st, StoreAnswers(fetch, st, r, keys))
  {
    hide Filled, StoreAnswer;
    FilledNothing(joins, fetch, st);
    if keys != [] {
      var n := |keys| - 1;
      StoreAnswersFill(joins, fetch, d, r, st, keys[..n]);
      StoreAnswerFills(joins, fetch, d, r, StoreAnswers(fetch, st, r, keys[..n]), keys[n]);
      FilledTwice(joins, fetch, st, StoreAnswers(fetch, st, r, keys[..n]), StoreAnswers(fetch, st, r, keys));
    }
  }

  lemma {:induction false} BatchFills(joins: seq<JoinDef>, fetch: Fetcher, d: JoinDef, r: RelatedDef, st: State,
                                      keys: seq<PkValue>)
    requires Has(joins, d, r)
    ensures Filled(joins, fetch, st, AfterBatch(fetch, d, r, st, keys))
  {
    hide Filled;
    StoreAnswersFill(joins, fetch, d, r, st, Unresolved(d, r, st, Unique(keys)));
  }

  // ---- what filling keeps ------------------------------------------------

  /** The indexes fit the rows; what tables and backfill mode are is left open. */
  ghost predicate Sane(joins: seq<JoinDef>, st: State) {
    OneRolePerKind(joins) && Wired(joins, st)
  }

  lemma {:induction false} FilledSane(joins: seq<JoinDef>, fetch: Fetcher, st: State, now: State)
    requires Filled(joins, fetch, st, now) && Sane(joins, st)
    ensures Sane(joins, now)
  {
    hide KeyOf, Supplies, NoEmpties, OneRolePerKind, FksFrom, Referencing;
    assert TablesOf(now).prim == TablesOf(st).prim;
    forall p | p in now.primary ensures StoredWell(joins, now, p) { assert StoredWell(joins, st, p); }
    forall d, r, key | Has(joins, d, r)
      ensures Bucket(now.reverse, r.id, key) == Referencing(TablesOf(now), d, r, {key})
    {
      SameReferencing(TablesOf(st), TablesOf(now), d, r, {key});
    }
    forall id, key | !IsRelatedId(joins, id) ensures Bucket(now.byFk, id, key) == {} {
      forall pk ensures pk !in Bucket(now.byFk, id, key) {
        assert pk in Bucket(now.byFk, id, key) ==>
          pk in Bucket(st.byFk, id, key) || EntrySupplied(joins, fetch, now, id, key, pk);
      }
    }
  }

  lemma {:induction false} SameReferencing(a: Tables, b: Tables, d: JoinDef, r: RelatedDef, keys: set<PkValue>)
    requires a.prim == b.prim
    ensures Referencing(a, d, r, keys) == Referencing(b, d, r, keys)
  {
  }

  /** A source that answers each relation with the requested columns of its own rows. */
  ghost predicate HonestSource(joins: seq<JoinDef>, fetch: Fetcher) {
    exists source :: AnswersFrom(joins, fetch, source)
  }

  ghost predicate AnswersFrom(joins: seq<JoinDef>, fetch: Fetcher, source: map<RowKey, Json>) {
    forall d, r :: Has(joins, d, r) ==> Honest(fetch, source, r)
  }

  /** Every cached foreign row is an object found under its own join key. */
  ghost predicate Tended(joins: seq<JoinDef>, st: State) {
    ObjectRows(TablesOf(st)) && Indexed(joins, st)
  }

  lemma {:induction false} SuppliedTellsKey(joins: seq<JoinDef>, fetch: Fetcher, d: JoinDef, r: RelatedDef,
                                            key: PkValue, pk: PkValue, row: Json)
    requires HonestSource(joins, fetch) && Has(joins, d, r) && Supplies(fetch, r, key, pk, row)
    ensures row.Obj? && KeyOf(row, r.to) == key
  {
    hide ExtractPk, Ask, KeyOf, FetchedFrom;
    var source :| AnswersFrom(joins, fetch, source);
    assert Honest(fetch, source, r);
    FetchedRowKeepsKeys(source, r, key, row);
  }

  /** Lookups from an honest source keep every cached row under its own key. */
  lemma {:induction false} FilledTended(joins: seq<JoinDef>, fetch: Fetcher, st: State, now: State)
    requires Filled(joins, fetch, st, now) && OneRolePerKind(joins) && HonestSource(joins, fetch) && Tended(joins, st)
    ensures Tended(joins, now)
  {
    hide KeyOf, Supplies, NoEmpties, OneRolePerKind, HonestSource, Bucket;
    forall k | k in now.foreign ensures now.foreign[k].Obj? {
      if Lookup(st.foreign, k) != Some(now.foreign[k]) {
        var d, r, key :| Has(joins, d, r) && r.table == k.0 && Supplies(fetch, r, key, k.1, now.foreign[k])
          && k.1 in Bucket(now.byFk, r.id, key);
        SuppliedTellsKey(joins, fetch, d, r, key, k.1, now.foreign[k]);
      }
    }
    forall d, r, pk | Has(joins, d, r) && (r.table, pk) in now.foreign
      ensures pk in Bucket(now.byFk, r.id, KeyOf(now.foreign[(r.table, pk)], r.to))
    {
      FilledIndexed(joins, fetch, st, now, d, r, pk);
    }
  }

  lemma {:induction false} FilledIndexed(joins: seq<JoinDef>, fetch: Fetcher, st: State, now: State, d: JoinDef,
                                         r: RelatedDef, pk: PkValue)
    requires Filled(joins, fetch, st, now) && OneRolePerKind(joins) && HonestSource(joins, fetch) && Tended(joins, st)
    requires Has(joins, d, r) && (r.table, pk) in now.foreign
    ensures pk in Bucket(now.byFk, r.id, KeyOf(now.foreign[(r.table, pk)], r.to))
  {
    hide KeyOf, Supplies, NoEmpties, OneRolePerKind, HonestSource, Bucket;
    var k := (r.table, pk);
    if Lookup(st.foreign, k) == Some(now.foreign[k]) {
      assert pk in Bucket(st.byFk, r.id, KeyOf(st.foreign[(r.table, pk)], r.to));
    } else {
      var d0, r0, key :| Has(joins, d0, r0) && r0.table == k.0 && Supplies(fetch, r0, key, pk, now.foreign[k])
        && pk in Bucket(now.byFk, r0.id, key);
      SameRelation(joins, d0, r0, d, r);
      SuppliedTellsKey(joins, fetch, d0, r0, key, pk, now.foreign[k]);
    }
  }

  // ---- row operations and lookups in any order ---------------------------

  /** A row operation, or a lookup in the source as it then stands. */
  datatype Move =
    | Carry(op: RowOp)
    | Look(fetch: Fetcher, d: JoinDef, r: RelatedDef, key: PkValue)
    | LookBatch(fetch: Fetcher, d: JoinDef, r: RelatedDef, keys: seq<PkValue>)

  function Moved(st: State, m: Move): State {
    match m
    case Carry(op) => Apply(st, op)
    case Look(fetch, d, r, key) => AfterLookup(fetch, d, r, st, key)
    case LookBatch(fetch, d, r, keys) => AfterBatch(fetch, d, r, st, keys)
  }

  /** The move belongs to the joins and the source, whatever it then holds, is honest. */
  ghost predicate MoveIn(joins: seq<JoinDef>, m: Move) {
    match m
    case Carry(op) => OpIn(joins, op) && ObjectRow(op)
    case Look(fetch, d, r, _) => Has(joins, d, r) && HonestSource(joins, fetch)
    case LookBatch(fetch, d, r, _) => Has(joins, d, r) && HonestSource(joins, fetch)
  }

  ghost predicate MovesIn(joins: seq<JoinDef>, moves: seq<Move>) {
    forall i :: 0 <= i < |moves| ==> MoveIn(joins, moves[i])
  }

  function AfterMoves(st: State, moves: seq<Move>): State {
    if |moves| == 0 then st else Moved(AfterMoves(st, moves[..|moves| - 1]), moves[|moves| - 1])
  }

  lemma {:induction false} ApplyTended(joins: seq<JoinDef>, st: State, op: RowOp)
    requires OneRolePerKind(joins) && OpIn(joins, op) && ObjectRow(op) && Tended(joins, st)
    ensures Tended(joins, Apply(st, op))
  {
    hide Indexed, Apply, Replay, OpIn;
    ApplyIndexed(joins, st, op);
    ApplyReplays(st, op);
    ApplyKeepsObjects(st, op);
  }

  lemma {:induction false} MoveTended(joins: seq<JoinDef>, st: State, m: Move)
    requires MoveIn(joins, m) && Sane(joins, st) && Tended(joins, st)
    ensures Sane(joins, Moved(st, m)) && Tended(joins, Moved(st, m))
  {
    hide HonestSource, Tended, Wired, OneRolePerKind, Apply, OpIn, ObjectRow, AfterLookup, AfterBatch, Filled;
    match m {
      case Carry(op) =>
        ApplyTended(joins, st, op);
        ApplyWired(joins, st, op);
      case Look(fetch, d, r, key) =>
        LookupFills(joins, fetch, d, r, st, key);
        FilledSane(joins, fetch, st, Moved(st, m));
        FilledTended(joins, fetch, st, Moved(st, m));
      case LookBatch(fetch, d, r, keys) =>
        BatchFills(joins, fetch, d, r, st, keys);
        FilledSane(joins, fetch, st, Moved(st, m));
        FilledTended(joins, fetch, st, Moved(st, m));
    }
  }

  /** Any interleaving of row operations, single lookups and batches, while the source
      changes in any way between them, leaves both indexes sound and every cached row
      an object found under its own join key. */
  lemma {:induction false} AlwaysTended(joins: seq<JoinDef>, moves: seq<Move>)
    requires OneRolePerKind(joins) && MovesIn(joins, moves)
    ensures Sane(joins, AfterMoves(EMPTY_STATE, moves)) && Tended(joins, AfterMoves(EMPTY_STATE, moves))
  {
    hide Tended, Sane, OneRolePerKind, MoveIn, Moved;
    if |moves| == 0 {
      EmptySane(joins);
    } else {
      var n := |moves| - 1;
      AlwaysTended(joins, moves[..n]);
      MoveTended(joins, AfterMoves(EMPTY_STATE, moves[..n]), moves[n]);
    }
  }

  lemma {:induction false} EmptySane(joins: seq<JoinDef>)
    requires OneRolePerKind(joins)
    ensures Sane(joins, EMPTY_STATE) && Tended(joins, EMPTY_STATE)
  {
    StateInvariants(joins, []);
  }

  // ---- a delete that carries only the child's key ------------------------

  /** After any such interleaving, a delete of any cached child with nothing but its
      own key on the event: the documents to re-emit are exactly those whose primary
      holds the child's join key, the child was found under that key, and afterwards
      it is found under none. Its entry stays in another bucket exactly when it was
      there before. */
  lemma {:induction false} DeleteByKeyAloneReachesParents(joins: seq<JoinDef>, moves: seq<Move>, d: JoinDef,
          r: RelatedDef, pk: PkValue, eventKey: PkValue)
    requires OneRolePerKind(joins) && MovesIn(joins, moves)
    requires Has(joins, d, r) && (r.table, pk) in AfterMoves(EMPTY_STATE, moves).foreign
    ensures var st := AfterMoves(EMPTY_STATE, moves);
      var key, after := KeyOf(st.foreign[(r.table, pk)], r.to), Apply(st, FDelete(d, r, pk, eventKey));
      && Touched(TablesOf(st), FDelete(d, r, pk, eventKey)) == Referencing(TablesOf(st), d, r, {key})
      && (r.table, pk) in IndexedRows(st, r, key)
      && (forall k :: (r.table, pk) !in IndexedRows(after, r, k))
      && (forall k :: pk in Bucket(after.byFk, r.id, k) <==> k != key && pk in Bucket(st.byFk, r.id, k))
  {
    hide OneRolePerKind, MovesIn, AfterMoves, Referencing, KeyOf, Remove, Sane;
    AlwaysTended(joins, moves);
    DeleteOfTended(joins, AfterMoves(EMPTY_STATE, moves), d, r, pk, eventKey);
  }

  lemma {:induction false} DeleteOfTended(joins: seq<JoinDef>, st: State, d: JoinDef, r: RelatedDef, pk: PkValue,
                                          eventKey: PkValue)
    requires Tended(joins, st) && Has(joins, d, r) && (r.table, pk) in st.foreign
    ensures var key, after := KeyOf(st.foreign[(r.table, pk)], r.to), Apply(st, FDelete(d, r, pk, eventKey));
      && DeletedKey(Lookup(st.foreign, (r.table, pk)), r.to, eventKey) == key
      && (r.table, pk) in IndexedRows(st, r, key)
      && (r.table, pk) !in after.foreign
      && (forall k :: pk in Bucket(after.byFk, r.id, k) <==> k != key && pk in Bucket(st.byFk, r.id, k))
  {
    hide KeyOf, Remove;
    var key := KeyOf(st.foreign[(r.table, pk)], r.to);
    assert (r.table, pk) in TablesOf(st).forn;
    RemoveBuckets(st.byFk, r.id, key, pk);
  }

  lemma {:induction false} NothingFound(rows: seq<Json>)
    ensures FoundIn(rows, map[]) <==> rows == []
  {
    var none: map<RowKey, Json> := map[];
    assert Lists([], none) && RowsIn([], none) == [];
    if FoundIn(rows, none) {
      var order :| Lists(order, none) && rows == RowsIn(order, none);
      assert forall k :: k in multiset(order) <==> k in order;
      assert forall k :: k in order ==> k in none;
      assert |multiset(order)| == 0;
    }
  }
}
