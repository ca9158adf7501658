/** Backfill from a source that is in step with the events: its answers are the rows of
    the very tables the events describe. Then what the cache holds agrees with those
    tables, and every document composed is their join. */
module InStep {
  import opened Order
  import opened Json
  import opened Keys
  import opened Config
  import opened Index
  import opened JoinModel
  import opened Incremental
  import opened Events
  import opened Lookups
  import opened Backfill
  import opened Compose
  import opened Batches
  import opened Carries

  /** The columns of a related row that are fetched and cached; none named means all. */
  function Wanted(r: RelatedDef): seq<string> {
    SelectWithFk(r.select, r.to)
  }

  /** Two versions of a related row agree on what is cached and embedded of it. */
  ghost predicate SameWanted(r: RelatedDef, a: Json, b: Json) {
    a.Obj? && b.Obj? && ProjectRow(a, Wanted(r)) == ProjectRow(b, Wanted(r))
  }

  lemma {:induction false} ProjectTwice(row: Json, select: seq<string>, more: seq<string>)
    requires row.Obj? && (more == [] ==> select == []) && forall c :: c in select ==> c in more
    ensures select != [] ==> ProjectRow(ProjectRow(row, more), select) == ProjectRow(row, select)
  {
    if select != [] {
      var once, twice := ProjectRow(row, select), ProjectRow(ProjectRow(row, more), select);
      assert once.fields == twice.fields;
    }
  }

  lemma {:induction false} WantedColumns(r: RelatedDef)
    ensures (Wanted(r) == [] <==> r.select == []) && forall c :: c in r.select ==> c in Wanted(r)
    ensures r.select != [] ==> forall c :: c in r.to ==> c in Wanted(r)
  {
    WithColumnsAre(r.select, r.to);
  }

  /** They are then embedded alike and join on the same key. */
  lemma {:induction false} SameWantedMeans(r: RelatedDef, a: Json, b: Json)
    requires SameWanted(r, a, b)
    ensures ProjectRow(a, r.select) == ProjectRow(b, r.select) && KeyOf(a, r.to) == KeyOf(b, r.to)
  {
    hide FromValues;
    WantedColumns(r);
    ProjectTwice(a, r.select, Wanted(r));
    ProjectTwice(b, r.select, Wanted(r));
    ProjectionKeepsKey(a, Wanted(r), r.to);
    ProjectionKeepsKey(b, Wanted(r), r.to);
  }

  lemma {:induction false} WantedOfProjection(r: RelatedDef, row: Json)
    requires row.Obj?
    ensures SameWanted(r, ProjectRow(row, Wanted(r)), row)
  {
    if Wanted(r) != [] { ProjectTwice(row, Wanted(r), Wanted(r)); }
  }

  lemma {:induction false} MergeWanted(r: RelatedDef, a: Json, b: Json, row: Json)
    requires SameWanted(r, a, b) && row.Obj?
    ensures SameWanted(r, Merge(a, row), Merge(b, row))
  {
    if Wanted(r) != [] {
      var x, y := ProjectRow(Merge(a, row), Wanted(r)), ProjectRow(Merge(b, row), Wanted(r));
      forall c | c in Wanted(r) ensures c in x.fields <==> c in y.fields {
        assert c in ProjectRow(a, Wanted(r)).fields <==> c in ProjectRow(b, Wanted(r)).fields;
      }
      forall c | c in x.fields ensures x.fields[c] == y.fields[c] {
        if c !in row.fields { assert ProjectRow(a, Wanted(r)).fields[c] == ProjectRow(b, Wanted(r)).fields[c]; }
      }
      assert x.fields == y.fields;
    }
  }

  // ---- a source and a cache in step with the tables ----------------------------

  /** The rows of a listing as they are fetched. */
  function FetchedRows(r: RelatedDef, t: Tables, order: seq<RowKey>): (rows: seq<Json>)
    requires forall k :: k in order ==> k in t.forn
    ensures |rows| == |order|
  {
    seq(|order|, i requires 0 <= i < |order| => ProjectRow(t.forn[order[i]], Wanted(r)))
  }

  /** The answer is every row of the tables that joins on the key, in some order. */
  ghost predicate AnswersInStep(fetch: Fetcher, r: RelatedDef, t: Tables, key: PkValue) {
    Ask(fetch, r, key).Fetched? ==> exists order :: ListedAnswer(Ask(fetch, r, key).rows, r, t, key, order)
  }

  ghost predicate ListedAnswer(rows: seq<Json>, r: RelatedDef, t: Tables, key: PkValue, order: seq<RowKey>) {
    Lists(order, JoinedRows(t, r, key)) && rows == FetchedRows(r, t, order)
  }

  /** Rows are objects stored under their own key, and what is fetched tells it. */
  ghost predicate WellKeyed(r: RelatedDef, t: Tables) {
    && (r.select == [] || forall c :: c in r.pk ==> c in r.select)
    && (forall k :: k in t.forn && k.0 == r.table ==> t.forn[k].Obj? && ExtractPk(t.forn[k], r.pk) == Some(k.1))
  }

  ghost predicate SourceInStep(joins: seq<JoinDef>, fetch: Fetcher, t: Tables) {
    forall d, r :: Has(joins, d, r) ==> WellKeyed(r, t) && forall key :: AnswersInStep(fetch, r, t, key)
  }

  /** What is cached of the relation is in the tables, and indexed only where it joins. */
  ghost predicate RelationInStep(st: State, r: RelatedDef, t: Tables) {
    && (forall pk :: (r.table, pk) in st.foreign ==>
          (r.table, pk) in t.forn && SameWanted(r, st.foreign[(r.table, pk)], t.forn[(r.table, pk)]))
    && (forall pk, key :: pk in Bucket(st.byFk, r.id, key) ==>
      (r.table, pk) in st.foreign && KeyAt(t, r, pk) == Some(key))
  }

  ghost predicate CacheInStep(joins: seq<JoinDef>, st: State, t: Tables) {
    && Raws(st.primary) == t.prim && ObjectRows(TablesOf(st))
    && forall d, r :: Has(joins, d, r) ==> RelationInStep(st, r, t)
  }

  /** A row the source supplies is the row of the tables under its key. */
  lemma {:induction false} SuppliedInStep(fetch: Fetcher, r: RelatedDef, t: Tables, key: PkValue, pk: PkValue,
                                          row: Json)
    requires WellKeyed(r, t) && AnswersInStep(fetch, r, t, key) && Supplies(fetch, r, key, pk, row)
    ensures (r.table, pk) in t.forn && SameWanted(r, row, t.forn[(r.table, pk)]) && KeyAt(t, r, pk) == Some(key)
  {
    hide KeyOf, ExtractPk, SameWanted, Ask;
    var rows := Ask(fetch, r, key).rows;
    var order :| ListedAnswer(rows, r, t, key, order);
    var i :| 0 <= i < |rows| && rows[i] == row;
    var k := order[i];
    assert k in order;
    WantedColumns(r);
    ProjectionKeepsKey(t.forn[k], Wanted(r), r.pk);
    WantedOfProjection(r, t.forn[k]);
    assert k == (r.table, pk);
  }

  /** Filling the cache from a source in step keeps it in step. */
  lemma {:induction false} FilledInStep(joins: seq<JoinDef>, fetch: Fetcher, st: State, now: State, t: Tables)
    requires Filled(joins, fetch, st, now) && OneRolePerKind(joins) && SourceInStep(joins, fetch, t)
    requires CacheInStep(joins, st, t)
    ensures CacheInStep(joins, now, t)
  {
    hide KeyOf, Supplies, NoEmpties, OneRolePerKind, Bucket, SameWanted, RelationInStep, InStepAt, SourceInStep,
      EntriesFilled, RowsFilled;
    forall k | k in now.foreign ensures now.foreign[k].Obj? { FilledObject(joins, fetch, st, now, t, k); }
    forall d, r | Has(joins, d, r) ensures RelationInStep(now, r, t) {
      forall pk ensures InStepAt(now, r, t, pk) { FilledInStepAt(joins, fetch, st, now, t, d, r, pk); }
      InStepEverywhere(now, r, t);
    }
  }

  lemma {:induction false} FilledInStepAt(joins: seq<JoinDef>, fetch: Fetcher, st: State, now: State, t: Tables,
                                          d: JoinDef, r: RelatedDef, pk: PkValue)
    requires EntriesFilled(joins, fetch, st, now) && RowsFilled(joins, fetch, st, now) && OneRolePerKind(joins)
    requires SourceInStep(joins, fetch, t) && CacheInStep(joins, st, t) && Has(joins, d, r)
    ensures InStepAt(now, r, t, pk)
  {
    hide KeyOf, Supplies, OneRolePerKind, Bucket, SameWanted, WellKeyed, AnswersInStep, KeyAt, ObjectRows;
    assert RelationInStep(st, r, t);
    if (r.table, pk) in now.foreign { RowInStep(joins, fetch, st, now, t, d, r, pk); }
    forall key | pk in Bucket(now.byFk, r.id, key)
      ensures (r.table, pk) in now.foreign && KeyAt(t, r, pk) == Some(key)
    {
      if pk !in Bucket(st.byFk, r.id, key) {
        var d0, r0, row :| Has(joins, d0, r0) && r0.id == r.id && Supplies(fetch, r0, key, pk, row)
          && (r0.table, pk) in now.foreign;
        SameRelation(joins, d0, r0, d, r);
        SuppliedInStep(fetch, r, t, key, pk, row);
      }
    }
  }

  lemma {:induction false} FilledObject(joins: seq<JoinDef>, fetch: Fetcher, st: State, now: State, t: Tables,
                                        k: RowKey)
    requires RowsFilled(joins, fetch, st, now) && OneRolePerKind(joins) && SourceInStep(joins, fetch, t)
    requires CacheInStep(joins, st, t)
    requires k in now.foreign
    ensures now.foreign[k].Obj?
  {
    hide KeyOf, Supplies, OneRolePerKind, Bucket, WellKeyed, AnswersInStep, KeyAt;
    if Lookup(st.foreign, k) != Some(now.foreign[k]) {
      var d, r, key :| Has(joins, d, r) && r.table == k.0 && Supplies(fetch, r, key, k.1, now.foreign[k])
        && k.1 in Bucket(now.byFk, r.id, key);
      SuppliedInStep(fetch, r, t, key, k.1, now.foreign[k]);
    } else {
      assert k in TablesOf(st).forn;
    }
  }

  lemma {:induction false} RowInStep(joins: seq<JoinDef>, fetch: Fetcher, st: State, now: State, t: Tables, d: JoinDef,
                                     r: RelatedDef, pk: PkValue)
    requires RowsFilled(joins, fetch, st, now) && OneRolePerKind(joins) && SourceInStep(joins, fetch, t)
    requires CacheInStep(joins, st, t)
    requires Has(joins, d, r) && (r.table, pk) in now.foreign
    ensures (r.table, pk) in t.forn && SameWanted(r, now.foreign[(r.table, pk)], t.forn[(r.table, pk)])
  {
    hide KeyOf, Supplies, OneRolePerKind, Bucket, SameWanted, WellKeyed, AnswersInStep, KeyAt;
    var k := (r.table, pk);
    assert RelationInStep(st, r, t);
    if Lookup(st.foreign, k) != Some(now.foreign[k]) {
      var d0, r0, key :| Has(joins, d0, r0) && r0.table == k.0 && Supplies(fetch, r0, key, k.1, now.foreign[k])
        && k.1 in Bucket(now.byFk, r0.id, key);
      SameRelation(joins, d0, r0, d, r);
      SuppliedInStep(fetch, r, t, key, pk, now.foreign[k]);
    }
  }

  // ---- what a lookup then finds --------------------------------------------------

  /** The rows found are embedded like the rows that join, listed in some order. */
  ghost predicate EmbedsJoin(r: RelatedDef, t: Tables, key: PkValue, rows: seq<Json>) {
    exists joined :: FoundIn(joined, JoinedRows(t, r, key)) && Shape(r, rows) == Shape(r, joined)
  }

  lemma {:induction false} SourceEmbedsJoin(fetch: Fetcher, r: RelatedDef, t: Tables, key: PkValue)
    requires WellKeyed(r, t) && AnswersInStep(fetch, r, t, key) && Ask(fetch, r, key).Fetched?
    ensures EmbedsJoin(r, t, key, Ask(fetch, r, key).rows)
  {
    hide KeyOf, ExtractPk, Ask, SortRows, Wanted;
    var rows, m := Ask(fetch, r, key).rows, JoinedRows(t, r, key);
    var order :| ListedAnswer(rows, r, t, key, order);
    var joined := RowsIn(order, m);
    forall i | 0 <= i < |rows| ensures ProjectRow(rows[i], r.select) == ProjectRow(joined[i], r.select) {
      assert order[i] in order;
      WantedOfProjection(r, t.forn[order[i]]);
      SameWantedMeans(r, rows[i], joined[i]);
    }
    assert ProjectAll(rows, r.select) == ProjectAll(joined, r.select);
    assert FoundIn(joined, m);
  }

  lemma {:induction false} CacheEmbedsJoin(st: State, r: RelatedDef, t: Tables, key: PkValue, rows: seq<Json>)
    requires RelationInStep(st, r, t) && r.cardinality.One? && Bucket(st.byFk, r.id, key) != {}
    requires FoundIn(rows, IndexedRows(st, r, key))
    ensures EmbedsJoin(r, t, key, rows)
  {
    hide KeyOf, SameWanted, Bucket;
    var pk :| pk in Bucket(st.byFk, r.id, key);
    var m := IndexedRows(st, r, key);
    assert (r.table, pk) in m;
    var order :| Lists(order, m) && rows == RowsIn(order, m);
    assert (r.table, pk) in order;
    var k: RowKey := order[0];
    assert k in order && k == (r.table, k.1);
    SameWantedMeans(r, st.foreign[k], t.forn[k]);
    assert k in JoinedRows(t, r, key);
    var joined := ListedFirst(JoinedRows(t, r, key), k);
    FirstShape(r, rows);
    FirstShape(r, joined);
  }

  lemma {:induction false} FoundEmbedsJoin(fetch: Fetcher, d: JoinDef, r: RelatedDef, st: State, t: Tables,
                                           key: PkValue, rows: seq<Json>)
    requires d.backfill.SyncOnMiss? && !key.IsNull() && WellKeyed(r, t) && AnswersInStep(fetch, r, t, key)
    requires RelationInStep(st, r, t)
    requires Answers(fetch, d, r, st, key, rows)
    ensures EmbedsJoin(r, t, key, rows)
  {
    hide KeyOf, WellKeyed, AnswersInStep, RelationInStep, EmbedsJoin, FoundIn, Ask, IndexedRows, Bucket;
    if Cached(d, r, st, key) {
      CacheEmbedsJoin(st, r, t, key, rows);
    } else {
      SourceEmbedsJoin(fetch, r, t, key);
    }
  }

  // ---- documents -------------------------------------------------------------------

  lemma {:induction false} AnswerEmbedsJoin(joins: seq<JoinDef>, fetch: Fetcher, d: JoinDef, st: State, t: Tables,
                                            p: RowKey, r: RelatedDef, f: Option<seq<Json>>)
    requires Sane(joins, st) && Has(joins, d, r) && d.backfill.SyncOnMiss? && SourceInStep(joins, fetch, t)
    requires CacheInStep(joins, st, t)
    requires p in st.primary && p.0 == d.table && AnsweredFor(joins, fetch, d, st, r, st.primary[p].fks, f)
    ensures f.Some? && EmbedsJoin(r, t, KeyOf(st.primary[p].raw, r.from), f.value)
  {
    hide KeyOf, Filled, SourceInStep, CacheInStep, EmbedsJoin, Answers, Wired, OneRolePerKind;
    var key := KeyOf(st.primary[p].raw, r.from);
    StoredKeyedBy(joins, d, st, p);
    KeyNotNull(st.primary[p].raw, r.from);
    var mid :| Filled(joins, fetch, st, mid) && FoundAt(fetch, d, r, mid, st.primary[p].fks, f);
    FilledInStep(joins, fetch, st, mid, t);
    StepsOf(joins, fetch, mid, t, d, r, key);
    FoundEmbedsJoin(fetch, d, r, mid, t, key, f.value);
  }

  lemma {:induction false} StepsOf(joins: seq<JoinDef>, fetch: Fetcher, st: State, t: Tables, d: JoinDef, r: RelatedDef,
                                   key: PkValue)
    requires Has(joins, d, r) && SourceInStep(joins, fetch, t) && CacheInStep(joins, st, t)
    ensures WellKeyed(r, t) && AnswersInStep(fetch, r, t, key) && RelationInStep(st, r, t)
  {
    hide WellKeyed, AnswersInStep, RelationInStep;
  }

  /** The rows a document embeds, as rows of the join. */
  lemma {:induction false} JoinedFor(joins: seq<JoinDef>, fetch: Fetcher, d: JoinDef, st: State, t: Tables, p: RowKey,
                                     found: seq<Option<seq<Json>>>) returns (joined: seq<Option<seq<Json>>>)
    requires Sane(joins, st) && d in joins && d.backfill.SyncOnMiss? && SourceInStep(joins, fetch, t)
    requires CacheInStep(joins, st, t)
    requires p in st.primary && p.0 == d.table && |found| == |d.related|
    requires forall j :: 0 <= j < |d.related| ==>
      AnsweredFor(joins, fetch, d, st, d.related[j], st.primary[p].fks, found[j])
    ensures |joined| == |d.related| && SameShapes(d.related, found, joined)
    ensures forall j :: 0 <= j < |joined| ==>
      joined[j].Some? && FoundIn(joined[j].value,
        JoinedRows(t, d.related[j], KeyOf(st.primary[p].raw, d.related[j].from)))
  {
    hide KeyOf, SourceInStep, CacheInStep, AnsweredFor, Sane, Shape, FoundIn, JoinedRows;
    joined := [];
    while |joined| < |d.related|
      invariant |joined| <= |d.related|
      invariant forall j :: 0 <= j < |joined| ==>
        joined[j].Some? && FoundIn(joined[j].value,
          JoinedRows(t, d.related[j], KeyOf(st.primary[p].raw, d.related[j].from)))
      invariant forall j :: 0 <= j < |joined| ==>
        found[j].Some? && Shape(d.related[j], found[j].value) == Shape(d.related[j], joined[j].value)
    {
      var j := |joined|;
      var r := d.related[j];
      AnswerEmbedsJoin(joins, fetch, d, st, t, p, r, found[j]);
      var rows :| FoundIn(rows, JoinedRows(t, r, KeyOf(st.primary[p].raw, r.from)))
        && Shape(r, found[j].value) == Shape(r, rows);
      joined := joined + [Some(rows)];
    }
  }

  /** With backfill, a cache and a source in step with the tables make every document the
      engine composes the join of its row. */
  lemma {:induction false} AnsweredIsJoin(joins: seq<JoinDef>, fetch: Fetcher, d: JoinDef, st: State, t: Tables,
                                          p: RowKey, doc: Json)
    requires Sane(joins, st) && d in joins && d.backfill.SyncOnMiss? && SourceInStep(joins, fetch, t)
    requires CacheInStep(joins, st, t)
    requires p.0 == d.table && AnsweredDoc(joins, fetch, d, st, p, doc)
    ensures Shows(d, Some(doc), TableView(d, t, p))
  {
    hide KeyOf, SourceInStep, AnsweredFor, OneRolePerKind, Shape, FoundIn, JoinedRows, EmbedFound, Embed, ReverseExact;
    var row := st.primary[p].raw;
    StoredKeyedBy(joins, d, st, p);
    assert t.prim[p] == row by { assert Raws(st.primary) == t.prim; }
    var found :| AnsweredWith(joins, fetch, d, st, st.primary[p], doc, found);
    var joined := JoinedFor(joins, fetch, d, st, t, p, found);
    SameShapesSameDoc(d.related, row.fields, found, joined);
    EmbedAll(d.related, row.fields, joined);
    assert RendersWith(d, doc, DocView(row, JoinedMatches(d, t, row)), Plain(joined));
  }

  // ---- operations --------------------------------------------------------------------

  /** An insert names an absent row; an update of a row the cache does not hold carries
      all that is cached of it. */
  ghost predicate Complete(st: State, t: Tables, op: RowOp) {
    op.FUpsert? ==>
      var k := (op.r.table, op.pk);
      && (!op.merge ==> k !in t.forn)
      && (k in t.forn && k !in st.foreign ==> t.forn[k].Obj? && SameWanted(op.r, op.row, Merge(t.forn[k], op.row)))
  }

  lemma {:induction false} RowElsewhere(joins: seq<JoinDef>, st: State, t: Tables, op: RowOp, d: JoinDef, r: RelatedDef,
                                        pk: PkValue)
    requires OneRolePerKind(joins) && OpIn(joins, op) && Has(joins, d, r) && !Writes(op, r, pk)
    ensures Lookup(Apply(st, op).foreign, (r.table, pk)) == Lookup(st.foreign, (r.table, pk))
    ensures Lookup(Replay(t, op).forn, (r.table, pk)) == Lookup(t.forn, (r.table, pk))
  {
    hide KeyOf, Add, Remove, Merge, Unlink, Link, FksFrom;
    if op.FUpsert? || op.FDelete? || op.FTruncate? {
      if op.r.table == r.table { SameRelation(joins, op.d, op.r, d, r); }
    }
  }

  /** The row an operation writes or removes. */
  lemma {:induction false} RowHere(st: State, t: Tables, op: RowOp, r: RelatedDef, pk: PkValue)
    requires Writes(op, r, pk) && ObjectRow(op) && Complete(st, t, op) && RelationInStep(st, r, t)
    requires ObjectRows(TablesOf(st))
    ensures var now, t', k := Apply(st, op), Replay(t, op), (r.table, pk);
      && (k in now.foreign ==> k in t'.forn && SameWanted(r, now.foreign[k], t'.forn[k]))
      && (forall key :: pk in Bucket(now.byFk, r.id, key) ==> k in now.foreign && KeyAt(t', r, pk) == Some(key))
  {
    hide KeyOf, Bucket, SameWanted, ObjectRows;
    match op {
      case FUpsert(d, _, _, row, merge) => UpsertHere(st, t, d, r, pk, row, merge);
      case FDelete(d, _, _, eventKey) => DeleteHere(st, t, d, r, pk, eventKey);
      case FTruncate(d, _) => ForgetBuckets(st.byFk, r.id); assert (r.table, pk) !in Apply(st, op).foreign;
    }
  }

  lemma {:induction false} UpsertHere(st: State, t: Tables, d: JoinDef, r: RelatedDef, pk: PkValue, row: Json,
                                      merge: bool)
    requires row.Obj? && Complete(st, t, FUpsert(d, r, pk, row, merge)) && RelationInStep(st, r, t)
    requires ObjectRows(TablesOf(st))
    ensures var op := FUpsert(d, r, pk, row, merge);
      var now, t', k := Apply(st, op), Replay(t, op), (r.table, pk);
      && k in now.foreign && k in t'.forn && SameWanted(r, now.foreign[k], t'.forn[k])
      && (forall key :: pk in Bucket(now.byFk, r.id, key) ==> KeyAt(t', r, pk) == Some(key))
  {
    hide KeyOf, Bucket, Merge, Add, Remove;
    var op, k := FUpsert(d, r, pk, row, merge), (r.table, pk);
    var now, t' := Apply(st, op), Replay(t, op);
    if merge && k in st.foreign {
      MergeWanted(r, st.foreign[k], t.forn[k], row);
      SameWantedMeans(r, st.foreign[k], t.forn[k]);
    }
    assert SameWanted(r, now.foreign[k], t'.forn[k]);
    SameWantedMeans(r, now.foreign[k], t'.forn[k]);
    forall key | pk in Bucket(now.byFk, r.id, key) ensures KeyAt(t', r, pk) == Some(key) {
      IndexStepUpsert(st, r, pk, row, merge, key);
    }
  }

  lemma {:induction false} DeleteHere(st: State, t: Tables, d: JoinDef, r: RelatedDef, pk: PkValue, eventKey: PkValue)
    requires RelationInStep(st, r, t) && ObjectRows(TablesOf(st))
    ensures var now := Apply(st, FDelete(d, r, pk, eventKey));
      (r.table, pk) !in now.foreign && forall key :: pk !in Bucket(now.byFk, r.id, key)
  {
    hide KeyOf, Bucket, Remove;
    var k := (r.table, pk);
    RemoveBuckets(st.byFk, r.id, DeletedKey(Lookup(st.foreign, k), r.to, eventKey), pk);
    if k in st.foreign {
      assert k in TablesOf(st).forn;
      SameWantedMeans(r, st.foreign[k], t.forn[k]);
    }
  }

  /** A complete operation, applied and replayed, keeps the cache in step. */
  lemma {:induction false} ApplyInStep(joins: seq<JoinDef>, st: State, t: Tables, op: RowOp)
    requires OneRolePerKind(joins) && OpIn(joins, op) && ObjectRow(op) && CacheInStep(joins, st, t)
    requires Complete(st, t, op)
    ensures CacheInStep(joins, Apply(st, op), Replay(t, op))
  {
    hide KeyOf, OneRolePerKind, OpIn, Apply, Replay, Bucket, SameWanted, Complete, ObjectRow;
    var now, t' := Apply(st, op), Replay(t, op);
    ApplyReplays(st, op);
    ReplayPrims(TablesOf(st), t, op);
    ApplyKeepsObjects(st, op);
    forall d, r | Has(joins, d, r) ensures RelationInStep(now, r, t') {
      assert RelationInStep(st, r, t);
      forall pk ensures InStepAt(now, r, t', pk) { ApplyInStepAt(joins, st, t, op, d, r, pk); }
      InStepEverywhere(now, r, t');
    }
  }

  ghost predicate InStepAt(st: State, r: RelatedDef, t: Tables, pk: PkValue) {
    && ((r.table, pk) in st.foreign ==>
          (r.table, pk) in t.forn && SameWanted(r, st.foreign[(r.table, pk)], t.forn[(r.table, pk)]))
    && (forall key :: pk in Bucket(st.byFk, r.id, key) ==> (r.table, pk) in st.foreign && KeyAt(t, r, pk) == Some(key))
  }

  lemma {:induction false} InStepEverywhere(st: State, r: RelatedDef, t: Tables)
    requires forall pk :: InStepAt(st, r, t, pk)
    ensures RelationInStep(st, r, t)
  {
    hide KeyAt, Bucket, SameWanted;
    forall pk | (r.table, pk) in st.foreign
      ensures (r.table, pk) in t.forn && SameWanted(r, st.foreign[(r.table, pk)], t.forn[(r.table, pk)])
    {
      assert InStepAt(st, r, t, pk);
    }
    forall pk, key | pk in Bucket(st.byFk, r.id, key)
      ensures (r.table, pk) in st.foreign && KeyAt(t, r, pk) == Some(key)
    {
      assert InStepAt(st, r, t, pk);
    }
  }

  lemma {:induction false} ApplyInStepAt(joins: seq<JoinDef>, st: State, t: Tables, op: RowOp, d: JoinDef,
                                         r: RelatedDef, pk: PkValue)
    requires OneRolePerKind(joins) && OpIn(joins, op) && ObjectRow(op) && Complete(st, t, op) && Has(joins, d, r)
    requires RelationInStep(st, r, t) && ObjectRows(TablesOf(st))
    ensures InStepAt(Apply(st, op), r, Replay(t, op), pk)
  {
    hide KeyOf, OneRolePerKind, OpIn, Apply, Replay, Bucket, SameWanted, Complete, ObjectRow, ObjectRows;
    if Writes(op, r, pk) {
      RowHere(st, t, op, r, pk);
    } else {
      RowElsewhere(joins, st, t, op, d, r, pk);
      forall key | pk in Bucket(Apply(st, op).byFk, r.id, key)
        ensures (r.table, pk) in Apply(st, op).foreign && KeyAt(Replay(t, op), r, pk) == Some(key)
      {
        IndexStepElsewhere(joins, st, op, d, r, pk, key);
      }
    }
  }

  // ---- handling an operation, and a run ------------------------------------------------

  /** Every document sent for `d` is the join of the tables. */
  ghost predicate SentJoin(d: JoinDef, t: Tables, sent: seq<Emission>) {
    forall i :: 0 <= i < |sent| ==> Shows(d, EntryOf(sent[i]), TableView(d, t, sent[i].key))
  }

  /** What the engine promises of a primary's upsert, with a source in step with the
      tables the operation leaves: the document it sends is their join. */
  lemma {:induction false} UpsertSendsJoin(joins: seq<JoinDef>, fetch: Fetcher, d: JoinDef, op: RowOp, st: State,
                                           t: Tables, sent: seq<Emission>, now: State)
    requires Sane(joins, st) && op.PUpsert? && op.d == d && OpIn(joins, op) && d.backfill.SyncOnMiss?
    requires CacheInStep(joins, st, t) && SourceInStep(joins, fetch, Replay(t, op))
    requires PrimaryServed(joins, fetch, d, op, st, Ok(()), sent, now)
    ensures SentJoin(d, Replay(t, op), sent) && CacheInStep(joins, now, Replay(t, op))
  {
    hide KeyOf, Wired, OneRolePerKind, SourceInStep, CacheInStep, Filled, Apply, Replay, AnsweredDoc, Sends,
      KeysCarried, Shows;
    ApplyInStep(joins, st, t, op);
    ApplyWired(joins, st, op);
    FilledInStep(joins, fetch, Apply(st, op), now, Replay(t, op));
    SentKeys(sent, Touched(TablesOf(st), op));
    forall i | 0 <= i < |sent| ensures Shows(d, EntryOf(sent[i]), TableView(d, Replay(t, op), sent[i].key)) {
      AnsweredIsJoin(joins, fetch, d, Apply(st, op), Replay(t, op), sent[i].key, sent[i].doc);
    }
  }

  lemma {:induction false} SentKeys(sent: seq<Emission>, keys: set<RowKey>)
    requires Sends(sent, keys)
    ensures forall i :: 0 <= i < |sent| ==> sent[i].key in keys
  {
  }

  /** And of a change of a related row: every document it sends is their join. */
  lemma {:induction false} RelatedSendsJoin(joins: seq<JoinDef>, fetch: Fetcher, op: RowOp, st: State, t: Tables,
                                            sent: seq<Emission>, now: State)
    requires Sane(joins, st) && IsRelatedOp(op) && OpIn(joins, op) && ObjectRow(op) && op.d.backfill.SyncOnMiss?
    requires CacheInStep(joins, st, t) && Complete(st, t, op) && SourceInStep(joins, fetch, Replay(t, op))
    requires RelatedServed(joins, fetch, op, st, Ok(()), sent, now)
    ensures SentJoin(op.d, Replay(t, op), sent) && CacheInStep(joins, now, Replay(t, op))
  {
    hide KeyOf, Wired, OneRolePerKind, SourceInStep, CacheInStep, Filled, Apply, Replay, AnsweredDoc, Sends,
      KeysCarried, Shows, Tended, ChildGone, Complete;
    ApplyInStep(joins, st, t, op);
    ApplyWired(joins, st, op);
    FilledInStep(joins, fetch, Apply(st, op), now, Replay(t, op));
    SentKeys(sent, Touched(TablesOf(st), op));
    forall i | 0 <= i < |sent| ensures Shows(op.d, EntryOf(sent[i]), TableView(op.d, Replay(t, op), sent[i].key)) {
      AnsweredIsJoin(joins, fetch, op.d, Apply(st, op), Replay(t, op), sent[i].key, sent[i].doc);
    }
  }

  /** An operation that is complete whatever is cached. */
  ghost predicate Full(t: Tables, op: RowOp) {
    op.FUpsert? ==>
      var k := (op.r.table, op.pk);
      && (!op.merge ==> k !in t.forn)
      && (k in t.forn ==> t.forn[k].Obj? && SameWanted(op.r, op.row, Merge(t.forn[k], op.row)))
  }

  /** A run whose source is in step with the events at each operation keeps the cache in
      step throughout, so at every operation all it sends is the join. */
  lemma {:induction false} PassesInStep(joins: seq<JoinDef>, fetches: seq<Fetcher>, st: State, ops: seq<RowOp>,
                                        now: State, t: Tables)
    requires OneRolePerKind(joins) && Passes(joins, fetches, st, ops, now) && CacheInStep(joins, st, t)
    requires |fetches| == |ops|
    requires forall op :: op in ops ==> OpIn(joins, op) && ObjectRow(op)
    requires forall i :: 0 <= i < |ops| ==> Full(ReplayOps(t, ops[..i]), ops[i])
    requires forall i :: 0 <= i < |ops| ==> SourceInStep(joins, fetches[i], ReplayOps(t, ops[..i + 1]))
    ensures CacheInStep(joins, now, ReplayOps(t, ops))
  {
    hide OneRolePerKind, OpIn, ObjectRow, Full, SourceInStep, CacheInStep, Filled, Apply, Replay, PassesThen;
    if ops != [] {
      var n := |ops| - 1;
      var mid := PassedBefore(joins, fetches, st, ops, now);
      var before := ops[..n];
      forall i | 0 <= i < n
        ensures Full(ReplayOps(t, before[..i]), before[i])
        ensures SourceInStep(joins, fetches[..n][i], ReplayOps(t, before[..i + 1]))
      {
        assert before[..i] == ops[..i] && before[..i + 1] == ops[..i + 1];
      }
      PassesInStep(joins, fetches[..n], st, before, mid, t);
      assert ops[..n + 1] == ops && ops[n] in ops;
      FullIsComplete(mid, ReplayOps(t, before), ops[n]);
      ApplyInStep(joins, mid, ReplayOps(t, before), ops[n]);
      FilledInStep(joins, fetches[n], Apply(mid, ops[n]), now, ReplayOps(t, ops));
    }
  }

  /** The empty state is in step with empty tables, and so is a source without rows. */
  lemma {:induction false} EmptyInStep(joins: seq<JoinDef>, fetch: Fetcher)
    requires forall d, r :: Has(joins, d, r) ==> r.select == [] || forall c :: c in r.pk ==> c in r.select
    requires forall r: RelatedDef, key :: Ask(fetch, r, key) == Fetched([])
    ensures CacheInStep(joins, EMPTY_STATE, NO_ROWS) && SourceInStep(joins, fetch, NO_ROWS)
  {
    hide Ask;
    forall d, r, key | Has(joins, d, r) ensures AnswersInStep(fetch, r, NO_ROWS, key) {
      assert ListedAnswer([], r, NO_ROWS, key, []);
    }
  }

  lemma {:induction false} FullIsComplete(st: State, t: Tables, op: RowOp)
    requires Full(t, op)
    ensures Complete(st, t, op)
  {
    hide SameWanted, Merge;
  }
}
