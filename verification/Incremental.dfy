/** The engine's indexes are the inverse of its stored keys, and the documents it
    emits are the from-scratch join of the tables it has seen. */
module Incremental {
  import opened Order
  import opened Json
  import opened Keys
  import opened Config
  import opened Index
  import opened JoinModel

  /** The operation belongs to the configured joins. Decoding only produces
      primary upserts whose row is an object. */
  ghost predicate OpIn(defs: seq<JoinDef>, op: RowOp) {
    match op
    case NoOp => true
    case PUpsert(d, _, row, _) => d in defs && row.Obj?
    case PDelete(d, _) => d in defs
    case PTruncate(table) => exists d :: d in defs && d.table == table
    case FUpsert(d, r, _, _, _) => Has(defs, d, r)
    case FDelete(d, r, _, _) => Has(defs, d, r)
    case FTruncate(d, r) => Has(defs, d, r)
  }

  // ---- what holds after every operation whatsoever -----------------------

  ghost predicate StoredWell(defs: seq<JoinDef>, st: State, p: RowKey)
    requires p in st.primary
  {
    && st.primary[p].raw.Obj?
    && exists d :: d in defs && d.table == p.0 && st.primary[p].fks == FksFrom(d.related, st.primary[p].raw)
  }

  ghost predicate IsRelatedId(defs: seq<JoinDef>, id: string) {
    exists d, r :: Has(defs, d, r) && r.id == id
  }

  /** `primary_reverse` is exactly the inverse of the stored primaries' keys. */
  ghost predicate ReverseExact(defs: seq<JoinDef>, st: State) {
    && NoEmpties(st.reverse)
    && (forall d, r, key :: Has(defs, d, r) ==> Bucket(st.reverse, r.id, key) == Referencing(TablesOf(st), d, r, {key}))
    && (forall id, key :: !IsRelatedId(defs, id) ==> Bucket(st.reverse, id, key) == {})
  }

  ghost predicate Wired(defs: seq<JoinDef>, st: State) {
    && (forall p :: p in st.primary ==> StoredWell(defs, st, p))
    && ReverseExact(defs, st)
    && NoEmpties(st.byFk)
    && (forall id, key :: !IsRelatedId(defs, id) ==> Bucket(st.byFk, id, key) == {})
  }

  lemma RawsMinus(primary: map<RowKey, PrimaryRow>, gone: set<RowKey>)
    ensures Raws(primary - gone) == Raws(primary) - gone
  {
  }

  /** Applying an operation and replaying it on plain tables agree. */
  lemma {:induction false} ApplyReplays(st: State, op: RowOp)
    ensures TablesOf(Apply(st, op)) == Replay(TablesOf(st), op)
  {
    match op
    case PUpsert(d, pk, row, merge) =>
      var p, st' := (d.table, pk), Apply(st, op);
      assert Raws(st'.primary) == Raws(st.primary)[p := st'.primary[p].raw];
    case PDelete(d, pk) => RawsMinus(st.primary, {(d.table, pk)});
    case PTruncate(table) =>
      RawsMinus(st.primary, OfTable(st.primary, table));
      assert OfTable(Raws(st.primary), table) == OfTable(st.primary, table);
    case _ =>
  }

  lemma {:induction false} FksAt(related: seq<RelatedDef>, row: Json, i: nat)
    requires Distinct(RelatedIds(related)) && i < |related|
    ensures var fks := FksFrom(related, row);
      related[i].id in fks && fks[related[i].id] == KeyOf(row, related[i].from)
  {
    hide KeyOf;
    var n := |related| - 1;
    if i < n {
      assert forall a :: 0 <= a < n ==> RelatedIds(related[..n])[a] == RelatedIds(related)[a];
      FksAt(related[..n], row, i);
      assert RelatedIds(related)[i] != RelatedIds(related)[n];
    }
  }

  lemma {:induction false} FksIds(related: seq<RelatedDef>, row: Json, id: string)
    requires id in FksFrom(related, row)
    ensures exists r :: r in related && r.id == id
  {
    hide KeyOf;
    var n := |related| - 1;
    if related[n].id != id {
      FksIds(related[..n], row, id);
      var r :| r in related[..n] && r.id == id;
      assert r in related;
    }
  }

  lemma {:induction false} FksCover(related: seq<RelatedDef>, row: Json)
    requires Distinct(RelatedIds(related))
    ensures var fks := FksFrom(related, row);
      && (forall r :: r in related ==> r.id in fks && fks[r.id] == KeyOf(row, r.from))
      && (forall id :: id in fks ==> exists r :: r in related && r.id == id)
  {
    hide KeyOf, FksFrom;
    var fks := FksFrom(related, row);
    forall r | r in related ensures r.id in fks && fks[r.id] == KeyOf(row, r.from) {
      var i :| 0 <= i < |related| && related[i] == r;
      FksAt(related, row, i);
    }
    forall id | id in fks ensures exists r :: r in related && r.id == id { FksIds(related, row, id); }
  }

  lemma {:induction false} RelatedIdsDistinct(defs: seq<JoinDef>, d: JoinDef)
    requires OneRolePerKind(defs) && d in defs
    ensures Distinct(RelatedIds(d.related))
  {
    var i :| 0 <= i < |defs| && defs[i] == d;
    forall a, b | 0 <= a < b < |d.related| ensures d.related[a].id != d.related[b].id {
      assert IsRelation(defs, i, a) && IsRelation(defs, i, b);
    }
  }

  /** The keys a primary of `d` was stored under. */
  lemma {:induction false} StoredFks(defs: seq<JoinDef>, d: JoinDef, row: Json)
    requires OneRolePerKind(defs) && d in defs
    ensures forall r :: r in d.related ==>
      r.id in FksFrom(d.related, row) && FksFrom(d.related, row)[r.id] == KeyOf(row, r.from)
    ensures forall id :: id in FksFrom(d.related, row) ==> exists r :: Has(defs, d, r) && r.id == id
  {
    RelatedIdsDistinct(defs, d);
    FksCover(d.related, row);
    forall id | id in FksFrom(d.related, row) ensures exists r :: Has(defs, d, r) && r.id == id {
      var r :| r in d.related && r.id == id;
      assert Has(defs, d, r);
    }
  }

  lemma {:induction false} UnlinkIdsBuckets(ix: Index<RowKey>, ids: seq<string>, fks: map<string, PkValue>, p: RowKey)
    requires forall id :: id in ids ==> id in fks
    ensures var r := UnlinkIds(ix, ids, fks, p);
      && (NoEmpties(ix) ==> NoEmpties(r))
      && (forall id, key ::
        Bucket(r, id, key) == Bucket(ix, id, key) - (if id in ids && fks[id] == key then {p} else {}))
  {
    if ids != [] {
      var n := |ids| - 1;
      var before := UnlinkIds(ix, ids[..n], fks, p);
      UnlinkIdsBuckets(ix, ids[..n], fks, p);
      RemoveBuckets(before, ids[n], fks[ids[n]], p);
      assert ids == ids[..n] + [ids[n]];
    }
  }

  lemma {:induction false} UnlinkBuckets(ix: Index<RowKey>, fks: map<string, PkValue>, p: RowKey)
    ensures var r := Unlink(ix, fks, p);
      && (NoEmpties(ix) ==> NoEmpties(r))
      && (forall id, key ::
        Bucket(r, id, key) == Bucket(ix, id, key) - (if id in fks && fks[id] == key then {p} else {}))
  {
    StrStrictTotal();
    UnlinkIdsBuckets(ix, Ascending(StrLt, fks.Keys), fks, p);
  }

  lemma {:induction false} LinkBuckets(ix: Index<RowKey>, related: seq<RelatedDef>, fks: map<string, PkValue>,
                                       p: RowKey)
    requires forall r :: r in related ==> r.id in fks && !fks[r.id].IsNull()
    ensures var ix' := Link(ix, related, fks, p);
      && (NoEmpties(ix) ==> NoEmpties(ix'))
      && (forall id, key :: Bucket(ix', id, key) ==
            Bucket(ix, id, key) + (if (exists r :: r in related && r.id == id) && fks[id] == key then {p} else {}))
  {
    if related != [] {
      var n := |related| - 1;
      var before := Link(ix, related[..n], fks, p);
      LinkBuckets(ix, related[..n], fks, p);
      AddBuckets(before, related[n].id, fks[related[n].id], p);
      assert related == related[..n] + [related[n]];
    }
  }

  /** The keys `p` is linked under when it is stored. */
  lemma {:induction false} PrimaryFks(defs: seq<JoinDef>, st: State, d: JoinDef, p: RowKey)
    requires OneRolePerKind(defs) && Wired(defs, st) && d in defs && p.0 == d.table && p in st.primary
    ensures st.primary[p].fks == FksFrom(d.related, st.primary[p].raw)
  {
    assert StoredWell(defs, st, p);
    var d0 :| d0 in defs && d0.table == p.0 && st.primary[p].fks == FksFrom(d0.related, st.primary[p].raw);
    SameTableSameDef(defs, d, d0);
  }

  lemma ReferencingStore(t: Tables, t': Tables, p: RowKey, row: Json, d: JoinDef, r: RelatedDef, key: PkValue)
    requires t'.prim == t.prim[p := row]
    ensures Referencing(t', d, r, {key}) ==
      (Referencing(t, d, r, {key}) - {p}) + (if p.0 == d.table && KeyOf(row, r.from) == key then {p} else {})
  {
  }

  lemma ReferencingDrop(t: Tables, t': Tables, gone: set<RowKey>, d: JoinDef, r: RelatedDef, key: PkValue)
    requires t'.prim == t.prim - gone
    ensures Referencing(t', d, r, {key}) == Referencing(t, d, r, {key}) - gone
  {
  }

  /** A primary appears under a relation's key exactly when it is stored and its
      row has that key. */
  lemma {:induction false} LinkedIff(defs: seq<JoinDef>, st: State, d: JoinDef, r: RelatedDef, p: RowKey, key: PkValue)
    requires OneRolePerKind(defs) && Wired(defs, st) && Has(defs, d, r)
    ensures p in Bucket(st.reverse, r.id, key) <==>
      p in st.primary && p.0 == d.table && KeyOf(st.primary[p].raw, r.from) == key
  {
    assert Bucket(st.reverse, r.id, key) == Referencing(TablesOf(st), d, r, {key});
  }

  /** Clearing a stored primary's links takes it out of every bucket. */
  lemma {:induction false} UnlinkStored(defs: seq<JoinDef>, st: State, d: JoinDef, p: RowKey)
    requires OneRolePerKind(defs) && Wired(defs, st) && d in defs && p.0 == d.table && p in st.primary
    ensures var ix := Unlink(st.reverse, st.primary[p].fks, p);
      NoEmpties(ix) && forall id, key :: Bucket(ix, id, key) == Bucket(st.reverse, id, key) - {p}
  {
    var fks := st.primary[p].fks;
    PrimaryFks(defs, st, d, p);
    StoredFks(defs, d, st.primary[p].raw);
    UnlinkBuckets(st.reverse, fks, p);
    forall id, key | !(id in fks && fks[id] == key) ensures p !in Bucket(st.reverse, id, key) {
      if IsRelatedId(defs, id) {
        var d', r :| Has(defs, d', r) && r.id == id;
        LinkedIff(defs, st, d', r, p, key);
        if d'.table == d.table { SameTableSameDef(defs, d, d'); }
      }
    }
  }

  /** Whatever was linked for `p` before is cleared first. */
  lemma {:induction false} ClearedBuckets(defs: seq<JoinDef>, st: State, d: JoinDef, p: RowKey)
    requires OneRolePerKind(defs) && Wired(defs, st) && d in defs && p.0 == d.table
    ensures var cleared := if p in st.primary then Unlink(st.reverse, st.primary[p].fks, p) else st.reverse;
      NoEmpties(cleared) && forall id, key :: Bucket(cleared, id, key) == Bucket(st.reverse, id, key) - {p}
  {
    if p in st.primary {
      UnlinkStored(defs, st, d, p);
    } else {
      forall id, key ensures p !in Bucket(st.reverse, id, key) {
        if IsRelatedId(defs, id) {
          var d', r :| Has(defs, d', r) && r.id == id;
          LinkedIff(defs, st, d', r, p, key);
        }
      }
    }
  }

  lemma {:induction false} LinkAllBuckets(defs: seq<JoinDef>, ix: Index<RowKey>, d: JoinDef, row: Json, p: RowKey)
    requires OneRolePerKind(defs) && d in defs && NoEmpties(ix)
    ensures var fks := FksFrom(d.related, row);
      var ix' := Link(ix, d.related, fks, p);
      && NoEmpties(ix')
      && (forall id, key ::
        Bucket(ix', id, key) == Bucket(ix, id, key) + (if id in fks && fks[id] == key then {p} else {}))
  {
    var fks := FksFrom(d.related, row);
    StoredFks(defs, d, row);
    LinkBuckets(ix, d.related, fks, p);
    forall id ensures id in fks <==> exists r :: r in d.related && r.id == id {}
  }

  /** Storing a primary row moves it to the buckets of its new keys. */
  lemma {:induction false} StoreBuckets(defs: seq<JoinDef>, st: State, d: JoinDef, pk: PkValue, row: Json)
    requires OneRolePerKind(defs) && Wired(defs, st) && d in defs
    ensures var p := (d.table, pk);
      var ix := StorePrimary(st, d.related, p, row).reverse;
      var fks := FksFrom(d.related, row);
      && NoEmpties(ix)
      && (forall id, key :: Bucket(ix, id, key) ==
            (Bucket(st.reverse, id, key) - {p}) + (if id in fks && fks[id] == key then {p} else {}))
  {
    var p := (d.table, pk);
    var cleared := if p in st.primary then Unlink(st.reverse, st.primary[p].fks, p) else st.reverse;
    ClearedBuckets(defs, st, d, p);
    LinkAllBuckets(defs, cleared, d, row, p);
  }

  /** The stored row is linked under `r` exactly when `r` is one of its own
      definition's relations and the key agrees. */
  lemma {:induction false} FksOfRelation(defs: seq<JoinDef>, d: JoinDef, row: Json, d': JoinDef, r: RelatedDef,
                                         key: PkValue)
    requires OneRolePerKind(defs) && d in defs && Has(defs, d', r)
    ensures var fks := FksFrom(d.related, row);
      (r.id in fks && fks[r.id] == key) <==> (d'.table == d.table && KeyOf(row, r.from) == key)
  {
    StoredFks(defs, d, row);
    if d'.table == d.table { SameTableSameDef(defs, d, d'); }
    if r.id in FksFrom(d.related, row) {
      var r' :| Has(defs, d, r') && r'.id == r.id;
      SameRelation(defs, d, r', d', r);
    }
  }

  lemma {:induction false} ReverseStored(defs: seq<JoinDef>, st: State, st': State, d: JoinDef, p: RowKey, row: Json)
    requires OneRolePerKind(defs) && ReverseExact(defs, st) && d in defs && p.0 == d.table
    requires TablesOf(st').prim == TablesOf(st).prim[p := row] && NoEmpties(st'.reverse)
    requires var fks := FksFrom(d.related, row);
      forall id, key :: Bucket(st'.reverse, id, key) ==
        (Bucket(st.reverse, id, key) - {p}) + (if id in fks && fks[id] == key then {p} else {})
    ensures ReverseExact(defs, st')
  {
    forall d', r, key | Has(defs, d', r)
      ensures Bucket(st'.reverse, r.id, key) == Referencing(TablesOf(st'), d', r, {key})
    {
      assert Bucket(st.reverse, r.id, key) == Referencing(TablesOf(st), d', r, {key});
      ReferencingStore(TablesOf(st), TablesOf(st'), p, row, d', r, key);
      FksOfRelation(defs, d, row, d', r, key);
    }
    forall id, key | !IsRelatedId(defs, id) ensures Bucket(st'.reverse, id, key) == {} {
      StoredFks(defs, d, row);
    }
  }

  lemma RawsStore(primary: map<RowKey, PrimaryRow>, p: RowKey, x: PrimaryRow)
    ensures Raws(primary[p := x]) == Raws(primary)[p := x.raw]
  {
  }

  lemma {:induction false} StoredWellKept(defs: seq<JoinDef>, st: State, d: JoinDef, p: RowKey, row: Json)
    requires (forall q :: q in st.primary ==> StoredWell(defs, st, q)) && d in defs && p.0 == d.table && row.Obj?
    ensures var st' := StorePrimary(st, d.related, p, row);
      forall q :: q in st'.primary ==> StoredWell(defs, st', q)
  {
    var st' := StorePrimary(st, d.related, p, row);
    forall q | q in st'.primary ensures StoredWell(defs, st', q) {
      if q != p {
        assert StoredWell(defs, st, q);
        assert st'.primary[q] == st.primary[q];
      }
    }
  }

  /** Storing a primary row keeps the reverse index exact. */
  lemma {:induction false} StorePrimaryWired(defs: seq<JoinDef>, st: State, d: JoinDef, pk: PkValue, row: Json)
    requires OneRolePerKind(defs) && Wired(defs, st) && d in defs && row.Obj?
    ensures Wired(defs, StorePrimary(st, d.related, (d.table, pk), row))
  {
    var p := (d.table, pk);
    var st' := StorePrimary(st, d.related, p, row);
    assert ReverseExact(defs, st') by {
      StoreBuckets(defs, st, d, pk, row);
      RawsStore(st.primary, p, PrimaryRow(row, FksFrom(d.related, row)));
      ReverseStored(defs, st, st', d, p, row);
    }
    StoredWellKept(defs, st, d, p, row);
  }

  lemma {:induction false} DropPrimaryWired(defs: seq<JoinDef>, st: State, d: JoinDef, pk: PkValue)
    requires OneRolePerKind(defs) && Wired(defs, st) && d in defs
    ensures Wired(defs, DropPrimary(st, (d.table, pk)))
  {
    var p := (d.table, pk);
    if p in st.primary {
      UnlinkStored(defs, st, d, p);
      ReverseWithout(defs, st, DropPrimary(st, p), {p});
    }
  }

  lemma {:induction false} DropPrimariesWired(defs: seq<JoinDef>, st: State, gone: set<RowKey>)
    requires Wired(defs, st)
    ensures Wired(defs, DropPrimaries(st, gone))
  {
    WithoutBuckets(st.reverse, gone);
    ReverseWithout(defs, st, DropPrimaries(st, gone), gone);
  }

  lemma {:induction false} ReverseWithout(defs: seq<JoinDef>, st: State, st': State, gone: set<RowKey>)
    requires Wired(defs, st) && st'.primary == st.primary - gone && st'.byFk == st.byFk && NoEmpties(st'.reverse)
    requires forall id, key :: Bucket(st'.reverse, id, key) == Bucket(st.reverse, id, key) - gone
    ensures Wired(defs, st')
  {
    RawsMinus(st.primary, gone);
    forall p | p in st'.primary ensures StoredWell(defs, st', p) {
      assert StoredWell(defs, st, p);
    }
    forall d, r, key | Has(defs, d, r)
      ensures Bucket(st'.reverse, r.id, key) == Referencing(TablesOf(st'), d, r, {key})
    {
      assert Bucket(st.reverse, r.id, key) == Referencing(TablesOf(st), d, r, {key});
      ReferencingDrop(TablesOf(st), TablesOf(st'), gone, d, r, key);
    }
  }

  /** Foreign-side operations leave primaries and their index alone. */
  lemma {:induction false} ForeignWired(defs: seq<JoinDef>, st: State, op: RowOp)
    requires OpIn(defs, op) && Wired(defs, st) && (op.FUpsert? || op.FDelete? || op.FTruncate?)
    ensures Wired(defs, Apply(st, op))
  {
    var st' := Apply(st, op);
    assert st'.primary == st.primary && st'.reverse == st.reverse;
    assert TablesOf(st').prim == TablesOf(st).prim;
    forall p | p in st'.primary ensures StoredWell(defs, st', p) {
      assert StoredWell(defs, st, p);
    }
    forall d, r, key ensures Referencing(TablesOf(st'), d, r, {key}) == Referencing(TablesOf(st), d, r, {key}) {}
    ByFkElsewhere(st, op, op.r.id + "'", EMPTY_KEY, EMPTY_KEY);
    forall id, key | !IsRelatedId(defs, id) ensures Bucket(st'.byFk, id, key) == {} {
      assert IsRelatedId(defs, op.r.id);
      forall pk ensures pk !in Bucket(st'.byFk, id, key) { ByFkElsewhere(st, op, id, pk, key); }
    }
  }

  /** Whatever the operation, primaries stay objects and `primary_reverse` stays
      the exact inverse of their keys. */
  lemma {:induction false} ApplyWired(defs: seq<JoinDef>, st: State, op: RowOp)
    requires OneRolePerKind(defs) && OpIn(defs, op) && Wired(defs, st)
    ensures Wired(defs, Apply(st, op))
  {
    match op {
      case NoOp =>
      case PUpsert(d, pk, row, merge) =>
        var p := (d.table, pk);
        var prior := if p in st.primary then Some(st.primary[p].raw) else None;
        StorePrimaryWired(defs, st, d, pk, Written(prior, row, merge));
      case PDelete(d, pk) => DropPrimaryWired(defs, st, d, pk);
      case PTruncate(table) => DropPrimariesWired(defs, st, OfTable(st.primary, table));
      case _ => ForeignWired(defs, st, op);
    }
  }

  // ---- foreign_by_fk -----------------------------------------------------

  /** The key under which the stored foreign row joins, if it is stored. */
  function KeyAt(t: Tables, r: RelatedDef, pk: PkValue): Option<PkValue> {
    if (r.table, pk) in t.forn then Some(KeyOf(t.forn[(r.table, pk)], r.to)) else None
  }

  ghost predicate ObjectRows(t: Tables) {
    forall k :: k in t.forn ==> t.forn[k].Obj?
  }

  /** Every stored foreign row is indexed under its key. */
  ghost predicate Indexed(defs: seq<JoinDef>, st: State) {
    forall d, r, pk :: Has(defs, d, r) && (r.table, pk) in st.foreign ==>
      pk in Bucket(st.byFk, r.id, KeyOf(st.foreign[(r.table, pk)], r.to))
  }

  /** `foreign_by_fk` is exactly the inverse of the stored foreign keys. */
  ghost predicate ForeignExact(defs: seq<JoinDef>, st: State) {
    forall d, r, pk, key :: Has(defs, d, r) ==>
      (pk in Bucket(st.byFk, r.id, key) <==> KeyAt(TablesOf(st), r, pk) == Some(key))
  }

  ghost predicate ObjectRow(op: RowOp) {
    op.FUpsert? ==> op.row.Obj?
  }

  /** A related insert names a row that is not there yet. */
  ghost predicate FreshInsert(t: Tables, op: RowOp) {
    op.FUpsert? && !op.merge ==> (op.r.table, op.pk) !in t.forn
  }

  /** The operation writes or removes the foreign row `pk` of `r`. */
  ghost predicate Writes(op: RowOp, r: RelatedDef, pk: PkValue) {
    match op
    case FUpsert(_, r0, pk0, _, _) => r0 == r && pk0 == pk
    case FDelete(_, r0, pk0, _) => r0 == r && pk0 == pk
    case FTruncate(_, r0) => r0 == r
    case _ => false
  }

  /** An operation only concerns the index entries of the rows it writes. */
  lemma {:induction false} IndexStepElsewhere(defs: seq<JoinDef>, st: State, op: RowOp, d: JoinDef, r: RelatedDef,
                                              pk: PkValue, key: PkValue)
    requires OneRolePerKind(defs) && OpIn(defs, op) && Has(defs, d, r) && !Writes(op, r, pk)
    ensures pk in Bucket(Apply(st, op).byFk, r.id, key) <==> pk in Bucket(st.byFk, r.id, key)
    ensures KeyAt(Replay(TablesOf(st), op), r, pk) == KeyAt(TablesOf(st), r, pk)
  {
    if op.FUpsert? || op.FDelete? || op.FTruncate? {
      if Clash(op.r, r) { SameRelation(defs, op.d, op.r, d, r); }
      ByFkElsewhere(st, op, r.id, pk, key);
    }
  }

  lemma {:induction false} ByFkElsewhere(st: State, op: RowOp, id: string, pk: PkValue, key: PkValue)
    requires op.FUpsert? || op.FDelete? ==> op.r.id != id || op.pk != pk
    requires op.FTruncate? ==> op.r.id != id
    ensures pk in Bucket(Apply(st, op).byFk, id, key) <==> pk in Bucket(st.byFk, id, key)
    ensures NoEmpties(st.byFk) ==> NoEmpties(Apply(st, op).byFk)
  {
    hide KeyOf, Add, Remove, Merge, NoEmpties;
    match op {
      case FUpsert(d0, r0, pk0, row, merge) =>
        var prior := Lookup(st.foreign, (r0.table, pk0));
        var stored := Written(prior, row, merge);
        var moved := MovedFrom(prior, row, merge, r0.to);
        AddBuckets(st.byFk, r0.id, KeyOf(stored, r0.to), pk0);
        if moved.Some? { RemoveBuckets(Add(st.byFk, r0.id, KeyOf(stored, r0.to), pk0), r0.id, moved.value, pk0); }
      case FDelete(d0, r0, pk0, eventKey) =>
        RemoveBuckets(st.byFk, r0.id, DeletedKey(Lookup(st.foreign, (r0.table, pk0)), r0.to, eventKey), pk0);
      case FTruncate(d0, r0) =>
        ForgetBuckets(st.byFk, r0.id);
      case _ =>
    }
  }

  /** How an upsert changes the keys its row is indexed under. */
  lemma {:induction false} IndexStepUpsert(st: State, r: RelatedDef, pk: PkValue, row: Json, merge: bool, key: PkValue)
    requires ObjectRows(TablesOf(st))
    ensures var prior := Lookup(st.foreign, (r.table, pk));
      var key' := KeyOf(Written(prior, row, merge), r.to);
      pk in Bucket(StoreForeign(st, r, pk, row, merge).byFk, r.id, key) <==>
        key == key' || (pk in Bucket(st.byFk, r.id, key) && !(merge && prior.Some? && KeyOf(prior.value, r.to) == key))
  {
    var prior := Lookup(st.foreign, (r.table, pk));
    var stored := Written(prior, row, merge);
    var moved := MovedFrom(prior, row, merge, r.to);
    AddBuckets(st.byFk, r.id, KeyOf(stored, r.to), pk);
    if moved.Some? { RemoveBuckets(Add(st.byFk, r.id, KeyOf(stored, r.to), pk), r.id, moved.value, pk); }
  }

  /** How one operation changes who is indexed under `key`. A new entry is the
      row's new key; the entry of the key the row had is gone, except when an
      insert lands on a stored row. */
  lemma {:induction false} IndexStep(defs: seq<JoinDef>, st: State, op: RowOp, d: JoinDef, r: RelatedDef, pk: PkValue,
                                     key: PkValue)
    requires OneRolePerKind(defs) && OpIn(defs, op) && Has(defs, d, r)
    requires ObjectRows(TablesOf(st)) && ObjectRow(op)
    ensures var t, t' := TablesOf(st), Replay(TablesOf(st), op);
      var was, now := pk in Bucket(st.byFk, r.id, key), pk in Bucket(Apply(st, op).byFk, r.id, key);
      && (KeyAt(t', r, pk) == Some(key) && (was || KeyAt(t, r, pk) != Some(key)) ==> now)
      && (now && KeyAt(t', r, pk) != Some(key) ==> was)
      && (now && KeyAt(t', r, pk) != Some(key) && KeyAt(t, r, pk) == Some(key) ==>
            op.FUpsert? && !op.merge && op.r == r && op.pk == pk)
  {
    if !Writes(op, r, pk) {
      IndexStepElsewhere(defs, st, op, d, r, pk, key);
    } else if op.FUpsert? {
      IndexStepUpsert(st, r, pk, op.row, op.merge, key);
    } else if op.FDelete? {
      RemoveBuckets(st.byFk, r.id, DeletedKey(Lookup(st.foreign, (r.table, pk)), r.to, op.eventKey), pk);
    } else {
      ForgetBuckets(st.byFk, r.id);
    }
  }

  lemma {:induction false} ApplyKeepsObjects(st: State, op: RowOp)
    requires ObjectRows(TablesOf(st)) && ObjectRow(op)
    ensures ObjectRows(Replay(TablesOf(st), op))
  {
  }

  lemma {:induction false} ApplyIndexed(defs: seq<JoinDef>, st: State, op: RowOp)
    requires OneRolePerKind(defs) && OpIn(defs, op) && Indexed(defs, st)
    requires ObjectRows(TablesOf(st)) && ObjectRow(op)
    ensures Indexed(defs, Apply(st, op))
  {
    var st' := Apply(st, op);
    ApplyReplays(st, op);
    forall d, r, pk | Has(defs, d, r) && (r.table, pk) in st'.foreign
      ensures pk in Bucket(st'.byFk, r.id, KeyOf(st'.foreign[(r.table, pk)], r.to))
    {
      IndexStep(defs, st, op, d, r, pk, KeyOf(st'.foreign[(r.table, pk)], r.to));
    }
  }

  /** With inserts only on absent rows, `foreign_by_fk` stays the exact inverse. */
  lemma {:induction false} ApplyForeignExact(defs: seq<JoinDef>, st: State, op: RowOp)
    requires OneRolePerKind(defs) && OpIn(defs, op) && ForeignExact(defs, st)
    requires ObjectRows(TablesOf(st)) && ObjectRow(op) && FreshInsert(TablesOf(st), op)
    ensures ForeignExact(defs, Apply(st, op))
  {
    ApplyReplays(st, op);
    forall d, r, pk, key | Has(defs, d, r)
      ensures pk in Bucket(Apply(st, op).byFk, r.id, key) <==> KeyAt(TablesOf(Apply(st, op)), r, pk) == Some(key)
    {
      IndexStep(defs, st, op, d, r, pk, key);
    }
  }

  // ---- composed documents ------------------------------------------------

  /** With both indexes exact, what the engine composes is the join. */
  lemma {:induction false} ComposedIsJoin(defs: seq<JoinDef>, st: State, d: JoinDef, p: RowKey)
    requires d in defs && ForeignExact(defs, st)
    ensures IndexView(d, st, p) == TableView(d, TablesOf(st), p)
  {
    if p in st.primary {
      var row := st.primary[p].raw;
      forall i | 0 <= i < |d.related|
        ensures IndexedMatches(d, st, row)[i] == JoinedMatches(d, TablesOf(st), row)[i]
      {
        assert Has(defs, d, d.related[i]);
        IndexedIsJoined(defs, st, d, d.related[i], KeyOf(row, d.related[i].from));
      }
      assert IndexedMatches(d, st, row) == JoinedMatches(d, TablesOf(st), row);
    }
  }

  lemma {:induction false} IndexedIsJoined(defs: seq<JoinDef>, st: State, d: JoinDef, r: RelatedDef, key: PkValue)
    requires Has(defs, d, r) && ForeignExact(defs, st)
    ensures IndexedRows(st, r, key) == JoinedRows(TablesOf(st), r, key)
  {
    forall k | k in st.foreign && k.0 == r.table
      ensures k.1 in Bucket(st.byFk, r.id, key) <==> KeyOf(st.foreign[k], r.to) == key
    {
      assert k == (r.table, k.1);
      assert k.1 in Bucket(st.byFk, r.id, key) <==> KeyAt(TablesOf(st), r, k.1) == Some(key);
    }
  }

  /** An insert replaced a stored row of `r` whose key was `p`'s. */
  ghost predicate Displaces(t: Tables, op: RowOp, d: JoinDef, p: RowKey) {
    && op.FUpsert? && !op.merge && op.r in d.related && p in t.prim
    && KeyAt(t, op.r, op.pk) == Some(KeyOf(t.prim[p], op.r.from))
    && KeyAt(Replay(t, op), op.r, op.pk) != Some(KeyOf(t.prim[p], op.r.from))
  }

  /** A document no operation re-emits is a document that did not change. */
  lemma {:induction false} UntouchedView(defs: seq<JoinDef>, t: Tables, op: RowOp, d: JoinDef, p: RowKey)
    requires OneRolePerKind(defs) && OpIn(defs, op) && d in defs && p.0 == d.table
    requires ObjectRows(t) && ObjectRow(op)
    requires p !in Touched(t, op) && !Displaces(t, op, d, p)
    ensures TableView(d, Replay(t, op), p) == TableView(d, t, p)
  {
    var t' := Replay(t, op);
    assert Lookup(t'.prim, p) == Lookup(t.prim, p);
    if p in t.prim {
      var row := t.prim[p];
      forall i | 0 <= i < |d.related| ensures JoinedMatches(d, t', row)[i] == JoinedMatches(d, t, row)[i] {
        UntouchedMatches(defs, t, op, d, d.related[i], p);
      }
      assert JoinedMatches(d, t', row) == JoinedMatches(d, t, row);
    }
  }

  lemma {:induction false} UntouchedMatches(defs: seq<JoinDef>, t: Tables, op: RowOp, d: JoinDef, r: RelatedDef,
                                            p: RowKey)
    requires OneRolePerKind(defs) && OpIn(defs, op) && Has(defs, d, r) && p.0 == d.table && p in t.prim
    requires ObjectRows(t) && ObjectRow(op)
    requires p !in Touched(t, op) && !Displaces(t, op, d, p)
    ensures JoinedRows(Replay(t, op), r, KeyOf(t.prim[p], r.from)) == JoinedRows(t, r, KeyOf(t.prim[p], r.from))
  {
    var key, t' := KeyOf(t.prim[p], r.from), Replay(t, op);
    forall k: RowKey | k.0 == r.table
      ensures k in JoinedRows(t', r, key) <==> k in JoinedRows(t, r, key)
      ensures k in JoinedRows(t, r, key) ==> t'.forn[k] == t.forn[k]
    {
      assert k == (r.table, k.1);
      if Writes(op, r, k.1) {
        UnmatchedKeys(t, op, d, r, p, k.1);
      } else if op.FUpsert? || op.FDelete? || op.FTruncate? {
        if op.r.table == r.table { SameRelation(defs, op.d, op.r, d, r); }
        assert Lookup(t'.forn, k) == Lookup(t.forn, k);
      }
    }
  }

  /** A write that leaves `p` untouched neither finds nor leaves its row under
      `p`'s key. */
  lemma {:induction false} UnmatchedKeys(t: Tables, op: RowOp, d: JoinDef, r: RelatedDef, p: RowKey, pk: PkValue)
    requires r in d.related && p.0 == d.table && p in t.prim && Writes(op, r, pk) && op.d == d
    requires ObjectRows(t) && ObjectRow(op)
    requires p !in Touched(t, op) && !Displaces(t, op, d, p)
    ensures KeyAt(t, r, pk) != Some(KeyOf(t.prim[p], r.from))
    ensures KeyAt(Replay(t, op), r, pk) != Some(KeyOf(t.prim[p], r.from))
  {
    match op {
      case FUpsert(_, _, _, row, merge) =>
        var prior := Lookup(t.forn, (r.table, pk));
        assert KeyOf(Written(prior, row, merge), r.to) != KeyOf(t.prim[p], r.from);
      case FDelete(_, _, _, eventKey) =>
        assert DeletedKey(Lookup(t.forn, (r.table, pk)), r.to, eventKey) != KeyOf(t.prim[p], r.from);
      case FTruncate(_, _) =>
    }
  }

  // ---- the main theorem --------------------------------------------------

  ghost predicate Log(defs: seq<JoinDef>, log: seq<RowOp>) {
    forall i :: 0 <= i < |log| ==> OpIn(defs, log[i]) && ObjectRow(log[i]) && FreshInsert(ReplayAll(log[..i]), log[i])
  }

  function ReplayAll(log: seq<RowOp>): Tables {
    if log == [] then NO_ROWS else Replay(ReplayAll(log[..|log| - 1]), log[|log| - 1])
  }

  function ApplyAll(log: seq<RowOp>): State {
    if log == [] then EMPTY_STATE else Apply(ApplyAll(log[..|log| - 1]), log[|log| - 1])
  }

  /** `out` could have been emitted while applying the log from the start. */
  ghost predicate Emitted(defs: seq<JoinDef>, log: seq<RowOp>, out: seq<seq<Emission>>) {
    |out| == |log| && forall i :: 0 <= i < |log| ==>
      Announces(defs, ApplyAll(log[..i + 1]), Touched(ReplayAll(log[..i]), log[i]), out[i])
  }

  function SinkAfter(out: seq<seq<Emission>>): Sink {
    if out == [] then map[] else DeliverAll(SinkAfter(out[..|out| - 1]), out[|out| - 1])
  }

  /** The sink holds exactly the from-scratch join of the tables. */
  ghost predicate SinkIsJoin(defs: seq<JoinDef>, sink: Sink, t: Tables) {
    forall d, p: RowKey :: d in defs && p.0 == d.table ==> Shows(d, Lookup(sink, p), TableView(d, t, p))
  }

  /** The state every log prefix leaves behind. */
  lemma {:induction false} StateInvariants(defs: seq<JoinDef>, log: seq<RowOp>)
    requires OneRolePerKind(defs) && Log(defs, log)
    ensures var st := ApplyAll(log);
      && TablesOf(st) == ReplayAll(log)
      && ObjectRows(ReplayAll(log))
      && Wired(defs, st) && ForeignExact(defs, st)
  {
    if log != [] {
      var n := |log| - 1;
      LogPrefix(defs, log, n);
      StateInvariants(defs, log[..n]);
      var st := ApplyAll(log[..n]);
      assert log[..n] == log[..|log| - 1];
      ApplyReplays(st, log[n]);
      ApplyWired(defs, st, log[n]);
      ApplyKeepsObjects(st, log[n]);
      ApplyForeignExact(defs, st, log[n]);
    }
  }

  lemma {:induction false} LogPrefix(defs: seq<JoinDef>, log: seq<RowOp>, n: nat)
    requires Log(defs, log) && n <= |log|
    ensures Log(defs, log[..n])
  {
    forall i | 0 <= i < n ensures log[..n][..i] == log[..i] {}
  }

  lemma {:induction false} EmittedPrefix(defs: seq<JoinDef>, log: seq<RowOp>, out: seq<seq<Emission>>, n: nat)
    requires Emitted(defs, log, out) && n <= |log|
    ensures Emitted(defs, log[..n], out[..n])
  {
    forall i | 0 <= i < n
      ensures Announces(defs, ApplyAll(log[..n][..i + 1]), Touched(ReplayAll(log[..n][..i]), log[..n][i]), out[..n][i])
    {
      assert log[..n][..i + 1] == log[..i + 1] && log[..n][..i] == log[..i];
    }
  }

  /** Delivering one emission per touched primary leaves each at what it carries. */
  lemma {:induction false} DeliveredEntry(sink: Sink, out: seq<Emission>, p: RowKey)
    requires forall i, j :: 0 <= i < j < |out| ==> out[i].key != out[j].key
    ensures (forall i :: 0 <= i < |out| ==> out[i].key != p) ==> Lookup(DeliverAll(sink, out), p) == Lookup(sink, p)
    ensures forall i :: 0 <= i < |out| && out[i].key == p ==> Lookup(DeliverAll(sink, out), p) == EntryOf(out[i])
  {
    if out != [] {
      DeliveredEntry(sink, out[..|out| - 1], p);
    }
  }

  /** One step: what was the join stays the join. */
  lemma {:induction false} StepKeepsJoin(defs: seq<JoinDef>, st: State, op: RowOp, out: seq<Emission>, sink: Sink)
    requires OneRolePerKind(defs) && OpIn(defs, op) && Wired(defs, st) && ForeignExact(defs, st)
    requires ObjectRows(TablesOf(st)) && ObjectRow(op) && FreshInsert(TablesOf(st), op)
    requires Announces(defs, Apply(st, op), Touched(TablesOf(st), op), out)
    requires SinkIsJoin(defs, sink, TablesOf(st))
    ensures SinkIsJoin(defs, DeliverAll(sink, out), TablesOf(Apply(st, op)))
  {
    hide Apply, Replay, ForeignExact, Wired, TableView, IndexView, Renders;
    var st', t := Apply(st, op), TablesOf(st);
    ApplyReplays(st, op);
    ApplyForeignExact(defs, st, op);
    forall d, p: RowKey | d in defs && p.0 == d.table
      ensures Shows(d, Lookup(DeliverAll(sink, out), p), TableView(d, TablesOf(st'), p))
    {
      DeliveredEntry(sink, out, p);
      if p in Touched(t, op) {
        var i :| 0 <= i < |out| && out[i].key == p;
        assert Shows(d, EntryOf(out[i]), IndexView(d, st', p));
        ComposedIsJoin(defs, st', d, p);
      } else {
        UntouchedView(defs, t, op, d, p);
      }
    }
  }

  /** After every prefix of every log over both sides, the sink built from the
      emitted upserts and tombstones is the full join of the replayed tables. */
  lemma {:induction false} SinkAlwaysJoin(defs: seq<JoinDef>, log: seq<RowOp>, out: seq<seq<Emission>>)
    requires OneRolePerKind(defs) && Log(defs, log) && Emitted(defs, log, out)
    ensures SinkIsJoin(defs, SinkAfter(out), ReplayAll(log))
  {
    if log != [] {
      var n := |log| - 1;
      LogPrefix(defs, log, n);
      EmittedPrefix(defs, log, out, n);
      SinkAlwaysJoin(defs, log[..n], out[..n]);
      StateInvariants(defs, log[..n]);
      assert log[..n + 1] == log && log[..n] == log[..|log| - 1] && out[..n] == out[..|out| - 1];
      var st := ApplyAll(log[..n]);
      ApplyReplays(st, log[n]);
      StepKeepsJoin(defs, st, log[n], out[n], SinkAfter(out[..n]));
    }
  }
}
