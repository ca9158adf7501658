/** A table that is the related table of several entries, in one definition or in
    several. An event on it is handled through each entry in turn, and every entry but
    the first finds the row already written or already gone. */
module SharedTables {
  import opened Json
  import opened Keys
  import opened Config
  import opened Index
  import opened JoinModel
  import opened Incremental
  import opened RowState
  import opened Compose
  import opened Carries
  import opened Leftovers

  // ---- whom a related operation reaches ------------------------------------

  /** The keys a change of a related row affects. */
  ghost function AffectedKeys(st: State, op: RowOp): set<PkValue>
    requires op.FUpsert? || op.FDelete?
  {
    var prior := Lookup(st.foreign, (op.r.table, op.pk));
    if op.FUpsert? then
      {KeyOf(Written(prior, op.row, op.merge), op.r.to)} + OptionSet(MovedFrom(prior, op.row, op.merge, op.r.to))
    else {DeletedKey(prior, op.r.to, op.eventKey)}
  }

  lemma {:induction false} ReachedThroughLinks(st: State, op: RowOp, p: RowKey)
    requires (op.FUpsert? || op.FDelete?) && p in st.primary && p.0 == op.d.table
    ensures p in FanOut(st, op) <==> exists key :: key in AffectedKeys(st, op) && p in Bucket(st.reverse, op.r.id, key)
    ensures p in Touched(TablesOf(st), op) <==> KeyOf(st.primary[p].raw, op.r.from) in AffectedKeys(st, op)
  {
    hide KeyOf, Bucket, Written, MovedFrom, DeletedKey;
    assert p in TablesOf(st).prim && TablesOf(st).prim[p] == st.primary[p].raw;
    var prior := Lookup(st.foreign, (op.r.table, op.pk));
    if op.FUpsert? {
      var key, moved := KeyOf(Written(prior, op.row, op.merge), op.r.to), MovedFrom(prior, op.row, op.merge, op.r.to);
      assert key in AffectedKeys(st, op);
      assert moved.Some? ==> moved.value in AffectedKeys(st, op);
    } else {
      assert DeletedKey(prior, op.r.to, op.eventKey) in AffectedKeys(st, op);
    }
  }

  /** The reverse index of the relation is exact for the definition's primaries. */
  ghost predicate LinksExact(st: State, d: JoinDef, r: RelatedDef) {
    forall p, key :: p in st.primary && p.0 == d.table ==>
      (p in Bucket(st.reverse, r.id, key) <==> KeyOf(st.primary[p].raw, r.from) == key)
  }

  /** That alone makes an operation reach exactly the primaries its tables touch,
      whatever other roles the table plays. */
  lemma {:induction false} LinkedFanOut(st: State, op: RowOp)
    requires (op.FUpsert? || op.FDelete?) && LinksExact(st, op.d, op.r)
    ensures FanOut(st, op) == Touched(TablesOf(st), op)
  {
    hide KeyOf, Bucket, AffectedKeys, FanOut, Touched;
    forall p ensures p in FanOut(st, op) <==> p in Touched(TablesOf(st), op) {
      OnlyStored(st, op, p);
      if p in st.primary && p.0 == op.d.table { Reached(st, op, p); }
    }
  }

  lemma {:induction false} OnlyStored(st: State, op: RowOp, p: RowKey)
    requires op.FUpsert? || op.FDelete?
    ensures p in FanOut(st, op) || p in Touched(TablesOf(st), op) ==> p in st.primary && p.0 == op.d.table
  {
    hide KeyOf, Bucket;
  }

  lemma {:induction false} Reached(st: State, op: RowOp, p: RowKey)
    requires (op.FUpsert? || op.FDelete?) && LinksExact(st, op.d, op.r) && p in st.primary && p.0 == op.d.table
    ensures p in FanOut(st, op) <==> KeyOf(st.primary[p].raw, op.r.from) in AffectedKeys(st, op)
    ensures p in Touched(TablesOf(st), op) <==> KeyOf(st.primary[p].raw, op.r.from) in AffectedKeys(st, op)
  {
    hide KeyOf, Bucket, AffectedKeys, FanOut, Touched;
    ReachedThroughLinks(st, op, p);
    var own := KeyOf(st.primary[p].raw, op.r.from);
    assert forall key :: p in Bucket(st.reverse, op.r.id, key) <==> own == key;
  }

  // ---- the entries of one table ----------------------------------------------

  /** A definition and one of its related entries. */
  datatype Entry = Entry(d: JoinDef, r: RelatedDef)

  /** These are the entries on `table`, in the order in which an event is handled. Those
      on the primary table of `d` are its own. */
  ghost predicate Placed(entries: seq<Entry>, table: string, d: JoinDef) {
    && OnTable(entries, table)
    && (forall r :: r in d.related && r.table == table ==> Entry(d, r) in entries)
    && (forall e, r :: e in entries && r in d.related && e.r.id == r.id ==> e == Entry(d, r))
    && (forall e :: e in entries && e.d.table == d.table ==> e.d == d && e.r in d.related)
  }

  /** And before the event the indexes of the definition are exact. */
  ghost predicate Fits(entries: seq<Entry>, table: string, d: JoinDef, st: State) {
    && Placed(entries, table, d)
    && (forall r :: r in d.related ==> KeyExact(st, r) && (r.table == table ==> LinksExact(st, d, r)))
  }

  /** But for one row, the key indexes of the definition are exact. */
  ghost predicate ExactBut(st: State, d: JoinDef, table: string, pk: PkValue) {
    forall r, other :: r in d.related && (r.table != table || other != pk) ==> RowExact(st, r, other)
  }

  ghost predicate OnTable(entries: seq<Entry>, table: string) {
    && entries != [] && (forall a :: 0 <= a < |entries| ==> entries[a].r.table == table)
    && (forall a, b :: 0 <= a < b < |entries| ==> entries[a].r.id != entries[b].r.id)
  }

  /** A row written through every entry. */
  function Writing(entries: seq<Entry>, pk: PkValue, row: Json, merge: bool): (ops: seq<RowOp>)
    ensures |ops| == |entries|
  {
    seq(|entries|, a requires 0 <= a < |entries| => FUpsert(entries[a].d, entries[a].r, pk, row, merge))
  }

  /** A row deleted through every entry, each with the key it reads off the event. */
  function Deleting(entries: seq<Entry>, pk: PkValue, keys: seq<PkValue>): (ops: seq<RowOp>)
    requires |keys| == |entries|
    ensures |ops| == |entries|
  {
    seq(|entries|, a requires 0 <= a < |entries| => FDelete(entries[a].d, entries[a].r, pk, keys[a]))
  }

  ghost function After(st: State, ops: seq<RowOp>, i: nat): State
    requires i <= |ops|
  {
    ApplyOps(st, ops[..i])
  }

  lemma {:induction false} AfterNext(st: State, ops: seq<RowOp>, i: nat)
    requires i < |ops|
    ensures After(st, ops, i + 1) == Apply(After(st, ops, i), ops[i]) && After(st, ops, 0) == st
    ensures After(st, ops, |ops|) == ApplyOps(st, ops)
  {
    hide Apply;
    assert ops[..i + 1][..i] == ops[..i] && ops[..|ops|] == ops;
  }

  // ---- what is composed and what was last sent ---------------------------------

  /** The view of `p` in the document sent last: composed at the last operation that
      reaches it, or the one before the event. */
  ghost function SentView(d: JoinDef, st: State, ops: seq<RowOp>, p: RowKey): Option<DocView>
    requires forall op :: op in ops ==> IsRelatedOp(op)
  {
    if ops == [] then IndexView(d, st, p)
    else
      var n := |ops| - 1;
      if p in FanOut(ApplyOps(st, ops[..n]), ops[n]) then IndexView(d, ApplyOps(st, ops), p)
        else SentView(d, st, ops[..n], p)
  }

  /** The operation it was composed at. */
  lemma {:induction false} LastSent(d: JoinDef, st: State, ops: seq<RowOp>, p: RowKey) returns (i: nat)
    requires forall op :: op in ops ==> IsRelatedOp(op)
    ensures i <= |ops| && SentView(d, st, ops, p) == IndexView(d, After(st, ops, i), p)
    ensures i > 0 ==> p in FanOut(After(st, ops, i - 1), ops[i - 1])
    ensures forall b :: i <= b < |ops| ==> p !in FanOut(After(st, ops, b), ops[b])
  {
    hide FanOut, Apply, IndexView;
    if ops == [] {
      i := 0;
    } else {
      var n := |ops| - 1;
      assert ops[..|ops|] == ops;
      if p in FanOut(ApplyOps(st, ops[..n]), ops[n]) {
        i := |ops|;
      } else {
        i := LastSent(d, st, ops[..n], p);
        forall b | 0 <= b <= n ensures ops[..n][..b] == ops[..b] { }
        forall b | i <= b < |ops| ensures p !in FanOut(After(st, ops, b), ops[b]) {
          if b < n { assert p !in FanOut(After(st, ops[..n], b), ops[..n][b]); }
        }
      }
    }
  }

  /** The rows found for a key are those that join on it. */
  ghost predicate Agrees(st: State, r: RelatedDef, key: PkValue) {
    forall pk :: (r.table, pk) in st.foreign ==>
      (pk in Bucket(st.byFk, r.id, key) <==> KeyOf(st.foreign[(r.table, pk)], r.to) == key)
  }

  lemma {:induction false} AgreesIff(st: State, r: RelatedDef, key: PkValue)
    ensures Agrees(st, r, key) <==> IndexedRows(st, r, key) == JoinedRows(TablesOf(st), r, key)
  {
    hide KeyOf, Bucket;
    var cached, joined := IndexedRows(st, r, key), JoinedRows(TablesOf(st), r, key);
    if Agrees(st, r, key) {
      forall k ensures k in cached <==> k in joined { if k.0 == r.table { assert k == (r.table, k.1); } }
      assert cached == joined;
    }
    if cached == joined {
      forall pk | (r.table, pk) in st.foreign
        ensures pk in Bucket(st.byFk, r.id, key) <==> KeyOf(st.foreign[(r.table, pk)], r.to) == key
      {
        assert (r.table, pk) in cached <==> (r.table, pk) in joined;
      }
    }
  }

  ghost function OwnKey(st: State, p: RowKey, r: RelatedDef): PkValue
    requires p in st.primary
  {
    KeyOf(st.primary[p].raw, r.from)
  }

  /** Two views of one stored primary are equal when they are relation by relation. */
  lemma {:induction false} ViewsEqualIff(d: JoinDef, at: State, st: State, p: RowKey)
    requires p in st.primary && at.primary == st.primary
    ensures IndexView(d, at, p) == TableView(d, TablesOf(st), p) <==>
      forall r :: r in d.related ==>
        IndexedRows(at, r, OwnKey(st, p, r)) == JoinedRows(TablesOf(st), r, OwnKey(st, p, r))
  {
    hide KeyOf, IndexedRows, JoinedRows;
    var row := st.primary[p].raw;
    assert TablesOf(st).prim[p] == row;
    var found, joined := IndexedMatches(d, at, row), JoinedMatches(d, TablesOf(st), row);
    if found == joined {
      forall r | r in d.related
        ensures IndexedRows(at, r, OwnKey(st, p, r)) == JoinedRows(TablesOf(st), r, OwnKey(st, p, r))
      {
        var j :| 0 <= j < |d.related| && d.related[j] == r;
        assert found[j] == joined[j];
      }
    }
    if forall r :: r in d.related ==>
      IndexedRows(at, r, OwnKey(st, p, r)) == JoinedRows(TablesOf(st), r, OwnKey(st, p, r)) {
      forall j | 0 <= j < |d.related| ensures found[j] == joined[j] { assert d.related[j] in d.related; }
      assert found == joined;
    }
  }

  lemma {:induction false} ExactAgrees(st: State, r: RelatedDef, key: PkValue)
    requires KeyExact(st, r)
    ensures Agrees(st, r, key)
  {
    hide KeyOf, Bucket;
    forall pk | (r.table, pk) in st.foreign
      ensures pk in Bucket(st.byFk, r.id, key) <==> KeyOf(st.foreign[(r.table, pk)], r.to) == key
    {
      assert RowExact(st, r, pk);
    }
  }

  // ---- a row written through every entry ---------------------------------------

  ghost function NewRow(st: State, table: string, pk: PkValue, row: Json, merge: bool): Json {
    Written(Lookup(st.foreign, (table, pk)), row, merge)
  }

  lemma {:induction false} WrittenTwice(prior: Option<Json>, row: Json, merge: bool)
    requires row.Obj? && (prior.Some? ==> prior.value.Obj?)
    ensures var now := Written(prior, row, merge); now.Obj? && Written(Some(now), row, merge) == now
  {
    var now := Written(prior, row, merge);
    assert now.fields + row.fields == now.fields;
  }

  lemma {:induction false} WriteRow(at: State, e: Entry, pk: PkValue, row: Json, merge: bool)
    requires ObjectRows(TablesOf(at)) && row.Obj?
    ensures var next, k := Apply(at, FUpsert(e.d, e.r, pk, row, merge)), (e.r.table, pk);
      && next.primary == at.primary && next.reverse == at.reverse && ObjectRows(TablesOf(next))
      && next.foreign == at.foreign[k := Written(Lookup(at.foreign, k), row, merge)]
  {
    hide KeyOf, Add, Remove, Merge;
    assert (e.r.table, pk) in TablesOf(at).forn <==> (e.r.table, pk) in at.foreign;
    WrittenTwice(Lookup(at.foreign, (e.r.table, pk)), row, merge);
  }

  /** The row is written at the first entry; the others write it again. */
  lemma {:induction false} WrittenRows(entries: seq<Entry>, table: string, st: State, pk: PkValue, row: Json,
                                       merge: bool, i: nat)
    requires OnTable(entries, table) && ObjectRows(TablesOf(st)) && row.Obj? && i <= |entries|
    ensures var at := After(st, Writing(entries, pk, row, merge), i);
      && at.primary == st.primary && at.reverse == st.reverse && ObjectRows(TablesOf(at))
      && at.foreign == if i == 0 then st.foreign else st.foreign[(table, pk) := NewRow(st, table, pk, row, merge)]
  {
    hide Apply, Merge, ObjectRows, Written, After;
    var ops := Writing(entries, pk, row, merge);
    AfterNext(st, ops, 0);
    if i > 0 {
      WrittenRows(entries, table, st, pk, row, merge, i - 1);
      AfterNext(st, ops, i - 1);
      WriteRow(After(st, ops, i - 1), entries[i - 1], pk, row, merge);
      LaterPrior(st, table, pk, row, merge);
    }
  }

  /** Who is in which bucket of entry `a` once the first `i` entries are done: a later
      entry gains the new key and keeps whatever it had. */
  lemma {:induction false} WrittenBuckets(entries: seq<Entry>, table: string, st: State, pk: PkValue, row: Json,
                                          merge: bool, i: nat, a: nat, other: PkValue, key: PkValue)
    requires OnTable(entries, table) && ObjectRows(TablesOf(st)) && row.Obj? && i <= |entries| && a < |entries|
    ensures var at, r, now := After(st, Writing(entries, pk, row, merge), i), entries[a].r, NewRow(st, table, pk, row,
      merge);
      var was := other in Bucket(st.byFk, r.id, key);
      other in Bucket(at.byFk, r.id, key) <==>
        if other != pk || a >= i then was
        else key == KeyOf(now, r.to) || (was && !(a == 0 && merge && KeyAt(TablesOf(st), r, pk) == Some(key)))
  {
    hide KeyOf, Bucket, NewRow, ObjectRows, Apply, After, KeyAt;
    var ops := Writing(entries, pk, row, merge);
    AfterNext(st, ops, 0);
    if i > 0 {
      WrittenBuckets(entries, table, st, pk, row, merge, i - 1, a, other, key);
      AfterNext(st, ops, i - 1);
      if a != i - 1 || other != pk {
        ByFkElsewhere(After(st, ops, i - 1), ops[i - 1], entries[a].r.id, other, key);
      } else {
        WrittenHere(entries, table, st, pk, row, merge, a, key);
      }
    }
  }

  lemma {:induction false} WrittenHere(entries: seq<Entry>, table: string, st: State, pk: PkValue, row: Json,
                                       merge: bool, a: nat, key: PkValue)
    requires OnTable(entries, table) && ObjectRows(TablesOf(st)) && row.Obj? && a < |entries|
    ensures var ops, r, now := Writing(entries, pk, row, merge), entries[a].r, NewRow(st, table, pk, row, merge);
      pk in Bucket(Apply(After(st, ops, a), ops[a]).byFk, r.id, key) <==>
        || key == KeyOf(now, r.to)
        || (pk in Bucket(After(st, ops, a).byFk, r.id, key)
          && !(a == 0 && merge && KeyAt(TablesOf(st), r, pk) == Some(key)))
  {
    hide KeyOf, Bucket, ObjectRows, After, StoreForeign, Written;
    var ops := Writing(entries, pk, row, merge);
    var at := After(st, ops, a);
    WrittenRows(entries, table, st, pk, row, merge, a);
    IndexStepUpsert(at, entries[a].r, pk, row, merge, key);
    LaterPrior(st, table, pk, row, merge);
  }

  lemma {:induction false} LaterPrior(st: State, table: string, pk: PkValue, row: Json, merge: bool)
    requires ObjectRows(TablesOf(st)) && row.Obj?
    ensures var now := NewRow(st, table, pk, row, merge); Written(Some(now), row, merge) == now
  {
    hide Merge;
    assert (table, pk) in TablesOf(st).forn <==> (table, pk) in st.foreign;
    WrittenTwice(Lookup(st.foreign, (table, pk)), row, merge);
  }

  /** Relations on other tables keep their buckets. */
  lemma {:induction false} OtherBuckets(entries: seq<Entry>, st: State, ops: seq<RowOp>, i: nat, id: string,
                                        other: PkValue, key: PkValue)
    requires |ops| == |entries| && i <= |ops|
    requires forall a :: 0 <= a < |ops| ==>
      (ops[a].FUpsert? || ops[a].FDelete?) && ops[a].r == entries[a].r && entries[a].r.id != id
    ensures other in Bucket(After(st, ops, i).byFk, id, key) <==> other in Bucket(st.byFk, id, key)
  {
    hide Bucket, Apply;
    if i > 0 {
      OtherBuckets(entries, st, ops, i - 1, id, other, key);
      AfterNext(st, ops, i - 1);
      ByFkElsewhere(After(st, ops, i - 1), ops[i - 1], id, other, key);
    } else {
      assert ops[..0] == [];
    }
  }

  /** The row will be found under the document's own key for entry `a`, and will not
      join on it. */
  ghost predicate Misplaced(entries: seq<Entry>, a: nat, table: string, st: State, pk: PkValue, row: Json, merge: bool,
                            p: RowKey)
    requires a < |entries| && p in st.primary
  {
    var r := entries[a].r;
    var own := OwnKey(st, p, r);
    && pk in Bucket(st.byFk, r.id, own) && !(a == 0 && merge && KeyAt(TablesOf(st), r, pk) == Some(own))
    && KeyOf(NewRow(st, table, pk, row, merge), r.to) != own
  }

  lemma {:induction false} WrittenAgreesIff(entries: seq<Entry>, table: string, d: JoinDef, st: State, pk: PkValue,
                                            row: Json, merge: bool, a: nat, p: RowKey)
    requires Placed(entries, table, d) && ObjectRows(TablesOf(st)) && row.Obj? && ExactBut(st, d, table, pk)
    requires p in st.primary
    requires a < |entries| && entries[a].d == d && entries[a].r in d.related
    ensures var after, r := After(st, Writing(entries, pk, row, merge), |entries|), entries[a].r;
      Agrees(after, r, OwnKey(st, p, r)) <==> !Misplaced(entries, a, table, st, pk, row, merge, p)
  {
    hide KeyOf, Bucket, NewRow, ObjectRows, After, Placed;
    var after, r := After(st, Writing(entries, pk, row, merge), |entries|), entries[a].r;
    var own := OwnKey(st, p, r);
    PlacedOnTable(entries, table, d);
    WrittenRows(entries, table, st, pk, row, merge, |entries|);
    WrittenBuckets(entries, table, st, pk, row, merge, |entries|, a, pk, own);
    forall other | (r.table, other) in after.foreign && other != pk
      ensures other in Bucket(after.byFk, r.id, own) <==> KeyOf(after.foreign[(r.table, other)], r.to) == own
    {
      WrittenBuckets(entries, table, st, pk, row, merge, |entries|, a, other, own);
      assert RowExact(st, r, other);
    }
  }

  lemma {:induction false} PlacedOnTable(entries: seq<Entry>, table: string, d: JoinDef)
    requires Placed(entries, table, d)
    ensures OnTable(entries, table) && forall a :: 0 <= a < |entries| ==> entries[a].r.table == table
  {
  }

  /** Relations on other tables stay as they were. */
  lemma {:induction false} UntouchedAgrees(entries: seq<Entry>, table: string, d: JoinDef, st: State, ops: seq<RowOp>,
                                           i: nat, pk: PkValue, r: RelatedDef, key: PkValue)
    requires Placed(entries, table, d) && |ops| == |entries| && i <= |ops| && r in d.related && r.table != table
    requires forall a :: 0 <= a < |ops| ==> (ops[a].FUpsert? || ops[a].FDelete?) && ops[a].r == entries[a].r
    requires forall k: RowKey :: k.0 != table ==> Lookup(After(st, ops, i).foreign, k) == Lookup(st.foreign, k)
    ensures IndexedRows(After(st, ops, i), r, key) == IndexedRows(st, r, key)
    ensures JoinedRows(TablesOf(After(st, ops, i)), r, key) == JoinedRows(TablesOf(st), r, key)
  {
    hide KeyOf, Bucket, After;
    var at := After(st, ops, i);
    assert forall a :: 0 <= a < |ops| ==> entries[a].r.id != r.id by {
      forall a | 0 <= a < |ops| ensures entries[a].r.id != r.id { assert entries[a] in entries; }
    }
    forall k: RowKey | k.0 == r.table ensures Lookup(at.foreign, k) == Lookup(st.foreign, k) { }
    forall other ensures other in Bucket(at.byFk, r.id, key) <==> other in Bucket(st.byFk, r.id, key) {
      OtherBuckets(entries, st, ops, i, r.id, other, key);
    }
    SameRowsSameMaps(at, st, r, key);
  }

  lemma {:induction false} SameRowsSameMaps(at: State, st: State, r: RelatedDef, key: PkValue)
    requires forall k: RowKey :: k.0 == r.table ==> Lookup(at.foreign, k) == Lookup(st.foreign, k)
    requires forall other :: other in Bucket(at.byFk, r.id, key) <==> other in Bucket(st.byFk, r.id, key)
    ensures IndexedRows(at, r, key) == IndexedRows(st, r, key)
    ensures JoinedRows(TablesOf(at), r, key) == JoinedRows(TablesOf(st), r, key)
  {
    hide KeyOf, Bucket;
    forall k ensures Lookup(IndexedRows(at, r, key), k) == Lookup(IndexedRows(st, r, key), k)
      ensures Lookup(JoinedRows(TablesOf(at), r, key), k) == Lookup(JoinedRows(TablesOf(st), r, key), k)
    {
      if k.0 == r.table { assert Lookup(at.foreign, k) == Lookup(st.foreign, k); }
    }
    SameLookups(IndexedRows(at, r, key), IndexedRows(st, r, key));
    SameLookups(JoinedRows(TablesOf(at), r, key), JoinedRows(TablesOf(st), r, key));
  }

  lemma {:induction false} SameLookups(a: map<RowKey, Json>, b: map<RowKey, Json>)
    requires forall k :: Lookup(a, k) == Lookup(b, k)
    ensures a == b
  {
    forall k ensures k in a <==> k in b { assert Lookup(a, k) == Lookup(b, k); }
    forall k | k in a ensures a[k] == b[k] { assert Lookup(a, k) == Lookup(b, k); }
  }

  lemma {:induction false} WrittenElsewhere(entries: seq<Entry>, table: string, st: State, pk: PkValue, row: Json,
                                            merge: bool, i: nat)
    requires OnTable(entries, table) && ObjectRows(TablesOf(st)) && row.Obj? && i <= |entries|
    ensures forall k: RowKey :: k.0 != table ==>
      Lookup(After(st, Writing(entries, pk, row, merge), i).foreign, k) == Lookup(st.foreign, k)
  {
    hide NewRow, ObjectRows, After;
    WrittenRows(entries, table, st, pk, row, merge, i);
  }

  /** Once a row has been written through every entry, what is composed for a document
      is its join if and only if no entry of its definition has the row misplaced. */
  lemma {:induction false} WriteComposesIff(entries: seq<Entry>, table: string, d: JoinDef, st: State, pk: PkValue,
                                            row: Json, merge: bool, p: RowKey)
    requires Placed(entries, table, d) && ObjectRows(TablesOf(st)) && row.Obj? && ExactBut(st, d, table, pk)
    requires p in st.primary
    ensures var after := After(st, Writing(entries, pk, row, merge), |entries|);
      IndexView(d, after, p) == TableView(d, TablesOf(after), p) <==>
        forall a :: 0 <= a < |entries| && entries[a].d == d && entries[a].r in d.related ==>
          !Misplaced(entries, a, table, st, pk, row, merge, p)
  {
    hide KeyOf, Bucket, ObjectRows, After, IndexView, TableView, Agrees, Misplaced, IndexedRows, JoinedRows, RowExact;
    var ops := Writing(entries, pk, row, merge);
    var after := After(st, ops, |entries|);
    WrittenRows(entries, table, st, pk, row, merge, |entries|);
    WrittenElsewhere(entries, table, st, pk, row, merge, |entries|);
    ViewsEqualIff(d, after, after, p);
    forall a | 0 <= a < |entries| && entries[a].d == d && entries[a].r in d.related
      ensures IndexedRows(after, entries[a].r, OwnKey(after, p, entries[a].r)) ==
        JoinedRows(TablesOf(after), entries[a].r, OwnKey(after, p, entries[a].r))
        <==> !Misplaced(entries, a, table, st, pk, row, merge, p)
    {
      WrittenAgreesIff(entries, table, d, st, pk, row, merge, a, p);
      AgreesIff(after, entries[a].r, OwnKey(after, p, entries[a].r));
    }
    forall r | r in d.related && r.table != table
      ensures IndexedRows(after, r, OwnKey(after, p, r)) == JoinedRows(TablesOf(after), r, OwnKey(after, p, r))
    {
      UntouchedAgrees(entries, table, d, st, ops, |entries|, pk, r, OwnKey(after, p, r));
      UntouchedJoins(st, d, table, pk, r, OwnKey(after, p, r));
    }
    forall r | r in d.related && r.table == table
      ensures exists a :: 0 <= a < |entries| && entries[a].d == d && entries[a].r == r
    {
      assert Entry(d, r) in entries;
    }
  }

  lemma {:induction false} UntouchedJoins(st: State, d: JoinDef, table: string, pk: PkValue, r: RelatedDef,
                                          key: PkValue)
    requires ExactBut(st, d, table, pk) && r in d.related && r.table != table
    ensures IndexedRows(st, r, key) == JoinedRows(TablesOf(st), r, key)
  {
    hide Bucket, KeyOf;
    forall other ensures RowExact(st, r, other) { }
    ExactAgrees(st, r, key);
    AgreesIff(st, r, key);
  }

  // ---- an update ---------------------------------------------------------------

  /** The row joined on the document's own key for this entry, and no longer does. */
  ghost predicate MovedAway(r: RelatedDef, table: string, st: State, pk: PkValue, row: Json, p: RowKey)
    requires p in st.primary
  {
    KeyAt(TablesOf(st), r, pk) == Some(OwnKey(st, p, r))
      && KeyOf(NewRow(st, table, pk, row, true), r.to) != OwnKey(st, p, r)
  }

  /** It did so through an entry of the definition that is not the first on the table. */
  ghost predicate Stuck(entries: seq<Entry>, table: string, d: JoinDef, st: State, pk: PkValue, row: Json, p: RowKey)
    requires p in st.primary
  {
    exists a :: 0 < a < |entries| && entries[a].d == d && entries[a].r in d.related && MovedAway(entries[a].r, table,
      st, pk, row, p)
  }

  lemma {:induction false} FitsExact(entries: seq<Entry>, table: string, d: JoinDef, st: State, pk: PkValue)
    requires Fits(entries, table, d, st)
    ensures Placed(entries, table, d) && OnTable(entries, table) && ExactBut(st, d, table, pk)
    ensures forall r :: r in d.related ==> RowExact(st, r, pk)
  {
    hide RowExact;
  }

  lemma {:induction false} UpdateComposesIff(entries: seq<Entry>, table: string, d: JoinDef, st: State, pk: PkValue,
                                             row: Json, p: RowKey)
    requires Fits(entries, table, d, st) && ObjectRows(TablesOf(st)) && row.Obj? && p in st.primary
    ensures var after := After(st, Writing(entries, pk, row, true), |entries|);
      IndexView(d, after, p) == TableView(d, TablesOf(after), p) <==> !Stuck(entries, table, d, st, pk, row, p)
  {
    hide KeyOf, Bucket, ObjectRows, After, IndexView, TableView, Fits, Placed, NewRow, ExactBut;
    FitsExact(entries, table, d, st, pk);
    WriteComposesIff(entries, table, d, st, pk, row, true, p);
    forall a | 0 <= a < |entries| && entries[a].d == d && entries[a].r in d.related
      ensures Misplaced(entries, a, table, st, pk, row, true, p) <==>
        a > 0 && MovedAway(entries[a].r, table, st, pk, row, p)
    {
      assert RowExact(st, entries[a].r, pk);
    }
  }

  /** A row that is stuck is found for the document at every point of the event. */
  lemma {:induction false} StuckStays(entries: seq<Entry>, table: string, d: JoinDef, st: State, pk: PkValue, row: Json,
                                      p: RowKey, i: nat)
    requires Fits(entries, table, d, st) && ObjectRows(TablesOf(st)) && row.Obj? && p in st.primary
    requires Stuck(entries, table, d, st, pk, row, p) && i <= |entries|
    ensures var ops := Writing(entries, pk, row, true);
      IndexView(d, After(st, ops, i), p) != TableView(d, TablesOf(After(st, ops, |entries|)), p)
  {
    hide KeyOf, Bucket, ObjectRows, After, IndexView, TableView, Fits, NewRow, ExactBut;
    var ops := Writing(entries, pk, row, true);
    var at, after := After(st, ops, i), After(st, ops, |entries|);
    FitsExact(entries, table, d, st, pk);
    PlacedOnTable(entries, table, d);
    var a :| 0 < a < |entries| && entries[a].d == d && entries[a].r in d.related
      && MovedAway(entries[a].r, table, st, pk, row, p);
    var r, k := entries[a].r, (table, pk);
    var own := OwnKey(st, p, r);
    WrittenRows(entries, table, st, pk, row, true, i);
    WrittenRows(entries, table, st, pk, row, true, |entries|);
    WrittenBuckets(entries, table, st, pk, row, true, i, a, pk, own);
    assert RowExact(st, r, pk);
    assert k in IndexedRows(at, r, own) && k !in JoinedRows(TablesOf(after), r, own);
    ViewsEqualIff(d, at, after, p);
    assert OwnKey(after, p, r) == own;
  }

  /** An operation that does not reach the document leaves its keys alone. */
  lemma {:induction false} NotReached(entries: seq<Entry>, table: string, d: JoinDef, st: State, pk: PkValue, row: Json,
                                      p: RowKey, a: nat)
    requires Fits(entries, table, d, st) && ObjectRows(TablesOf(st)) && row.Obj? && p in st.primary && p.0 == d.table
    requires a < |entries| && entries[a].d == d && entries[a].r in d.related
    requires var ops := Writing(entries, pk, row, true); p !in FanOut(After(st, ops, a), ops[a])
    ensures var r := entries[a].r;
      && KeyOf(NewRow(st, table, pk, row, true), r.to) != OwnKey(st, p, r)
      && (a == 0 ==> KeyAt(TablesOf(st), r, pk) != Some(OwnKey(st, p, r)))
  {
    hide KeyOf, Bucket, After, FanOut, Merge, Placed, KeyExact;
    var ops, r := Writing(entries, pk, row, true), entries[a].r;
    var at := After(st, ops, a);
    PlacedOnTable(entries, table, d);
    WrittenRows(entries, table, st, pk, row, true, a);
    LaterPrior(st, table, pk, row, true);
    assert LinksExact(st, d, r);
    assert LinksExact(at, d, r);
    Reached(at, ops[a], p);
    assert (table, pk) in TablesOf(st).forn <==> (table, pk) in st.foreign;
  }

  /** What was composed at the last operation that reached the document, or before the
      event, is then its join. */
  lemma {:induction false} UnstuckAt(entries: seq<Entry>, table: string, d: JoinDef, st: State, pk: PkValue, row: Json,
                                     p: RowKey, i: nat, a: nat)
    requires Fits(entries, table, d, st) && ObjectRows(TablesOf(st)) && row.Obj? && p in st.primary && p.0 == d.table
    requires !Stuck(entries, table, d, st, pk, row, p) && i <= |entries| && a < |entries| && entries[a].d == d
    requires entries[a].r in d.related
    requires var ops := Writing(entries, pk, row, true); i <= a ==> p !in FanOut(After(st, ops, a), ops[a])
    ensures var ops, r := Writing(entries, pk, row, true), entries[a].r;
      IndexedRows(After(st, ops, i), r, OwnKey(st, p, r)) ==
        JoinedRows(TablesOf(After(st, ops, |entries|)), r, OwnKey(st, p, r))
  {
    hide KeyOf, Bucket, After, FanOut, Placed, NewRow, ObjectRows, Fits;
    var ops, r := Writing(entries, pk, row, true), entries[a].r;
    var at, after, own := After(st, ops, i), After(st, ops, |entries|), OwnKey(st, p, r);
    FitsExact(entries, table, d, st, pk);
    PlacedOnTable(entries, table, d);
    WrittenRows(entries, table, st, pk, row, true, i);
    WrittenRows(entries, table, st, pk, row, true, |entries|);
    if i <= a { NotReached(entries, table, d, st, pk, row, p, a); }
    WrittenBuckets(entries, table, st, pk, row, true, i, a, pk, own);
    assert RowExact(st, r, pk);
    assert !(a > 0 && MovedAway(r, table, st, pk, row, p));
    var found, joined := IndexedRows(at, r, own), JoinedRows(TablesOf(after), r, own);
    forall other ensures (table, other) in found <==> (table, other) in joined {
      if other != pk {
        WrittenBuckets(entries, table, st, pk, row, true, i, a, other, own);
        assert RowExact(st, r, other);
      }
    }
    forall k ensures k in found <==> k in joined { if k.0 == table { assert k == (table, k.1); } }
    assert i == 0 ==> (table, pk) !in found;
    assert forall k :: k in found ==> found[k] == joined[k];
  }

  lemma {:induction false} UnstuckShows(entries: seq<Entry>, table: string, d: JoinDef, st: State, pk: PkValue,
                                        row: Json, p: RowKey, i: nat)
    requires Fits(entries, table, d, st) && ObjectRows(TablesOf(st)) && row.Obj? && p in st.primary && p.0 == d.table
    requires !Stuck(entries, table, d, st, pk, row, p) && i <= |entries|
    requires var ops := Writing(entries, pk, row, true); forall b :: i <= b < |entries| ==>
      p !in FanOut(After(st, ops, b), ops[b])
    ensures var ops := Writing(entries, pk, row, true);
      IndexView(d, After(st, ops, i), p) == TableView(d, TablesOf(After(st, ops, |entries|)), p)
  {
    hide KeyOf, Bucket, After, FanOut, NewRow, ObjectRows, Fits, IndexView, TableView, IndexedRows, JoinedRows, Stuck;
    var ops := Writing(entries, pk, row, true);
    var at, after := After(st, ops, i), After(st, ops, |entries|);
    FitsExact(entries, table, d, st, pk);
    PlacedOnTable(entries, table, d);
    WrittenRows(entries, table, st, pk, row, true, i);
    WrittenRows(entries, table, st, pk, row, true, |entries|);
    forall r | r in d.related
      ensures IndexedRows(at, r, OwnKey(st, p, r)) == JoinedRows(TablesOf(after), r, OwnKey(st, p, r))
    {
      if r.table == table {
        assert Entry(d, r) in entries;
        var a :| 0 <= a < |entries| && entries[a] == Entry(d, r);
        UnstuckAt(entries, table, d, st, pk, row, p, i, a);
      } else {
        WrittenElsewhere(entries, table, st, pk, row, true, i);
        WrittenElsewhere(entries, table, st, pk, row, true, |entries|);
        UntouchedAgrees(entries, table, d, st, ops, i, pk, r, OwnKey(st, p, r));
        UntouchedAgrees(entries, table, d, st, ops, |entries|, pk, r, OwnKey(st, p, r));
        UntouchedJoins(st, d, table, pk, r, OwnKey(st, p, r));
      }
    }
    ViewsEqualIff(d, at, after, p);
    assert forall r :: OwnKey(after, p, r) == OwnKey(st, p, r);
  }

  /** From exact indexes, an update handled through every entry on its table: what the
      engine then composes for a document is its join, and what it sent last is its
      join, if and only if the row has not moved away from the document's own key of an
      entry that is not the first. Whether the first entry reaches the document makes
      no difference. */
  lemma {:induction false} SharedTableUpdateGoesStaleIff(entries: seq<Entry>, table: string, d: JoinDef, st: State,
          pk: PkValue, row: Json, p: RowKey)
    requires Fits(entries, table, d, st) && ObjectRows(TablesOf(st)) && row.Obj? && p in st.primary && p.0 == d.table
    ensures var ops := Writing(entries, pk, row, true);
      var after := ApplyOps(st, ops);
      && (IndexView(d, after, p) == TableView(d, TablesOf(after), p) <==> !Stuck(entries, table, d, st, pk, row, p))
      && (SentView(d, st, ops, p) == TableView(d, TablesOf(after), p) <==> !Stuck(entries, table, d, st, pk, row, p))
  {
    hide KeyOf, Bucket, FanOut, ObjectRows, Fits, IndexView, TableView, Stuck, SentView, ApplyOps;
    var ops := Writing(entries, pk, row, true);
    assert ops[..|entries|] == ops;
    UpdateComposesIff(entries, table, d, st, pk, row, p);
    var i := LastSent(d, st, ops, p);
    if Stuck(entries, table, d, st, pk, row, p) {
      StuckStays(entries, table, d, st, pk, row, p, i);
    } else {
      UnstuckShows(entries, table, d, st, pk, row, p, i);
    }
  }

  // ---- a delete ------------------------------------------------------------------

  /** The key entry `a` goes by: the first reads the stored row, the others find it gone
      and go by the event. */
  ghost function DeleteKey(entries: seq<Entry>, st: State, pk: PkValue, keys: seq<PkValue>, a: nat): PkValue
    requires a < |entries| == |keys|
  {
    if a == 0 then DeletedKey(Lookup(st.foreign, (entries[0].r.table, pk)), entries[0].r.to, keys[0]) else keys[a]
  }

  lemma {:induction false} DeleteRow(at: State, e: Entry, pk: PkValue, key: PkValue)
    ensures var next := Apply(at, FDelete(e.d, e.r, pk, key));
      && next.primary == at.primary && next.reverse == at.reverse && next.foreign == at.foreign - {(e.r.table, pk)}
      && next.byFk == Remove(at.byFk, e.r.id, DeletedKey(Lookup(at.foreign, (e.r.table, pk)), e.r.to, key), pk)
  {
  }

  lemma {:induction false} DeletedRows(entries: seq<Entry>, table: string, st: State, pk: PkValue, keys: seq<PkValue>,
                                       i: nat)
    requires OnTable(entries, table) && |keys| == |entries| && i <= |entries|
    ensures var at := After(st, Deleting(entries, pk, keys), i);
      && at.primary == st.primary && at.reverse == st.reverse
      && at.foreign == if i == 0 then st.foreign else st.foreign - {(table, pk)}
  {
    hide Apply, After, Remove, DeletedKey;
    var ops := Deleting(entries, pk, keys);
    AfterNext(st, ops, 0);
    if i > 0 {
      DeletedRows(entries, table, st, pk, keys, i - 1);
      AfterNext(st, ops, i - 1);
      DeleteRow(After(st, ops, i - 1), entries[i - 1], pk, keys[i - 1]);
    }
  }

  /** Who is in which bucket of entry `a` once the first `i` entries are done. */
  lemma {:induction false} DeletedBuckets(entries: seq<Entry>, table: string, st: State, pk: PkValue,
                                          keys: seq<PkValue>, i: nat, a: nat, other: PkValue, key: PkValue)
    requires OnTable(entries, table) && |keys| == |entries| && i <= |entries| && a < |entries|
    ensures var at, r := After(st, Deleting(entries, pk, keys), i), entries[a].r;
      other in Bucket(at.byFk, r.id, key) <==>
        other in Bucket(st.byFk, r.id, key) && !(other == pk && a < i && key == DeleteKey(entries, st, pk, keys, a))
  {
    hide Bucket, Apply, After, Remove, DeletedKey;
    var ops := Deleting(entries, pk, keys);
    AfterNext(st, ops, 0);
    if i > 0 {
      var at := After(st, ops, i - 1);
      DeletedBuckets(entries, table, st, pk, keys, i - 1, a, other, key);
      AfterNext(st, ops, i - 1);
      if a != i - 1 || other != pk {
        ByFkElsewhere(at, ops[i - 1], entries[a].r.id, other, key);
      } else {
        DeletedRows(entries, table, st, pk, keys, a);
        DeleteRow(at, entries[a], pk, keys[a]);
        RemoveBuckets(at.byFk, entries[a].r.id, DeletedKey(Lookup(at.foreign, (table, pk)), entries[a].r.to, keys[a]),
          pk);
        GoneKey(entries, table, st, pk, keys, a);
      }
    }
  }

  lemma {:induction false} GoneKey(entries: seq<Entry>, table: string, st: State, pk: PkValue, keys: seq<PkValue>,
                                   a: nat)
    requires OnTable(entries, table) && |keys| == |entries| && a < |entries|
    ensures var at, r := After(st, Deleting(entries, pk, keys), a), entries[a].r;
      DeletedKey(Lookup(at.foreign, (table, pk)), r.to, keys[a]) == DeleteKey(entries, st, pk, keys, a)
  {
    hide After, KeyOf;
    DeletedRows(entries, table, st, pk, keys, a);
  }

  /** An entry is left in the key index of any entry but the first, under the key the
      row had, exactly when the event does not carry that key; the first leaves none. */
  lemma {:induction false} DeleteLeavesEntryIff(entries: seq<Entry>, table: string, st: State, pk: PkValue,
          keys: seq<PkValue>, a: nat, key: PkValue)
    requires OnTable(entries, table) && |keys| == |entries| && a < |entries| && KeyExact(st, entries[a].r)
    requires ObjectRows(TablesOf(st))
    ensures var after, r := ApplyOps(st, Deleting(entries, pk, keys)), entries[a].r;
      pk in Bucket(after.byFk, r.id, key) <==> a > 0 && KeyAt(TablesOf(st), r, pk) == Some(key) && keys[a] != key
  {
    hide Bucket, KeyOf;
    var ops := Deleting(entries, pk, keys);
    assert ops[..|entries|] == ops;
    DeletedBuckets(entries, table, st, pk, keys, |entries|, a, pk, key);
    assert RowExact(st, entries[a].r, pk);
    assert (table, pk) in TablesOf(st).forn <==> (table, pk) in st.foreign;
  }

  /** The document embeds the row through an entry of its definition. */
  ghost predicate Embeds(entries: seq<Entry>, d: JoinDef, st: State, pk: PkValue, p: RowKey)
    requires p in st.primary
  {
    exists a :: 0 <= a < |entries| && entries[a].d == d && entries[a].r in d.related
      && KeyAt(TablesOf(st), entries[a].r, pk) == Some(OwnKey(st, p, entries[a].r))
  }

  /** Some entry of its definition goes by the document's own key. */
  ghost predicate Informed(entries: seq<Entry>, d: JoinDef, st: State, pk: PkValue, keys: seq<PkValue>, p: RowKey)
    requires |keys| == |entries| && p in st.primary
  {
    exists a :: 0 <= a < |entries| && entries[a].d == d && entries[a].r in d.related
      && DeleteKey(entries, st, pk, keys, a) == OwnKey(st, p, entries[a].r)
  }

  lemma {:induction false} ReachedIffInformed(entries: seq<Entry>, table: string, d: JoinDef, st: State, pk: PkValue,
                                              keys: seq<PkValue>, p: RowKey, a: nat)
    requires Fits(entries, table, d, st) && |keys| == |entries| && p in st.primary && p.0 == d.table && a < |entries|
    ensures var ops := Deleting(entries, pk, keys);
      p in FanOut(After(st, ops, a), ops[a]) <==>
        entries[a].d == d && entries[a].r in d.related
          && DeleteKey(entries, st, pk, keys, a) == OwnKey(st, p, entries[a].r)
  {
    hide KeyOf, Bucket, After, FanOut, KeyExact;
    var ops := Deleting(entries, pk, keys);
    var at := After(st, ops, a);
    PlacedOnTable(entries, table, d);
    DeletedRows(entries, table, st, pk, keys, a);
    GoneKey(entries, table, st, pk, keys, a);
    OnlyStored(at, ops[a], p);
    assert entries[a] in entries;
    if entries[a].d.table == d.table {
      assert LinksExact(st, d, entries[a].r);
      assert LinksExact(at, d, entries[a].r);
      Reached(at, ops[a], p);
    }
  }

  /** From the first operation on, what is composed no longer embeds the row and is the
      join; before it, that is so exactly for documents that do not embed it. */
  lemma {:induction false} DeletedViewIff(entries: seq<Entry>, table: string, d: JoinDef, st: State, pk: PkValue,
                                          keys: seq<PkValue>, p: RowKey, i: nat)
    requires Fits(entries, table, d, st) && |keys| == |entries| && p in st.primary && p.0 == d.table && i <= |entries|
    ensures var ops := Deleting(entries, pk, keys);
      IndexView(d, After(st, ops, i), p) == TableView(d, TablesOf(After(st, ops, |entries|)), p) <==>
        i > 0 || !Embeds(entries, d, st, pk, p)
  {
    hide KeyOf, Bucket, After, Fits, IndexView, TableView, IndexedRows, JoinedRows, Embeds, OnTable;
    var ops := Deleting(entries, pk, keys);
    var at, after := After(st, ops, i), After(st, ops, |entries|);
    FitsExact(entries, table, d, st, pk);
    PlacedOnTable(entries, table, d);
    DeletedRows(entries, table, st, pk, keys, i);
    DeletedRows(entries, table, st, pk, keys, |entries|);
    forall a | 0 <= a < |entries| && entries[a].d == d && entries[a].r in d.related
      ensures var r := entries[a].r;
        IndexedRows(at, r, OwnKey(st, p, r)) == JoinedRows(TablesOf(after), r, OwnKey(st, p, r)) <==>
          i > 0 || KeyAt(TablesOf(st), r, pk) != Some(OwnKey(st, p, r))
    {
      DeletedMapsIff(entries, table, d, st, pk, keys, i, a, OwnKey(st, p, entries[a].r));
    }
    forall r | r in d.related && r.table != table
      ensures IndexedRows(at, r, OwnKey(st, p, r)) == JoinedRows(TablesOf(after), r, OwnKey(st, p, r))
    {
      UntouchedAgrees(entries, table, d, st, ops, i, pk, r, OwnKey(st, p, r));
      UntouchedAgrees(entries, table, d, st, ops, |entries|, pk, r, OwnKey(st, p, r));
      UntouchedJoins(st, d, table, pk, r, OwnKey(st, p, r));
    }
    ViewsEqualIff(d, at, after, p);
    assert forall r :: OwnKey(after, p, r) == OwnKey(st, p, r);
    EntriesCover(entries, table, d, st, pk, p, at, after, i);
  }

  /** The entries stand for the definition's relations on the table. */
  lemma {:induction false} EntriesCover(entries: seq<Entry>, table: string, d: JoinDef, st: State, pk: PkValue,
                                        p: RowKey, at: State, after: State, i: nat)
    requires Placed(entries, table, d) && p in st.primary
    requires forall a :: 0 <= a < |entries| && entries[a].d == d && entries[a].r in d.related ==>
      var r := entries[a].r;
      IndexedRows(at, r, OwnKey(st, p, r)) == JoinedRows(TablesOf(after), r, OwnKey(st, p, r)) <==>
        i > 0 || KeyAt(TablesOf(st), r, pk) != Some(OwnKey(st, p, r))
    requires forall r :: r in d.related && r.table != table ==>
      IndexedRows(at, r, OwnKey(st, p, r)) == JoinedRows(TablesOf(after), r, OwnKey(st, p, r))
    ensures (forall r :: r in d.related ==>
      IndexedRows(at, r, OwnKey(st, p, r)) == JoinedRows(TablesOf(after), r, OwnKey(st, p, r))) <==>
      i > 0 || !Embeds(entries, d, st, pk, p)
  {
    hide KeyOf, IndexedRows, JoinedRows, KeyAt, OwnKey;
    forall r | r in d.related && r.table == table
      ensures exists a :: 0 <= a < |entries| && entries[a].d == d && entries[a].r == r
    {
      assert Entry(d, r) in entries;
    }
  }

  lemma {:induction false} DeletedMapsIff(entries: seq<Entry>, table: string, d: JoinDef, st: State, pk: PkValue,
                                          keys: seq<PkValue>, i: nat, a: nat, key: PkValue)
    requires Fits(entries, table, d, st) && |keys| == |entries| && i <= |entries|
    requires a < |entries| && entries[a].d == d && entries[a].r in d.related
    ensures var ops, r := Deleting(entries, pk, keys), entries[a].r;
      IndexedRows(After(st, ops, i), r, key) == JoinedRows(TablesOf(After(st, ops, |entries|)), r, key) <==>
        i > 0 || KeyAt(TablesOf(st), r, pk) != Some(key)
  {
    hide KeyOf, Bucket, After, Fits, Placed, DeleteKey;
    var ops, r := Deleting(entries, pk, keys), entries[a].r;
    var at, after := After(st, ops, i), After(st, ops, |entries|);
    FitsExact(entries, table, d, st, pk);
    PlacedOnTable(entries, table, d);
    DeletedRows(entries, table, st, pk, keys, i);
    DeletedRows(entries, table, st, pk, keys, |entries|);
    DeletedBuckets(entries, table, st, pk, keys, i, a, pk, key);
    assert RowExact(st, r, pk);
    var found, joined := IndexedRows(at, r, key), JoinedRows(TablesOf(after), r, key);
    assert (table, pk) in found <==> i == 0 && KeyAt(TablesOf(st), r, pk) == Some(key);
    assert (table, pk) !in joined;
    forall other | other != pk ensures (table, other) in found <==> (table, other) in joined {
      DeletedBuckets(entries, table, st, pk, keys, i, a, other, key);
      assert RowExact(st, r, other);
    }
    if (table, pk) !in found {
      forall k ensures k in found <==> k in joined { if k.0 == table { assert k == (table, k.1); } }
      assert found == joined;
    }
  }

  /** From exact indexes, a delete handled through every entry on its table: what the
      engine then composes is the join of every document, but what it sent last for one
      is its join if and only if the document did not embed the row, or some entry of
      its definition goes by the document's own key. */
  lemma {:induction false} SharedTableDeleteGoesStaleIff(entries: seq<Entry>, table: string, d: JoinDef, st: State,
          pk: PkValue, keys: seq<PkValue>, p: RowKey)
    requires Fits(entries, table, d, st) && |keys| == |entries| && p in st.primary && p.0 == d.table
    ensures var ops := Deleting(entries, pk, keys);
      var after := ApplyOps(st, ops);
      && IndexView(d, after, p) == TableView(d, TablesOf(after), p)
      && (SentView(d, st, ops, p) == TableView(d, TablesOf(after), p) <==>
            !Embeds(entries, d, st, pk, p) || Informed(entries, d, st, pk, keys, p))
  {
    hide KeyOf, Bucket, FanOut, Fits, IndexView, TableView, Embeds, SentView, ApplyOps, DeleteKey;
    var ops := Deleting(entries, pk, keys);
    assert ops[..|entries|] == ops;
    PlacedNotEmpty(entries, table, d, st);
    DeletedViewIff(entries, table, d, st, pk, keys, p, |entries|);
    var i := LastSent(d, st, ops, p);
    DeletedViewIff(entries, table, d, st, pk, keys, p, i);
    forall a | 0 <= a < |entries|
      ensures p in FanOut(After(st, ops, a), ops[a]) <==>
        entries[a].d == d && entries[a].r in d.related
          && DeleteKey(entries, st, pk, keys, a) == OwnKey(st, p, entries[a].r)
    {
      ReachedIffInformed(entries, table, d, st, pk, keys, p, a);
    }
  }

  lemma {:induction false} PlacedNotEmpty(entries: seq<Entry>, table: string, d: JoinDef, st: State)
    requires Fits(entries, table, d, st)
    ensures |entries| > 0
  {
  }

  /** And when the row is inserted again, what the engine composes for a document is its
      join if and only if no entry was left under the document's own key, but the new
      row's. */
  lemma {:induction false} ReinsertedComposesIff(entries: seq<Entry>, table: string, d: JoinDef, st: State, pk: PkValue,
          keys: seq<PkValue>, row: Json, p: RowKey)
    requires Fits(entries, table, d, st) && ObjectRows(TablesOf(st)) && row.Obj? && |keys| == |entries|
    requires p in st.primary
    ensures var after := ApplyOps(ApplyOps(st, Deleting(entries, pk, keys)), Writing(entries, pk, row, false));
      IndexView(d, after, p) == TableView(d, TablesOf(after), p) <==>
        !exists a :: 0 < a < |entries| && entries[a].d == d && entries[a].r in d.related
          && KeyAt(TablesOf(st), entries[a].r, pk) == Some(OwnKey(st, p, entries[a].r))
          && keys[a] != OwnKey(st, p, entries[a].r) && KeyOf(row, entries[a].r.to) != OwnKey(st, p, entries[a].r)
  {
    hide KeyOf, Bucket, Fits, IndexView, TableView, ApplyOps, DeleteKey, KeyExact, KeyAt;
    var dels, puts := Deleting(entries, pk, keys), Writing(entries, pk, row, false);
    var gone := ApplyOps(st, dels);
    assert dels[..|entries|] == dels && puts[..|entries|] == puts;
    FitsExact(entries, table, d, st, pk);
    PlacedNotEmpty(entries, table, d, st);
    DeletedRows(entries, table, st, pk, keys, |entries|);
    GoneExactBut(entries, table, d, st, pk, keys);
    assert forall k :: k in TablesOf(gone).forn ==>
      k in TablesOf(st).forn && TablesOf(gone).forn[k] == TablesOf(st).forn[k];
    WriteComposesIff(entries, table, d, gone, pk, row, false, p);
    forall a | 0 <= a < |entries| && entries[a].d == d && entries[a].r in d.related
      ensures Misplaced(entries, a, table, gone, pk, row, false, p) <==>
        && a > 0 && KeyAt(TablesOf(st), entries[a].r, pk) == Some(OwnKey(st, p, entries[a].r))
        && keys[a] != OwnKey(st, p, entries[a].r) && KeyOf(row, entries[a].r.to) != OwnKey(st, p, entries[a].r)
    {
      FitsKeyExact(entries, table, d, st, entries[a].r);
      DeleteLeavesEntryIff(entries, table, st, pk, keys, a, OwnKey(st, p, entries[a].r));
    }
  }

  lemma {:induction false} FitsKeyExact(entries: seq<Entry>, table: string, d: JoinDef, st: State, r: RelatedDef)
    requires Fits(entries, table, d, st) && r in d.related
    ensures KeyExact(st, r)
  {
  }

  lemma {:induction false} GoneExactBut(entries: seq<Entry>, table: string, d: JoinDef, st: State, pk: PkValue,
                                        keys: seq<PkValue>)
    requires Fits(entries, table, d, st) && |keys| == |entries|
    ensures ExactBut(ApplyOps(st, Deleting(entries, pk, keys)), d, table, pk)
  {
    hide KeyOf, Bucket, DeleteKey, ApplyOps, KeyExact, LinksExact;
    var ops := Deleting(entries, pk, keys);
    var gone := ApplyOps(st, ops);
    assert ops[..|entries|] == ops;
    DeletedRows(entries, table, st, pk, keys, |entries|);
    forall r, other | r in d.related && (r.table != table || other != pk) ensures RowExact(gone, r, other) {
      FitsKeyExact(entries, table, d, st, r);
      RowOfExact(st, r, other);
      assert (r.table, other) in gone.foreign <==> (r.table, other) in st.foreign;
      forall key ensures other in Bucket(gone.byFk, r.id, key) <==> other in Bucket(st.byFk, r.id, key) {
        if r.table == table {
          assert Entry(d, r) in entries;
          var a :| 0 <= a < |entries| && entries[a] == Entry(d, r);
          DeletedBuckets(entries, table, st, pk, keys, |entries|, a, other, key);
        } else {
          forall a | 0 <= a < |entries| ensures entries[a].r.id != r.id { assert entries[a] in entries; }
          OtherBuckets(entries, st, ops, |entries|, r.id, other, key);
        }
      }
    }
  }

  lemma {:induction false} RowOfExact(st: State, r: RelatedDef, pk: PkValue)
    requires KeyExact(st, r)
    ensures RowExact(st, r, pk)
  {
  }
}
