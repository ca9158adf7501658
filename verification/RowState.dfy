/** The engine's in-memory state object and its ordered page reads. */
module RowState {
  import opened Order
  import opened Json
  import opened Keys
  import opened Index
  import opened JoinModel

  // ---- keyset pages ------------------------------------------------------

  predicate IsAfter(after: Option<RowKey>, p: RowKey) {
    after.Some? ==> RowLt(after.value, p)
  }

  /** `rows` is the page of at most `limit` members of `all` next after the cursor:
      in order, none skipped. */
  ghost predicate Page(rows: seq<RowKey>, all: set<RowKey>, after: Option<RowKey>, limit: nat) {
    && |rows| <= limit && Ascends(RowLt, rows)
    && (forall p :: p in rows ==> p in all && IsAfter(after, p))
    && (forall p :: p in all && IsAfter(after, p) && p !in rows ==> |rows| == limit && PrecededBy(rows, p))
  }

  ghost predicate PrecededBy(rows: seq<RowKey>, p: RowKey) {
    forall q :: q in rows ==> RowLt(q, p)
  }

  /** The members of `all` a walk has reached once its cursor is `after`. */
  ghost function Reached(all: set<RowKey>, after: Option<RowKey>): set<RowKey> {
    set p | p in all && !IsAfter(after, p)
  }

  ghost function Elements<T>(s: seq<T>): set<T> {
    set x | x in s
  }

  /** Moving the cursor to a page's last row reaches exactly that page's rows. */
  lemma {:induction false} PageAdvances(rows: seq<RowKey>, all: set<RowKey>, after: Option<RowKey>, limit: nat)
    requires Page(rows, all, after, limit) && rows != []
    ensures Reached(all, Some(rows[|rows| - 1])) == Reached(all, after) + Elements(rows)
    ensures Reached(all, after) !! Elements(rows)
  {
    hide RowLt;
    RowStrictTotal();
    var last := rows[|rows| - 1];
    assert last in rows;
    forall p | p in all ensures p in Reached(all, Some(last)) <==> p in Reached(all, after) || p in rows {
      if p in rows {
        var i :| 0 <= i < |rows| && rows[i] == p;
        assert i == |rows| - 1 || RowLt(rows[i], last);
      }
    }
  }

  /** The walk ends, on an empty page, only when every member has been reached. */
  lemma {:induction false} EmptyPageEnds(all: set<RowKey>, after: Option<RowKey>, limit: nat)
    requires Page([], all, after, limit) && limit > 0
    ensures Reached(all, after) == all
  {
    assert forall p :: p in all ==> !IsAfter(after, p);
  }

  // ---- merging two ordered buckets ---------------------------------------

  function RowsAfter(rows: set<RowKey>, after: Option<RowKey>): (r: seq<RowKey>)
    ensures Ascends(RowLt, r)
    ensures forall p :: p in r <==> p in rows && IsAfter(after, p)
  {
    RowStrictTotal();
    Ascending(RowLt, set p | p in rows && IsAfter(after, p))
  }

  /** Part-way through a merge: `rows` holds what both consumed prefixes hold. */
  ghost predicate Merged(rows: seq<RowKey>, left: seq<RowKey>, i: nat, right: seq<RowKey>, j: nat)
    requires i <= |left| && j <= |right|
  {
    && Ascends(RowLt, rows)
    && (forall p :: p in rows <==> p in left[..i] || p in right[..j])
    && (forall k :: i <= k < |left| ==> PrecededBy(rows, left[k]))
    && (forall k :: j <= k < |right| ==> PrecededBy(rows, right[k]))
  }

  lemma {:induction false} Extends(rows: seq<RowKey>, p: RowKey, tail: seq<RowKey>, k: nat)
    requires Ascends(RowLt, rows) && PrecededBy(rows, p)
    requires Ascends(RowLt, tail) && k <= |tail|
    requires forall m :: k <= m < |tail| ==> PrecededBy(rows, tail[m])
    requires k < |tail| ==> p == tail[k] || RowLt(p, tail[k])
    ensures Ascends(RowLt, rows + [p])
    ensures forall m :: k + 1 <= m < |tail| ==> PrecededBy(rows + [p], tail[m])
    ensures k < |tail| && p != tail[k] ==> PrecededBy(rows + [p], tail[k])
  {
    hide RowLt;
    RowStrictTotal();
    forall i, j | 0 <= i < j < |rows + [p]| ensures RowLt((rows + [p])[i], (rows + [p])[j]) {
      assert rows[i] in rows;
    }
    forall m | k + 1 <= m < |tail| ensures PrecededBy(rows + [p], tail[m]) {
      assert RowLt(tail[k], tail[m]);
    }
  }

  lemma {:induction false} MergeStart(left: seq<RowKey>, right: seq<RowKey>)
    ensures Merged([], left, 0, right, 0) && Ascends(RowLt, [])
  {
    assert left[..0] == [] && right[..0] == [];
  }

  lemma {:induction false} NothingToPage(all: set<RowKey>, after: Option<RowKey>, limit: nat)
    requires limit == 0 || all == {}
    ensures Page([], all, after, limit)
  {
  }

  /** Pushing the smaller head keeps the merge going. */
  lemma {:induction false} MergeStep(rows: seq<RowKey>, left: seq<RowKey>, i: nat, right: seq<RowKey>, j: nat,
                                     p: RowKey, i': nat, j': nat)
    requires Ascends(RowLt, left) && Ascends(RowLt, right) && i <= |left| && j <= |right|
    requires Merged(rows, left, i, right, j)
    requires i' <= |left| && j' <= |right| && (i < |left| || j < |right|)
    requires i < |left| ==> p == left[i] || RowLt(p, left[i])
    requires j < |right| ==> p == right[j] || RowLt(p, right[j])
    requires (i < |left| && p == left[i]) || (j < |right| && p == right[j])
    requires i' == (if i < |left| && p == left[i] then i + 1 else i)
    requires j' == (if j < |right| && p == right[j] then j + 1 else j)
    ensures Merged(rows + [p], left, i', right, j')
  {
    hide RowLt, Ascends;
    Extends(rows, p, left, i);
    Extends(rows, p, right, j);
    assert left[..i'] == if i' == i then left[..i] else left[..i] + [p];
    assert right[..j'] == if j' == j then right[..j] else right[..j] + [p];
  }

  function KeyRows(ix: Index<RowKey>, id: string, key: PkValue, secondary: Option<PkValue>): set<RowKey> {
    Bucket(ix, id, key) + if secondary.Some? then Bucket(ix, id, secondary.value) else {}
  }

  lemma {:induction false} SplitMember(s: seq<RowKey>, i: nat, p: RowKey)
    requires i <= |s|
    ensures p in s ==> p in s[..i] || exists k :: i <= k < |s| && s[k] == p
  {
    assert s == s[..i] + s[i..];
  }

  lemma {:induction false} MergedIsPage(rows: seq<RowKey>, left: seq<RowKey>, i: nat, right: seq<RowKey>, j: nat,
                                        all: set<RowKey>, after: Option<RowKey>, limit: nat)
    requires i <= |left| && j <= |right| && Merged(rows, left, i, right, j)
    requires forall p :: p in left || p in right <==> p in all && IsAfter(after, p)
    requires |rows| <= limit
    requires |rows| == limit || (i == |left| && j == |right|)
    ensures Page(rows, all, after, limit)
  {
    forall p | p in all && IsAfter(after, p) && p !in rows ensures |rows| == limit && PrecededBy(rows, p) {
      SplitMember(left, i, p);
      SplitMember(right, j, p);
    }
    assert forall p :: p in left[..i] ==> p in left;
    assert forall p :: p in right[..j] ==> p in right;
  }

  // ---- a bounded selection over many buckets -----------------------------

  /** `kept` holds the `limit` smallest members of `seen`. */
  ghost predicate Smallest(kept: set<RowKey>, seen: set<RowKey>, limit: nat) {
    && kept <= seen && |kept| <= limit
    && (forall p :: p in seen && p !in kept ==> |kept| == limit && Below(kept, p))
  }

  ghost predicate Below(kept: set<RowKey>, p: RowKey) {
    forall q :: q in kept ==> RowLt(q, p)
  }

  /** Every primary linked under any key of the relation. */
  function RelationRows(ix: Index<RowKey>, id: string): set<RowKey> {
    if id in ix then set key, p | key in ix[id] && p in ix[id][key] :: p else {}
  }

  predicate IsLargest(s: set<RowKey>, p: RowKey) {
    p in s && forall q | q in s :: q == p || RowLt(q, p)
  }

  lemma {:induction false} LargestExists(s: set<RowKey>)
    requires s != {}
    ensures exists p :: IsLargest(s, p)
  {
    hide RowLt;
    RowStrictTotal();
    var r := Ascending(RowLt, s);
    var last := r[|r| - 1];
    assert last in r;
    forall q | q in s ensures q == last || RowLt(q, last) {
      assert q in r;
    }
    assert IsLargest(s, last);
  }

  /** Inserting a row and dropping the largest past the bound keeps the smallest. */
  lemma {:induction false} KeepSmallest(kept: set<RowKey>, seen: set<RowKey>, p: RowKey, limit: nat, kept': set<RowKey>)
    requires Smallest(kept, seen, limit)
    requires |kept + {p}| <= limit ==> kept' == kept + {p}
    requires |kept + {p}| > limit ==> exists m :: IsLargest(kept + {p}, m) && kept' == kept + {p} - {m}
    ensures Smallest(kept', seen + {p}, limit)
  {
    hide RowLt;
    RowStrictTotal();
    var grown := kept + {p};
    if |grown| > limit {
      var m :| IsLargest(grown, m) && kept' == grown - {m};
      assert |kept'| == |grown| - 1;
      forall q | q in seen + {p} && q !in kept' ensures |kept'| == limit && Below(kept', q) {
        if q != m { assert q in seen && q !in kept; }
      }
    } else if |kept| == limit {
      SameSize(kept, grown);
    }
  }

  /** A bucket's rows past its first `limit` cannot be among the smallest overall. */
  lemma {:induction false} RestOfBucket(kept: set<RowKey>, seen: set<RowKey>, bucket: seq<RowKey>, limit: nat)
    requires Smallest(kept, seen, limit) && Ascends(RowLt, bucket)
    requires forall k :: 0 <= k < limit && k < |bucket| ==> bucket[k] in seen
    ensures Smallest(kept, seen + Elements(bucket), limit)
  {
    forall p | p in bucket && p !in seen && p !in kept ensures |kept| == limit && Below(kept, p) {
      var n :| 0 <= n < |bucket| && bucket[n] == p;
      PastTheBound(kept, seen, bucket, limit, n);
    }
  }

  lemma {:induction false} PastTheBound(kept: set<RowKey>, seen: set<RowKey>, bucket: seq<RowKey>, limit: nat, n: nat)
    requires Smallest(kept, seen, limit) && Ascends(RowLt, bucket) && limit <= n < |bucket|
    requires forall k :: 0 <= k < limit && k < |bucket| ==> bucket[k] in seen
    ensures |kept| == limit && Below(kept, bucket[n])
  {
    hide RowLt;
    RowStrictTotal();
    var first := Elements(bucket[..limit]);
    AscendingSize(bucket[..limit]);
    if first <= kept {
      SameSize(first, kept);
    } else {
      var p :| p in first && p !in kept;
      assert p in bucket[..limit];
    }
    forall q | q in kept ensures RowLt(q, bucket[n]) {
      if q in first {
        assert q in bucket[..limit];
      } else if first <= kept {
        SameSize(first, kept);
      } else {
        var p :| p in first && p !in kept;
        assert p in bucket[..limit] && RowLt(p, bucket[n]) && RowLt(q, p);
      }
    }
  }

  lemma {:induction false} AscendingSize(rows: seq<RowKey>)
    requires Ascends(RowLt, rows)
    ensures |Elements(rows)| == |rows|
  {
    hide RowLt;
    RowStrictTotal();
    if rows != [] {
      var n := |rows| - 1;
      AscendingSize(rows[..n]);
      assert Elements(rows) == Elements(rows[..n]) + {rows[n]};
      assert rows[n] !in rows[..n];
    }
  }

  lemma SameSize<T>(a: set<T>, b: set<T>)
    requires a <= b && |a| >= |b|
    ensures a == b
  {
    assert |b - a| == |b| - |a|;
  }

  // ---- the state object --------------------------------------------------

  class JoinState {
    var primaryRows: map<RowKey, PrimaryRow>
    var foreignRows: map<RowKey, Json>
    var primaryReverse: Index<RowKey>
    var foreignByFk: Index<PkValue>

    constructor ()
      ensures View() == EMPTY_STATE && Valid()
    {
      primaryRows, foreignRows, primaryReverse, foreignByFk := map[], map[], map[], map[];
    }

    function View(): State
      reads this
    {
      State(primaryRows, foreignRows, primaryReverse, foreignByFk)
    }

    ghost predicate Valid()
      reads this
    {
      NoEmpties(primaryReverse) && NoEmpties(foreignByFk)
    }

    method SetPrimary(p: RowKey, row: PrimaryRow)
      modifies this`primaryRows
      ensures primaryRows == old(primaryRows)[p := row]
    {
      primaryRows := primaryRows[p := row];
    }

    method TakePrimary(p: RowKey) returns (prior: Option<PrimaryRow>)
      modifies this`primaryRows
      ensures primaryRows == old(primaryRows) - {p} && prior == Lookup(old(primaryRows), p)
    {
      prior := Lookup(primaryRows, p);
      primaryRows := primaryRows - {p};
    }

    method SetForeign(table: string, pk: PkValue, row: Json)
      modifies this`foreignRows
      ensures foreignRows == old(foreignRows)[(table, pk) := row]
    {
      foreignRows := foreignRows[(table, pk) := row];
    }

    method DeleteForeign(table: string, pk: PkValue) returns (prior: Option<Json>)
      modifies this`foreignRows
      ensures foreignRows == old(foreignRows) - {(table, pk)} && prior == Lookup(old(foreignRows), (table, pk))
    {
      prior := Lookup(foreignRows, (table, pk));
      foreignRows := foreignRows - {(table, pk)};
    }

    method AddPrimaryReverse(id: string, key: PkValue, p: RowKey)
      modifies this`primaryReverse
      ensures primaryReverse == Add(old(primaryReverse), id, key, p)
      ensures old(NoEmpties(primaryReverse)) ==> NoEmpties(primaryReverse)
    {
      AddBuckets(primaryReverse, id, key, p);
      primaryReverse := Add(primaryReverse, id, key, p);
    }

    method RemovePrimaryReverse(id: string, key: PkValue, p: RowKey)
      modifies this`primaryReverse
      ensures primaryReverse == Remove(old(primaryReverse), id, key, p)
      ensures old(NoEmpties(primaryReverse)) ==> NoEmpties(primaryReverse)
    {
      RemoveBuckets(primaryReverse, id, key, p);
      primaryReverse := Remove(primaryReverse, id, key, p);
    }

    method AddForeignByFk(id: string, key: PkValue, pk: PkValue)
      modifies this`foreignByFk
      ensures foreignByFk == Add(old(foreignByFk), id, key, pk)
      ensures old(NoEmpties(foreignByFk)) ==> NoEmpties(foreignByFk)
    {
      AddBuckets(foreignByFk, id, key, pk);
      foreignByFk := Add(foreignByFk, id, key, pk);
    }

    method RemoveForeignByFk(id: string, key: PkValue, pk: PkValue)
      modifies this`foreignByFk
      ensures foreignByFk == Remove(old(foreignByFk), id, key, pk)
      ensures old(NoEmpties(foreignByFk)) ==> NoEmpties(foreignByFk)
    {
      RemoveBuckets(foreignByFk, id, key, pk);
      foreignByFk := Remove(foreignByFk, id, key, pk);
    }

    /** One page of the ordered union of one or two buckets, merged without
        building the union. */
    method PrimariesForKeysChunk(id: string, key: PkValue, secondary: Option<PkValue>, after: Option<RowKey>,
                                 limit: nat)
      returns (rows: seq<RowKey>)
      ensures Page(rows, KeyRows(primaryReverse, id, key, secondary), after, limit)
    {
      hide RowLt, Merged, Page, Ascends;
      RowStrictTotal();
      rows := [];
      if limit == 0 || id !in primaryReverse {
        NothingToPage(KeyRows(primaryReverse, id, key, secondary), after, limit);
        return;
      }
      var left := RowsAfter(Bucket(primaryReverse, id, key), after);
      var right := [];
      if secondary.Some? && secondary.value != key {
        right := RowsAfter(Bucket(primaryReverse, id, secondary.value), after);
      }
      var i, j := 0, 0;
      MergeStart(left, right);
      while |rows| < limit && (i < |left| || j < |right|)
        invariant i <= |left| && j <= |right| && |rows| <= limit
        invariant Merged(rows, left, i, right, j)
        decreases |left| - i + |right| - j
      {
        ghost var i0, j0, rows0 := i, j, rows;
        var p;
        if j == |right| || (i < |left| && RowLt(left[i], right[j])) {
          p := left[i];
          i := i + 1;
        } else if i == |left| || RowLt(right[j], left[i]) {
          p := right[j];
          j := j + 1;
        } else {
          p := left[i];
          i, j := i + 1, j + 1;
        }
        rows := rows + [p];
        MergeStep(rows0, left, i0, right, j0, p, i, j);
      }
      MergedIsPage(rows, left, i, right, j, KeyRows(primaryReverse, id, key, secondary), after, limit);
    }

    /** One page over every bucket of a relation, through a set that never grows
        past the bound. */
    method PrimariesForRelationChunk(id: string, after: Option<RowKey>, limit: nat) returns (rows: seq<RowKey>)
      ensures Page(rows, RelationRows(primaryReverse, id), after, limit)
    {
      RowStrictTotal();
      rows := [];
      if limit == 0 || id !in primaryReverse { return; }
      var byKey := primaryReverse[id];
      var keys := byKey.Keys;
      var kept: set<RowKey> := {};
      ghost var seen: set<RowKey> := {};
      while keys != {}
        invariant keys <= byKey.Keys
        invariant Smallest(kept, seen, limit)
        invariant forall p :: p in seen <==>
          exists key :: key in byKey && key !in keys && p in byKey[key] && IsAfter(after, p)
      {
        var key :| key in keys;
        var bucket := RowsAfter(byKey[key], after);
        kept, seen := KeepFromBucket(kept, bucket, limit, seen);
        keys := keys - {key};
      }
      rows := Ascending(RowLt, kept);
      assert forall p :: p in RelationRows(primaryReverse, id) && IsAfter(after, p) <==> p in seen;
      forall p | p in seen && p !in rows ensures |rows| == limit && PrecededBy(rows, p) {
        assert Below(kept, p);
      }
    }

    static method KeepFromBucket(kept0: set<RowKey>, bucket: seq<RowKey>, limit: nat, ghost seen0: set<RowKey>)
      returns (kept: set<RowKey>, ghost seen: set<RowKey>)
      requires Smallest(kept0, seen0, limit) && Ascends(RowLt, bucket)
      ensures Smallest(kept, seen, limit) && seen == seen0 + Elements(bucket)
    {
      kept, seen := kept0, seen0;
      var n := 0;
      while n < |bucket| && n < limit
        invariant n <= |bucket| && Smallest(kept, seen, limit) && seen == seen0 + Elements(bucket[..n])
      {
        var grown := kept + {bucket[n]};
        ghost var before := kept;
        if |grown| > limit {
          LargestExists(grown);
          var last :| last in grown && IsLargest(grown, last);
          kept := grown - {last};
        } else {
          kept := grown;
        }
        KeepSmallest(before, seen, bucket[n], limit, kept);
        seen := seen + {bucket[n]};
        assert bucket[..n + 1] == bucket[..n] + [bucket[n]];
        n := n + 1;
      }
      RestOfBucket(kept, seen, bucket, limit);
      seen := seen + Elements(bucket);
    }

    /** Remove up to `limit` rows of a table, in no particular order, with every
        reverse link to them. */
    method TakePrimaryTablePage(table: string, limit: nat) returns (removed: seq<PkValue>)
      requires Valid()
      modifies this
      ensures Valid() && TookPage(old(View()), View(), table, limit, removed)
    {
      removed := [];
      if limit == 0 {
        WithoutBuckets(primaryReverse, Keyed(table, removed));
        Extensional(primaryReverse, Without(primaryReverse, Keyed(table, removed)));
        assert primaryRows - Keyed(table, removed) == primaryRows;
        return;
      }
      var keys := OfTable(primaryRows, table);
      while keys != {} && |removed| < limit
        invariant keys == OfTable(primaryRows, table) && |removed| <= limit
        invariant forall i, j :: 0 <= i < j < |removed| ==> removed[i] != removed[j]
        invariant forall pk :: pk in removed ==> (table, pk) in old(primaryRows)
        invariant primaryRows == old(primaryRows) - Keyed(table, removed)
        invariant unchanged(`foreignRows) && unchanged(`primaryReverse) && unchanged(`foreignByFk)
        invariant removed == [] ==> keys == OfTable(old(primaryRows), table)
      {
        var p :| p in keys;
        var prior := TakePrimary(p);
        assert Keyed(table, removed + [p.1]) == Keyed(table, removed) + {p};
        removed := removed + [p.1];
        keys := keys - {p};
      }
      WithoutBuckets(primaryReverse, Keyed(table, removed));
      primaryReverse := Without(primaryReverse, Keyed(table, removed));
    }

    method PurgeRelatedTable(id: string, table: string)
      modifies this
      ensures View() == old(View()).(foreign := old(foreignRows) - OfTable(old(foreignRows), table),
                                     byFk := old(foreignByFk) - {id})
      ensures old(Valid()) ==> Valid()
    {
      ForgetBuckets(foreignByFk, id);
      foreignRows := foreignRows - OfTable(foreignRows, table);
      foreignByFk := foreignByFk - {id};
    }
  }

  /** Some rows of the table, each once, are gone with their links; none were taken
      only if none were left. */
  ghost predicate TookPage(st: State, now: State, table: string, limit: nat, removed: seq<PkValue>) {
    && |removed| <= limit
    && (forall i, j :: 0 <= i < j < |removed| ==> removed[i] != removed[j])
    && (forall pk :: pk in removed ==> (table, pk) in st.primary)
    && now == DropPrimaries(st, Keyed(table, removed))
    && (limit > 0 && removed == [] ==> OfTable(st.primary, table) == {})
  }

  function Keyed(table: string, pks: seq<PkValue>): set<RowKey> {
    set pk | pk in pks :: (table, pk)
  }
}
