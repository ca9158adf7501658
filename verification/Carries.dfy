/** How the engine's operations carry its state forward: what each one announces
    and the bookkeeping of its loops. */
module Carries {
  import opened Order
  import opened Json
  import opened Keys
  import opened Config
  import opened Index
  import opened JoinModel
  import opened Incremental
  import opened Events
  import opened Lookups
  import opened Backfill
  import opened RowState
  import opened Compose

  const RE_EMIT_PRIMARY_CHUNK_SIZE: nat := 256

  // ---- a truncated primary table -----------------------------------------

  /** The number of definitions on a table. */
  function DefsOn(joins: seq<JoinDef>, table: string): nat {
    if joins == [] then 0
    else DefsOn(joins[..|joins| - 1], table) + if joins[|joins| - 1].table == table then 1 else 0
  }

  function Tombstones(table: string, pks: seq<PkValue>): (sent: seq<Emission>)
    ensures |sent| == |pks|
  {
    seq(|pks|, i requires 0 <= i < |pks| => Tombstone((table, pks[i])))
  }

  function Repeated<T>(s: seq<T>, n: nat): seq<T> {
    if n == 0 then [] else Repeated(s, n - 1) + s
  }

  /** `copies` tombstones for each of `keys` and nothing else. */
  ghost predicate Buried(sent: seq<Emission>, keys: set<RowKey>, copies: nat) {
    forall e :: multiset(sent)[e] == if e.Tombstone? && e.key in keys then copies else 0
  }

  /** With one copy of each, that is one emission for each key. */
  lemma {:induction false} BuriedOnce(sent: seq<Emission>, keys: set<RowKey>)
    requires Buried(sent, keys, 1)
    ensures Sends(sent, keys) && forall i :: 0 <= i < |sent| ==> sent[i].Tombstone?
  {
    forall i | 0 <= i < |sent| ensures sent[i].Tombstone? && sent[i].key in keys {
      assert sent[i] in multiset(sent);
    }
    forall i, j | 0 <= i < j < |sent| ensures sent[i].key != sent[j].key {
      CountedTwice(sent, i, j);
    }
    forall p | p in keys ensures exists i :: 0 <= i < |sent| && sent[i].key == p {
      assert Tombstone(p) in multiset(sent);
      var i :| 0 <= i < |sent| && sent[i] == Tombstone(p);
    }
  }

  lemma {:induction false} CountedTwice(sent: seq<Emission>, i: nat, j: nat)
    requires i < j < |sent|
    ensures sent[i] == sent[j] ==> multiset(sent)[sent[i]] > 1
  {
    assert sent == sent[..j] + sent[j..];
    assert sent[i] in sent[..j] && sent[j] in sent[j..];
  }

  lemma {:induction false} TombstonesCount(table: string, pks: seq<PkValue>, e: Emission)
    requires Distinct(pks)
    ensures multiset(Tombstones(table, pks))[e] == if e.Tombstone? && e.key in Keyed(table, pks) then 1 else 0
  {
    if pks != [] {
      var n := |pks| - 1;
      TombstonesCount(table, pks[..n], e);
      assert Tombstones(table, pks) == Tombstones(table, pks[..n]) + [Tombstone((table, pks[n]))];
      assert pks[n] !in pks[..n];
      assert pks == pks[..n] + [pks[n]];
    }
  }

  lemma {:induction false} RepeatedCount<T>(s: seq<T>, n: nat, x: T)
    requires multiset(s)[x] <= 1
    ensures multiset(Repeated(s, n))[x] == if multiset(s)[x] == 1 then n else 0
  {
    if n > 0 {
      RepeatedCount(s, n - 1, x);
      assert multiset(Repeated(s, n)) == multiset(Repeated(s, n - 1)) + multiset(s);
    }
  }

  lemma {:induction false} NoneDropped(st: State)
    requires NoEmpties(st.reverse)
    ensures DropPrimaries(st, {}) == st
  {
    WithoutBuckets(st.reverse, {});
    Extensional(st.reverse, Without(st.reverse, {}));
    assert st.primary - {} == st.primary;
  }

  lemma {:induction false} DropTwice(st: State, a: set<RowKey>, b: set<RowKey>)
    ensures DropPrimaries(DropPrimaries(st, a), b) == DropPrimaries(st, a + b)
  {
    hide Without, Bucket;
    assert (st.primary - a) - b == st.primary - (a + b);
    var once := Without(st.reverse, a);
    WithoutBuckets(st.reverse, a);
    WithoutBuckets(once, b);
    WithoutBuckets(st.reverse, a + b);
    Extensional(Without(once, b), Without(st.reverse, a + b));
  }

  lemma {:induction false} BuryPage(sent: seq<Emission>, gone: set<RowKey>, table: string, pks: seq<PkValue>,
                                    copies: nat)
    requires gone !! Keyed(table, pks) && Distinct(pks) && Buried(sent, gone, copies)
    ensures Buried(sent + Repeated(Tombstones(table, pks), copies), gone + Keyed(table, pks), copies)
  {
    hide Tombstones, Repeated, Keyed;
    var more := Repeated(Tombstones(table, pks), copies);
    forall e
      ensures multiset(sent + more)[e] == if e.Tombstone? && e.key in gone + Keyed(table, pks) then copies else 0
    {
      TombstonesCount(table, pks, e);
      RepeatedCount(Tombstones(table, pks), copies, e);
      assert multiset(sent + more)[e] == multiset(sent)[e] + multiset(more)[e];
    }
  }

  lemma {:induction false} FewerRows(all: set<RowKey>, gone: set<RowKey>, page: set<RowKey>, table: string,
                                     pks: seq<PkValue>)
    requires page == Keyed(table, pks) && pks != [] && gone + page <= all && gone !! page
    ensures |all - (gone + page)| < |all - gone|
  {
    assert pks[0] in pks && (table, pks[0]) in page;
    assert all - (gone + page) == (all - gone) - page;
    assert |(all - gone) - page| == |all - gone| - |page|;
  }

  /** `gone` has been tombstoned, and the page in hand has been removed. */
  ghost predicate Truncating(st: State, now: State, table: string, gone: set<RowKey>, page: seq<PkValue>,
                             sent: seq<Emission>, copies: nat)
  {
    && gone + Keyed(table, page) <= OfTable(st.primary, table) && gone !! Keyed(table, page) && Distinct(page)
    && now == DropPrimaries(st, gone + Keyed(table, page))
    && Buried(sent, gone, copies)
    && (page == [] ==> gone == OfTable(st.primary, table))
  }

  lemma {:induction false} TruncateStarts(st: State, now: State, table: string, page: seq<PkValue>, copies: nat)
    requires NoEmpties(st.reverse) && TookPage(st, now, table, RE_EMIT_PRIMARY_CHUNK_SIZE, page)
    ensures Truncating(st, now, table, {}, page, [], copies)
  {
    hide DropPrimaries;
    NoneDropped(st);
    assert {} + Keyed(table, page) == Keyed(table, page);
  }

  lemma {:induction false} TruncateStep(st: State, at: State, now: State, table: string, gone: set<RowKey>,
                                        page: seq<PkValue>, sent: seq<Emission>, copies: nat, next: seq<PkValue>)
    requires Truncating(st, at, table, gone, page, sent, copies) && page != []
    requires TookPage(at, now, table, RE_EMIT_PRIMARY_CHUNK_SIZE, next)
    ensures Truncating(st, now, table, gone + Keyed(table, page), next,
      sent + Repeated(Tombstones(table, page), copies), copies)
    ensures |OfTable(st.primary, table) - (gone + Keyed(table, page))| < |OfTable(st.primary, table) - gone|
  {
    hide DropPrimaries, Buried, Tombstones, Repeated;
    var all, gone' := OfTable(st.primary, table), gone + Keyed(table, page);
    BuryPage(sent, gone, table, page, copies);
    FewerRows(all, gone, Keyed(table, page), table, page);
    DropTwice(st, gone', Keyed(table, next));
    LeftOver(st, at, gone', table, next);
  }

  lemma {:induction false} TruncateEnds(st: State, now: State, table: string, gone: set<RowKey>, sent: seq<Emission>,
                                        copies: nat)
    requires Truncating(st, now, table, gone, [], sent, copies)
    ensures now == Apply(st, PTruncate(table))
    ensures Buried(sent, OfTable(st.primary, table), copies)
  {
    assert gone + Keyed(table, []) == gone;
  }

  /** What the next page takes was not taken before, and an empty page means none is left. */
  lemma {:induction false} LeftOver(st: State, at: State, gone: set<RowKey>, table: string, pks: seq<PkValue>)
    requires at == DropPrimaries(st, gone) && gone <= OfTable(st.primary, table)
    requires forall pk :: pk in pks ==> (table, pk) in at.primary
    ensures gone !! Keyed(table, pks) && Keyed(table, pks) <= OfTable(st.primary, table)
    ensures OfTable(at.primary, table) == {} ==> gone == OfTable(st.primary, table)
  {
    assert forall p :: p in OfTable(st.primary, table) && p !in gone ==> p in OfTable(at.primary, table);
  }

  // ---- what a related operation fans out to ------------------------------

  predicate IsRelatedOp(op: RowOp) {
    op.FUpsert? || op.FDelete? || op.FTruncate?
  }

  /** The stored primaries a related operation fans out to. */
  ghost function FanOut(st: State, op: RowOp): set<RowKey>
    requires IsRelatedOp(op)
  {
    var prior := if op.FTruncate? then None else Lookup(st.foreign, (op.r.table, op.pk));
    Listed(op.d, st, match op
      case FUpsert(_, r, _, row, merge) =>
        KeyRows(st.reverse, r.id, KeyOf(Written(prior, row, merge), r.to), MovedFrom(prior, row, merge, r.to))
      case FDelete(_, r, _, eventKey) => KeyRows(st.reverse, r.id, DeletedKey(prior, r.to, eventKey), None)
      case FTruncate(_, r) => RelationRows(st.reverse, r.id))
  }

  lemma {:induction false} RelatedStores(st: State, op: RowOp)
    requires IsRelatedOp(op)
    ensures SameRows(Apply(st, op), st)
  {
  }

  lemma {:induction false} SameFan(d: JoinDef, a: State, b: State, rows: set<RowKey>)
    requires SameRows(a, b)
    ensures Listed(d, a, rows) == Listed(d, b, rows)
  {
  }

  lemma {:induction false} RelatedStillQuiet(joins: seq<JoinDef>, d: JoinDef, r: RelatedDef, st: State, op: RowOp)
    requires IsRelatedOp(op) && op.d == d && op.r == r
    ensures Quiet(joins, d, st) && r in d.related ==> Quiet(joins, d, Apply(st, op))
  {
    if Quiet(joins, d, st) && r in d.related { StillQuiet(joins, d, st, op); }
  }

  /** The primaries an operation fans out to are those its new tables touch. */
  lemma {:induction false} FanOutIsTouched(joins: seq<JoinDef>, d: JoinDef, r: RelatedDef, st: State, op: RowOp)
    requires IsRelatedOp(op) && op.d == d && op.r == r && Sane(joins, st) && Has(joins, d, r)
    ensures FanOut(st, op) == Touched(TablesOf(st), op)
  {
    hide Sane, Listed, KeyOf, Written, MovedFrom, DeletedKey, KeyRows, RelationRows, Referencing;
    match op {
      case FUpsert(_, _, pk, row, merge) =>
        var prior := Lookup(st.foreign, (r.table, pk));
        KeyRowsAreReferencing(joins, d, r, st, KeyOf(Written(prior, row, merge), r.to),
          MovedFrom(prior, row, merge, r.to));
      case FDelete(_, _, pk, eventKey) =>
        var key := DeletedKey(Lookup(st.foreign, (r.table, pk)), r.to, eventKey);
        KeyRowsAreReferencing(joins, d, r, st, key, None);
        assert {key} + OptionSet(None) == {key};
      case FTruncate(_, _) => RelationRowsAreAll(joins, d, r, st);
    }
  }

  lemma {:induction false} RelatedCarried(joins: seq<JoinDef>, d: JoinDef, r: RelatedDef, st: State, op: RowOp,
                                          now: State, sent: seq<Emission>)
    requires IsRelatedOp(op) && op.d == d && op.r == r
    requires Sends(sent, FanOut(st, op))
    requires Quiet(joins, d, st) && r in d.related ==> now == Apply(st, op) && SentShow(d, now, sent)
    ensures Quiet(joins, d, st) && r in d.related ==> Carried(joins, op, st, now, sent)
  {
    hide Quiet, Sends, SentShow, Apply, FanOut;
    if Quiet(joins, d, st) && r in d.related {
      QuietDef(joins, d, st);
      FanOutIsTouched(joins, d, r, st, op);
      FanOutOfTable(st, op);
      AnnouncesSent(joins, d, now, FanOut(st, op), sent);
    }
  }

  lemma {:induction false} FanOutOfTable(st: State, op: RowOp)
    requires IsRelatedOp(op)
    ensures forall p :: p in FanOut(st, op) ==> p.0 == op.d.table
  {
  }

  /** All but the relations in `ids` have been cleared. */
  ghost predicate Cleared(before: Index<RowKey>, now: Index<RowKey>, fks: map<string, PkValue>, ids: set<string>,
                          p: RowKey)
  {
    NoEmpties(now) && (forall id, key ::
      Bucket(now, id, key) == Bucket(before, id, key) - (if id in fks && id !in ids && fks[id] == key then {p} else {}))
  }

  lemma {:induction false} ClearStarts(ix: Index<RowKey>, fks: map<string, PkValue>, p: RowKey)
    requires NoEmpties(ix)
    ensures Cleared(ix, ix, fks, fks.Keys, p)
  {
  }

  lemma {:induction false} ClearStep(before: Index<RowKey>, now: Index<RowKey>, fks: map<string, PkValue>,
                                     ids: set<string>, p: RowKey, id: string)
    requires Cleared(before, now, fks, ids, p) && id in ids && id in fks
    ensures Cleared(before, Remove(now, id, fks[id], p), fks, ids - {id}, p)
  {
    hide Remove, Bucket;
    RemoveBuckets(now, id, fks[id], p);
  }

  lemma {:induction false} ClearEnds(before: Index<RowKey>, now: Index<RowKey>, fks: map<string, PkValue>, p: RowKey)
    requires Cleared(before, now, fks, {}, p) && NoEmpties(before)
    ensures now == Unlink(before, fks, p)
  {
    hide Unlink, Bucket;
    UnlinkBuckets(before, fks, p);
    Extensional(now, Unlink(before, fks, p));
  }

  /** The operation took the state from `st` to `now` and announced it. */
  ghost predicate Carried(joins: seq<JoinDef>, op: RowOp, st: State, now: State, sent: seq<Emission>) {
    now == Apply(st, op) && Announces(joins, now, Touched(TablesOf(st), op), sent)
  }

  /** The two states hold the same primaries under the same links. */
  ghost predicate SameRows(a: State, b: State) {
    a.primary == b.primary && a.reverse == b.reverse
  }

  lemma {:induction false} SendsOne(e: Emission)
    ensures Sends([e], {e.key})
  {
    assert [e][0].key == e.key;
  }

  lemma {:induction false} NothingCarried(joins: seq<JoinDef>, st: State)
    ensures Carried(joins, NoOp, st, st, []) && Sends([], {})
  {
  }

  lemma {:induction false} DeleteCarried(joins: seq<JoinDef>, d: JoinDef, pk: PkValue, st: State, now: State)
    requires now == DropPrimary(st, (d.table, pk))
    ensures now == Apply(st, PDelete(d, pk))
    ensures Quiet(joins, d, st) ==> Carried(joins, PDelete(d, pk), st, now, [Tombstone((d.table, pk))])
  {
    if Quiet(joins, d, st) {
      OneSent(d, now, Tombstone((d.table, pk)));
      AnnouncesSent(joins, d, now, {(d.table, pk)}, [Tombstone((d.table, pk))]);
    }
  }

  lemma {:induction false} UpsertNeverFails(joins: seq<JoinDef>, d: JoinDef, pk: PkValue, row: Json, merge: bool,
                                            st: State, stored: Json)
    requires row.Obj? && var p := (d.table, pk);
      stored == Apply(st, PUpsert(d, pk, row, merge)).primary[p].raw
    ensures stored.Obj?
    ensures Quiet(joins, d, st) ==> d.backfill.NoBackfill?
  {
    if Quiet(joins, d, st) {
      StillQuiet(joins, d, st, PUpsert(d, pk, row, merge));
      StoredKeyedBy(joins, d, Apply(st, PUpsert(d, pk, row, merge)), (d.table, pk));
    }
  }

  lemma {:induction false} UpsertCarried(fetch: Fetcher, joins: seq<JoinDef>, d: JoinDef, pk: PkValue, row: Json,
                                         merge: bool, st: State, found: seq<Option<seq<Json>>>, doc: Json, now: State)
    requires row.Obj? && var next := Apply(st, PUpsert(d, pk, row, merge));
      ComposedSoFar(fetch, d, next, next.primary[(d.table, pk)].raw, next.primary[(d.table, pk)].fks, |d.related|,
        found, doc, now)
    ensures Quiet(joins, d, st) ==> Carried(joins, PUpsert(d, pk, row, merge), st, now, [Upsert((d.table, pk), doc)])
  {
    hide ComposedSoFar, Quiet, Announces;
    if Quiet(joins, d, st) {
      var op, p := PUpsert(d, pk, row, merge), (d.table, pk);
      var next := Apply(st, op);
      QuietDef(joins, d, st);
      StillQuiet(joins, d, st, op);
      StoredDocShows(fetch, joins, d, next, p, next.primary[p].fks, found, doc, now);
      OneSent(d, next, Upsert(p, doc));
      AnnouncesSent(joins, d, next, {p}, [Upsert(p, doc)]);
    }
  }

  lemma {:induction false} QuietDef(joins: seq<JoinDef>, d: JoinDef, st: State)
    requires Quiet(joins, d, st)
    ensures Sane(joins, st) && OneRolePerKind(joins) && d in joins
  {
  }

  // ---- a whole event -----------------------------------------------------

  function ApplyOps(st: State, ops: seq<RowOp>): State {
    if ops == [] then st else Apply(ApplyOps(st, ops[..|ops| - 1]), ops[|ops| - 1])
  }

  function Flat(outs: seq<seq<Emission>>): seq<Emission> {
    if outs == [] then [] else Flat(outs[..|outs| - 1]) + outs[|outs| - 1]
  }

  /** Each operation in turn took the state on and announced it. */
  ghost predicate CarriedAll(joins: seq<JoinDef>, st: State, ops: seq<RowOp>, outs: seq<seq<Emission>>) {
    |outs| == |ops| && forall i :: 0 <= i < |ops| ==>
      Carried(joins, ops[i], ApplyOps(st, ops[..i]), ApplyOps(st, ops[..i + 1]), outs[i])
  }

  /** The configuration in which every document is exactly the cached join. */
  ghost predicate AllQuiet(joins: seq<JoinDef>, st: State) {
    OneRolePerKind(joins) && Wired(joins, st) && forall d :: d in joins ==> d.backfill.NoBackfill?
  }

  // ---- in any backfill mode ----------------------------------------------

  /** Each operation in turn was applied and the cache then filled, from the source as
      it stood at that operation. */
  ghost predicate Passes(joins: seq<JoinDef>, fetches: seq<Fetcher>, st: State, ops: seq<RowOp>, now: State)
    decreases |ops|, 0
  {
    && |fetches| == |ops|
    && if |ops| == 0 then now == st
       else PassesThen(joins, fetches[..|ops| - 1], fetches[|ops| - 1], st, ops[..|ops| - 1], ops[|ops| - 1], now)
  }

  ghost predicate PassesThen(joins: seq<JoinDef>, fetches: seq<Fetcher>, fetch: Fetcher, st: State, ops: seq<RowOp>,
                             op: RowOp, now: State)
    decreases |ops|, 1
  {
    exists mid :: Follows(joins, fetch, mid, op, now) && Passes(joins, fetches, st, ops, mid)
  }

  /** The operation was applied and the cache then filled. */
  ghost predicate Follows(joins: seq<JoinDef>, fetch: Fetcher, st: State, op: RowOp, now: State) {
    Filled(joins, fetch, Apply(st, op), now)
  }

  /** One source throughout. */
  function Each(fetch: Fetcher, n: nat): (fetches: seq<Fetcher>)
    ensures |fetches| == n
  {
    seq(n, _ => fetch)
  }

  lemma {:induction false} EachMore(fetch: Fetcher, n: nat)
    ensures Each(fetch, n) + [fetch] == Each(fetch, n + 1) && Each(fetch, n + 1)[..n] == Each(fetch, n)
  {
  }

  lemma {:induction false} PassesStep(joins: seq<JoinDef>, fetches: seq<Fetcher>, fetch: Fetcher, st: State,
                                      ops: seq<RowOp>, at: State, op: RowOp, now: State)
    requires Passes(joins, fetches, st, ops, at) && Filled(joins, fetch, Apply(at, op), now)
    ensures Passes(joins, fetches + [fetch], st, ops + [op], now)
  {
    hide Filled, Apply;
    assert (ops + [op])[..|ops|] == ops && (fetches + [fetch])[..|ops|] == fetches;
    assert Follows(joins, fetch, at, op, now);
    assert PassesThen(joins, fetches, fetch, st, ops, op, now);
  }

  lemma {:induction false} PassedBefore(joins: seq<JoinDef>, fetches: seq<Fetcher>, st: State, ops: seq<RowOp>,
                                        now: State) returns (mid: State)
    requires Passes(joins, fetches, st, ops, now) && ops != []
    ensures var n := |ops| - 1;
      |fetches| == |ops| && Passes(joins, fetches[..n], st, ops[..n], mid)
        && Filled(joins, fetches[n], Apply(mid, ops[n]), now)
  {
    hide Filled, Apply;
    var n := |ops| - 1;
    mid :| Follows(joins, fetches[n], mid, ops[n], now) && Passes(joins, fetches[..n], st, ops[..n], mid);
  }

  lemma {:induction false} PassesSize(joins: seq<JoinDef>, fetches: seq<Fetcher>, st: State, ops: seq<RowOp>,
                                      now: State)
    requires Passes(joins, fetches, st, ops, now)
    ensures |fetches| == |ops| && (ops == [] ==> now == st)
  {
  }

  lemma {:induction false} PassesConcat(joins: seq<JoinDef>, fetchA: seq<Fetcher>, st: State, a: seq<RowOp>, at: State,
                                        fetchB: seq<Fetcher>, b: seq<RowOp>, now: State)
    requires Passes(joins, fetchA, st, a, at) && Passes(joins, fetchB, at, b, now)
    ensures Passes(joins, fetchA + fetchB, st, a + b, now)
  {
    hide Filled, Apply, Passes;
    PassesSize(joins, fetchB, at, b, now);
    if b == [] {
      assert a + b == a && fetchA + fetchB == fetchA;
    } else {
      var n := |b| - 1;
      var mid := PassedBefore(joins, fetchB, at, b, now);
      PassesConcat(joins, fetchA, st, a, at, fetchB[..n], b[..n], mid);
      PassesStep(joins, fetchA + fetchB[..n], fetchB[n], st, a + b[..n], mid, b[n], now);
      assert a + b[..n] + [b[n]] == a + b && fetchA + fetchB[..n] + [fetchB[n]] == fetchA + fetchB;
    }
  }

  /** Operations of the joins, and the lookups after each, keep both indexes sound. */
  lemma {:induction false} PassesSane(joins: seq<JoinDef>, fetches: seq<Fetcher>, st: State, ops: seq<RowOp>,
                                      now: State)
    requires Passes(joins, fetches, st, ops, now) && Sane(joins, st) && forall op :: op in ops ==> OpIn(joins, op)
    ensures Sane(joins, now)
  {
    hide Filled, Apply, Wired, OneRolePerKind, OpIn, PassesThen;
    if ops != [] {
      var n := |ops| - 1;
      var mid := PassedBefore(joins, fetches, st, ops, now);
      PassesSane(joins, fetches[..n], st, ops[..n], mid);
      ApplyWired(joins, mid, ops[n]);
      FilledSane(joins, fetches[n], Apply(mid, ops[n]), now);
    }
  }

  ghost predicate HonestSources(joins: seq<JoinDef>, fetches: seq<Fetcher>) {
    forall i :: 0 <= i < |fetches| ==> HonestSource(joins, fetches[i])
  }

  /** And from honest sources, every cached row stays found under its own key. */
  lemma {:induction false} PassesTended(joins: seq<JoinDef>, fetches: seq<Fetcher>, st: State, ops: seq<RowOp>,
                                        now: State)
    requires Passes(joins, fetches, st, ops, now) && OneRolePerKind(joins) && HonestSources(joins, fetches)
    requires Tended(joins, st)
    requires forall op :: op in ops ==> OpIn(joins, op) && ObjectRow(op)
    ensures Tended(joins, now)
  {
    hide Filled, Apply, HonestSource, Tended, OneRolePerKind, OpIn, ObjectRow, PassesThen;
    if ops != [] {
      var n := |ops| - 1;
      var mid := PassedBefore(joins, fetches, st, ops, now);
      PassesTended(joins, fetches[..n], st, ops[..n], mid);
      ApplyTended(joins, mid, ops[n]);
      FilledTended(joins, fetches[n], Apply(mid, ops[n]), now);
    }
  }

  function ReplayOps(t: Tables, ops: seq<RowOp>): Tables {
    if ops == [] then t else Replay(ReplayOps(t, ops[..|ops| - 1]), ops[|ops| - 1])
  }

  lemma {:induction false} ReplayPrims(a: Tables, b: Tables, op: RowOp)
    requires a.prim == b.prim
    ensures Replay(a, op).prim == Replay(b, op).prim
  {
  }

  /** Whatever the cache was filled with, the stored primary rows are the replayed ones. */
  lemma {:induction false} PassesPrims(joins: seq<JoinDef>, fetches: seq<Fetcher>, st: State, ops: seq<RowOp>,
                                       now: State)
    requires Passes(joins, fetches, st, ops, now)
    ensures Raws(now.primary) == ReplayOps(TablesOf(st), ops).prim
  {
    hide Apply, Replay, PassesThen;
    if ops != [] {
      var n := |ops| - 1;
      var mid := PassedBefore(joins, fetches, st, ops, now);
      PassesPrims(joins, fetches[..n], st, ops[..n], mid);
      ApplyReplays(mid, ops[n]);
      FilledPrimaries(joins, fetches[n], Apply(mid, ops[n]), now);
      ReplayPrims(TablesOf(mid), ReplayOps(TablesOf(st), ops[..n]), ops[n]);
    }
  }

  /** A sink that has a document for exactly the stored primaries still does. */
  ghost predicate KeysCarried(st: State, sent: seq<Emission>, now: State) {
    forall sink: Sink :: sink.Keys == st.primary.Keys ==> DeliverAll(sink, sent).Keys == now.primary.Keys
  }

  lemma {:induction false} KeysBoth(st: State, a: seq<Emission>, at: State, b: seq<Emission>, now: State)
    requires KeysCarried(st, a, at) && KeysCarried(at, b, now)
    ensures KeysCarried(st, a + b, now)
  {
    forall sink: Sink | sink.Keys == st.primary.Keys ensures DeliverAll(sink, a + b).Keys == now.primary.Keys {
      DeliverConcat(sink, a, b);
      assert DeliverAll(sink, a).Keys == at.primary.Keys;
    }
  }

  function KeySet(sent: seq<Emission>): set<RowKey> {
    set e | e in sent :: e.key
  }

  lemma {:induction false} DeliverUpserts(sink: Sink, sent: seq<Emission>)
    requires forall e :: e in sent ==> e.Upsert?
    ensures DeliverAll(sink, sent).Keys == sink.Keys + KeySet(sent)
  {
    if sent != [] {
      var n := |sent| - 1;
      DeliverUpserts(sink, sent[..n]);
      assert sent[n] in sent;
      assert KeySet(sent) == KeySet(sent[..n]) + {sent[n].key} by { assert sent == sent[..n] + [sent[n]]; }
    }
  }

  lemma {:induction false} DeliverTombstones(sink: Sink, sent: seq<Emission>)
    requires forall e :: e in sent ==> e.Tombstone?
    ensures DeliverAll(sink, sent).Keys == sink.Keys - KeySet(sent)
  {
    if sent != [] {
      var n := |sent| - 1;
      DeliverTombstones(sink, sent[..n]);
      assert sent[n] in sent;
      assert KeySet(sent) == KeySet(sent[..n]) + {sent[n].key} by { assert sent == sent[..n] + [sent[n]]; }
    }
  }

  lemma {:induction false} AnsweredKeys(joins: seq<JoinDef>, fetch: Fetcher, d: JoinDef, st: State, sent: seq<Emission>,
                                        now: State)
    requires AllAnswered(joins, fetch, d, st, sent) && now.primary == st.primary
    ensures KeysCarried(st, sent, now)
  {
    forall e | e in sent ensures e.Upsert? && e.key in st.primary {}
    forall sink: Sink | sink.Keys == st.primary.Keys ensures DeliverAll(sink, sent).Keys == now.primary.Keys {
      DeliverUpserts(sink, sent);
    }
  }

  lemma {:induction false} BuriedKeys(st: State, table: string, sent: seq<Emission>, copies: nat)
    requires Buried(sent, OfTable(st.primary, table), copies) && copies > 0
    ensures KeysCarried(st, sent, Apply(st, PTruncate(table)))
  {
    var gone := OfTable(st.primary, table);
    forall e | e in sent ensures e.Tombstone? && e.key in gone { assert e in multiset(sent); }
    forall p | p in gone ensures p in KeySet(sent) { assert Tombstone(p) in multiset(sent); }
    assert KeySet(sent) == gone;
    forall sink: Sink | sink.Keys == st.primary.Keys
      ensures DeliverAll(sink, sent).Keys == Apply(st, PTruncate(table)).primary.Keys
    {
      DeliverTombstones(sink, sent);
    }
  }

  lemma {:induction false} OneKeyCarried(st: State, e: Emission, now: State)
    requires now.primary.Keys == if e.Upsert? then st.primary.Keys + {e.key} else st.primary.Keys - {e.key}
    ensures KeysCarried(st, [e], now)
  {
    forall sink: Sink | sink.Keys == st.primary.Keys ensures DeliverAll(sink, [e]).Keys == now.primary.Keys {
      assert [e][..0] == [];
    }
  }

  lemma {:induction false} NoKeysCarried(st: State)
    ensures KeysCarried(st, [], st)
  {
  }

  // ---- one role in any backfill mode -------------------------------------

  /** The source could not be reached for a relation of the definition. */
  ghost predicate SourceDown(fetch: Fetcher, d: JoinDef, error: JoinError) {
    error == FetcherFailed && !Reachable(fetch, d)
  }

  ghost predicate SomeSourceDown(joins: seq<JoinDef>, fetch: Fetcher, error: JoinError) {
    error == FetcherFailed && exists d :: d in joins && !Reachable(fetch, d)
  }

  /** The source answers every lookup any definition may need. */
  ghost predicate AllReachable(joins: seq<JoinDef>, fetch: Fetcher) {
    forall d :: d in joins ==> Reachable(fetch, d)
  }

  /** So does every source of a run. */
  ghost predicate SourcesAnswer(joins: seq<JoinDef>, sources: seq<Fetcher>) {
    forall i :: 0 <= i < |sources| ==> AllReachable(joins, sources[i])
  }

  ghost predicate StoredObjects(st: State) {
    forall p :: p in st.primary ==> st.primary[p].raw.Obj?
  }

  /** A decoded operation on a primary: the state is the operation's, its cache
      perhaps filled further; only the source can have failed; and what was sent is
      the tombstone, or the document with what its lookups found. */
  ghost predicate PrimaryServed(joins: seq<JoinDef>, fetch: Fetcher, d: JoinDef, op: RowOp, st: State, res: Result<()>,
                                sent: seq<Emission>, now: State)
  {
    && Filled(joins, fetch, Apply(st, op), now)
    && (res.Err? ==> SourceDown(fetch, d, res.error))
    && (res.Ok? ==> KeysCarried(st, sent, now) && Sends(sent, Touched(TablesOf(st), op)))
    && (res.Ok? && op.PUpsert? ==> AllAnswered(joins, fetch, d, Apply(st, op), sent))
  }

  /** A decoded operation on a related table: likewise, and each document it fans out
      to is sent once, with what its lookups found. */
  ghost predicate RelatedServed(joins: seq<JoinDef>, fetch: Fetcher, op: RowOp, st: State, res: Result<()>,
                                sent: seq<Emission>, now: State)
    requires IsRelatedOp(op)
  {
    && Filled(joins, fetch, Apply(st, op), now)
    && (res.Err? && StoredObjects(st) ==> SourceDown(fetch, op.d, res.error))
    && (res.Ok? ==> KeysCarried(st, sent, now) && AllAnswered(joins, fetch, op.d, Apply(st, op), sent))
    && (res.Ok? && Sane(joins, st) ==> Sends(sent, Touched(TablesOf(st), op)))
    && (op.FDelete? && Tended(joins, st) && (op.r.table, op.pk) in st.foreign ==> ChildGone(joins, fetch, op, st, now))
    && (op.FDelete? && Tended(joins, st) && (op.r.table, op.pk) in st.foreign && Sane(joins, st) && res.Ok? ==>
          Sends(sent, Referencing(TablesOf(st), op.d, op.r, {KeyOf(st.foreign[(op.r.table, op.pk)], op.r.to)})))
  }

  /** The deleted child is neither cached nor indexed under its own key, unless the
      source has supplied it again. */
  ghost predicate ChildGone(joins: seq<JoinDef>, fetch: Fetcher, op: RowOp, st: State, now: State)
    requires op.FDelete? && (op.r.table, op.pk) in st.foreign
  {
    var k := (op.r.table, op.pk);
    && (k in now.foreign ==> RowSupplied(joins, fetch, now, k, now.foreign[k]))
    && (forall key :: op.pk in Bucket(now.byFk, op.r.id, key) ==>
          (key != KeyOf(st.foreign[k], op.r.to) && op.pk in Bucket(st.byFk, op.r.id, key))
            || EntrySupplied(joins, fetch, now, op.r.id, key, op.pk))
  }

  lemma {:induction false} DeletedChildGone(joins: seq<JoinDef>, fetch: Fetcher, op: RowOp, st: State, now: State)
    requires op.FDelete? && Has(joins, op.d, op.r) && (op.r.table, op.pk) in st.foreign && Tended(joins, st)
    requires Filled(joins, fetch, Apply(st, op), now)
    ensures ChildGone(joins, fetch, op, st, now)
    ensures Touched(TablesOf(st), op) == Referencing(TablesOf(st), op.d, op.r,
      {KeyOf(st.foreign[(op.r.table, op.pk)], op.r.to)})
  {
    hide KeyOf, Apply, Bucket, RowSupplied, EntrySupplied, Referencing, NoEmpties, Tended;
    DeleteOfTended(joins, st, op.d, op.r, op.pk, op.eventKey);
  }

  lemma {:induction false} RelatedServes(joins: seq<JoinDef>, fetch: Fetcher, op: RowOp, st: State, res: Result<()>,
                                         sent: seq<Emission>, now: State)
    requires IsRelatedOp(op) && Has(joins, op.d, op.r)
    requires Filled(joins, fetch, Apply(st, op), now)
    requires res.Err? && StoredObjects(Apply(st, op)) ==> SourceDown(fetch, op.d, res.error)
    requires res.Ok? ==> Sends(sent, FanOut(st, op)) && AllAnswered(joins, fetch, op.d, Apply(st, op), sent)
    ensures RelatedServed(joins, fetch, op, st, res, sent, now)
  {
    hide Filled, Sends, AllAnswered, Sane, Tended, FanOut, Touched, Referencing, KeyOf, Apply, ChildGone, KeysCarried;
    RelatedStores(st, op);
    if res.Ok? {
      FilledPrimaries(joins, fetch, Apply(st, op), now);
      AnsweredKeys(joins, fetch, op.d, Apply(st, op), sent, now);
      SameKeys(st, Apply(st, op), sent, now);
      if Sane(joins, st) { FanOutIsTouched(joins, op.d, op.r, st, op); }
    }
    if op.FDelete? && Tended(joins, st) && (op.r.table, op.pk) in st.foreign {
      DeletedChildGone(joins, fetch, op, st, now);
    }
  }

  lemma {:induction false} SameKeys(a: State, b: State, sent: seq<Emission>, now: State)
    requires a.primary == b.primary && KeysCarried(b, sent, now)
    ensures KeysCarried(a, sent, now)
  {
  }

  lemma {:induction false} FailedServed(joins: seq<JoinDef>, fetch: Fetcher, d: JoinDef, op: RowOp, st: State,
                                        error: JoinError, sent: seq<Emission>, now: State)
    ensures Filled(joins, fetch, Apply(st, op), now) && SourceDown(fetch, d, error) ==>
      PrimaryServed(joins, fetch, d, op, st, Err(error), sent, now)
  {
  }

  lemma {:induction false} NothingServed(joins: seq<JoinDef>, fetch: Fetcher, d: JoinDef, st: State)
    ensures PrimaryServed(joins, fetch, d, NoOp, st, Ok(()), [], st)
  {
    NoKeysCarried(st);
    FilledNothing(joins, fetch, st);
  }

  lemma {:induction false} DeleteServed(joins: seq<JoinDef>, fetch: Fetcher, d: JoinDef, pk: PkValue, st: State,
                                        now: State)
    requires now == Apply(st, PDelete(d, pk))
    ensures PrimaryServed(joins, fetch, d, PDelete(d, pk), st, Ok(()), [Tombstone((d.table, pk))], now)
  {
    hide Filled, Unlink, KeysCarried, Sends;
    FilledNothing(joins, fetch, now);
    SendsOne(Tombstone((d.table, pk)));
    OneKeyCarried(st, Tombstone((d.table, pk)), now);
  }

  lemma {:induction false} UpsertServed(joins: seq<JoinDef>, fetch: Fetcher, d: JoinDef, pk: PkValue, row: Json,
                                        merge: bool, st: State, found: seq<Option<seq<Json>>>, doc: Json, now: State)
    requires d in joins
    requires var next := Apply(st, PUpsert(d, pk, row, merge));
      ComposedSoFar(fetch, d, next, next.primary[(d.table, pk)].raw, next.primary[(d.table, pk)].fks, |d.related|,
        found, doc, now)
    ensures PrimaryServed(joins, fetch, d, PUpsert(d, pk, row, merge), st, Ok(()), [Upsert((d.table, pk), doc)], now)
  {
    hide Filled, Unlink, Link, FksFrom, Written, KeysCarried, Sends, ComposedSoFar, AnsweredDoc;
    var next, e := Apply(st, PUpsert(d, pk, row, merge)), Upsert((d.table, pk), doc);
    ComposedIsAnswered(joins, fetch, d, next, e.key, found, doc, now);
    FilledPrimaries(joins, fetch, next, now);
    SendsOne(e);
    OneKeyCarried(st, e, now);
  }

  // ---- tracking what has been done ---------------------------------------

  /** What has been done since `st`, and sent since `start`, is `ops` and `outs`, each
      operation with the source as it then stood. */
  ghost predicate TracksWith(joins: seq<JoinDef>, fetches: seq<Fetcher>, st: State, start: seq<Emission>,
                             ops: seq<RowOp>, outs: seq<seq<Emission>>, now: State, out: seq<Emission>)
  {
    && |outs| == |ops| && out == start + Flat(outs)
    && Passes(joins, fetches, st, ops, now) && KeysCarried(st, Flat(outs), now)
    && (AllQuiet(joins, st) ==> CarriedAll(joins, st, ops, outs) && now == ApplyOps(st, ops) && AllQuiet(joins, now))
  }

  /** The same with one source throughout, as while one event is handled. */
  ghost predicate Tracks(joins: seq<JoinDef>, fetch: Fetcher, st: State, start: seq<Emission>, ops: seq<RowOp>,
                         outs: seq<seq<Emission>>, now: State, out: seq<Emission>)
  {
    TracksWith(joins, Each(fetch, |ops|), st, start, ops, outs, now, out)
  }

  lemma {:induction false} TrackStarts(joins: seq<JoinDef>, fetch: Fetcher, st: State, start: seq<Emission>)
    ensures Tracks(joins, fetch, st, start, [], [], st, start) && TracksWith(joins, [], st, start, [], [], st, start)
  {
    hide Filled, AllQuiet;
    NoKeysCarried(st);
    assert Each(fetch, 0) == [];
  }

  lemma {:induction false} TrackStep(joins: seq<JoinDef>, fetch: Fetcher, st: State, start: seq<Emission>,
                                     ops: seq<RowOp>, outs: seq<seq<Emission>>, at: State, was: seq<Emission>,
                                     op: RowOp, now: State, out: seq<Emission>)
    requires Tracks(joins, fetch, st, start, ops, outs, at, was) && OpIn(joins, op)
    requires |out| >= |was| && out[..|was|] == was
    requires Filled(joins, fetch, Apply(at, op), now) && KeysCarried(at, out[|was|..], now)
    requires AllQuiet(joins, at) ==> Carried(joins, op, at, now, out[|was|..])
    ensures Tracks(joins, fetch, st, start, ops + [op], outs + [out[|was|..]], now, out)
  {
    hide Carried, Apply, Wired, OneRolePerKind, OpIn, Filled, KeysCarried;
    var sent := out[|was|..];
    EachMore(fetch, |ops|);
    assert (outs + [sent])[..|outs|] == outs && (ops + [op])[..|ops|] == ops;
    assert out == was + sent;
    PassesStep(joins, Each(fetch, |ops|), fetch, st, ops, at, op, now);
    KeysBoth(st, Flat(outs), at, sent, now);
    if AllQuiet(joins, st) {
      CarriedApplies(joins, op, at, now, sent);
      ApplyWired(joins, at, op);
      CarryOn(joins, st, ops, outs, op, sent);
    }
  }

  lemma {:induction false} CarriedApplies(joins: seq<JoinDef>, op: RowOp, st: State, now: State, sent: seq<Emission>)
    requires Carried(joins, op, st, now, sent)
    ensures now == Apply(st, op)
  {
  }

  lemma {:induction false} CarryOn(joins: seq<JoinDef>, st: State, ops: seq<RowOp>, outs: seq<seq<Emission>>, op: RowOp,
                                   sent: seq<Emission>)
    requires CarriedAll(joins, st, ops, outs)
    requires Carried(joins, op, ApplyOps(st, ops), Apply(ApplyOps(st, ops), op), sent)
    ensures CarriedAll(joins, st, ops + [op], outs + [sent])
  {
    hide Carried, Apply;
    var ops', outs' := ops + [op], outs + [sent];
    assert ops'[..|ops|] == ops && ops'[..|ops| + 1] == ops';
    forall i | 0 <= i < |ops'|
      ensures Carried(joins, ops'[i], ApplyOps(st, ops'[..i]), ApplyOps(st, ops'[..i + 1]), outs'[i])
    {
      if i < |ops| { assert ops'[..i] == ops[..i] && ops'[..i + 1] == ops[..i + 1]; }
    }
  }

  // ---- the roles of an event ---------------------------------------------

  ghost predicate AllDecode(roles: seq<Role>, kind: ChangeKind, e: Event) {
    forall i :: 0 <= i < |roles| ==> Decode(roles[i], kind, e).Ok?
  }

  ghost function OpsOf(roles: seq<Role>, kind: ChangeKind, e: Event): (ops: seq<RowOp>)
    requires AllDecode(roles, kind, e)
    ensures |ops| == |roles|
  {
    seq(|roles|, i requires 0 <= i < |roles| => Decode(roles[i], kind, e).value)
  }

  lemma {:induction false} PlanOfRoles(roles: seq<Role>, kind: ChangeKind, e: Event, n: nat)
    requires n <= |roles| && AllDecode(roles[..n], kind, e)
    ensures n == |roles| ==> PlanRoles(roles, kind, e) == Plan(OpsOf(roles[..n], kind, e), Handled)
    ensures n < |roles| && Decode(roles[n], kind, e).Err? ==>
      PlanRoles(roles, kind, e) == Plan(OpsOf(roles[..n], kind, e), Failed(Decode(roles[n], kind, e).error))
  {
    hide Decode;
    if n > 0 {
      assert roles[..n][0] == roles[0];
      assert roles[..n][1..] == roles[1..][..n - 1];
      PlanOfRoles(roles[1..], kind, e, n - 1);
      assert OpsOf(roles[..n], kind, e) == [Decode(roles[0], kind, e).value] + OpsOf(roles[1..][..n - 1], kind, e);
    }
  }

  lemma {:induction false} RelatedRolesGrow(d: JoinDef, related: seq<RelatedDef>, table: string, j: nat)
    requires j <= |related|
    ensures RelatedRoles(d, related[..j], table) <= RelatedRoles(d, related, table)
  {
    if j < |related| {
      var n := |related| - 1;
      RelatedRolesGrow(d, related[..n], table, j);
      assert related[..n][..j] == related[..j];
    } else {
      assert related[..j] == related;
    }
  }

  /** The roles handled once the first `j` related entries of definition `i` are done. */
  function RolesUpTo(joins: seq<JoinDef>, table: string, i: nat, j: nat): seq<Role>
    requires i < |joins| && j <= |joins[i].related|
  {
    var d := joins[i];
    Roles(joins[..i], table) + (if d.table == table then [AsPrimary(d)] else [])
      + RelatedRoles(d, d.related[..j], table)
  }

  lemma {:induction false} RolesGrow(joins: seq<JoinDef>, table: string, i: nat)
    requires i <= |joins|
    ensures Roles(joins[..i], table) <= Roles(joins, table)
  {
    if i < |joins| {
      var n := |joins| - 1;
      RolesGrow(joins[..n], table, i);
      assert joins[..n][..i] == joins[..i];
    } else {
      assert joins[..i] == joins;
    }
  }

  lemma {:induction false} RolesSnoc(joins: seq<JoinDef>, table: string, i: nat)
    requires i < |joins|
    ensures RolesUpTo(joins, table, i, |joins[i].related|) == Roles(joins[..i + 1], table)
  {
    assert joins[..i + 1][..i] == joins[..i];
    assert joins[i].related[..|joins[i].related|] == joins[i].related;
  }

  lemma {:induction false} RelatedRolesSnoc(d: JoinDef, table: string, j: nat)
    requires j < |d.related|
    ensures var r, done := d.related[j], RelatedRoles(d, d.related[..j], table);
      RelatedRoles(d, d.related[..j + 1], table) == if r.table == table then done + [AsRelated(d, r)] else done
  {
    assert d.related[..j + 1][..j] == d.related[..j];
  }

  lemma {:induction false} RolesUpToGrow(joins: seq<JoinDef>, table: string, i: nat, j: nat)
    requires i < |joins| && j <= |joins[i].related|
    ensures RolesUpTo(joins, table, i, j) <= Roles(joins, table)
    ensures j == |joins[i].related| ==> RolesUpTo(joins, table, i, j) == Roles(joins[..i + 1], table)
    ensures j < |joins[i].related| ==>
      var r, done := joins[i].related[j], RolesUpTo(joins, table, i, j);
      RolesUpTo(joins, table, i, j + 1) == if r.table == table then done + [AsRelated(joins[i], r)] else done
  {
    hide Roles, RelatedRoles;
    var d := joins[i];
    RolesSnoc(joins, table, i);
    RolesGrow(joins, table, i + 1);
    RelatedRolesGrow(d, d.related, table, j);
    assert d.related[..|d.related|] == d.related;
    if j < |d.related| { RelatedRolesSnoc(d, table, j); }
  }

  lemma {:induction false} DefsOnNone(joins: seq<JoinDef>, table: string)
    requires forall d :: d in joins ==> d.table != table
    ensures DefsOn(joins, table) == 0
  {
    if joins != [] { DefsOnNone(joins[..|joins| - 1], table); }
  }

  lemma {:induction false} DefsOnOne(joins: seq<JoinDef>, table: string)
    requires OneRolePerKind(joins) && IsPrimaryTable(joins, table)
    ensures DefsOn(joins, table) == 1
  {
    var n := |joins| - 1;
    var rest := joins[..n];
    if joins[n].table == table {
      DefsOnNone(rest, table);
    } else {
      var d :| d in joins && d.table == table;
      assert d in rest;
      forall i, a, j, b | IsRelation(rest, i, a) && IsRelation(rest, j, b) && Clash(rest[i].related[a],
        rest[j].related[b])
        ensures i == j && a == b
      {
        assert IsRelation(joins, i, a) && IsRelation(joins, j, b);
      }
      DefsOnOne(rest, table);
    }
  }

  /** A truncated table's tombstones announce the truncation. */
  lemma {:induction false} TruncateCarried(joins: seq<JoinDef>, table: string, st: State, sent: seq<Emission>)
    requires IsPrimaryTable(joins, table) && OneRolePerKind(joins)
    requires Buried(sent, OfTable(st.primary, table), 1)
    ensures Carried(joins, PTruncate(table), st, Apply(st, PTruncate(table)), sent)
  {
    var d :| d in joins && d.table == table;
    var now := Apply(st, PTruncate(table));
    BuriedOnce(sent, OfTable(st.primary, table));
    forall i | 0 <= i < |sent| ensures Shows(d, EntryOf(sent[i]), IndexView(d, now, sent[i].key)) {
      assert sent[i].key in OfTable(st.primary, table);
    }
    AnnouncesSent(joins, d, now, OfTable(st.primary, table), sent);
    assert OfTable(TablesOf(st).prim, table) == OfTable(st.primary, table);
  }

  /** The roles in `done` have been decoded into the operations after `pre`. */
  ghost predicate Served(pre: seq<RowOp>, done: seq<Role>, kind: ChangeKind, e: Event, ops: seq<RowOp>) {
    AllDecode(done, kind, e) && ops == pre + OpsOf(done, kind, e)
  }

  lemma {:induction false} ServeStarts(pre: seq<RowOp>, kind: ChangeKind, e: Event)
    ensures Served(pre, [], kind, e, pre)
  {
  }

  lemma {:induction false} ServeStep(pre: seq<RowOp>, done: seq<Role>, kind: ChangeKind, e: Event, ops: seq<RowOp>,
                                     role: Role)
    requires Served(pre, done, kind, e, ops) && Decode(role, kind, e).Ok?
    ensures Served(pre, done + [role], kind, e, ops + [Decode(role, kind, e).value])
  {
    hide Decode;
    assert OpsOf(done + [role], kind, e) == OpsOf(done, kind, e) + [Decode(role, kind, e).value];
  }

  ghost function Ahead(joins: seq<JoinDef>, table: string, kind: ChangeKind): seq<RowOp> {
    if kind.Truncate? && IsPrimaryTable(joins, table) then [PTruncate(table)] else []
  }

  /** Once every role has been served, the event's plan has been carried out. */
  lemma {:induction false} ServedAll(joins: seq<JoinDef>, table: string, kind: ChangeKind, e: Event, ops: seq<RowOp>)
    requires Served(Ahead(joins, table, kind), Roles(joins, table), kind, e, ops)
    ensures PlanChange(joins, table, kind, e) == Plan(ops, if Roles(joins, table) == [] then PassThrough else Handled)
  {
    hide Decode, OpIn;
    var roles := Roles(joins, table);
    assert roles[..|roles|] == roles;
    PlanOfRoles(roles, kind, e, |roles|);
    if roles == [] { NoRolesNoPrimary(joins, table); }
  }

  lemma {:induction false} NoRolesNoPrimary(joins: seq<JoinDef>, table: string)
    requires Roles(joins, table) == []
    ensures !IsPrimaryTable(joins, table)
  {
    if joins != [] { NoRolesNoPrimary(joins[..|joins| - 1], table); }
  }

  /** When a role rejects the event, the plan stops there. */
  lemma {:induction false} StoppedAt(joins: seq<JoinDef>, table: string, kind: ChangeKind, e: Event, ops: seq<RowOp>,
                                     done: seq<Role>, role: Role)
    requires done + [role] <= Roles(joins, table) && Decode(role, kind, e).Err?
    requires Served(Ahead(joins, table, kind), done, kind, e, ops)
    ensures PlanChange(joins, table, kind, e) == Plan(ops, Failed(Decode(role, kind, e).error))
  {
    hide Decode, PlanRoles;
    var roles := Roles(joins, table);
    assert roles[..|done|] == done && roles[|done|] == role;
    PlanOfRoles(roles, kind, e, |done|);
  }

  /** A role whose handling failed although it decodes: the plan goes past it. */
  lemma {:induction false} NotStoppedAt(joins: seq<JoinDef>, table: string, kind: ChangeKind, e: Event, ops: seq<RowOp>,
                                        done: seq<Role>, role: Role)
    requires done + [role] <= Roles(joins, table) && Decode(role, kind, e).Ok?
    requires Served(Ahead(joins, table, kind), done, kind, e, ops)
    ensures ops + [Decode(role, kind, e).value] <= PlanChange(joins, table, kind, e).ops
  {
    hide Decode, PlanRoles;
    var roles := Roles(joins, table);
    assert roles[..|done|] == done && roles[|done|] == role && roles[..|done| + 1] == done + [role];
    PlanReaches(roles, kind, e, |done| + 1);
    assert OpsOf(done + [role], kind, e) == OpsOf(done, kind, e) + [Decode(role, kind, e).value];
  }

  lemma {:induction false} PlanReaches(roles: seq<Role>, kind: ChangeKind, e: Event, n: nat)
    requires n <= |roles| && AllDecode(roles[..n], kind, e)
    ensures OpsOf(roles[..n], kind, e) <= PlanRoles(roles, kind, e).ops
  {
    hide Decode;
    if n > 0 {
      assert roles[..n][0] == roles[0] && roles[..n][1..] == roles[1..][..n - 1];
      PlanReaches(roles[1..], kind, e, n - 1);
      assert OpsOf(roles[..n], kind, e) == [Decode(roles[0], kind, e).value] + OpsOf(roles[1..][..n - 1], kind, e);
    }
  }

  lemma {:induction false} QuietFor(joins: seq<JoinDef>, d: JoinDef, st: State)
    requires AllQuiet(joins, st) && d in joins
    ensures Quiet(joins, d, st)
  {
  }

  /** How handling an event ends, seen from outside. */
  function Outcome(v: Verdict): Result<bool> {
    match v
    case PassThrough => Ok(false)
    case Handled => Ok(true)
    case Failed(error) => Err(error)
  }

  lemma {:induction false} TracksWithOut(joins: seq<JoinDef>, fetches: seq<Fetcher>, st: State, start: seq<Emission>,
                                         ops: seq<RowOp>, outs: seq<seq<Emission>>, now: State, out: seq<Emission>)
    requires TracksWith(joins, fetches, st, start, ops, outs, now, out)
    ensures |out| >= |start| && out[..|start|] == start
    ensures AllQuiet(joins, st) ==> AllQuiet(joins, now)
  {
    hide AllQuiet, KeysCarried, Passes;
  }

  lemma {:induction false} TracksOut(joins: seq<JoinDef>, fetch: Fetcher, st: State, start: seq<Emission>,
                                     ops: seq<RowOp>, outs: seq<seq<Emission>>, now: State, out: seq<Emission>)
    requires Tracks(joins, fetch, st, start, ops, outs, now, out)
    ensures |out| >= |start| && out[..|start|] == start
    ensures AllQuiet(joins, st) ==> AllQuiet(joins, now)
  {
    hide AllQuiet, TracksWith;
    TracksWithOut(joins, Each(fetch, |ops|), st, start, ops, outs, now, out);
  }

  lemma {:induction false} PrimaryOpIn(joins: seq<JoinDef>, d: JoinDef, kind: ChangeKind, e: Event)
    requires d in joins && DecodePrimary(d, kind, e).Ok?
    ensures OpIn(joins, DecodePrimary(d, kind, e).value)
  {
  }

  lemma {:induction false} RelatedOpIn(joins: seq<JoinDef>, d: JoinDef, r: RelatedDef, kind: ChangeKind, e: Event)
    requires Has(joins, d, r) && DecodeRelated(d, r, kind, e).Ok?
    ensures OpIn(joins, DecodeRelated(d, r, kind, e).value)
  {
  }

  /** The state is what some first operations of the plan, one at least, have left. */
  ghost predicate PassedPart(joins: seq<JoinDef>, fetch: Fetcher, st: State, ops: seq<RowOp>, now: State) {
    exists k :: 0 < k <= |ops| && Passes(joins, Each(fetch, k), st, ops[..k], now)
  }

  /** Handling ended with `error`: as planned, with the planned operations carried
      out, or because the source failed past the first operation. */
  ghost predicate Stopped(joins: seq<JoinDef>, fetch: Fetcher, table: string, kind: ChangeKind, e: Event, st: State,
                          start: seq<Emission>, error: JoinError, outs: seq<seq<Emission>>, now: State,
                          out: seq<Emission>)
  {
    var plan := PlanChange(joins, table, kind, e);
    || (plan.verdict == Failed(error) && Tracks(joins, fetch, st, start, plan.ops, outs, now, out))
    || (!AllQuiet(joins, st) && (StoredObjects(st) ==> SomeSourceDown(joins, fetch, error))
      && PassedPart(joins, fetch, st, plan.ops, now))
  }

  lemma {:induction false} StopsHere(joins: seq<JoinDef>, fetch: Fetcher, table: string, kind: ChangeKind, e: Event,
                                     st: State, start: seq<Emission>, ops: seq<RowOp>, outs: seq<seq<Emission>>,
                                     at: State, was: seq<Emission>, done: seq<Role>, role: Role, error: JoinError,
                                     now: State, out: seq<Emission>)
    requires Tracks(joins, fetch, st, start, ops, outs, at, was)
    requires Served(Ahead(joins, table, kind), done, kind, e, ops)
    requires done + [role] <= Roles(joins, table)
    requires Decode(role, kind, e).Err? ==> Decode(role, kind, e).error == error && now == at && out == was
    requires Decode(role, kind, e).Ok? ==>
      !AllQuiet(joins, st) && Filled(joins, fetch, Apply(at, Decode(role, kind, e).value), now)
    requires Decode(role, kind, e).Ok? && StoredObjects(at) ==> SomeSourceDown(joins, fetch, error)
    requires forall op :: op in ops ==> OpIn(joins, op)
    ensures Stopped(joins, fetch, table, kind, e, st, start, error, outs, now, out)
  {
    hide AllQuiet, PlanChange, Served, Roles, Decode, Filled, Passes, KeysCarried, CarriedAll, ApplyOps, Apply,
      StoredObjects, OpIn;
    if Decode(role, kind, e).Err? {
      StoppedAt(joins, table, kind, e, ops, done, role);
    } else {
      NotStoppedAt(joins, table, kind, e, ops, done, role);
      EachMore(fetch, |ops|);
      PassesStep(joins, Each(fetch, |ops|), fetch, st, ops, at, Decode(role, kind, e).value, now);
      var plan, more := PlanChange(joins, table, kind, e), ops + [Decode(role, kind, e).value];
      assert plan.ops[..|more|] == more;
      assert PassedPart(joins, fetch, st, plan.ops, now);
      PassesObjects(joins, Each(fetch, |ops|), st, ops, at);
    }
  }

  /** Every stored primary stays an object. */
  lemma {:induction false} PassesObjects(joins: seq<JoinDef>, fetches: seq<Fetcher>, st: State, ops: seq<RowOp>,
                                         now: State)
    requires Passes(joins, fetches, st, ops, now) && forall op :: op in ops ==> OpIn(joins, op)
    ensures StoredObjects(st) ==> StoredObjects(now)
  {
    hide Filled, Apply, OpIn, PassesThen;
    if ops != [] {
      var n := |ops| - 1;
      var mid := PassedBefore(joins, fetches, st, ops, now);
      PassesObjects(joins, fetches[..n], st, ops[..n], mid);
      ApplyKeepsStoredObjects(joins, mid, ops[n]);
      FilledPrimaries(joins, fetches[n], Apply(mid, ops[n]), now);
    }
  }

  lemma {:induction false} ApplyKeepsStoredObjects(joins: seq<JoinDef>, st: State, op: RowOp)
    requires OpIn(joins, op)
    ensures StoredObjects(st) ==> StoredObjects(Apply(st, op))
  {
    hide FksFrom, Link, Unlink, KeyOf, Add, Remove, Without;
  }

  lemma {:induction false} NoRoles(joins: seq<JoinDef>, table: string)
    ensures Roles(joins[..0], table) == []
  {
  }

  /** A definition's primary role, if any, comes right after the roles before it. */
  lemma {:induction false} FirstRole(joins: seq<JoinDef>, table: string, i: nat)
    requires i < |joins|
    ensures RolesUpTo(joins, table, i, 0) ==
      if joins[i].table == table then Roles(joins[..i], table) + [AsPrimary(joins[i])] else Roles(joins[..i], table)
    ensures RolesUpTo(joins, table, i, 0) <= Roles(joins, table)
    ensures Roles(joins[..i + 1], table) == [] ==> Roles(joins[..i], table) == []
    ensures RolesUpTo(joins, table, i, 0) <= Roles(joins[..i + 1], table)
  {
    var d := joins[i];
    assert d.related[..0] == [] && RelatedRoles(d, [], table) == [];
    RolesUpToGrow(joins, table, i, 0);
    assert joins[..i + 1][..i] == joins[..i];
  }

  /** A truncated primary's own role was served by the truncation. */
  lemma {:induction false} SkippedRole(joins: seq<JoinDef>, fetch: Fetcher, d: JoinDef, kind: ChangeKind, e: Event,
                                       st: State, start: seq<Emission>, ops: seq<RowOp>, outs: seq<seq<Emission>>,
                                       now: State, out: seq<Emission>)
    requires kind.Truncate? && Tracks(joins, fetch, st, start, ops, outs, now, out)
    ensures DecodePrimary(d, kind, e) == Ok(NoOp)
    ensures Tracks(joins, fetch, st, start, ops + [NoOp], outs + [[]], now, out)
  {
    hide Tracks, Carried, Filled, KeysCarried;
    NothingCarried(joins, now);
    FilledNothing(joins, fetch, now);
    NoKeysCarried(now);
    assert out[|out|..] == [];
    TrackStep(joins, fetch, st, start, ops, outs, now, out, NoOp, now, out);
  }

  /** How a stopped event looks from outside. */
  lemma {:induction false} StoppedEnds(joins: seq<JoinDef>, fetch: Fetcher, table: string, kind: ChangeKind, e: Event,
                                       st: State, start: seq<Emission>, error: JoinError, outs: seq<seq<Emission>>,
                                       now: State, out: seq<Emission>)
    requires Stopped(joins, fetch, table, kind, e, st, start, error, outs, now, out)
    ensures Ends(joins, fetch, st, start, PlanChange(joins, table, kind, e), Err(error), outs, now, out)
  {
    hide AllQuiet, PlanChange, Passes, KeysCarried, CarriedAll, ApplyOps, StoredObjects;
  }

  /** Handling an event ended as planned, with the planned operations carried out; or
      the source failed and only some of them were. Stored rows that are not objects,
      which no operation stores, are the only other way to fail. */
  ghost predicate Ends(joins: seq<JoinDef>, fetch: Fetcher, st: State, start: seq<Emission>, plan: Plan,
                       res: Result<bool>, outs: seq<seq<Emission>>, now: State, out: seq<Emission>)
  {
    || (res == Outcome(plan.verdict) && Tracks(joins, fetch, st, start, plan.ops, outs, now, out))
    || (res.Err? && !AllQuiet(joins, st) && (StoredObjects(st) ==> SomeSourceDown(joins, fetch, res.error))
      && PassedPart(joins, fetch, st, plan.ops, now))
  }

  lemma {:induction false} NothingPlannedNothingDone(joins: seq<JoinDef>, fetch: Fetcher, st: State,
          start: seq<Emission>, plan: Plan, res: Result<bool>, outs: seq<seq<Emission>>, now: State, out: seq<Emission>)
    requires Ends(joins, fetch, st, start, plan, res, outs, now, out)
    ensures plan.ops == [] ==> res == Outcome(plan.verdict) && now == st && out == start
    ensures AllQuiet(joins, st) ==>
      res == Outcome(plan.verdict) && Tracks(joins, fetch, st, start, plan.ops, outs, now, out)
  {
    hide AllQuiet, KeysCarried, CarriedAll, ApplyOps, StoredObjects;
    if plan.ops == [] && outs == [] { assert Flat(outs) == []; }
  }

  // ---- a run of events ---------------------------------------------------

  /** The operations a list of events stands for. */
  function PlannedOps(joins: seq<JoinDef>, events: seq<Event>): seq<RowOp> {
    if events == [] then []
    else PlannedOps(joins, events[..|events| - 1]) + PlanEvent(joins, events[|events| - 1]).ops
  }

  lemma {:induction false} ApplyOpsConcat(st: State, a: seq<RowOp>, b: seq<RowOp>)
    ensures ApplyOps(st, a + b) == ApplyOps(ApplyOps(st, a), b)
  {
    hide Apply;
    if b == [] {
      assert a + b == a;
    } else {
      var n := |b| - 1;
      ApplyOpsConcat(st, a, b[..n]);
      assert (a + b)[..|a + b| - 1] == a + b[..n];
    }
  }

  lemma {:induction false} FlatConcat(a: seq<seq<Emission>>, b: seq<seq<Emission>>)
    ensures Flat(a + b) == Flat(a) + Flat(b)
  {
    if b == [] {
      assert a + b == a;
    } else {
      var n := |b| - 1;
      FlatConcat(a, b[..n]);
      assert (a + b)[..|a + b| - 1] == a + b[..n];
    }
  }

  lemma {:induction false} CarriedConcat(joins: seq<JoinDef>, st: State, a: seq<RowOp>, outA: seq<seq<Emission>>,
                                         b: seq<RowOp>, outB: seq<seq<Emission>>)
    requires CarriedAll(joins, st, a, outA) && CarriedAll(joins, ApplyOps(st, a), b, outB)
    ensures CarriedAll(joins, st, a + b, outA + outB)
  {
    hide Carried, ApplyOps;
    var ops, outs := a + b, outA + outB;
    forall i | 0 <= i < |ops|
      ensures Carried(joins, ops[i], ApplyOps(st, ops[..i]), ApplyOps(st, ops[..i + 1]), outs[i])
    {
      if i < |a| {
        assert ops[..i] == a[..i] && ops[..i + 1] == a[..i + 1];
      } else {
        var j := i - |a|;
        assert ops[..i] == a + b[..j] && ops[..i + 1] == a + b[..j + 1];
        ApplyOpsConcat(st, a, b[..j]);
        ApplyOpsConcat(st, a, b[..j + 1]);
        assert Carried(joins, b[j], ApplyOps(ApplyOps(st, a), b[..j]), ApplyOps(ApplyOps(st, a), b[..j + 1]), outB[j]);
      }
    }
  }

  /** What one event does follows on from what the events before it did. */
  lemma {:induction false} TracksConcat(joins: seq<JoinDef>, fetchA: seq<Fetcher>, st: State, start: seq<Emission>,
                                        a: seq<RowOp>, outA: seq<seq<Emission>>, at: State, was: seq<Emission>,
                                        fetchB: seq<Fetcher>, b: seq<RowOp>, outB: seq<seq<Emission>>, now: State,
                                        out: seq<Emission>)
    requires TracksWith(joins, fetchA, st, start, a, outA, at, was)
    requires TracksWith(joins, fetchB, at, was, b, outB, now, out)
    ensures TracksWith(joins, fetchA + fetchB, st, start, a + b, outA + outB, now, out)
  {
    hide AllQuiet, CarriedAll, Passes, KeysCarried;
    ApplyOpsConcat(st, a, b);
    FlatConcat(outA, outB);
    PassesConcat(joins, fetchA, st, a, at, fetchB, b, now);
    KeysBoth(st, Flat(outA), at, Flat(outB), now);
    if AllQuiet(joins, st) { CarriedConcat(joins, st, a, outA, b, outB); }
  }

  /** One role of a kind per table, and no backfill. */
  ghost predicate PlainJoins(joins: seq<JoinDef>) {
    OneRolePerKind(joins) && forall d :: d in joins ==> d.backfill.NoBackfill?
  }

  lemma {:induction false} EmptyQuiet(joins: seq<JoinDef>)
    requires PlainJoins(joins)
    ensures AllQuiet(joins, EMPTY_STATE)
  {
    StateInvariants(joins, []);
  }

  lemma {:induction false} ApplyOpsIsApplyAll(ops: seq<RowOp>)
    ensures ApplyOps(EMPTY_STATE, ops) == ApplyAll(ops) && TablesOf(ApplyAll(ops)) == ReplayAll(ops)
  {
    hide Apply, Replay;
    if ops != [] {
      var n := |ops| - 1;
      ApplyOpsIsApplyAll(ops[..n]);
      ApplyReplays(ApplyAll(ops[..n]), ops[n]);
    }
  }

  lemma {:induction false} DeliverConcat(sink: Sink, a: seq<Emission>, b: seq<Emission>)
    ensures DeliverAll(sink, a + b) == DeliverAll(DeliverAll(sink, a), b)
  {
    if b == [] {
      assert a + b == a;
    } else {
      var n := |b| - 1;
      DeliverConcat(sink, a, b[..n]);
      assert (a + b)[..|a + b| - 1] == a + b[..n];
    }
  }

  lemma {:induction false} SinkAfterIsDeliverAll(outs: seq<seq<Emission>>)
    ensures SinkAfter(outs) == DeliverAll(map[], Flat(outs))
  {
    if outs != [] {
      var n := |outs| - 1;
      SinkAfterIsDeliverAll(outs[..n]);
      DeliverConcat(map[], Flat(outs[..n]), outs[n]);
    }
  }

  /** A tracked run from the empty state leaves its sink at the join. */
  lemma {:induction false} TrackedSinkIsJoin(joins: seq<JoinDef>, fetches: seq<Fetcher>, ops: seq<RowOp>,
                                             outs: seq<seq<Emission>>, now: State, out: seq<Emission>)
    requires AllQuiet(joins, EMPTY_STATE) && Log(joins, ops)
    requires TracksWith(joins, fetches, EMPTY_STATE, [], ops, outs, now, out)
    ensures SinkIsJoin(joins, DeliverAll(map[], out), ReplayAll(ops))
  {
    hide Apply, Announces, SinkIsJoin, Log;
    forall i | 0 <= i < |ops|
      ensures Announces(joins, ApplyAll(ops[..i + 1]), Touched(ReplayAll(ops[..i]), ops[i]), outs[i])
    {
      assert Carried(joins, ops[i], ApplyOps(EMPTY_STATE, ops[..i]), ApplyOps(EMPTY_STATE, ops[..i + 1]), outs[i]);
      ApplyOpsIsApplyAll(ops[..i]);
      ApplyOpsIsApplyAll(ops[..i + 1]);
    }
    SinkAlwaysJoin(joins, ops, outs);
    SinkAfterIsDeliverAll(outs);
    assert out == Flat(outs);
  }

  /** The events whose plan is to pass through, or those whose plan is to fail. */
  function Ending(joins: seq<JoinDef>, events: seq<Event>, failing: bool): seq<Event> {
    if events == [] then []
    else
      var n := |events| - 1;
      var verdict := PlanEvent(joins, events[n]).verdict;
      Ending(joins, events[..n], failing) + if (if failing then verdict.Failed? else verdict.PassThrough?) then
        [events[n]] else []
  }

  lemma {:induction false} RunStarts(joins: seq<JoinDef>, events: seq<Event>)
    ensures PlannedOps(joins, events[..0]) == []
    ensures Ending(joins, events[..0], false) == [] == Ending(joins, events[..0], true)
  {
    assert events[..0] == [];
  }

  lemma {:induction false} EndingStep(joins: seq<JoinDef>, events: seq<Event>, i: nat)
    requires i < |events|
    ensures var verdict, e := PlanEvent(joins, events[i]).verdict, events[i];
      && Ending(joins, events[..i + 1], false) ==
         (if verdict.PassThrough? then Ending(joins, events[..i], false) + [e] else Ending(joins, events[..i], false))
      && Ending(joins, events[..i + 1], true) ==
         (if verdict.Failed? then Ending(joins, events[..i], true) + [e] else Ending(joins, events[..i], true))
      && (verdict.Failed? ==> verdict.error.IsPermanent())
  {
    hide PlanEvent;
    assert events[..i + 1][..i] == events[..i];
    PlanWithinJoins(joins, events[i]);
  }

  lemma {:induction false} EndingGrows(joins: seq<JoinDef>, events: seq<Event>, n: nat)
    requires n <= |events|
    ensures forall e :: e in Ending(joins, events[..n], true) ==> e in Ending(joins, events, true)
  {
    hide PlanEvent;
    if n == |events| {
      assert events[..n] == events;
    } else {
      EndingGrows(joins, events[..|events| - 1], n);
      assert events[..|events| - 1][..n] == events[..n];
    }
  }

  /** The source at each operation of a list of events, given it at each event. */
  function SourcesFor(joins: seq<JoinDef>, sources: seq<Fetcher>, events: seq<Event>): seq<Fetcher>
    requires |sources| == |events|
  {
    if events == [] then []
    else
      var n := |events| - 1;
      SourcesFor(joins, sources[..n], events[..n]) + Each(sources[n], |PlanEvent(joins, events[n]).ops|)
  }

  /** No event writes a related row that is not an object. */
  ghost predicate ObjectEvents(joins: seq<JoinDef>, events: seq<Event>) {
    forall i :: 0 <= i < |events| ==> ObjectPlan(PlanEvent(joins, events[i]))
  }

  lemma {:induction false} RunSources(joins: seq<JoinDef>, sources: seq<Fetcher>, events: seq<Event>)
    requires |sources| == |events|
    ensures SourcesFor(joins, sources[..0], events[..0]) == []
  {
  }

  lemma {:induction false} RunStep(joins: seq<JoinDef>, sources: seq<Fetcher>, st: State, start: seq<Emission>,
                                   events: seq<Event>, i: nat, outs: seq<seq<Emission>>, at: State, was: seq<Emission>,
                                   outs': seq<seq<Emission>>, now: State, out: seq<Emission>)
    requires i < |events| == |sources|
    requires TracksWith(joins, SourcesFor(joins, sources[..i], events[..i]), st, start, PlannedOps(joins, events[..i]),
      outs, at, was)
    requires Tracks(joins, sources[i], at, was, PlanEvent(joins, events[i]).ops, outs', now, out)
    ensures TracksWith(joins, SourcesFor(joins, sources[..i + 1], events[..i + 1]), st, start,
      PlannedOps(joins, events[..i + 1]),
                       outs + outs', now, out)
  {
    hide TracksWith, PlanEvent;
    assert events[..i + 1][..i] == events[..i] && sources[..i + 1][..i] == sources[..i];
    var ops := PlanEvent(joins, events[i]).ops;
    TracksConcat(joins, SourcesFor(joins, sources[..i], events[..i]), st, start, PlannedOps(joins, events[..i]), outs,
      at, was,
                 Each(sources[i], |ops|), ops, outs', now, out);
  }

  lemma {:induction false} EachAnswers(joins: seq<JoinDef>, sources: seq<Fetcher>, i: nat)
    requires i < |sources|
    ensures SourcesAnswer(joins, sources) ==> AllReachable(joins, sources[i])
  {
  }

  /** Without backfill no source is ever needed. */
  lemma {:induction false} QuietNeedsNoSource(joins: seq<JoinDef>, st: State, sources: seq<Fetcher>)
    ensures AllQuiet(joins, st) ==> SourcesAnswer(joins, sources)
  {
  }

  lemma {:induction false} QuietStoresObjects(joins: seq<JoinDef>, st: State)
    ensures AllQuiet(joins, st) ==> StoredObjects(st) && Sane(joins, st)
    ensures PlainJoins(joins) && st == EMPTY_STATE ==> AllQuiet(joins, st)
  {
    if AllQuiet(joins, st) {
      forall p | p in st.primary ensures st.primary[p].raw.Obj? { assert StoredWell(joins, st, p); }
    }
    if PlainJoins(joins) && st == EMPTY_STATE { EmptyQuiet(joins); }
  }

  /** An event that did not end on a source failure ended as planned. */
  lemma {:induction false} EndsAsPlanned(joins: seq<JoinDef>, fetch: Fetcher, st: State, start: seq<Emission>,
                                         plan: Plan, res: Result<bool>, outs: seq<seq<Emission>>, now: State,
                                         out: seq<Emission>)
    requires Ends(joins, fetch, st, start, plan, res, outs, now, out) && StoredObjects(st)
    requires (res.Ok? || res.error.IsPermanent())
    ensures res == Outcome(plan.verdict) && Tracks(joins, fetch, st, start, plan.ops, outs, now, out)
  {
    hide AllQuiet, Tracks, PassedPart;
  }

  /** Every related row the plan writes is an object. */
  ghost predicate ObjectPlan(plan: Plan) {
    forall op :: op in plan.ops ==> ObjectRow(op)
  }

  lemma {:induction false} EndsSoundly(joins: seq<JoinDef>, fetch: Fetcher, st: State, start: seq<Emission>, plan: Plan,
                                       res: Result<bool>, outs: seq<seq<Emission>>, now: State, out: seq<Emission>)
    requires Ends(joins, fetch, st, start, plan, res, outs, now, out) && forall op :: op in plan.ops ==> OpIn(joins, op)
    ensures Sane(joins, st) ==> Sane(joins, now)
    ensures StoredObjects(st) ==> StoredObjects(now)
    ensures StoredObjects(st) && res.Err? && res.error.IsPermanent() ==> res == Outcome(plan.verdict)
    ensures Sane(joins, st) && Tended(joins, st) && HonestSource(joins, fetch) && ObjectPlan(plan) ==>
      Tended(joins, now)
    ensures StoredObjects(st) && AllReachable(joins, fetch) ==> res == Outcome(plan.verdict)
  {
    hide AllQuiet, KeysCarried, CarriedAll, ApplyOps, StoredObjects, Wired, OneRolePerKind, OpIn, Passes, Tended,
      HonestSource, ObjectRow;
    var ops: seq<RowOp>;
    if Passes(joins, Each(fetch, |plan.ops|), st, plan.ops, now) {
      ops := plan.ops;
    } else {
      var k :| 0 < k <= |plan.ops| && Passes(joins, Each(fetch, k), st, plan.ops[..k], now);
      ops := plan.ops[..k];
    }
    var fetches := Each(fetch, |ops|);
    PassesObjects(joins, fetches, st, ops, now);
    if Sane(joins, st) { PassesSane(joins, fetches, st, ops, now); }
    if Sane(joins, st) && Tended(joins, st) && HonestSource(joins, fetch) && ObjectPlan(plan) {
      PassesTended(joins, fetches, st, ops, now);
    }
  }

  /** How many roles the event's table plays, when it has one. */
  function RolesFor(joins: seq<JoinDef>, e: Event): nat {
    match SourceTable(e)
    case Ok(table) => |Roles(joins, table)|
    case Err(_) => 0
  }

  lemma {:induction false} PoisonOfOneRole(joins: seq<JoinDef>, e: Event)
    ensures PlanEvent(joins, e).verdict.Failed? && RolesFor(joins, e) <= 1 ==> PlanEvent(joins, e).ops == []
  {
    hide PlanEvent, Roles;
    if PlanEvent(joins, e).verdict.Failed? { NothingPlannedIff(joins, e); }
  }

  /** What a finished run has left. */
  lemma {:induction false} RunEnds(joins: seq<JoinDef>, fetches: seq<Fetcher>, st: State, start: seq<Emission>,
                                   ops: seq<RowOp>, outs: seq<seq<Emission>>, now: State, out: seq<Emission>)
    requires TracksWith(joins, fetches, st, start, ops, outs, now, out)
    ensures Passes(joins, fetches, st, ops, now) && Raws(now.primary) == ReplayOps(TablesOf(st), ops).prim
    ensures st == EMPTY_STATE && start == [] ==> DeliverAll(map[], out).Keys == now.primary.Keys
    ensures AllQuiet(joins, st) ==> now == ApplyOps(st, ops)
    ensures AllQuiet(joins, st) && st == EMPTY_STATE && start == [] && Log(joins, ops) ==>
      SinkIsJoin(joins, DeliverAll(map[], out), ReplayAll(ops))
  {
    hide AllQuiet, CarriedAll, ApplyOps, Passes, Log, SinkIsJoin;
    PassesPrims(joins, fetches, st, ops, now);
    if st == EMPTY_STATE && start == [] {
      var none: Sink := map[];
      assert none.Keys == st.primary.Keys;
      assert out == Flat(outs);
      assert DeliverAll(none, Flat(outs)).Keys == now.primary.Keys;
      if AllQuiet(joins, st) && Log(joins, ops) { TrackedSinkIsJoin(joins, fetches, ops, outs, now, out); }
    }
  }

  lemma {:induction false} DefsOnSome(joins: seq<JoinDef>, table: string)
    requires IsPrimaryTable(joins, table)
    ensures DefsOn(joins, table) > 0
  {
    var n := |joins| - 1;
    if joins[n].table != table {
      var d :| d in joins && d.table == table;
      assert d in joins[..n];
      DefsOnSome(joins[..n], table);
    }
  }

  lemma {:induction false} AheadIn(joins: seq<JoinDef>, table: string, kind: ChangeKind)
    ensures forall op :: op in Ahead(joins, table, kind) ==> OpIn(joins, op)
  {
  }

  // ---- poison events -----------------------------------------------------

  /** From this state on the operations re-emit nothing. */
  ghost predicate Silent(st: State, ops: seq<RowOp>) {
    forall i :: 0 <= i < |ops| ==> Touched(TablesOf(ApplyOps(st, ops[..i])), ops[i]) == {}
  }

  /** The operations leave every state as it is and re-emit nothing. */
  ghost predicate Traceless(ops: seq<RowOp>) {
    forall st :: ApplyOps(st, ops) == st && Silent(st, ops)
  }

  /** The operations of one event all write rows, or all remove them. */
  ghost predicate OfKind(op: RowOp, kind: ChangeKind) {
    match kind
    case Truncate => true
    case Delete => op.PDelete? || op.FDelete?
    case _ => op.PUpsert? || op.FUpsert?
  }

  lemma {:induction false} PlanOfKind(roles: seq<Role>, kind: ChangeKind, e: Event)
    ensures forall op :: op in PlanRoles(roles, kind, e).ops ==> OfKind(op, kind)
  {
    if roles != [] { PlanOfKind(roles[1..], kind, e); }
  }

  lemma {:induction false} WritesLast(st: State, ops: seq<RowOp>, k: RowKey)
    requires ops != [] && forall op :: op in ops ==> op.PUpsert? || op.FUpsert?
    requires ops[0].FUpsert? && k == (ops[0].r.table, ops[0].pk)
    ensures k in ApplyOps(st, ops).foreign
  {
    hide KeyOf, Link, Unlink, FksFrom, Add, Remove;
    var n := |ops| - 1;
    assert ops[n] in ops;
    if n > 0 { WritesLast(st, ops[..n], k); }
  }

  lemma {:induction false} RemovesLast(st: State, ops: seq<RowOp>, k: RowKey)
    requires ops != [] && forall op :: op in ops ==> op.PDelete? || op.FDelete?
    requires ops[0].FDelete? && k == (ops[0].r.table, ops[0].pk)
    ensures k !in ApplyOps(st, ops).foreign
  {
    hide KeyOf, Link, Unlink, FksFrom, Add, Remove;
    var n := |ops| - 1;
    assert ops[n] in ops;
    if n > 0 { RemovesLast(st, ops[..n], k); }
  }

  lemma {:induction false} FirstLeavesTrace(ops: seq<RowOp>, kind: ChangeKind)
    requires ops != [] && !kind.Truncate? && forall op :: op in ops ==> OfKind(op, kind)
    ensures !Traceless(ops)
  {
    hide KeyOf, Apply;
    assert ops[0] in ops;
    var st := EMPTY_STATE;
    if ops[0].PUpsert? || ops[0].PDelete? {
      assert ops[..0] == [] && (ops[0].d.table, ops[0].pk) in Touched(TablesOf(st), ops[0]);
      assert !Silent(st, ops);
    } else {
      var k := (ops[0].r.table, ops[0].pk);
      if ops[0].FUpsert? {
        WritesLast(st, ops, k);
      } else {
        st := EMPTY_STATE.(foreign := map[k := Null]);
        RemovesLast(st, ops, k);
      }
      assert k in ApplyOps(st, ops).foreign <==> k !in st.foreign;
      assert ApplyOps(st, ops) != st;
    }
  }

  /** A failing event leaves every state as it was and sends nothing exactly when the
      role handled first rejects it, or no table or kind could be read; always so
      for a table with a single role. */
  lemma {:induction false} PoisonLeavesNoTraceIff(joins: seq<JoinDef>, e: Event)
    requires PlanEvent(joins, e).verdict.Failed?
    ensures Traceless(PlanEvent(joins, e).ops) <==> RejectedAtOnce(joins, e)
    ensures RolesFor(joins, e) <= 1 ==> Traceless(PlanEvent(joins, e).ops)
  {
    hide RejectedAtOnce, Traceless, Roles, Accepts;
    NothingPlannedIff(joins, e);
    PoisonOfOneRole(joins, e);
    var ops := PlanEvent(joins, e).ops;
    if ops == [] {
      NothingIsTraceless();
    } else {
      var table, kind := SourceTable(e).value, SubjectKind(e).value;
      PlanOfKind(Roles(joins, table), kind, e);
      PlanRolesFailsIff(Roles(joins, table), kind, e);
      TruncateNeverFails(joins, table, kind, e);
      FirstLeavesTrace(ops, kind);
    }
  }

  lemma {:induction false} NothingIsTraceless()
    ensures Traceless([])
  {
  }

  lemma {:induction false} TruncateNeverFails(joins: seq<JoinDef>, table: string, kind: ChangeKind, e: Event)
    ensures PlanChange(joins, table, kind, e).verdict.Failed? ==> !kind.Truncate?
  {
    PlanRolesFailsIff(Roles(joins, table), kind, e);
  }
}
