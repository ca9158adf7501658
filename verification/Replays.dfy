/** Replaying a stretch of the log on rows. Replaying it twice is the same as
    replaying it once, whatever state it starts from. */
module Replays {
  import opened Json
  import opened Keys
  import opened Config
  import opened JoinModel
  import opened Incremental

  /** The tables after the operations `a..b` of the log. */
  function Chain(t: Tables, log: seq<RowOp>, a: nat, b: nat): Tables
    requires a <= b <= |log|
    decreases b - a
  {
    if a == b then t else Chain(Replay(t, log[a]), log, a + 1, b)
  }

  /** The primaries re-emitted while the operations `a..b` are applied. */
  function Emits(t: Tables, log: seq<RowOp>, a: nat, b: nat): set<RowKey>
    requires a <= b <= |log|
    decreases b - a
  {
    if a == b then {} else Touched(t, log[a]) + Emits(Replay(t, log[a]), log, a + 1, b)
  }

  lemma {:induction false} ChainSplit(t: Tables, log: seq<RowOp>, a: nat, b: nat, c: nat)
    requires a <= b <= c <= |log|
    ensures Chain(t, log, a, c) == Chain(Chain(t, log, a, b), log, b, c)
    ensures Emits(t, log, a, c) == Emits(t, log, a, b) + Emits(Chain(t, log, a, b), log, b, c)
    decreases b - a
  {
    if a < b { ChainSplit(Replay(t, log[a]), log, a + 1, b, c); }
  }

  lemma {:induction false} ChainIsReplayAll(log: seq<RowOp>, n: nat)
    requires n <= |log|
    ensures Chain(NO_ROWS, log, 0, n) == ReplayAll(log[..n])
  {
    if n > 0 {
      ChainIsReplayAll(log, n - 1);
      ChainSplit(NO_ROWS, log, 0, n - 1, n);
      assert Chain(Chain(NO_ROWS, log, 0, n - 1), log, n - 1, n) == Replay(Chain(NO_ROWS, log, 0, n - 1), log[n - 1]);
      assert log[..n][..n - 1] == log[..n - 1];
    }
  }

  // ---- what a stretch does to one row ------------------------------------

  datatype Slot = Prim(key: RowKey) | Forn(key: RowKey)

  function At(t: Tables, x: Slot): Option<Json> {
    match x
    case Prim(k) => Lookup(t.prim, k)
    case Forn(k) => Lookup(t.forn, k)
  }

  /** Leave the row alone, write columns over it, or make it this row or none. */
  datatype Effect = Keep | Over(columns: Json) | Become(row: Option<Json>)

  function Act(e: Effect, row: Option<Json>): Option<Json> {
    match e
    case Keep => row
    case Over(columns) => Some(Written(row, columns, true))
    case Become(row') => row'
  }

  function Then(e1: Effect, e2: Effect): Effect {
    match (e1, e2)
    case (_, Keep) => e1
    case (_, Become(_)) => e2
    case (Keep, Over(_)) => e2
    case (Over(u), Over(v)) => Over(Merge(u, v))
    case (Become(row), Over(_)) => Become(Act(e2, row))
  }

  function Upserting(row: Json, merge: bool): Effect {
    if merge then Over(row) else Become(Some(row))
  }

  function EffectOn(op: RowOp, x: Slot): Effect {
    match (op, x)
    case (PUpsert(d, pk, row, merge), Prim(k)) => if k == (d.table, pk) then Upserting(row, merge) else Keep
    case (PDelete(d, pk), Prim(k)) => if k == (d.table, pk) then Become(None) else Keep
    case (PTruncate(table), Prim(k)) => if k.0 == table then Become(None) else Keep
    case (FUpsert(_, r, pk, row, merge), Forn(k)) => if k == (r.table, pk) then Upserting(row, merge) else Keep
    case (FDelete(_, r, pk, _), Forn(k)) => if k == (r.table, pk) then Become(None) else Keep
    case (FTruncate(_, r), Forn(k)) => if k.0 == r.table then Become(None) else Keep
    case _ => Keep
  }

  function StretchEffect(log: seq<RowOp>, a: nat, b: nat, x: Slot): Effect
    requires a <= b <= |log|
    decreases b - a
  {
    if a == b then Keep else Then(EffectOn(log[a], x), StretchEffect(log, a + 1, b, x))
  }

  /** Every upserted row is an object. */
  ghost predicate ObjectLog(log: seq<RowOp>) {
    forall i :: 0 <= i < |log| && (log[i].PUpsert? || log[i].FUpsert?) ==> log[i].row.Obj?
  }

  ghost predicate WritesObjects(e: Effect) {
    e.Over? ==> e.columns.Obj?
  }

  lemma ActThen(e1: Effect, e2: Effect, row: Option<Json>)
    requires WritesObjects(e1) && WritesObjects(e2)
    ensures Act(Then(e1, e2), row) == Act(e2, Act(e1, row))
    ensures WritesObjects(Then(e1, e2))
  {
    if e1.Over? && e2.Over? && row.Some? && row.value.Obj? {
      var r, u, v := row.value.fields, e1.columns.fields, e2.columns.fields;
      assert (r + u) + v == r + (u + v);
    }
  }

  /** Every effect is idempotent. */
  lemma ActTwice(e: Effect, row: Option<Json>)
    requires WritesObjects(e)
    ensures Act(e, Act(e, row)) == Act(e, row)
  {
    if e.Over? {
      var u := e.columns.fields;
      assert u + u == u;
      if row.Some? && row.value.Obj? {
        var r := row.value.fields;
        assert (r + u) + u == r + u;
      }
    }
  }

  lemma {:induction false} ReplayAt(t: Tables, op: RowOp, x: Slot)
    ensures At(Replay(t, op), x) == Act(EffectOn(op, x), At(t, x))
  {
  }

  lemma {:induction false} ChainAt(t: Tables, log: seq<RowOp>, a: nat, b: nat, x: Slot)
    requires a <= b <= |log| && ObjectLog(log)
    ensures At(Chain(t, log, a, b), x) == Act(StretchEffect(log, a, b, x), At(t, x))
    ensures WritesObjects(StretchEffect(log, a, b, x))
    decreases b - a
  {
    if a < b {
      ReplayAt(t, log[a], x);
      ChainAt(Replay(t, log[a]), log, a + 1, b, x);
      ActThen(EffectOn(log[a], x), StretchEffect(log, a + 1, b, x), At(t, x));
    }
  }

  lemma TablesEqual(t: Tables, u: Tables)
    requires forall x :: At(t, x) == At(u, x)
    ensures t == u
  {
    forall k ensures Lookup(t.prim, k) == Lookup(u.prim, k) && Lookup(t.forn, k) == Lookup(u.forn, k) {
      assert At(t, Prim(k)) == At(u, Prim(k)) && At(t, Forn(k)) == At(u, Forn(k));
    }
    assert t.prim == u.prim by { MapsEqual(t.prim, u.prim); }
    assert t.forn == u.forn by { MapsEqual(t.forn, u.forn); }
  }

  lemma MapsEqual(m: map<RowKey, Json>, n: map<RowKey, Json>)
    requires forall k :: Lookup(m, k) == Lookup(n, k)
    ensures m == n
  {
    forall k ensures k in m <==> k in n { assert Lookup(m, k) == Lookup(n, k); }
    forall k | k in m ensures m[k] == n[k] { assert Lookup(m, k) == Lookup(n, k); }
  }

  /** Replaying a stretch of the log a second time changes nothing. */
  lemma {:induction false} ReplayTwice(t: Tables, log: seq<RowOp>, a: nat, b: nat)
    requires a <= b <= |log| && ObjectLog(log)
    ensures Chain(Chain(t, log, a, b), log, a, b) == Chain(t, log, a, b)
  {
    var u := Chain(t, log, a, b);
    forall x ensures At(Chain(u, log, a, b), x) == At(u, x) {
      ChainAt(t, log, a, b, x);
      ChainAt(u, log, a, b, x);
      ActTwice(StretchEffect(log, a, b, x), At(t, x));
    }
    TablesEqual(Chain(u, log, a, b), u);
  }

  // ---- rows that change key ----------------------------------------------

  /** When a foreign row comes to have the key `p` references, `p` is re-emitted
      on the way. */
  lemma {:induction false} NewKeyEmits(defs: seq<JoinDef>, t: Tables, log: seq<RowOp>, a: nat, b: nat,
                                       d: JoinDef, r: RelatedDef, pk: PkValue, p: RowKey)
    requires a <= b <= |log| && OneRolePerKind(defs) && Has(defs, d, r)
    requires forall i :: 0 <= i < |log| ==> OpIn(defs, log[i])
    requires p in t.prim && p.0 == d.table
    requires KeyAt(t, r, pk) != Some(KeyOf(t.prim[p], r.from))
    requires KeyAt(Chain(t, log, a, b), r, pk) == Some(KeyOf(t.prim[p], r.from))
    ensures p in Emits(t, log, a, b)
    decreases b - a
  {
    if a < b && p !in Touched(t, log[a]) {
      var t' := Replay(t, log[a]);
      assert Lookup(t'.prim, p) == Lookup(t.prim, p);
      if KeyAt(t', r, pk) == Some(KeyOf(t.prim[p], r.from)) {
        ReplayAt(t, log[a], Forn((r.table, pk)));
        assert log[a].FUpsert? && log[a].r.table == r.table;
        SameRelation(defs, log[a].d, log[a].r, d, r);
      }
      NewKeyEmits(defs, t', log, a + 1, b, d, r, pk, p);
    }
  }
}
