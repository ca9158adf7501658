/** The sink as the search index sees it: keyed by document id. */
module DocIds {
  import opened Json
  import opened Keys
  import opened Config
  import opened JoinModel
  import opened Incremental
  import opened Carries

  function DocIdOf(p: RowKey): string {
    DocIdValue(p.0, p.1)
  }

  type SearchIndex = map<string, Json>

  function Put(index: SearchIndex, e: Emission): SearchIndex {
    if e.Upsert? then index[DocIdOf(e.key) := e.doc] else index - {DocIdOf(e.key)}
  }

  function PutAll(index: SearchIndex, out: seq<Emission>): SearchIndex {
    if out == [] then index else Put(PutAll(index, out[..|out| - 1]), out[|out| - 1])
  }

  /** A table name without a colon and a key of non-null scalars. */
  ghost predicate PlainKey(p: RowKey) {
    ':' !in p.0 && exists values :: Scalars(values) && p.1 == FromValues(values)
  }

  lemma {:induction false} PlainIdsDiffer(p: RowKey, q: RowKey)
    requires PlainKey(p) && PlainKey(q)
    ensures DocIdOf(p) == DocIdOf(q) <==> p == q
  {
    hide FromValues, DocIdValue;
    var v :| Scalars(v) && p.1 == FromValues(v);
    var w :| Scalars(w) && q.1 == FromValues(w);
    SameIdSameKey(p.0, v, q.0, w);
  }

  lemma {:induction false} IndexEntry(out: seq<Emission>, p: RowKey)
    requires PlainKey(p) && forall e :: e in out ==> PlainKey(e.key)
    ensures Lookup(PutAll(map[], out), DocIdOf(p)) == Lookup(DeliverAll(map[], out), p)
  {
    hide PlainKey, DocIdOf;
    if out != [] {
      var n := |out| - 1;
      assert out[n] in out;
      IndexEntry(out[..n], p);
      PlainIdsDiffer(p, out[n].key);
    }
  }

  lemma {:induction false} IndexIds(out: seq<Emission>, id: string)
    requires id in PutAll(map[], out)
    ensures exists e :: e in out && DocIdOf(e.key) == id
  {
    hide DocIdOf;
    var n := |out| - 1;
    assert out[n] in out;
    if DocIdOf(out[n].key) != id {
      IndexIds(out[..n], id);
      var e :| e in out[..n] && DocIdOf(e.key) == id;
      assert e in out;
    }
  }

  /** Every primary the log names has a plain key. */
  ghost predicate PlainLog(log: seq<RowOp>) {
    forall op :: op in log && (op.PUpsert? || op.PDelete?) ==> PlainKey((op.d.table, op.pk))
  }

  lemma {:induction false} PlainPrimaries(log: seq<RowOp>)
    requires PlainLog(log)
    ensures forall p :: p in ReplayAll(log).prim ==> PlainKey(p)
  {
    hide PlainKey, KeyOf;
    if log != [] {
      PlainPrimaries(log[..|log| - 1]);
      assert log[|log| - 1] in log;
    }
  }

  lemma {:induction false} PlainTouched(log: seq<RowOp>, i: nat)
    requires PlainLog(log) && i < |log|
    ensures forall p :: p in Touched(ReplayAll(log[..i]), log[i]) ==> PlainKey(p)
  {
    hide PlainKey, KeyOf;
    PlainPrimaries(log[..i]);
    assert log[i] in log;
  }

  lemma {:induction false} FlatMember(outs: seq<seq<Emission>>, e: Emission)
    requires e in Flat(outs)
    ensures exists i :: 0 <= i < |outs| && e in outs[i]
  {
    var n := |outs| - 1;
    if e !in outs[n] {
      FlatMember(outs[..n], e);
      var i :| 0 <= i < |outs[..n]| && e in outs[..n][i];
      assert e in outs[i];
    }
  }

  lemma {:induction false} PlainEmissions(defs: seq<JoinDef>, log: seq<RowOp>, outs: seq<seq<Emission>>)
    requires PlainLog(log) && Emitted(defs, log, outs)
    ensures forall e :: e in Flat(outs) ==> PlainKey(e.key)
  {
    hide PlainKey, Touched, Shows;
    forall e | e in Flat(outs) ensures PlainKey(e.key) {
      FlatMember(outs, e);
      var i :| 0 <= i < |outs| && e in outs[i];
      PlainTouched(log, i);
      assert Announces(defs, ApplyAll(log[..i + 1]), Touched(ReplayAll(log[..i]), log[i]), outs[i]);
      var k :| 0 <= k < |outs[i]| && outs[i][k] == e;
      assert outs[i][k].key == e.key;
    }
  }

  /** After every log whose primaries have non-null scalar keys, the search index holds
      under each primary's document id exactly its join, and holds nothing else. */
  lemma {:induction false} IndexAlwaysJoin(defs: seq<JoinDef>, log: seq<RowOp>, outs: seq<seq<Emission>>)
    requires OneRolePerKind(defs) && Log(defs, log) && Emitted(defs, log, outs) && PlainLog(log)
    ensures var index := PutAll(map[], Flat(outs));
      && (forall d, p: RowKey :: d in defs && p.0 == d.table && PlainKey(p) ==>
        Shows(d, Lookup(index, DocIdOf(p)), TableView(d, ReplayAll(log), p)))
      && (forall id :: id in index ==>
        exists p :: p in DeliverAll(map[], Flat(outs)) && PlainKey(p) && DocIdOf(p) == id)
  {
    hide PlainKey, DocIdOf, Shows, TableView, Log, Emitted, OneRolePerKind;
    var out := Flat(outs);
    PlainEmissions(defs, log, outs);
    SinkAlwaysJoin(defs, log, outs);
    SinkAfterIsDeliverAll(outs);
    forall d, p: RowKey | d in defs && p.0 == d.table && PlainKey(p)
      ensures Shows(d, Lookup(PutAll(map[], out), DocIdOf(p)), TableView(d, ReplayAll(log), p))
    {
      IndexEntry(out, p);
    }
    forall id | id in PutAll(map[], out)
      ensures exists p :: p in DeliverAll(map[], out) && PlainKey(p) && DocIdOf(p) == id
    {
      IndexIds(out, id);
      var e :| e in out && DocIdOf(e.key) == id;
      IndexEntry(out, e.key);
      assert Lookup(PutAll(map[], out), id).Some?;
    }
  }
}
