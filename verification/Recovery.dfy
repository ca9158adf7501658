/** However often the process crashes, and wherever, once replay has caught up the
    engine's state and the sink are those of a run that never crashed. */
module Recovery {
  import opened Json
  import opened Keys
  import opened Config
  import opened Index
  import opened JoinModel
  import opened Incremental
  import opened Replays
  import opened Pipeline

  /** What the results need of the configuration and the input. */
  ghost predicate Setting(defs: seq<JoinDef>, input: Input) {
    && input.Valid() && Increasing(input.wms)
    && OneRolePerKind(defs) && Log(defs, input.ops)
  }

  lemma SettingLog(defs: seq<JoinDef>, input: Input)
    requires Setting(defs, input)
    ensures ObjectLog(input.ops)
    ensures forall i :: 0 <= i < |input.ops| ==> OpIn(defs, input.ops[i]) && ObjectRow(input.ops[i])
  {
    forall i | 0 <= i < |input.ops| ensures OpIn(defs, input.ops[i]) && ObjectRow(input.ops[i]) {}
  }

  // ---- a state somewhere inside a replay ---------------------------------

  /** An index entry that is not the row's key now will be its key again before
      replay has caught up. */
  ghost predicate StaleReturns(defs: seq<JoinDef>, st: State, ops: seq<RowOp>, at: nat, high: nat)
    requires at <= high <= |ops|
  {
    forall d, r, pk, key ::
      Has(defs, d, r) && pk in Bucket(st.byFk, r.id, key) && KeyAt(TablesOf(st), r, pk) != Some(key) ==>
      KeyReturns(TablesOf(st), ops, at, high, r, pk, key)
  }

  ghost predicate KeyReturns(t: Tables, ops: seq<RowOp>, at: nat, high: nat, r: RelatedDef, pk: PkValue, key: PkValue)
    requires at <= high <= |ops|
  {
    exists j :: at < j <= high && KeyAt(Chain(t, ops, at, j), r, pk) == Some(key)
  }

  /** A replayed insert that lands on a stored row lands on a row that will be
      back before replay has caught up. */
  ghost predicate RowReturns(t: Tables, ops: seq<RowOp>, at: nat, high: nat)
    requires at <= high <= |ops|
  {
    forall i :: at <= i < high && ops[i].FUpsert? && !ops[i].merge ==> InsertReturns(t, ops, at, high, i)
  }

  ghost predicate InsertReturns(t: Tables, ops: seq<RowOp>, at: nat, high: nat, i: nat)
    requires at <= i < high <= |ops| && ops[i].FUpsert?
  {
    var k := (ops[i].r.table, ops[i].pk);
    k in Chain(t, ops, at, i).forn ==>
      exists j :: i < j <= high && Lookup(Chain(t, ops, at, j).forn, k) == Lookup(Chain(t, ops, at, i).forn, k)
  }

  /** Each sink entry is right for `t`, or its document will be emitted again. */
  ghost predicate SinkCatchesUp(defs: seq<JoinDef>, sink: Sink, t: Tables, ops: seq<RowOp>, at: nat, high: nat)
    requires at <= high <= |ops|
  {
    forall d, p: RowKey :: d in defs && p.0 == d.table ==>
      Shows(d, Lookup(sink, p), TableView(d, t, p)) || p in Emits(t, ops, at, high)
  }

  /** `st`, reached at position `at`, is on its way to the state of an
      uninterrupted run at `high`. */
  ghost predicate OnTrack(defs: seq<JoinDef>, st: State, ops: seq<RowOp>, at: nat, high: nat)
    requires at <= high <= |ops|
  {
    && Wired(defs, st) && Indexed(defs, st) && ObjectRows(TablesOf(st))
    && Chain(TablesOf(st), ops, at, high) == Chain(NO_ROWS, ops, 0, high)
    && StaleReturns(defs, st, ops, at, high)
    && RowReturns(TablesOf(st), ops, at, high)
  }

  /** State and sink are both on their way. */
  ghost predicate Heading(defs: seq<JoinDef>, st: State, sink: Sink, ops: seq<RowOp>, at: nat, high: nat)
    requires at <= high <= |ops|
  {
    OnTrack(defs, st, ops, at, high) && SinkCatchesUp(defs, sink, TablesOf(st), ops, at, high)
  }

  // ---- handling one operation --------------------------------------------

  /** Furthest position moves on by one. */
  lemma {:induction false} HighMovesOn(defs: seq<JoinDef>, st: State, ops: seq<RowOp>, at: nat, high: nat)
    requires OneRolePerKind(defs) && Log(defs, ops) && at <= high < |ops| && OnTrack(defs, st, ops, at, high)
    ensures OnTrack(defs, st, ops, at, high + 1)
    ensures Emits(TablesOf(st), ops, at, high) <= Emits(TablesOf(st), ops, at, high + 1)
  {
    var t := TablesOf(st);
    ChainSplit(t, ops, at, high, high + 1);
    ChainSplit(NO_ROWS, ops, 0, high, high + 1);
    forall d, r, pk, key | Has(defs, d, r) && pk in Bucket(st.byFk, r.id, key) && KeyAt(t, r, pk) != Some(key)
      ensures KeyReturns(t, ops, at, high + 1, r, pk, key)
    {
      assert KeyReturns(t, ops, at, high, r, pk, key);
    }
    forall i | at <= i < high + 1 && ops[i].FUpsert? && !ops[i].merge
      ensures InsertReturns(t, ops, at, high + 1, i)
    {
      if i < high {
        assert InsertReturns(t, ops, at, high, i);
      } else {
        ChainIsReplayAll(ops, high);
        assert FreshInsert(ReplayAll(ops[..high]), ops[high]);
      }
    }
  }

  /** One step of the chain from the front. */
  lemma {:induction false} ChainFront(t: Tables, ops: seq<RowOp>, at: nat, j: nat)
    requires at < j <= |ops|
    ensures Chain(t, ops, at, j) == Chain(Replay(t, ops[at]), ops, at + 1, j)
  {
  }

  lemma {:induction false} StaleStep(defs: seq<JoinDef>, st: State, ops: seq<RowOp>, at: nat, high: nat,
                                     d: JoinDef, r: RelatedDef, pk: PkValue, key: PkValue)
    requires OneRolePerKind(defs) && Log(defs, ops) && at < high <= |ops| && OnTrack(defs, st, ops, at, high)
    requires var st' := Apply(st, ops[at]);
      Has(defs, d, r) && pk in Bucket(st'.byFk, r.id, key) && KeyAt(TablesOf(st'), r, pk) != Some(key)
    ensures KeyReturns(TablesOf(Apply(st, ops[at])), ops, at + 1, high, r, pk, key)
  {
    var t, op := TablesOf(st), ops[at];
    assert OpIn(defs, op) && ObjectRow(op);
    ApplyReplays(st, op);
    IndexStep(defs, st, op, d, r, pk, key);
    var j: nat;
    if KeyAt(t, r, pk) != Some(key) {
      assert KeyReturns(t, ops, at, high, r, pk, key);
      j :| at < j <= high && KeyAt(Chain(t, ops, at, j), r, pk) == Some(key);
    } else {
      assert InsertReturns(t, ops, at, high, at);
      assert Chain(t, ops, at, at) == t;
      j :| at < j <= high && Lookup(Chain(t, ops, at, j).forn, (r.table, pk)) == Lookup(t.forn, (r.table, pk));
    }
    ChainFront(t, ops, at, j);
    assert Chain(Replay(t, op), ops, at + 1, at + 1) == Replay(t, op);
    assert j != at + 1;
  }

  lemma {:induction false} RowReturnsLater(t: Tables, t': Tables, ops: seq<RowOp>, at: nat, at': nat, high: nat)
    requires at <= at' <= high <= |ops| && RowReturns(t, ops, at, high) && t' == Chain(t, ops, at, at')
    ensures RowReturns(t', ops, at', high)
  {
    forall i | at' <= i < high && ops[i].FUpsert? && !ops[i].merge ensures InsertReturns(t', ops, at', high, i) {
      assert InsertReturns(t, ops, at, high, i);
      ChainSplit(t, ops, at, at', i);
      var k := (ops[i].r.table, ops[i].pk);
      if k in Chain(t', ops, at', i).forn {
        var j :| i < j <= high && Lookup(Chain(t, ops, at, j).forn, k) == Lookup(Chain(t, ops, at, i).forn, k);
        ChainSplit(t, ops, at, at', j);
      }
    }
  }

  lemma {:induction false} HandleOnTrack(defs: seq<JoinDef>, st: State, ops: seq<RowOp>, at: nat, high: nat)
    requires OneRolePerKind(defs) && Log(defs, ops) && at < high <= |ops| && OnTrack(defs, st, ops, at, high)
    ensures OnTrack(defs, Apply(st, ops[at]), ops, at + 1, high)
  {
    var op, st' := ops[at], Apply(st, ops[at]);
    assert OpIn(defs, op) && ObjectRow(op);
    ApplyReplays(st, op);
    ApplyWired(defs, st, op);
    ApplyIndexed(defs, st, op);
    ApplyKeepsObjects(st, op);
    ChainFront(TablesOf(st), ops, at, high);
    assert TablesOf(st') == Chain(TablesOf(st), ops, at, at + 1) by {
      assert Chain(TablesOf(st'), ops, at + 1, at + 1) == TablesOf(st');
    }
    RowReturnsLater(TablesOf(st), TablesOf(st'), ops, at, at + 1, high);
    forall d, r, pk, key | Has(defs, d, r) && pk in Bucket(st'.byFk, r.id, key) && KeyAt(TablesOf(st'), r,
      pk) != Some(key)
      ensures KeyReturns(TablesOf(st'), ops, at + 1, high, r, pk, key)
    {
      StaleStep(defs, st, ops, at, high, d, r, pk, key);
    }
  }

  /** A document composed through a stale index entry is emitted again later. */
  lemma {:induction false} ComposedOrAgain(defs: seq<JoinDef>, st: State, ops: seq<RowOp>, at: nat, high: nat,
                                           d: JoinDef, p: RowKey)
    requires OneRolePerKind(defs) && Log(defs, ops) && at <= high <= |ops| && OnTrack(defs, st, ops, at, high)
    requires d in defs && p.0 == d.table
    ensures IndexView(d, st, p) == TableView(d, TablesOf(st), p) || p in Emits(TablesOf(st), ops, at, high)
  {
    var t := TablesOf(st);
    if p in st.primary && p !in Emits(t, ops, at, high) {
      var row := st.primary[p].raw;
      forall i | 0 <= i < |d.related| ensures IndexedMatches(d, st, row)[i] == JoinedMatches(d, t, row)[i] {
        IndexedOrAgain(defs, st, ops, at, high, d, d.related[i], p);
      }
      assert IndexedMatches(d, st, row) == JoinedMatches(d, t, row);
    }
  }

  lemma {:induction false} IndexedOrAgain(defs: seq<JoinDef>, st: State, ops: seq<RowOp>, at: nat, high: nat,
                                          d: JoinDef, r: RelatedDef, p: RowKey)
    requires OneRolePerKind(defs) && Log(defs, ops) && at <= high <= |ops| && OnTrack(defs, st, ops, at, high)
    requires Has(defs, d, r) && p.0 == d.table && p in st.primary && p !in Emits(TablesOf(st), ops, at, high)
    ensures var key := KeyOf(st.primary[p].raw, r.from); IndexedRows(st, r, key) == JoinedRows(TablesOf(st), r, key)
  {
    var t, key := TablesOf(st), KeyOf(st.primary[p].raw, r.from);
    assert t.prim[p] == st.primary[p].raw;
    forall k | k in st.foreign && k.0 == r.table
      ensures k.1 in Bucket(st.byFk, r.id, key) <==> KeyOf(st.foreign[k], r.to) == key
    {
      assert k == (r.table, k.1);
      if k.1 in Bucket(st.byFk, r.id, key) && KeyAt(t, r, k.1) != Some(key) {
        assert KeyReturns(t, ops, at, high, r, k.1, key);
        var j :| at < j <= high && KeyAt(Chain(t, ops, at, j), r, k.1) == Some(key);
        NewKeyEmits(defs, t, ops, at, j, d, r, k.1, p);
        ChainSplit(t, ops, at, j, high);
        assert false;
      }
    }
  }

  /** A document whose embedded row an insert replaced is emitted again later. */
  lemma {:induction false} DisplacedAgain(defs: seq<JoinDef>, st: State, ops: seq<RowOp>, at: nat, high: nat,
                                          d: JoinDef, p: RowKey)
    requires OneRolePerKind(defs) && Log(defs, ops) && at < high <= |ops| && OnTrack(defs, st, ops, at, high)
    requires d in defs && p.0 == d.table && Displaces(TablesOf(st), ops[at], d, p)
    ensures p in Emits(Replay(TablesOf(st), ops[at]), ops, at + 1, high)
  {
    var t, op := TablesOf(st), ops[at];
    var t' := Replay(t, op);
    assert InsertReturns(t, ops, at, high, at);
    assert Chain(t, ops, at, at) == t;
    var k := (op.r.table, op.pk);
    var j :| at < j <= high && Lookup(Chain(t, ops, at, j).forn, k) == Lookup(t.forn, k);
    ChainFront(t, ops, at, j);
    assert t'.prim == t.prim;
    NewKeyEmits(defs, t', ops, at + 1, j, d, op.r, op.pk, p);
    ChainSplit(t', ops, at + 1, j, high);
  }

  /** Delivering what one operation emits keeps the sink catching up. */
  lemma {:induction false} HandleCatchesUp(defs: seq<JoinDef>, st: State, ops: seq<RowOp>, at: nat, high: nat,
                                           out: seq<Emission>, sink: Sink)
    requires OneRolePerKind(defs) && Log(defs, ops) && at < high <= |ops| && OnTrack(defs, st, ops, at, high)
    requires Announces(defs, Apply(st, ops[at]), Touched(TablesOf(st), ops[at]), out)
    requires SinkCatchesUp(defs, sink, TablesOf(st), ops, at, high)
    ensures SinkCatchesUp(defs, DeliverAll(sink, out), TablesOf(Apply(st, ops[at])), ops, at + 1, high)
  {
    var t, op, st' := TablesOf(st), ops[at], Apply(st, ops[at]);
    assert OpIn(defs, op) && ObjectRow(op);
    ApplyReplays(st, op);
    HandleOnTrack(defs, st, ops, at, high);
    forall d, p: RowKey | d in defs && p.0 == d.table
      ensures Shows(d, Lookup(DeliverAll(sink, out), p), TableView(d, TablesOf(st'), p))
           || p in Emits(TablesOf(st'), ops, at + 1, high)
    {
      DeliveredEntry(sink, out, p);
      if p in Touched(t, op) {
        var i :| 0 <= i < |out| && out[i].key == p;
        assert Shows(d, EntryOf(out[i]), IndexView(d, st', p));
        ComposedOrAgain(defs, st', ops, at + 1, high, d, p);
      } else if p !in Emits(t, ops, at, high) {
        if Displaces(t, op, d, p) {
          DisplacedAgain(defs, st, ops, at, high, d, p);
        } else {
          UntouchedView(defs, t, op, d, p);
        }
      }
    }
  }

  // ---- reloading ---------------------------------------------------------

  /** A fixpoint of replay back to `from`: restarting there changes no row. */
  ghost predicate Settled(t: Tables, ops: seq<RowOp>, from: nat, base: nat)
    requires from <= base <= |ops|
  {
    forall q :: from <= q <= base ==> Chain(t, ops, q, base) == t
  }

  /** In a log that inserts only absent rows, a stored row that an insert lands on
      has not been written since replay began. */
  lemma {:induction false} InsertOnUnwritten(defs: seq<JoinDef>, t: Tables, ops: seq<RowOp>, from: nat, i: nat)
    requires Log(defs, ops) && ObjectLog(ops) && from <= i < |ops| && ops[i].FUpsert? && !ops[i].merge
    requires (ops[i].r.table, ops[i].pk) in Chain(t, ops, from, i).forn
    ensures Lookup(Chain(t, ops, from, i).forn, (ops[i].r.table, ops[i].pk)) ==
      Lookup(t.forn, (ops[i].r.table, ops[i].pk))
  {
    var x := Forn((ops[i].r.table, ops[i].pk));
    var actual := Chain(NO_ROWS, ops, 0, from);
    ChainAt(t, ops, from, i, x);
    ChainAt(actual, ops, from, i, x);
    ChainSplit(NO_ROWS, ops, 0, from, i);
    ChainIsReplayAll(ops, i);
    assert FreshInsert(ReplayAll(ops[..i]), ops[i]);
  }

  lemma {:induction false} ReloadReturns(defs: seq<JoinDef>, t: Tables, ops: seq<RowOp>, from: nat, base: nat,
                                         high: nat)
    requires Log(defs, ops) && ObjectLog(ops) && from <= base <= high <= |ops|
    requires Settled(t, ops, from, base) && RowReturns(t, ops, base, high)
    ensures RowReturns(t, ops, from, high)
  {
    forall i | from <= i < high && ops[i].FUpsert? && !ops[i].merge ensures InsertReturns(t, ops, from, high, i) {
      var k := (ops[i].r.table, ops[i].pk);
      if k in Chain(t, ops, from, i).forn {
        if i < base {
          InsertOnUnwritten(defs, t, ops, from, i);
          assert Chain(t, ops, from, base) == t;
        } else {
          ChainSplit(t, ops, from, base, i);
          assert InsertReturns(t, ops, base, high, i);
          var j :| i < j <= high && Lookup(Chain(t, ops, base, j).forn, k) == Lookup(Chain(t, ops, base, i).forn, k);
          ChainSplit(t, ops, from, base, j);
        }
      }
    }
  }

  /** Reloading the flushed state and replaying from an earlier position is still
      on track. */
  lemma {:induction false} ReloadOnTrack(defs: seq<JoinDef>, st: State, ops: seq<RowOp>, from: nat, base: nat,
                                         high: nat)
    requires Log(defs, ops) && ObjectLog(ops) && from <= base <= high <= |ops|
    requires OnTrack(defs, st, ops, base, high) && Settled(TablesOf(st), ops, from, base)
    ensures OnTrack(defs, st, ops, from, high)
    ensures Emits(TablesOf(st), ops, base, high) <= Emits(TablesOf(st), ops, from, high)
  {
    var t := TablesOf(st);
    assert Chain(t, ops, from, base) == t;
    ChainSplit(t, ops, from, base, high);
    ReloadReturns(defs, t, ops, from, base, high);
    forall d, r, pk, key | Has(defs, d, r) && pk in Bucket(st.byFk, r.id, key) && KeyAt(t, r, pk) != Some(key)
      ensures KeyReturns(t, ops, from, high, r, pk, key)
    {
      assert KeyReturns(t, ops, base, high, r, pk, key);
      var j :| base < j <= high && KeyAt(Chain(t, ops, base, j), r, pk) == Some(key);
      ChainSplit(t, ops, from, base, j);
    }
  }

  /** A state reached by replaying from `base` is settled at its own position. */
  lemma {:induction false} SettledLater(t: Tables, ops: seq<RowOp>, from: nat, base: nat, pos: nat)
    requires ObjectLog(ops) && from <= base <= pos <= |ops| && Settled(t, ops, from, base)
    ensures Settled(Chain(t, ops, base, pos), ops, from, pos)
  {
    var u := Chain(t, ops, base, pos);
    forall q | from <= q <= pos ensures Chain(u, ops, q, pos) == u {
      if q <= base {
        assert Chain(t, ops, q, base) == t;
        ChainSplit(t, ops, q, base, pos);
        ReplayTwice(t, ops, q, pos);
      } else {
        ChainSplit(t, ops, base, q, pos);
        ReplayTwice(Chain(t, ops, base, q), ops, q, pos);
      }
    }
  }

  // ---- the run -----------------------------------------------------------

  function AfterQueue(sink: Sink, queue: seq<Out>): Sink
  {
    if queue == [] then sink
    else
      var before := AfterQueue(sink, queue[..|queue| - 1]);
      if queue[|queue| - 1].Doc? then Deliver(before, queue[|queue| - 1].e) else before
  }

  ghost predicate QueuedIn(queue: seq<Out>, ids: set<RowKey>) {
    forall i :: 0 <= i < |queue| && queue[i].Doc? ==> queue[i].e.key in ids
  }

  ghost predicate Recovering(defs: seq<JoinDef>, input: Input, s: Pipe) {
    && Ordered(input, s) && Covered(input, s)
    && Heading(defs, s.flushed, s.sink, input.ops, s.base, s.high)
    && Heading(defs, s.mem, AfterQueue(s.sink, s.queue), input.ops, s.pos, s.high)
    && TablesOf(s.mem) == Chain(TablesOf(s.flushed), input.ops, s.base, s.pos)
    && Settled(TablesOf(s.flushed), input.ops, Resume(input.wms, s.checkpoint), s.base)
    && QueuedIn(s.queue, Emits(TablesOf(s.flushed), input.ops, s.base, s.pos))
  }

  lemma {:induction false} AfterDocs(sink: Sink, queue: seq<Out>, out: seq<Emission>, at: nat)
    ensures AfterQueue(sink, queue + Docs(out, at)) == DeliverAll(AfterQueue(sink, queue), out)
  {
    if out == [] {
      assert queue + Docs(out, at) == queue;
    } else {
      var n := |out| - 1;
      AfterDocs(sink, queue, out[..n], at);
      var q := queue + Docs(out, at);
      assert q[..|q| - 1] == queue + Docs(out[..n], at);
      assert q[|q| - 1] == Doc(out[n], at);
    }
  }

  lemma {:induction false} AfterFirst(sink: Sink, queue: seq<Out>)
    requires queue != []
    ensures AfterQueue(sink, queue) ==
      AfterQueue(if queue[0].Doc? then Deliver(sink, queue[0].e) else sink, queue[1..])
  {
    var n := |queue| - 1;
    if n > 0 {
      AfterFirst(sink, queue[..n]);
      assert queue[..n][1..] == queue[1..][..n - 1];
    } else {
      assert queue[..n] == [] && queue[1..] == [];
    }
  }

  /** Catching up towards `high` is catching up towards any later position. */
  lemma {:induction false} HighHeading(defs: seq<JoinDef>, st: State, sink: Sink, ops: seq<RowOp>, at: nat, high: nat)
    requires OneRolePerKind(defs) && Log(defs, ops) && at <= high < |ops| && Heading(defs, st, sink, ops, at, high)
    ensures Heading(defs, st, sink, ops, at, high + 1)
  {
    HighMovesOn(defs, st, ops, at, high);
  }

  lemma {:induction false} HighRecovering(defs: seq<JoinDef>, input: Input, s: Pipe)
    requires Setting(defs, input) && Recovering(defs, input, s) && s.high < |input.ops|
    ensures Recovering(defs, input, s.(high := s.high + 1))
  {
    hide Heading, Log, Settled, QueuedIn, ApplyRange, MaxWm, Resume;
    HighHeading(defs, s.flushed, s.sink, input.ops, s.base, s.high);
    HighHeading(defs, s.mem, AfterQueue(s.sink, s.queue), input.ops, s.pos, s.high);
  }

  /** What one more operation adds to the chain and to what it emits. */
  lemma {:induction false} ChainBack(t: Tables, ops: seq<RowOp>, base: nat, pos: nat)
    requires base <= pos < |ops|
    ensures Chain(t, ops, base, pos + 1) == Replay(Chain(t, ops, base, pos), ops[pos])
    ensures Emits(t, ops, base, pos + 1) == Emits(t, ops, base, pos) + Touched(Chain(t, ops, base, pos), ops[pos])
  {
    var u := Chain(t, ops, base, pos);
    ChainSplit(t, ops, base, pos, pos + 1);
    assert Chain(Replay(u, ops[pos]), ops, pos + 1, pos + 1) == Replay(u, ops[pos]);
    assert Emits(Replay(u, ops[pos]), ops, pos + 1, pos + 1) == {};
  }

  lemma {:induction false} QueuedMore(queue: seq<Out>, out: seq<Emission>, at: nat, ids: set<RowKey>,
                                      touched: set<RowKey>)
    requires QueuedIn(queue, ids) && forall i :: 0 <= i < |out| ==> out[i].key in touched
    ensures QueuedIn(queue + Docs(out, at), ids + touched)
  {
    var q := queue + Docs(out, at);
    forall i | 0 <= i < |q| && q[i].Doc? ensures q[i].e.key in ids + touched {
      if i >= |queue| { assert q[i] == Docs(out, at)[i - |queue|]; }
    }
  }

  lemma {:induction false} HandleHeading(defs: seq<JoinDef>, ops: seq<RowOp>, s: Pipe, out: seq<Emission>)
    requires OneRolePerKind(defs) && Log(defs, ops) && s.pos < s.high <= |ops|
    requires Heading(defs, s.mem, AfterQueue(s.sink, s.queue), ops, s.pos, s.high)
    requires Announces(defs, Apply(s.mem, ops[s.pos]), Touched(TablesOf(s.mem), ops[s.pos]), out)
    ensures Heading(defs, Apply(s.mem, ops[s.pos]), AfterQueue(s.sink, s.queue + Docs(out, s.pos)), ops, s.pos + 1,
      s.high)
  {
    HandleOnTrack(defs, s.mem, ops, s.pos, s.high);
    HandleCatchesUp(defs, s.mem, ops, s.pos, s.high, out, AfterQueue(s.sink, s.queue));
    AfterDocs(s.sink, s.queue, out, s.pos);
  }

  lemma {:induction false} HandleQueued(defs: seq<JoinDef>, ops: seq<RowOp>, s: Pipe, out: seq<Emission>)
    requires s.base <= s.pos < |ops| && TablesOf(s.mem) == Chain(TablesOf(s.flushed), ops, s.base, s.pos)
    requires QueuedIn(s.queue, Emits(TablesOf(s.flushed), ops, s.base, s.pos))
    requires Announces(defs, Apply(s.mem, ops[s.pos]), Touched(TablesOf(s.mem), ops[s.pos]), out)
    ensures TablesOf(Apply(s.mem, ops[s.pos])) == Chain(TablesOf(s.flushed), ops, s.base, s.pos + 1)
    ensures QueuedIn(s.queue + Docs(out, s.pos), Emits(TablesOf(s.flushed), ops, s.base, s.pos + 1))
  {
    ChainBack(TablesOf(s.flushed), ops, s.base, s.pos);
    ApplyReplays(s.mem, ops[s.pos]);
    var touched := Touched(TablesOf(s.mem), ops[s.pos]);
    assert forall i :: 0 <= i < |out| ==> out[i].key in touched;
    QueuedMore(s.queue, out, s.pos, Emits(TablesOf(s.flushed), ops, s.base, s.pos), touched);
  }

  lemma {:induction false} HandleRecovering(defs: seq<JoinDef>, input: Input, s: Pipe, out: seq<Emission>)
    requires Setting(defs, input) && Recovering(defs, input, s) && s.pos < s.high
    requires Enabled(defs, input, s, Handle(out))
    ensures Recovering(defs, input, Do(defs, input, s, Handle(out)))
  {
    hide Heading, PhaseOk, ApplyRange, MaxWm, Announces, QueuedIn, Settled, Log;
    StepOrdered(defs, input, s, Handle(out));
    StepCovered(defs, input, s, Handle(out));
    HandleHeading(defs, input.ops, s, out);
    HandleQueued(defs, input.ops, s, out);
    HandledFields(defs, input, s, out);
  }

  lemma {:induction false} HandledFields(defs: seq<JoinDef>, input: Input, s: Pipe, out: seq<Emission>)
    requires Enabled(defs, input, s, Handle(out)) && s.pos < s.high
    ensures var s' := Do(defs, input, s, Handle(out));
      && s'.mem == Apply(s.mem, input.ops[s.pos]) && s'.pos == s.pos + 1 && s'.queue == s.queue + Docs(out, s.pos)
      && s'.sink == s.sink && s'.flushed == s.flushed && s'.base == s.base && s'.high == s.high
      && s'.checkpoint == s.checkpoint
  {
  }

  /** Delivering a document that will be emitted again leaves the sink catching up. */
  lemma {:induction false} TakenStillCatchesUp(defs: seq<JoinDef>, sink: Sink, e: Emission, t: Tables, ops: seq<RowOp>,
          at: nat, high: nat)
    requires at <= high <= |ops| && SinkCatchesUp(defs, sink, t, ops, at, high) && e.key in Emits(t, ops, at, high)
    ensures SinkCatchesUp(defs, Deliver(sink, e), t, ops, at, high)
  {
    hide TableView, Shows, Emits;
    forall d, p: RowKey | d in defs && p.0 == d.table
      ensures Shows(d, Lookup(Deliver(sink, e), p), TableView(d, t, p)) || p in Emits(t, ops, at, high)
    {
      if p != e.key { assert Lookup(Deliver(sink, e), p) == Lookup(sink, p); }
    }
  }

  lemma {:induction false} TakeRecovering(defs: seq<JoinDef>, input: Input, s: Pipe)
    requires Setting(defs, input) && Recovering(defs, input, s) && Enabled(defs, input, s, SinkTakes)
    ensures Recovering(defs, input, Do(defs, input, s, SinkTakes))
  {
    hide Log, OnTrack, Settled, MaxWm, ApplyRange, PhaseOk, SinkCatchesUp, Undelivered, AfterQueue, Emits, Chain;
    StepOrdered(defs, input, s, SinkTakes);
    AfterFirst(s.sink, s.queue);
    var t := TablesOf(s.flushed);
    ChainSplit(t, input.ops, s.base, s.pos, s.high);
    if s.queue[0].Doc? {
      TakenStillCatchesUp(defs, s.sink, s.queue[0].e, t, input.ops, s.base, s.high);
    }
  }

  lemma {:induction false} FlushRecovering(defs: seq<JoinDef>, input: Input, s: Pipe)
    requires Setting(defs, input) && Recovering(defs, input, s) && Enabled(defs, input, s, Flush)
    ensures Recovering(defs, input, Do(defs, input, s, Flush))
  {
    StepOrdered(defs, input, s, Flush);
    SettingLog(defs, input);
    SettledLater(TablesOf(s.flushed), input.ops, Resume(input.wms, s.checkpoint), s.base, s.pos);
    assert s.queue == [];
  }

  lemma {:induction false} CrashRecovering(defs: seq<JoinDef>, input: Input, s: Pipe)
    requires Setting(defs, input) && Recovering(defs, input, s)
    ensures Recovering(defs, input, Do(defs, input, s, Crash))
  {
    var from := Resume(input.wms, s.checkpoint);
    StepOrdered(defs, input, s, Crash);
    SettingLog(defs, input);
    ReloadOnTrack(defs, s.flushed, input.ops, from, s.base, s.high);
  }

  lemma {:induction false} HandleAnyRecovering(defs: seq<JoinDef>, input: Input, s: Pipe, out: seq<Emission>)
    requires Setting(defs, input) && Recovering(defs, input, s) && Enabled(defs, input, s, Handle(out))
    ensures Recovering(defs, input, Do(defs, input, s, Handle(out)))
  {
    hide Heading, Settled, QueuedIn, Ordered, Announces, Log;
    if s.pos < s.high {
      HandleRecovering(defs, input, s, out);
    } else {
      var s1 := s.(high := s.high + 1);
      HighRecovering(defs, input, s);
      HandleRecovering(defs, input, s1, out);
      assert Do(defs, input, s, Handle(out)) == Do(defs, input, s1, Handle(out));
    }
  }

  lemma {:induction false} BarrierRecovering(defs: seq<JoinDef>, input: Input, s: Pipe)
    requires Setting(defs, input) && Recovering(defs, input, s) && Enabled(defs, input, s, SendBarrier)
    ensures Recovering(defs, input, Do(defs, input, s, SendBarrier))
  {
    hide Heading, Log, Settled, MaxWm, ApplyRange;
    StepOrdered(defs, input, s, SendBarrier);
    var q := s.queue + [Barrier(s.nextSeq)];
    assert q[..|q| - 1] == s.queue;
  }

  lemma {:induction false} CheckpointRecovering(defs: seq<JoinDef>, input: Input, s: Pipe, w: nat)
    requires Setting(defs, input) && Recovering(defs, input, s) && Enabled(defs, input, s, Checkpoint(w))
    ensures Recovering(defs, input, Do(defs, input, s, Checkpoint(w)))
  {
    StepOrdered(defs, input, s, Checkpoint(w));
    StepCovered(defs, input, s, Checkpoint(w));
    ResumeGrows(input.wms, s.checkpoint, w);
  }

  lemma {:induction false} StepRecovering(defs: seq<JoinDef>, input: Input, s: Pipe, step: Step)
    requires Setting(defs, input) && Recovering(defs, input, s) && Enabled(defs, input, s, step)
    ensures Recovering(defs, input, Do(defs, input, s, step))
  {
    match step {
      case Handle(out) => HandleAnyRecovering(defs, input, s, out);
      case SendBarrier => BarrierRecovering(defs, input, s);
      case SinkTakes => TakeRecovering(defs, input, s);
      case Flush => FlushRecovering(defs, input, s);
      case Publish => StepOrdered(defs, input, s, Publish);
      case Checkpoint(w) => CheckpointRecovering(defs, input, s, w);
      case Crash => CrashRecovering(defs, input, s);
    }
  }

  lemma {:induction false} ResumeGrows(wms: seq<nat>, c: nat, w: nat)
    requires c <= w
    ensures Resume(wms, c) <= Resume(wms, w)
  {
    if wms != [] { ResumeGrows(wms[..|wms| - 1], c, w); }
  }

  lemma {:induction false} MoveRecovering(defs: seq<JoinDef>, input: Input, s: Pipe, s': Pipe)
    requires Setting(defs, input) && Recovering(defs, input, s) && Moves(defs, input, s, s')
    ensures Recovering(defs, input, s')
  {
    var step :| Enabled(defs, input, s, step) && s' == Do(defs, input, s, step);
    StepRecovering(defs, input, s, step);
  }

  lemma {:induction false} RunRecovering(defs: seq<JoinDef>, input: Input, run: seq<Pipe>, n: nat)
    requires Setting(defs, input) && IsRun(defs, input, run) && n < |run|
    ensures Recovering(defs, input, run[n])
  {
    hide Recovering;
    if n == 0 {
      BootRecovering(defs, input);
    } else {
      RunRecovering(defs, input, run, n - 1);
      MoveRecovering(defs, input, run[n - 1], run[n]);
    }
  }

  lemma {:induction false} BootRecovering(defs: seq<JoinDef>, input: Input)
    requires Setting(defs, input)
    ensures Recovering(defs, input, BOOT)
  {
    NothingToResume(input.wms);
    assert TablesOf(EMPTY_STATE) == NO_ROWS;
    assert forall d, r, key :: Referencing(NO_ROWS, d, r, {key}) == {};
    assert Wired(defs, EMPTY_STATE);
    forall d, p: RowKey | d in defs && p.0 == d.table
      ensures Shows(d, Lookup(BOOT.sink, p), TableView(d, NO_ROWS, p)) {}
  }

  // ---- the theorem -------------------------------------------------------

  /** Rows and exact indexes determine the state. */
  lemma {:induction false} StateFromTables(defs: seq<JoinDef>, st: State, st': State)
    requires OneRolePerKind(defs) && Wired(defs, st) && Wired(defs, st') && ForeignExact(defs, st)
    requires ForeignExact(defs, st')
    requires TablesOf(st) == TablesOf(st')
    ensures st == st'
  {
    hide Wired, ForeignExact, OneRolePerKind;
    forall p | p in st.primary ensures p in st'.primary && st.primary[p] == st'.primary[p] {
      SamePrimary(defs, st, st', p);
    }
    forall p | p in st'.primary ensures p in st.primary {
      SamePrimary(defs, st', st, p);
    }
    assert st.primary == st'.primary;
    IndexesFromTables(defs, st, st');
  }

  lemma {:induction false} SamePrimary(defs: seq<JoinDef>, st: State, st': State, p: RowKey)
    requires OneRolePerKind(defs) && Wired(defs, st) && Wired(defs, st') && TablesOf(st) == TablesOf(st')
    requires p in st.primary
    ensures p in st'.primary && st.primary[p] == st'.primary[p]
  {
    hide ReverseExact, NoEmpties, OneRolePerKind, FksFrom;
    assert p in Raws(st.primary) && p in Raws(st'.primary);
    assert Raws(st.primary)[p] == Raws(st'.primary)[p];
    assert StoredWell(defs, st, p);
    var d :| d in defs && d.table == p.0 && st.primary[p].fks == FksFrom(d.related, st.primary[p].raw);
    PrimaryFks(defs, st', d, p);
  }

  lemma {:induction false} IndexesFromTables(defs: seq<JoinDef>, st: State, st': State)
    requires Wired(defs, st) && Wired(defs, st') && ForeignExact(defs, st) && ForeignExact(defs, st')
    requires TablesOf(st) == TablesOf(st')
    ensures st.reverse == st'.reverse && st.byFk == st'.byFk
  {
    forall id, key ensures Bucket(st.reverse, id, key) == Bucket(st'.reverse, id, key) {
      SameReverse(defs, st, st', id, key);
    }
    Extensional(st.reverse, st'.reverse);
    forall id, key ensures Bucket(st.byFk, id, key) == Bucket(st'.byFk, id, key) {
      SameByFk(defs, st, st', id, key);
    }
    Extensional(st.byFk, st'.byFk);
  }

  lemma {:induction false} SameReverse(defs: seq<JoinDef>, st: State, st': State, id: string, key: PkValue)
    requires ReverseExact(defs, st) && ReverseExact(defs, st') && TablesOf(st) == TablesOf(st')
    ensures Bucket(st.reverse, id, key) == Bucket(st'.reverse, id, key)
  {
    if IsRelatedId(defs, id) {
      var d, r :| Has(defs, d, r) && r.id == id;
      assert Bucket(st.reverse, r.id, key) == Referencing(TablesOf(st), d, r, {key});
      assert Bucket(st'.reverse, r.id, key) == Referencing(TablesOf(st'), d, r, {key});
    }
  }

  lemma {:induction false} SameByFk(defs: seq<JoinDef>, st: State, st': State, id: string, key: PkValue)
    requires Wired(defs, st) && Wired(defs, st') && ForeignExact(defs, st) && ForeignExact(defs, st')
    requires TablesOf(st) == TablesOf(st')
    ensures Bucket(st.byFk, id, key) == Bucket(st'.byFk, id, key)
  {
    if IsRelatedId(defs, id) {
      var d, r :| Has(defs, d, r) && r.id == id;
      forall pk ensures pk in Bucket(st.byFk, id, key) <==> pk in Bucket(st'.byFk, id, key) {
        assert pk in Bucket(st.byFk, r.id, key) <==> KeyAt(TablesOf(st), r, pk) == Some(key);
        assert pk in Bucket(st'.byFk, r.id, key) <==> KeyAt(TablesOf(st'), r, pk) == Some(key);
      }
    }
  }

  /** Caught up means no stale index entry is left. */
  lemma {:induction false} CaughtUpExact(defs: seq<JoinDef>, st: State, ops: seq<RowOp>, high: nat)
    requires OneRolePerKind(defs) && high <= |ops| && OnTrack(defs, st, ops, high, high)
    ensures ForeignExact(defs, st)
  {
    forall d, r, pk, key | Has(defs, d, r)
      ensures pk in Bucket(st.byFk, r.id, key) <==> KeyAt(TablesOf(st), r, pk) == Some(key)
    {
      assert !KeyReturns(TablesOf(st), ops, high, high, r, pk, key);
    }
  }

  /** Any number of crashes, at any points: whenever replay has reached the
      furthest position ever handled, rows and both indexes are those of a run
      that never crashed, and once the queue has drained the sink is the
      from-scratch join of the input up to there. */
  lemma {:induction false} ReplayConverges(defs: seq<JoinDef>, input: Input, run: seq<Pipe>, n: nat)
    requires Setting(defs, input) && IsRun(defs, input, run) && n < |run|
    requires run[n].pos == run[n].high
    ensures run[n].high <= |input.ops|
    ensures run[n].mem == ApplyAll(input.ops[..run[n].high])
    ensures run[n].queue == [] ==> SinkIsJoin(defs, run[n].sink, ReplayAll(input.ops[..run[n].high]))
  {
    RunRecovering(defs, input, run, n);
    var s, ops := run[n], input.ops;
    CaughtUpExact(defs, s.mem, ops, s.high);
    ChainIsReplayAll(ops, s.high);
    assert Chain(TablesOf(s.mem), ops, s.high, s.high) == TablesOf(s.mem);
    LogPrefix(defs, ops, s.high);
    StateInvariants(defs, ops[..s.high]);
    StateFromTables(defs, s.mem, ApplyAll(ops[..s.high]));
  }
}
