/** Nothing gets stuck: from every state a run can come to, whatever crashed before, the
    pipeline can go on to handle, deliver, flush and checkpoint the whole input. */
module Progress {
  import opened Json
  import opened Keys
  import opened Config
  import opened JoinModel
  import opened Incremental
  import opened Pipeline
  import opened Recovery
  import Batches

  function Last(run: seq<Pipe>): Pipe {
    if run == [] then BOOT else run[|run| - 1]
  }

  /** `longer` is `run` and then steps without a crash. */
  ghost predicate Continues(defs: seq<JoinDef>, input: Input, run: seq<Pipe>, longer: seq<Pipe>) {
    && run <= longer && IsRun(defs, input, longer)
    && (forall k :: 0 < |run| <= k < |longer| ==> Works(defs, input, longer[k - 1], longer[k]))
  }

  lemma {:induction false} GoOn(defs: seq<JoinDef>, input: Input, run: seq<Pipe>, step: Step)
    returns (longer: seq<Pipe>)
    requires IsRun(defs, input, run) && !step.Crash? && Enabled(defs, input, Last(run), step)
    ensures Continues(defs, input, run, longer) && Last(longer) == Do(defs, input, Last(run), step)
  {
    hide Enabled, Do;
    longer := run + [Do(defs, input, Last(run), step)];
    assert Works(defs, input, Last(run), Last(longer)) && Moves(defs, input, Last(run), Last(longer));
    forall i | 0 < i < |longer| ensures Moves(defs, input, longer[i - 1], longer[i]) {
      if i < |run| { assert Moves(defs, input, run[i - 1], run[i]); }
    }
  }

  lemma {:induction false} ContinuesOn(defs: seq<JoinDef>, input: Input, run: seq<Pipe>, mid: seq<Pipe>,
                                       longer: seq<Pipe>)
    requires Continues(defs, input, run, mid) && Continues(defs, input, mid, longer)
    ensures Continues(defs, input, run, longer)
  {
    hide Works, IsRun;
    forall k | 0 < |run| <= k < |longer| ensures Works(defs, input, longer[k - 1], longer[k]) {
      if k < |mid| { assert Works(defs, input, mid[k - 1], mid[k]); }
    }
  }

  // ---- something can always be put out ---------------------------------------

  ghost predicate PrimaryObjects(st: State) {
    forall p :: p in st.primary ==> st.primary[p].raw.Obj?
  }

  lemma {:induction false} SomeFound(matches: seq<map<RowKey, Json>>) returns (found: seq<seq<Json>>)
    ensures |found| == |matches| && forall i :: 0 <= i < |found| ==> FoundIn(found[i], matches[i])
  {
    hide FoundIn;
    if matches == [] {
      found := [];
    } else {
      var rest := SomeFound(matches[1..]);
      var first := Batches.SomeListing(matches[0]);
      found := [first] + rest;
    }
  }

  /** Something to send for one primary. */
  lemma {:induction false} SomeEmission(defs: seq<JoinDef>, st: State, p: RowKey) returns (e: Emission)
    requires OneRolePerKind(defs) && PrimaryObjects(st)
    ensures e.key == p && forall d :: d in defs && d.table == p.0 ==> Shows(d, EntryOf(e), IndexView(d, st, p))
  {
    hide FoundIn, OneRolePerKind, IndexedMatches, Embed;
    if d :| d in defs && d.table == p.0 && p in st.primary {
      var v := IndexView(d, st, p).value;
      var found := SomeFound(v.matches);
      e := Upsert(p, Obj(Embed(d.related, v.row.fields, found)));
      assert RendersWith(d, e.doc, v, found);
      forall d' | d' in defs && d'.table == p.0 ensures d' == d { SameTableSameDef(defs, d, d'); }
    } else {
      e := Tombstone(p);
    }
  }

  lemma {:induction false} SomeAnnouncement(defs: seq<JoinDef>, st: State, touched: set<RowKey>)
    returns (out: seq<Emission>)
    requires OneRolePerKind(defs) && PrimaryObjects(st)
    ensures Announces(defs, st, touched, out)
    decreases touched
  {
    hide Shows, OneRolePerKind, PrimaryObjects;
    if touched == {} {
      out := [];
    } else {
      var p :| p in touched;
      var rest := SomeAnnouncement(defs, st, touched - {p});
      var e := SomeEmission(defs, st, p);
      out := rest + [e];
      forall q ensures q in touched <==> exists i :: 0 <= i < |out| && out[i].key == q {
        if q == p { assert out[|rest|].key == q; }
        if q in touched - {p} {
          var i :| 0 <= i < |rest| && rest[i].key == q;
          assert out[i].key == q;
        }
      }
    }
  }

  // ---- what every run keeps ------------------------------------------------------

  /** Stored primaries are objects, and the run began where the source's watermark says. */
  ghost predicate Grounded(input: Input, s: Pipe) {
    && PrimaryObjects(s.mem) && PrimaryObjects(s.flushed)
    && s.start <= |input.wms| && (s.start > 0 ==> 0 < input.wms[s.start - 1] <= s.checkpoint)
  }

  lemma {:induction false} ApplyPrimaryObjects(st: State, op: RowOp)
    requires PrimaryObjects(st) && (op.PUpsert? ==> op.row.Obj?)
    ensures PrimaryObjects(Apply(st, op))
  {
  }

  lemma {:induction false} RunGrounded(defs: seq<JoinDef>, input: Input, run: seq<Pipe>, n: nat)
    requires Setting(defs, input) && IsRun(defs, input, run) && n < |run|
    ensures Grounded(input, run[n])
  {
    hide Enabled, Do, Apply, Setting, PrimaryObjects;
    if n == 0 {
      assert PrimaryObjects(EMPTY_STATE) by { NoPrimaries(); }
    } else {
      RunGrounded(defs, input, run, n - 1);
      assert Moves(defs, input, run[n - 1], run[n]);
      var step :| Enabled(defs, input, run[n - 1], step) && run[n] == Do(defs, input, run[n - 1], step);
      StepGrounded(defs, input, run[n - 1], step);
    }
  }

  lemma {:induction false} NoPrimaries()
    ensures PrimaryObjects(EMPTY_STATE)
  {
  }

  lemma {:induction false} StepGrounded(defs: seq<JoinDef>, input: Input, s: Pipe, step: Step)
    requires Setting(defs, input) && Grounded(input, s) && Enabled(defs, input, s, step)
    ensures Grounded(input, Do(defs, input, s, step))
  {
    hide Apply, Announces, PrimaryObjects, Touched;
    if step.Handle? {
      SettingLog(defs, input);
      ApplyPrimaryObjects(s.mem, input.ops[s.pos]);
    }
  }

  // ---- going on ----------------------------------------------------------------

  /** The sink takes everything queued. */
  lemma {:induction false} Drain(defs: seq<JoinDef>, input: Input, run: seq<Pipe>) returns (longer: seq<Pipe>)
    requires IsRun(defs, input, run)
    ensures Continues(defs, input, run, longer)
    ensures var s, s' := Last(run), Last(longer);
      s' == s.(queue := [], sink := s'.sink, sinkProgress := s'.sinkProgress, taken := s'.taken)
    decreases |Last(run).queue|
  {
    hide IsRun, Continues, Deliver;
    if Last(run).queue == [] {
      SameRun(defs, input, run);
      longer := run;
    } else {
      var next := GoOn(defs, input, run, SinkTakes);
      RunOf(defs, input, run, next);
      longer := Drain(defs, input, next);
      ContinuesOn(defs, input, run, next, longer);
    }
  }

  lemma {:induction false} SameRun(defs: seq<JoinDef>, input: Input, run: seq<Pipe>)
    requires IsRun(defs, input, run)
    ensures Continues(defs, input, run, run) && run != []
  {
  }

  lemma {:induction false} RunOf(defs: seq<JoinDef>, input: Input, run: seq<Pipe>, longer: seq<Pipe>)
    requires Continues(defs, input, run, longer)
    ensures IsRun(defs, input, longer) && longer != []
  {
  }

  /** A barrier under way is reached, the state flushed and the watermark published. */
  lemma {:induction false} Settle(defs: seq<JoinDef>, input: Input, run: seq<Pipe>) returns (longer: seq<Pipe>)
    requires input.Valid() && IsRun(defs, input, run)
    ensures Continues(defs, input, run, longer)
    ensures var s, s' := Last(run), Last(longer);
      && s'.phase.Idle? && s'.queue == [] && s'.pos == s.pos && s'.nextSeq == s.nextSeq
      && (!s.pendingWork || !s.phase.Idle? ==> !s'.pendingWork)
  {
    hide IsRun, Continues, ApplyRange, MaxWm, Published;
    var drained := Drain(defs, input, run);
    RunOf(defs, input, run, drained);
    if Last(run).phase.Idle? { return drained; }
    var flushed := drained;
    if Last(run).phase.Waiting? {
      WatermarkOrdering(defs, input, drained, |drained| - 1);
      flushed := GoOn(defs, input, drained, Flush);
      RunOf(defs, input, drained, flushed);
      ContinuesOn(defs, input, run, drained, flushed);
    }
    longer := GoOn(defs, input, flushed, Publish);
    ContinuesOn(defs, input, run, flushed, longer);
  }

  /** The rest of the input is handled. */
  lemma {:induction false} HandleRest(defs: seq<JoinDef>, input: Input, run: seq<Pipe>) returns (longer: seq<Pipe>)
    requires Setting(defs, input) && IsRun(defs, input, run) && Last(run).phase.Idle?
    requires Last(run).pos <= |input.ops|
    ensures Continues(defs, input, run, longer)
    ensures Last(longer).phase.Idle? && Last(longer).pos == |input.ops| && Last(longer).nextSeq == Last(run).nextSeq
    decreases |input.ops| - Last(run).pos
  {
    hide IsRun, Continues, Announces, Apply, Touched, PrimaryObjects, Increasing, Log;
    var s := Last(run);
    SameRun(defs, input, run);
    if s.pos == |input.ops| {
      longer := run;
    } else {
      RunGrounded(defs, input, run, |run| - 1);
      SettingLog(defs, input);
      ApplyPrimaryObjects(s.mem, input.ops[s.pos]);
      var out := SomeAnnouncement(defs, Apply(s.mem, input.ops[s.pos]), Touched(TablesOf(s.mem), input.ops[s.pos]));
      var next := GoOn(defs, input, run, Handle(out));
      RunOf(defs, input, run, next);
      longer := HandleRest(defs, input, next);
      ContinuesOn(defs, input, run, next, longer);
    }
  }

  /** All input is handled, flushed and announced to the source, and the source has taken
      it over. */
  ghost predicate Through(input: Input, s: Pipe) {
    && s.phase.Idle? && s.queue == [] && !s.pendingWork && s.pos == |input.ops|
    && s.checkpoint >= s.sourceProgress
  }

  lemma {:induction false} GoThrough(defs: seq<JoinDef>, input: Input, run: seq<Pipe>) returns (longer: seq<Pipe>)
    requires Setting(defs, input) && IsRun(defs, input, run) && Last(run).nextSeq < MAX_U64
    ensures Continues(defs, input, run, longer) && Through(input, Last(longer))
  {
    hide IsRun, Continues, Increasing, Log, Published;
    var idle := Settle(defs, input, run);
    RunOf(defs, input, run, idle);
    WatermarkOrdering(defs, input, idle, |idle| - 1);
    var handled := HandleRest(defs, input, idle);
    RunOf(defs, input, idle, handled);
    ContinuesOn(defs, input, run, idle, handled);
    var sent := handled;
    if Last(handled).pendingWork {
      sent := GoOn(defs, input, handled, SendBarrier);
      RunOf(defs, input, handled, sent);
      ContinuesOn(defs, input, run, handled, sent);
    }
    var settled := Settle(defs, input, sent);
    RunOf(defs, input, sent, settled);
    ContinuesOn(defs, input, run, sent, settled);
    if Last(settled).checkpoint >= Last(settled).sourceProgress { return settled; }
    longer := GoOn(defs, input, settled, Checkpoint(Last(settled).sourceProgress));
    ContinuesOn(defs, input, run, settled, longer);
  }

  /** The engine stands where a run that never crashed stands after the whole input, the
      flushed state with it, the sink is the from-scratch join, and no operation that
      carries a watermark would be read again. */
  ghost predicate Complete(defs: seq<JoinDef>, input: Input, s: Pipe) {
    && s.queue == [] && s.mem == s.flushed == ApplyAll(input.ops)
    && SinkIsJoin(defs, s.sink, ReplayAll(input.ops))
    && (forall i :: 0 <= i < |input.wms| ==> input.wms[i] <= s.checkpoint)
  }

  /** From every state of every run, through any crashes, as long as the barrier counter
      is not used up. */
  lemma {:induction false} CanAlwaysComplete(defs: seq<JoinDef>, input: Input, run: seq<Pipe>)
    requires Setting(defs, input) && IsRun(defs, input, run) && Last(run).nextSeq < MAX_U64
    ensures exists longer :: Continues(defs, input, run, longer) && Complete(defs, input, Last(longer))
  {
    hide IsRun, Continues, SinkIsJoin, Complete;
    var longer := GoThrough(defs, input, run);
    RunOf(defs, input, run, longer);
    ThroughIsComplete(defs, input, longer);
  }

  lemma {:induction false} ThroughIsComplete(defs: seq<JoinDef>, input: Input, run: seq<Pipe>)
    requires Setting(defs, input) && IsRun(defs, input, run) && Through(input, Last(run))
    ensures Complete(defs, input, Last(run))
  {
    hide IsRun, SinkIsJoin, Log, Delivered, PrimaryObjects, OneRolePerKind, Resume, Increasing, Published, MaxWm,
      Undelivered, Grounded;
    SameRun(defs, input, run);
    var n, s := |run| - 1, Last(run);
    WatermarkOrdering(defs, input, run, n);
    FlushedIsDelivered(defs, input, run, n, n);
    RunGrounded(defs, input, run, n);
    AllCovered(input, s);
    ReplayConverges(defs, input, run, n);
    assert input.ops[..s.high] == input.ops;
  }

  lemma {:induction false} AllCovered(input: Input, s: Pipe)
    requires Increasing(input.wms) && Grounded(input, s) && Published(input, s) && s.published == |input.wms|
    requires s.checkpoint >= s.sourceProgress
    ensures forall i :: 0 <= i < |input.wms| ==> input.wms[i] <= s.checkpoint
  {
    hide PrimaryObjects;
    forall i | 0 <= i < |input.wms| ensures input.wms[i] <= s.checkpoint {
      if i < s.start - 1 { assert input.wms[i] == 0 || input.wms[i] < input.wms[s.start - 1]; }
    }
  }
}
