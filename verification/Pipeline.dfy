/** The two-stage durability protocol around the join engine: input, output bus,
    sink progress, flushed state, source progress and the source's checkpoint,
    with a crash possible between any two steps. */
module Pipeline {
  import opened Json
  import opened Keys
  import opened Config
  import opened JoinModel
  import opened Incremental
  import opened Replays

  /** A document on its way to the sink, tagged with the input that produced it,
      or a join barrier. */
  datatype Out = Doc(e: Emission, at: nat) | Barrier(n: nat)

  /** Between events, waiting for the sink to reach a barrier, or flushed and
      about to publish. */
  datatype Phase = Idle | Waiting(barrier: nat, wm: nat) | Flushed(wm: nat)

  datatype Pipe = Pipe(
    mem: State,
    pos: nat,                 // operations handled so far in this run end here
    queue: seq<Out>,
    sink: Sink,
    sinkProgress: nat,
    flushed: State,
    sourceProgress: nat,
    checkpoint: nat,          // the watermark the source has made durable
    nextSeq: nat,
    pendingWm: nat,
    pendingWork: bool,
    phase: Phase,
    // History, for stating what holds:
    start: nat,               // where this run began
    published: nat,           // the prefix `sourceProgress` stands for
    base: nat,                // where `flushed` stands in this run
    high: nat,                // the furthest position any run has handled
    reach: nat,               // the longest prefix any flush has covered; no crash lowers it
    outputs: set<(nat, seq<Emission>)>,  // what each handling of an operation put out
    taken: set<Out>)          // what the sink has taken, in any run

  datatype Step =
    | Handle(out: seq<Emission>)
    | SendBarrier
    | SinkTakes
    | Flush
    | Publish
    | Checkpoint(w: nat)
    | Crash

  const MAX_U64: nat := 0xFFFF_FFFF_FFFF_FFFF

  function Max(a: nat, b: nat): nat {
    if a < b then b else a
  }

  /** The input: operations and the watermark each carries, 0 for none. */
  datatype Input = Input(ops: seq<RowOp>, wms: seq<nat>) {
    ghost predicate Valid() {
      |ops| == |wms|
    }
  }

  function MaxWm(wms: seq<nat>, a: nat, b: nat): nat
    requires a <= b <= |wms|
  {
    if a == b then 0 else Max(MaxWm(wms, a, b - 1), wms[b - 1])
  }

  /** Where a source with durable watermark `c` resumes: just after the last
      operation whose watermark it covers. */
  function Resume(wms: seq<nat>, c: nat): (r: nat)
    ensures r <= |wms|
    ensures r > 0 ==> 0 < wms[r - 1] <= c
    ensures forall i :: r <= i < |wms| ==> wms[i] == 0 || wms[i] > c
  {
    if wms == [] then 0
    else if 0 < wms[|wms| - 1] <= c then |wms|
    else Resume(wms[..|wms| - 1], c)
  }

  function Docs(out: seq<Emission>, at: nat): (docs: seq<Out>)
    ensures |docs| == |out|
  {
    seq(|out|, i requires 0 <= i < |out| => Doc(out[i], at))
  }

  ghost predicate Enabled(defs: seq<JoinDef>, input: Input, s: Pipe, step: Step) {
    match step
    case Handle(out) =>
      && s.phase.Idle? && s.pos < |input.ops| == |input.wms|
      && Announces(defs, Apply(s.mem, input.ops[s.pos]), Touched(TablesOf(s.mem), input.ops[s.pos]), out)
    case SendBarrier => s.phase.Idle? && s.pendingWork && s.nextSeq < MAX_U64
    case SinkTakes => s.queue != []
    case Flush => s.phase.Waiting? && s.sinkProgress >= s.phase.barrier
    case Publish => s.phase.Flushed?
    case Checkpoint(w) => s.checkpoint < w <= s.sourceProgress
    case Crash => true
  }

  ghost function Do(defs: seq<JoinDef>, input: Input, s: Pipe, step: Step): Pipe
    requires Enabled(defs, input, s, step)
  {
    match step
    case Handle(out) =>
      s.(mem := Apply(s.mem, input.ops[s.pos]),
         queue := s.queue + Docs(out, s.pos),
         pos := s.pos + 1,
         pendingWork := true,
         pendingWm := Max(s.pendingWm, input.wms[s.pos]),
         high := Max(s.high, s.pos + 1),
         outputs := s.outputs + {(s.pos, out)})
    case SendBarrier =>
      s.(queue := s.queue + [Barrier(s.nextSeq)], phase := Waiting(s.nextSeq, s.pendingWm), nextSeq := s.nextSeq + 1)
    case SinkTakes =>
      var rest := s.(queue := s.queue[1..], taken := s.taken + {s.queue[0]});
      if s.queue[0].Doc? then rest.(sink := Deliver(s.sink, s.queue[0].e))
      else rest.(sinkProgress := Max(s.sinkProgress, s.queue[0].n))
    case Flush => s.(flushed := s.mem, phase := Flushed(s.phase.wm), base := s.pos, reach := Max(s.reach, s.pos))
    case Publish =>
      s.(sourceProgress := Max(s.sourceProgress, s.phase.wm), published := s.base,
         phase := Idle, pendingWork := false, pendingWm := 0)
    case Checkpoint(w) => s.(checkpoint := w)
    case Crash =>
      var from := Resume(input.wms, s.checkpoint);
      Pipe(s.flushed, from, [], s.sink, 0, s.flushed, 0, s.checkpoint, 1, 0, false, Idle, from, from, from, s.high,
           s.reach, s.outputs, s.taken)
  }

  const BOOT := Pipe(EMPTY_STATE, 0, [], map[], 0, EMPTY_STATE, 0, 0, 1, 0, false, Idle, 0, 0, 0, 0, 0, {}, {})

  /** A run: states linked by enabled steps. */
  ghost predicate IsRun(defs: seq<JoinDef>, input: Input, run: seq<Pipe>) {
    && |run| > 0 && run[0] == BOOT
    && (forall i :: 0 < i < |run| ==> Moves(defs, input, run[i - 1], run[i]))
  }

  ghost predicate Moves(defs: seq<JoinDef>, input: Input, s: Pipe, s': Pipe) {
    exists step :: Enabled(defs, input, s, step) && s' == Do(defs, input, s, step)
  }

  /** Watermarks, where present, strictly increase along the input. */
  ghost predicate Increasing(wms: seq<nat>) {
    forall i, j :: 0 <= i < j < |wms| && wms[i] > 0 && wms[j] > 0 ==> wms[i] < wms[j]
  }

  /** The engine's state after the operations `a..b`. */
  function ApplyRange(st: State, ops: seq<RowOp>, a: nat, b: nat): State
    requires a <= b <= |ops|
    decreases b - a
  {
    if a == b then st else Apply(ApplyRange(st, ops, a, b - 1), ops[b - 1])
  }

  // ---- ordering of the three progress marks ------------------------------

  ghost predicate DocsOnly(queue: seq<Out>) {
    forall i :: 0 <= i < |queue| ==> queue[i].Doc?
  }

  /** What is still queued comes from input the flushed state does not cover. */
  ghost predicate Undelivered(queue: seq<Out>, from: nat, to: nat) {
    forall i :: 0 <= i < |queue| && queue[i].Doc? ==> from <= queue[i].at < to
  }

  ghost predicate PhaseOk(s: Pipe) {
    match s.phase
    case Idle => DocsOnly(s.queue) && s.published == s.base && (!s.pendingWork ==> s.base == s.pos)
    case Waiting(b, wm) =>
      && b + 1 == s.nextSeq && wm == s.pendingWm && s.published == s.base
      && (s.sinkProgress < b ==>
        s.queue != [] && DocsOnly(s.queue[..|s.queue| - 1]) && s.queue[|s.queue| - 1] == Barrier(b))
      && (s.sinkProgress >= b ==> s.queue == [])
    case Flushed(wm) => s.queue == [] && wm == s.pendingWm && s.base == s.pos
  }

  /** The protocol's invariant. It holds whatever the watermarks are. */
  ghost predicate Ordered(input: Input, s: Pipe) {
    && s.start <= s.published <= s.base <= s.pos <= |input.ops| == |input.wms|
    && s.sourceProgress == MaxWm(input.wms, s.start, s.published)
    && s.pendingWm == MaxWm(input.wms, s.published, s.pos)
    && s.mem == ApplyRange(s.flushed, input.ops, s.base, s.pos)
    && Undelivered(s.queue, s.base, s.pos)
    && s.sinkProgress < s.nextSeq
    && PhaseOk(s)
  }

  /** Source progress is the largest watermark handled in this run that the flushed state
      covers, 0 when there is none. */
  ghost predicate Published(input: Input, s: Pipe) {
    && s.start <= s.published <= s.base <= |input.wms|
    && (forall i :: s.start <= i < s.published ==> input.wms[i] <= s.sourceProgress)
    && (s.sourceProgress > 0 ==> exists i :: s.start <= i < s.published && input.wms[i] == s.sourceProgress)
  }

  lemma {:induction false} MaxWmSplit(wms: seq<nat>, a: nat, b: nat, c: nat)
    requires a <= b <= c <= |wms|
    ensures MaxWm(wms, a, c) == Max(MaxWm(wms, a, b), MaxWm(wms, b, c))
    decreases c - b
  {
    if b < c { MaxWmSplit(wms, a, b, c - 1); }
  }

  lemma {:induction false} MaxWmReached(wms: seq<nat>, a: nat, b: nat)
    requires a <= b <= |wms|
    ensures MaxWm(wms, a, b) > 0 ==> exists i :: a <= i < b && wms[i] == MaxWm(wms, a, b)
    ensures forall i :: a <= i < b ==> wms[i] <= MaxWm(wms, a, b)
  {
    if a < b { MaxWmReached(wms, a, b - 1); }
  }

  lemma {:induction false} HandleOrdered(defs: seq<JoinDef>, input: Input, s: Pipe, out: seq<Emission>)
    requires input.Valid() && Ordered(input, s) && Enabled(defs, input, s, Handle(out))
    ensures Ordered(input, Do(defs, input, s, Handle(out)))
  {
    hide Apply, Touched, Announces;
    var s' := Do(defs, input, s, Handle(out));
    assert forall i :: |s.queue| <= i < |s'.queue| ==> s'.queue[i] == Docs(out, s.pos)[i - |s.queue|];
  }

  lemma {:induction false} BarrierOrdered(defs: seq<JoinDef>, input: Input, s: Pipe)
    requires input.Valid() && Ordered(input, s) && Enabled(defs, input, s, SendBarrier)
    ensures Ordered(input, Do(defs, input, s, SendBarrier))
  {
    var q := s.queue + [Barrier(s.nextSeq)];
    assert q[..|q| - 1] == s.queue;
  }

  lemma {:induction false} TakeOrdered(defs: seq<JoinDef>, input: Input, s: Pipe)
    requires input.Valid() && Ordered(input, s) && Enabled(defs, input, s, SinkTakes)
    ensures Ordered(input, Do(defs, input, s, SinkTakes))
  {
    hide Deliver, ApplyRange;
    var s' := Do(defs, input, s, SinkTakes);
    assert forall i :: 0 <= i < |s'.queue| ==> s'.queue[i] == s.queue[i + 1];
  }

  lemma {:induction false} StepOrdered(defs: seq<JoinDef>, input: Input, s: Pipe, step: Step)
    requires input.Valid() && Ordered(input, s) && Enabled(defs, input, s, step)
    ensures Ordered(input, Do(defs, input, s, step))
  {
    match step {
      case Handle(out) => HandleOrdered(defs, input, s, out);
      case SendBarrier => BarrierOrdered(defs, input, s);
      case SinkTakes => TakeOrdered(defs, input, s);
      case Publish => MaxWmSplit(input.wms, s.start, s.published, s.base);
      case _ =>
    }
  }

  /** In every reachable state, with any watermarks: source progress is the
      largest watermark of a fully handled prefix (0 for none) that the flushed
      state covers; nothing still on its way to the sink comes from that prefix;
      and the flushed state is the memory state at its end. */
  lemma {:induction false} WatermarkOrdering(defs: seq<JoinDef>, input: Input, run: seq<Pipe>, n: nat)
    requires input.Valid() && IsRun(defs, input, run) && n < |run|
    ensures Ordered(input, run[n])
    ensures Published(input, run[n])
  {
    if n > 0 {
      WatermarkOrdering(defs, input, run, n - 1);
      assert Moves(defs, input, run[n - 1], run[n]);
      var step :| Enabled(defs, input, run[n - 1], step) && run[n] == Do(defs, input, run[n - 1], step);
      StepOrdered(defs, input, run[n - 1], step);
    }
    MaxWmReached(input.wms, run[n].start, run[n].published);
  }

  lemma {:induction false} StepProgress(defs: seq<JoinDef>, input: Input, s: Pipe, step: Step)
    requires Enabled(defs, input, s, step)
    ensures !step.Crash? ==> s.sourceProgress <= Do(defs, input, s, step).sourceProgress
    ensures s.checkpoint <= Do(defs, input, s, step).checkpoint
  {
  }

  /** A step of one process. */
  ghost predicate Works(defs: seq<JoinDef>, input: Input, s: Pipe, s': Pipe) {
    exists step: Step :: !step.Crash? && Enabled(defs, input, s, step) && s' == Do(defs, input, s, step)
  }

  /** In every run the source's durable watermark never decreases, whatever crashes,
      and source progress never decreases until a restart. */
  lemma {:induction false} ProgressNeverDecreases(defs: seq<JoinDef>, input: Input, run: seq<Pipe>, i: nat, j: nat)
    requires IsRun(defs, input, run) && i <= j < |run|
    ensures run[i].checkpoint <= run[j].checkpoint
    ensures (forall k :: i < k <= j ==> Works(defs, input, run[k - 1], run[k])) ==>
      run[i].sourceProgress <= run[j].sourceProgress
  {
    hide Enabled, Do;
    if i < j {
      ProgressNeverDecreases(defs, input, run, i, j - 1);
      assert Moves(defs, input, run[j - 1], run[j]);
      var step :| Enabled(defs, input, run[j - 1], step) && run[j] == Do(defs, input, run[j - 1], step);
      StepProgress(defs, input, run[j - 1], step);
      if forall k :: i < k <= j ==> Works(defs, input, run[k - 1], run[k]) {
        assert Works(defs, input, run[j - 1], run[j]);
        var work: Step :| !work.Crash? && Enabled(defs, input, run[j - 1], work)
          && run[j] == Do(defs, input, run[j - 1], work);
        StepProgress(defs, input, run[j - 1], work);
      }
    }
  }

  // ---- restarting --------------------------------------------------------

  /** Resuming never skips past what the flushed state covers. */
  ghost predicate Covered(input: Input, s: Pipe) {
    Resume(input.wms, s.checkpoint) <= s.base && s.pos <= s.high <= |input.ops|
  }

  /** A watermark reached before `b` is covered by resuming no later than `b`. */
  lemma {:induction false} ResumeBefore(wms: seq<nat>, i: nat, b: nat, c: nat)
    requires Increasing(wms) && i < b <= |wms| && 0 < c <= wms[i]
    ensures Resume(wms, c) <= b
  {
    if |wms| > b {
      var n := |wms| - 1;
      assert wms[n] == 0 || wms[i] < wms[n];
      ResumeBefore(wms[..n], i, b, c);
    }
  }

  lemma {:induction false} NothingToResume(wms: seq<nat>)
    ensures Resume(wms, 0) == 0
  {
    if wms != [] { NothingToResume(wms[..|wms| - 1]); }
  }

  /** Any watermark the source can make durable is covered by the flushed prefix. */
  lemma {:induction false} StepCovered(defs: seq<JoinDef>, input: Input, s: Pipe, step: Step)
    requires input.Valid() && Increasing(input.wms) && Ordered(input, s) && Covered(input, s)
    requires Enabled(defs, input, s, step)
    ensures Covered(input, Do(defs, input, s, step))
  {
    hide PhaseOk, ApplyRange, Announces, Apply;
    match step {
      case Checkpoint(w) =>
        MaxWmReached(input.wms, s.start, s.published);
        var i :| s.start <= i < s.published && input.wms[i] == s.sourceProgress;
        ResumeBefore(input.wms, i, s.base, w);
      case _ =>
    }
  }

  // ---- across restarts ---------------------------------------------------------

  /** Everything some handling of operation `i` put out is among these. */
  ghost predicate PutOut(s: Pipe, i: nat, among: set<Out>) {
    exists out :: (i, out) in s.outputs && forall e :: e in out ==> Doc(e, i) in among
  }

  /** The sink has taken the output of every operation a flush has covered, in this run
      or before it; that of the later ones is taken or on its way. */
  ghost predicate Delivered(s: Pipe) {
    && s.base <= s.reach
    && (forall i :: 0 <= i < s.reach ==> PutOut(s, i, s.taken))
    && (forall i :: s.base <= i < s.pos ==> PutOut(s, i, s.taken + QueueSet(s.queue)))
  }

  function QueueSet(queue: seq<Out>): set<Out> {
    set o | o in queue
  }

  lemma {:induction false} PutOutStill(s: Pipe, s': Pipe, i: nat, a: set<Out>, b: set<Out>)
    requires PutOut(s, i, a) && s.outputs <= s'.outputs && a <= b
    ensures PutOut(s', i, b)
  {
    var out :| (i, out) in s.outputs && forall e :: e in out ==> Doc(e, i) in a;
    assert (i, out) in s'.outputs;
  }

  lemma {:induction false} HandleDelivered(defs: seq<JoinDef>, input: Input, s: Pipe, out: seq<Emission>)
    requires Delivered(s) && Ordered(input, s) && Enabled(defs, input, s, Handle(out))
    ensures Delivered(Do(defs, input, s, Handle(out)))
  {
    hide Apply, Announces, Touched, PutOut, Ordered;
    var s' := Do(defs, input, s, Handle(out));
    OrderedBounds(input, s);
    forall i | 0 <= i < s'.reach ensures PutOut(s', i, s'.taken) { PutOutStill(s, s', i, s.taken, s'.taken); }
    forall i | s'.base <= i < s'.pos ensures PutOut(s', i, s'.taken + QueueSet(s'.queue)) {
      if i < s.pos {
        PutOutStill(s, s', i, s.taken + QueueSet(s.queue), s'.taken + QueueSet(s'.queue));
      } else {
        NewlyPutOut(s', s.queue, s.pos, out);
      }
    }
  }

  lemma {:induction false} OrderedBounds(input: Input, s: Pipe)
    requires Ordered(input, s)
    ensures s.base <= s.pos <= |input.ops|
  {
  }

  lemma {:induction false} NewlyPutOut(s: Pipe, before: seq<Out>, i: nat, out: seq<Emission>)
    requires (i, out) in s.outputs && s.queue == before + Docs(out, i)
    ensures PutOut(s, i, s.taken + QueueSet(s.queue))
  {
    forall e | e in out ensures Doc(e, i) in QueueSet(s.queue) {
      var k :| 0 <= k < |out| && out[k] == e;
      assert s.queue[|before| + k] == Doc(e, i);
    }
  }

  lemma {:induction false} SameDelivered(s: Pipe, s': Pipe)
    requires Delivered(s) && s'.outputs == s.outputs && s'.taken + QueueSet(s'.queue) >= s.taken + QueueSet(s.queue)
    requires s'.taken >= s.taken
    requires s'.base == s.base && s'.reach == s.reach && s'.pos == s.pos
    ensures Delivered(s')
  {
    hide PutOut, QueueSet;
    forall i | 0 <= i < s'.reach ensures PutOut(s', i, s'.taken) { PutOutStill(s, s', i, s.taken, s'.taken); }
    forall i | s'.base <= i < s'.pos ensures PutOut(s', i, s'.taken + QueueSet(s'.queue)) {
      PutOutStill(s, s', i, s.taken + QueueSet(s.queue), s'.taken + QueueSet(s'.queue));
    }
  }

  lemma {:induction false} FlushDelivered(defs: seq<JoinDef>, input: Input, s: Pipe)
    requires Delivered(s) && Ordered(input, s) && Enabled(defs, input, s, Flush)
    ensures Delivered(Do(defs, input, s, Flush))
  {
    hide PutOut, ApplyRange, MaxWm;
    var s' := Do(defs, input, s, Flush);
    assert s.queue == [] && s.taken + QueueSet(s.queue) == s'.taken;
    forall i | 0 <= i < s'.reach ensures PutOut(s', i, s'.taken) {
      if i < s.reach {
        PutOutStill(s, s', i, s.taken, s'.taken);
      } else {
        PutOutStill(s, s', i, s.taken + QueueSet(s.queue), s'.taken);
      }
    }
  }

  lemma {:induction false} CrashDelivered(defs: seq<JoinDef>, input: Input, s: Pipe)
    requires Delivered(s) && Covered(input, s)
    ensures Delivered(Do(defs, input, s, Crash))
  {
    hide PutOut, Resume;
    var s' := Do(defs, input, s, Crash);
    forall i | 0 <= i < s'.reach ensures PutOut(s', i, s'.taken) { PutOutStill(s, s', i, s.taken, s'.taken); }
  }

  lemma {:induction false} StepDelivered(defs: seq<JoinDef>, input: Input, s: Pipe, step: Step)
    requires Delivered(s) && Ordered(input, s) && Covered(input, s) && Enabled(defs, input, s, step)
    ensures Delivered(Do(defs, input, s, step)) && s.reach <= Do(defs, input, s, step).reach
  {
    hide Delivered, Ordered, Covered, Apply, Announces, Touched, Resume;
    match step {
      case Handle(out) => HandleDelivered(defs, input, s, out);
      case SendBarrier => MoreQueued(s.queue, Barrier(s.nextSeq)); SameDelivered(s, Do(defs, input, s, step));
      case SinkTakes => TakenFirst(s.queue); SameDelivered(s, Do(defs, input, s, step));
      case Flush => FlushDelivered(defs, input, s);
      case Crash => CrashDelivered(defs, input, s);
      case _ => SameDelivered(s, Do(defs, input, s, step));
    }
  }

  lemma {:induction false} MoreQueued(queue: seq<Out>, o: Out)
    ensures QueueSet(queue + [o]) >= QueueSet(queue)
  {
  }

  lemma {:induction false} TakenFirst(queue: seq<Out>)
    requires queue != []
    ensures {queue[0]} + QueueSet(queue[1..]) == QueueSet(queue)
  {
    assert queue == [queue[0]] + queue[1..];
  }

  /** With increasing watermarks, through any crashes: the prefix the flushed states have
      covered never shrinks, a restart resumes within it, and the sink has taken all
      that some handling of each of its operations put out. */
  lemma {:induction false} FlushedIsDelivered(defs: seq<JoinDef>, input: Input, run: seq<Pipe>, i: nat, n: nat)
    requires input.Valid() && Increasing(input.wms) && IsRun(defs, input, run) && i <= n < |run|
    ensures Delivered(run[n]) && Covered(input, run[n]) && run[i].reach <= run[n].reach
  {
    hide Enabled, Do, Delivered, Ordered, Covered;
    if n > 0 {
      FlushedIsDelivered(defs, input, run, if i < n then i else n - 1, n - 1);
      WatermarkOrdering(defs, input, run, n - 1);
      assert Moves(defs, input, run[n - 1], run[n]);
      var step :| Enabled(defs, input, run[n - 1], step) && run[n] == Do(defs, input, run[n - 1], step);
      StepCovered(defs, input, run[n - 1], step);
      StepDelivered(defs, input, run[n - 1], step);
    } else {
      BootDelivered(input);
    }
  }

  lemma {:induction false} BootDelivered(input: Input)
    ensures Delivered(BOOT) && Covered(input, BOOT)
  {
    NothingToResume(input.wms);
  }
}
