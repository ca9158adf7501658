/** The agent object and the state file it writes through. What the file system does to
    each write, and what the engine adapter answers, are inputs. */
module FleetAgent {
  import opened Json
  import opened Fleet

  // ---- receipts ----------------------------------------------------------

  function IndexOf(receipts: seq<OperationReceipt>, id: Uuid): (r: Option<nat>)
    ensures r.Some? ==> r.value < |receipts| && receipts[r.value].id == id
    ensures r.None? ==> forall i :: 0 <= i < |receipts| ==> receipts[i].id != id
  {
    if receipts == [] then None
    else
      var n := |receipts| - 1;
      var before := IndexOf(receipts[..n], id);
      if before.Some? then before else if receipts[n].id == id then Some(n) else None
  }

  function FirstTerminal(receipts: seq<OperationReceipt>): (r: Option<nat>)
    ensures r.Some? ==> r.value < |receipts| && receipts[r.value].state.IsTerminal()
    ensures r.Some? ==> forall i :: 0 <= i < r.value ==> !receipts[i].state.IsTerminal()
    ensures r.None? ==> forall i :: 0 <= i < |receipts| ==> !receipts[i].state.IsTerminal()
  {
    if receipts == [] then None
    else
      var n := |receipts| - 1;
      var before := FirstTerminal(receipts[..n]);
      if before.Some? then before else if receipts[n].state.IsTerminal() then Some(n) else None
  }

  /** Evict oldest finished receipts until one more fits. */
  method MakeReceiptCapacity(receipts0: seq<OperationReceipt>) returns (receipts: Option<seq<OperationReceipt>>)
    ensures receipts.Some? ==> Thinned(receipts0, receipts.value)
    ensures receipts.Some? ==>
      |receipts.value| == if |receipts0| < MAX_OPERATION_RECEIPTS then |receipts0| else MAX_OPERATION_RECEIPTS - 1
    ensures |receipts0| < MAX_OPERATION_RECEIPTS ==> receipts == Some(receipts0)
    ensures Increasing(receipts0) ==> (receipts.None? <==> Crowded(receipts0))
  {
    hide Thinned, Increasing, Crowded;
    var kept := receipts0;
    ThinnedNothing(receipts0);
    while |kept| >= MAX_OPERATION_RECEIPTS
      invariant Thinned(receipts0, kept) && (|receipts0| < MAX_OPERATION_RECEIPTS ==> kept == receipts0)
      invariant |receipts0| >= MAX_OPERATION_RECEIPTS ==> |kept| >= MAX_OPERATION_RECEIPTS - 1
      decreases |kept|
    {
      var position := FirstTerminal(kept);
      if position.None? {
        if Increasing(receipts0) { AllUnfinished(receipts0, kept); }
        return None;
      }
      ThinnedStep(receipts0, kept, position.value);
      kept := kept[..position.value] + kept[position.value + 1..];
    }
    if Increasing(receipts0) { RoomForUnfinished(receipts0, kept); }
    receipts := Some(kept);
  }

  /** The unfinished receipts alone leave no room for another. */
  ghost predicate Crowded(receipts: seq<OperationReceipt>) {
    |Waiting(receipts)| >= MAX_OPERATION_RECEIPTS
  }

  ghost function Waiting(receipts: seq<OperationReceipt>): set<OperationReceipt> {
    set r | r in receipts && !r.state.IsTerminal()
  }

  lemma {:induction false} ThinnedNothing(a: seq<OperationReceipt>)
    ensures Thinned(a, a)
  {
  }

  ghost function Members(receipts: seq<OperationReceipt>): set<OperationReceipt> {
    set r | r in receipts
  }

  lemma {:induction false} MembersCount(receipts: seq<OperationReceipt>)
    ensures |Members(receipts)| <= |receipts|
    ensures Increasing(receipts) ==> |Members(receipts)| == |receipts|
  {
    if receipts != [] {
      var n := |receipts| - 1;
      MembersCount(receipts[..n]);
      assert receipts == receipts[..n] + [receipts[n]];
      assert Members(receipts) == Members(receipts[..n]) + {receipts[n]};
    }
  }

  lemma {:induction false} AllUnfinished(a: seq<OperationReceipt>, kept: seq<OperationReceipt>)
    requires Increasing(a) && Thinned(a, kept) && |kept| >= MAX_OPERATION_RECEIPTS
    requires forall i :: 0 <= i < |kept| ==> !kept[i].state.IsTerminal()
    ensures Crowded(a)
  {
    MembersCount(kept);
    assert Members(kept) <= Waiting(a);
    Smaller(Members(kept), Waiting(a));
  }

  lemma {:induction false} RoomForUnfinished(a: seq<OperationReceipt>, kept: seq<OperationReceipt>)
    requires Thinned(a, kept) && |kept| < MAX_OPERATION_RECEIPTS
    ensures !Crowded(a)
  {
    MembersCount(kept);
    assert Waiting(a) <= Members(kept);
    Smaller(Waiting(a), Members(kept));
  }

  lemma {:induction false} Smaller<T>(a: set<T>, b: set<T>)
    requires a <= b
    ensures |a| <= |b|
  {
    assert b == a + (b - a);
  }

  /** `b` is `a` without some finished receipts, the oldest of them. */
  ghost predicate Thinned(a: seq<OperationReceipt>, b: seq<OperationReceipt>) {
    && |b| <= |a|
    && (Increasing(a) ==>
          forall x, y :: x in a && x !in b && y in b && y.state.IsTerminal() ==> x.sequence < y.sequence)
    && (Increasing(a) ==> Increasing(b)) && (UniqueIds(a) ==> UniqueIds(b))
    && (forall r :: r in b ==> r in a)
    && (forall r :: r in a && !r.state.IsTerminal() ==> r in b)
  }

  lemma {:induction false} ThinnedStep(a: seq<OperationReceipt>, b: seq<OperationReceipt>, k: nat)
    requires Thinned(a, b) && k < |b| && b[k].state.IsTerminal()
    requires forall i :: 0 <= i < k ==> !b[i].state.IsTerminal()
    ensures Thinned(a, b[..k] + b[k + 1..])
  {
    hide Increasing, UniqueIds;
    var c := b[..k] + b[k + 1..];
    OneDropped(b, k);
    if Increasing(a) {
      forall x, y | x in a && x !in c && y in c && y.state.IsTerminal() ensures x.sequence < y.sequence {
        if x in b { OldestDropped(b, k, y); }
      }
    }
  }

  lemma {:induction false} OneDropped(b: seq<OperationReceipt>, k: nat)
    requires k < |b|
    ensures var c := b[..k] + b[k + 1..];
      && (forall x :: x in b <==> x in c || x == b[k])
      && (Increasing(b) ==> Increasing(c)) && (UniqueIds(b) ==> UniqueIds(c))
  {
    var c := b[..k] + b[k + 1..];
    assert forall i :: 0 <= i < |c| ==> c[i] == b[if i < k then i else i + 1];
    assert b == b[..k] + [b[k]] + b[k + 1..];
  }

  /** The first finished receipt is older than every other finished one. */
  lemma {:induction false} OldestDropped(b: seq<OperationReceipt>, k: nat, y: OperationReceipt)
    requires k < |b| && Increasing(b) && (forall i :: 0 <= i < k ==> !b[i].state.IsTerminal())
    requires y in b[..k] + b[k + 1..] && y.state.IsTerminal()
    ensures b[k].sequence < y.sequence
  {
    var c := b[..k] + b[k + 1..];
    var j :| 0 <= j < |c| && c[j] == y;
    assert y == b[if j < k then j else j + 1];
  }

  // ---- each write is a proper step ---------------------------------------

  lemma {:induction false} AcceptEvolves(a: ManagementState, desired: DesiredStateSnapshot)
    requires Sound(a) && desired.scope == a.scope && (a.desired.Some? ==> a.desired.value.revision < desired.revision)
    ensures Sound(a.(desired := Some(desired))) && Evolves(a, a.(desired := Some(desired)))
  {
    assert forall r :: r in a.receipts ==> Advances(r, r);
  }

  lemma {:induction false} ObserveEvolves(a: ManagementState, observed: ObservedRunState)
    requires Sound(a)
    ensures Sound(a.(observed := observed)) && Evolves(a, a.(observed := observed))
  {
    assert forall r :: r in a.receipts ==> Advances(r, r);
  }

  function Acknowledge(a: ManagementState, kept: seq<OperationReceipt>, op: ConvergenceOperation): ManagementState {
    a.(lastSequence := op.sequence, receipts := kept + [ReceiptFor(op, Acknowledged)])
  }

  lemma {:induction false} AcknowledgeSound(a: ManagementState, kept: seq<OperationReceipt>, op: ConvergenceOperation)
    requires Sound(a) && Thinned(a.receipts, kept) && |kept| < MAX_OPERATION_RECEIPTS
    requires a.lastSequence < op.sequence && forall i :: 0 <= i < |a.receipts| ==> a.receipts[i].id != op.id
    ensures Sound(Acknowledge(a, kept, op))
  {
    var b := Acknowledge(a, kept, op);
    forall i, j | 0 <= i < j < |b.receipts|
      ensures b.receipts[i].sequence < b.receipts[j].sequence && b.receipts[i].id != b.receipts[j].id
    {
      assert kept[i] in kept;
    }
  }

  lemma {:induction false} AcknowledgeEvolves(a: ManagementState, kept: seq<OperationReceipt>, op: ConvergenceOperation)
    requires Sound(a) && Thinned(a.receipts, kept) && a.lastSequence < op.sequence
    ensures Evolves(a, Acknowledge(a, kept, op))
  {
    var b := Acknowledge(a, kept, op);
    forall r | r in a.receipts ensures (exists r' :: r' in b.receipts && Advances(r, r')) ||
        (r.state.IsTerminal() && forall r' :: r' in b.receipts ==> r'.sequence != r.sequence)
    {
      if r in kept {
        assert r in b.receipts && Advances(r, r);
      } else {
        DroppedSequence(a.receipts, kept, r);
      }
    }
    forall r' | r' in b.receipts && r'.sequence <= a.lastSequence
      ensures exists r :: r in a.receipts && Advances(r, r')
    {
      assert r' in kept && Advances(r', r');
    }
  }

  lemma {:induction false} DroppedSequence(a: seq<OperationReceipt>, kept: seq<OperationReceipt>, r: OperationReceipt)
    requires Increasing(a) && Thinned(a, kept) && r in a && r !in kept
    ensures forall r' :: r' in kept ==> r'.sequence != r.sequence
  {
    forall r' | r' in kept ensures r'.sequence != r.sequence {
      var i :| 0 <= i < |a| && a[i] == r;
      var j :| 0 <= j < |a| && a[j] == r';
      assert i != j;
    }
  }

  /** Set one receipt's state and, with it, what was observed and applied. */
  function SetReceipt(a: ManagementState, k: nat, state: ReceiptState, observed: ObservedRunState,
                      applied: Option<ConfigurationBundle>): ManagementState
    requires k < |a.receipts|
  {
    a.(receipts := a.receipts[k := a.receipts[k].(state := state)], observed := observed, applied := applied)
  }

  /** Receipt by receipt, `b` carries on from `a`. */
  ghost predicate InStep(a: ManagementState, b: ManagementState) {
    |a.receipts| == |b.receipts| && forall i :: 0 <= i < |a.receipts| ==> Advances(a.receipts[i], b.receipts[i])
  }

  lemma {:induction false} InStepKeeps(a: ManagementState, b: ManagementState)
    requires InStep(a, b)
    ensures Keeps(a, b) && Derives(a, b)
  {
    hide Advances;
    forall r | r in a.receipts ensures exists r' :: r' in b.receipts && Advances(r, r') {
      var i :| 0 <= i < |a.receipts| && a.receipts[i] == r;
      assert b.receipts[i] in b.receipts;
    }
    forall r' | r' in b.receipts ensures exists r :: r in a.receipts && Advances(r, r') {
      var i :| 0 <= i < |b.receipts| && b.receipts[i] == r';
      assert a.receipts[i] in a.receipts;
    }
  }

  lemma {:induction false} InStepSound(a: ManagementState, b: ManagementState)
    requires InStep(a, b) && Sound(a)
    ensures Increasing(b.receipts) && UniqueIds(b.receipts)
    ensures forall r :: r in b.receipts ==> 0 < r.sequence <= a.lastSequence
  {
    forall r | r in b.receipts ensures 0 < r.sequence <= a.lastSequence {
      var i :| 0 <= i < |b.receipts| && b.receipts[i] == r;
      assert a.receipts[i] in a.receipts;
    }
  }

  lemma {:induction false} SetReceiptEvolves(a: ManagementState, k: nat, state: ReceiptState,
                                             observed: ObservedRunState, applied: Option<ConfigurationBundle>)
    requires Sound(a) && k < |a.receipts| && Forward(a.receipts[k].state, state)
    requires applied == a.applied || (applied.Some? && a.desired.Some?
      && a.desired.value.configurationRevision == Some(applied.value.revision))
    ensures var b := SetReceipt(a, k, state, observed, applied);
      Sound(b) && Evolves(a, b)
  {
    hide Keeps, Derives, Increasing, UniqueIds;
    var b := SetReceipt(a, k, state, observed, applied);
    assert InStep(a, b);
    InStepKeeps(a, b);
    InStepSound(a, b);
  }

  // ---- the state file ----------------------------------------------------

  datatype SaveResult = Saved | Invalid | IoFailed

  /** What becomes of a write: it lands, it is lost, or it lands and is reported lost. */
  datatype WriteFate = Lands | IsLost | LandsUnseen

  ghost predicate AllLand(fates: seq<WriteFate>) {
    forall i :: 0 <= i < |fates| ==> fates[i].Lands?
  }

  /** The fate of the next write; once the list is used up every write lands. */
  function NextFate(fates: seq<WriteFate>): WriteFate {
    if fates == [] then Lands else fates[0]
  }

  function LaterFates(fates: seq<WriteFate>): seq<WriteFate> {
    if fates == [] then [] else fates[1..]
  }

  class StateStore {
    var disk: Option<ManagementState>
    var fates: seq<WriteFate>
    ghost var acts: seq<Act>

    constructor (fates: seq<WriteFate>)
      ensures Valid() && disk.None? && acts == [] && this.fates == fates
    {
      disk, acts, this.fates := None, [], fates;
    }

    /** The acts so far explain the disk and were all proper. */
    ghost predicate Valid()
      reads this
    {
      disk == Disk(None, acts) && Orderly(None, acts)
    }

    ghost method Record(act: Act)
      requires Valid() && Proper(disk, act) && !act.Persisted?
      modifies this`acts
      ensures Valid() && acts == old(acts) + [act]
    {
      OneMore(None, acts, act);
      acts := acts + [act];
    }

    /** Replace the file, atomically. A failed write may still have replaced it. */
    method Persist(s: ManagementState) returns (res: SaveResult)
      requires Valid()
      modifies this
      ensures res.Invalid? <==> !Loadable(s, s.scope)
      ensures res.Invalid? ==> disk == old(disk) && acts == old(acts) && fates == old(fates)
      ensures !res.Invalid? ==> fates == LaterFates(old(fates)) && (res.Saved? <==> NextFate(old(fates)).Lands?)
      ensures !res.Invalid? && !NextFate(old(fates)).IsLost? ==> disk == Some(s) && acts == old(acts) + [Persisted(s)]
      ensures !res.Invalid? && NextFate(old(fates)).IsLost? ==> disk == old(disk) && acts == old(acts)
      ensures old(Proper(disk, Persisted(s))) ==> Valid()
      ensures AllLand(old(fates)) ==> AllLand(fates)
    {
      var ok := ValidateState(s, s.scope);
      if !ok { return Invalid; }
      OneMore(None, acts, Persisted(s));
      var fate := NextFate(fates);
      fates := LaterFates(fates);
      if !fate.IsLost? {
        disk := Some(s);
        acts := acts + [Persisted(s)];
      }
      res := if fate.Lands? then Saved else IoFailed;
    }
  }

  lemma {:induction false} OneMore(start: Option<ManagementState>, acts: seq<Act>, act: Act)
    requires Orderly(start, acts)
    ensures Proper(Disk(start, acts), act) ==> Orderly(start, acts + [act])
    ensures Disk(start, acts + [act]) == if act.Persisted? then Some(act.s) else Disk(start, acts)
  {
    hide Proper;
    assert (acts + [act])[..|acts|] == acts;
    if Proper(Disk(start, acts), act) {
      forall i | 0 <= i < |acts + [act]| ensures Proper(Disk(start, (acts + [act])[..i]), (acts + [act])[i]) {
        if i < |acts| { assert (acts + [act])[..i] == acts[..i]; }
      }
    }
  }

  lemma {:induction false} OrderlyDiskIsSound(acts: seq<Act>)
    requires Orderly(None, acts)
    ensures Disk(None, acts).Some? ==> Sound(Disk(None, acts).value)
  {
    if acts != [] {
      var n := |acts| - 1;
      CrashAnywhere(None, acts, n);
      OrderlyDiskIsSound(acts[..n]);
      assert Proper(Disk(None, acts[..n]), acts[n]);
    }
  }

  // ---- the agent ---------------------------------------------------------

  datatype LoadResult = Loaded(agent: EngineAgent) | NotLoaded

  /** `Refused` is an invalid instruction; `Broken` ends the process. */
  datatype Accepting = Accepted | Duplicate | Stale | Refused | Broken

  datatype Executing = Executed(receipt: OperationReceipt, replayed: bool) | Rejected | Ended

  /** What the engine adapter answers when it is asked: to pass the startup gate with the
      desired run state, to enter a run state, to take a configuration, to reconcile with
      or without deleting orphans, to rebootstrap. */
  datatype Adapter = Adapter(
    gate: Option<DesiredRunState> -> Option<ObservedRunState>,
    enter: DesiredRunState -> Option<ObservedRunState>,
    configure: ConfigurationBundle -> bool,
    reconcile: bool -> bool,
    rebootstrap: bool)

  class EngineAgent {
    const store: StateStore
    var state: ManagementState

    /** Memory and disk agree, and everything done so far was proper. */
    ghost predicate Ready()
      reads this, store
    {
      store.Valid() && store.disk == Some(state) && Sound(state)
    }

    constructor (store: StateStore, state: ManagementState)
      ensures this.store == store && this.state == state
    {
      this.store, this.state := store, state;
    }

    /** Read the file, or write a fresh one, and pass the startup gate. */
    static method Load(scope: AgentScope, store: StateStore, adapter: Adapter) returns (res: LoadResult)
      requires store.Valid()
      modifies store
      ensures store.Valid()
      ensures res.Loaded? ==>
        fresh(res.agent) && res.agent.store == store && res.agent.Ready()
          && Gated(scope, old(store.disk), adapter, Some(res.agent.state))
      ensures AllLand(old(store.fates)) ==>
        (res.Loaded? <==> Startable(scope, old(store.disk)) && adapter.gate(RunStateOf(old(store.disk))).Some?)
      ensures AllLand(old(store.fates)) && Startable(scope, old(store.disk)) ==>
        Gated(scope, old(store.disk), adapter, store.disk)
    {
      hide Orderly, Evolves, Sound;
      var state;
      if store.disk.None? {
        state := FreshState(scope);
        FreshIsSound(scope);
        var saved := store.Persist(state);
        if !saved.Saved? { return NotLoaded; }
      } else {
        OrderlyDiskIsSound(store.acts);
        state := store.disk.value;
        var ok := ValidateState(state, scope);
        if !ok { return NotLoaded; }
        LoadableScope(state, scope);
      }
      var gate := adapter.gate(if state.desired.Some? then Some(state.desired.value.runState) else None);
      var observed := if gate.Some? then gate.value else Error;
      ObserveEvolves(state, observed);
      state := state.(observed := observed);
      SoundIsLoadable(state);
      var saved := store.Persist(state);
      if !saved.Saved? || gate.None? { return NotLoaded; }
      var agent := new EngineAgent(store, state);
      res := Loaded(agent);
    }

    /** Durably accept a snapshot with a higher revision. */
    method AcceptDesiredState(desired: DesiredStateSnapshot) returns (res: Accepting)
      requires Ready()
      modifies this, store
      ensures store.Valid() && (!res.Broken? ==> Ready())
      ensures res.Refused? <==> RefusesDesired(old(state), desired)
      ensures res.Duplicate? ==> Some(desired) == old(state).desired
      ensures res.Stale? ==> old(state).desired.Some? && desired.revision < old(state).desired.value.revision
      ensures res.Accepted? ==> state == old(state).(desired := Some(desired))
      ensures res.Accepted? && old(state).desired.Some? ==> old(state).desired.value.revision < desired.revision
      ensures res.Refused? || res.Duplicate? || res.Stale? ==> state == old(state) && store.acts == old(store.acts)
      ensures AllLand(old(store.fates)) ==> AllLand(store.fates) && !res.Broken?
    {
      hide Orderly, Evolves, Sound;
      if desired.scope != state.scope || desired.revision == 0 { return Refused; }
      if state.desired.Some? {
        if desired.revision < state.desired.value.revision { return Stale; }
        if desired.revision == state.desired.value.revision {
          return if Some(desired) == state.desired then Duplicate else Refused;
        }
      }
      AcceptEvolves(state, desired);
      state := state.(desired := Some(desired));
      SoundIsLoadable(state);
      var saved := store.Persist(state);
      res := if saved.Saved? then Accepted else Broken;
    }

    /** Set the operation's receipt and what was observed and applied, and write it. */
    method SaveReceipt(op: ConvergenceOperation, k: nat, rs: ReceiptState, observed: ObservedRunState,
                       applied: Option<ConfigurationBundle>)
      returns (saved: bool)
      requires Ready() && k < |state.receipts| && Forward(state.receipts[k].state, rs)
      requires applied == state.applied || (applied.Some? && state.desired.Some?
        && state.desired.value.configurationRevision == Some(applied.value.revision))
      modifies this, store
      ensures store.Valid() && state == SetReceipt(old(state), k, rs, observed, applied)
      ensures Effects(store.acts) == Effects(old(store.acts))
      ensures saved ==>
        Ready() && store.acts == old(store.acts) + [Persisted(state), Reported(state, state.receipts[k])]
      ensures AllLand(old(store.fates)) ==> AllLand(store.fates) && saved
    {
      hide Orderly, Evolves, Sound, Effects, Forward;
      SetReceiptEvolves(state, k, rs, observed, applied);
      state := SetReceipt(state, k, rs, observed, applied);
      SoundIsLoadable(state);
      EffectsMore(store.acts, Persisted(state));
      var result := store.Persist(state);
      saved := result.Saved?;
      if saved {
        ghost var acts := store.acts;
        store.Record(Reported(state, state.receipts[k]));
        EffectsMore(acts, Reported(state, state.receipts[k]));
      }
    }

    /** What the adapter made of it: the receipt's new state, what is observed then,
        and the configuration in force. */
    method Perform(op: ConvergenceOperation, k: nat, adapter: Adapter)
      returns (rs: ReceiptState, observed: ObservedRunState, applied: Option<ConfigurationBundle>)
      requires Ready() && k < |state.receipts| && state.receipts[k].id == op.id && state.receipts[k].state.InProgress?
      requires MatchesReceipt(op, state.receipts[k]) && MatchesDesired(state, op)
      modifies store`acts
      ensures Ready() && rs.IsTerminal()
      ensures store.acts == old(store.acts) + if Asks(op) then [Performed(op)] else []
      ensures Effects(store.acts) == Effects(old(store.acts)) + if Asks(op) then [op] else []
      ensures rs.Succeeded? <==> Achieved(op, adapter)
      ensures Outcome(op, adapter, state, observed, applied)
    {
      hide Orderly, Evolves, Sound, Effects, MatchesReceipt, MatchesDesired;
      rs, observed, applied := Failed, state.observed, state.applied;
      if op.kind.ApplyConfiguration? && op.configuration.None? { return; }
      if op.kind.Rebootstrap? && !op.confirmed { return; }
      assert state.receipts[k] in state.receipts;
      EffectsMore(store.acts, Performed(op));
      store.Record(Performed(op));
      match op.kind
      case ConvergeState =>
        var answer := adapter.enter(op.runState);
        if answer == Some(Observed(op.runState)) {
          rs, observed := Succeeded, answer.value;
        } else {
          observed := Error;
        }
      case ApplyConfiguration =>
        if adapter.configure(op.configuration.value) {
          rs, applied := Succeeded, op.configuration;
        } else {
          observed := Error;
        }
      case Reconcile =>
        if adapter.reconcile(op.deleteOrphans) { rs := Succeeded; } else { observed := Error; }
      case Rebootstrap =>
        if adapter.rebootstrap { rs := Succeeded; } else { observed := Error; }
    }

    /** Write ahead, perform, and write the result. */
    method ApplyOperation(op: ConvergenceOperation, replayed: bool, adapter: Adapter) returns (res: Executing)
      requires Ready() && Pending(state, op)
      modifies this, store
      ensures store.Valid() && !res.Rejected?
      ensures res.Executed? ==>
        Ready() && res.replayed == replayed && Finishes(old(state), op, adapter, state, res.receipt)
      ensures res.Executed? ==> WritesAround(old(store.acts), store.acts, op, state, res.receipt)
      ensures res.Executed? ==> Effects(store.acts) == Effects(old(store.acts)) + if Asks(op) then [op] else []
      ensures WriteAhead(store.acts)
      ensures Effects(store.acts) == Effects(old(store.acts)) || Effects(store.acts) == Effects(old(store.acts)) + [op]
      ensures AllLand(old(store.fates)) ==> AllLand(store.fates) && res.Executed?
    {
      hide Orderly, Evolves, Sound, Effects, WriteAhead;
      var k := IndexOf(state.receipts, op.id).value;
      var starting := if op.kind.ConvergeState? then Starting else state.observed;
      var saved := SaveReceipt(op, k, InProgress, starting, state.applied);
      OrderlyWritesAhead(store.acts);
      if !saved { return Ended; }
      ghost var running, written := state, store.acts;
      var rs, observed, applied := Perform(op, k, adapter);
      ghost var effects := store.acts[|written|..];
      saved := SaveReceipt(op, k, rs, observed, applied);
      OrderlyWritesAhead(store.acts);
      if !saved { return Ended; }
      assert WritesAroundWith(old(store.acts), store.acts, op, running, k, effects, state, state.receipts[k]);
      res := Executed(state.receipts[k], replayed);
    }

    /** Accept an operation not seen before and execute it. */
    method ExecuteNew(op: ConvergenceOperation, adapter: Adapter) returns (res: Executing)
      requires Ready() && IndexOf(state.receipts, op.id).None? && MatchesDesired(state, op)
      requires op.sequence > state.lastSequence
      modifies this, store
      ensures store.Valid() && (!res.Ended? ==> Ready())
      ensures res.Rejected? <==> Crowded(old(state).receipts)
      ensures res.Rejected? ==> state == old(state) && store.acts == old(store.acts)
      ensures res.Executed? ==> Answered(op, adapter, old(state), state, res.receipt)
      ensures res.Executed? ==> !res.replayed && state.lastSequence == op.sequence
      ensures AllLand(old(store.fates)) ==> AllLand(store.fates) && !res.Ended?
      ensures Effects(store.acts) == Effects(old(store.acts)) || Effects(store.acts) == Effects(old(store.acts)) + [op]
    {
      hide Orderly, Evolves, Sound, Effects, Finishes, Pending, Thinned, MatchesReceipt, WriteAhead, WritesAround,
        Crowded, Answered, Increasing, UniqueIds;
      SoundIncreases(state);
      var kept := MakeReceiptCapacity(state.receipts);
      if kept.None? { return Rejected; }
      AcknowledgeSound(state, kept.value, op);
      AcknowledgeEvolves(state, kept.value, op);
      state := Acknowledge(state, kept.value, op);
      SoundIsLoadable(state);
      EffectsMore(store.acts, Persisted(state));
      var saved := store.Persist(state);
      if !saved.Saved? { return Ended; }
      var acknowledged := state.receipts[|state.receipts| - 1];
      EffectsMore(store.acts, Reported(state, acknowledged));
      store.Record(Reported(state, acknowledged));
      AcknowledgedIsPending(state, op);
      ghost var before := state;
      res := ApplyOperation(op, false, adapter);
      if res.Executed? {
        FinishesMatches(before, op, adapter, state, res.receipt);
        AnsweredFrom(old(state), before, op, adapter, state, res.receipt);
      }
    }

    /** Execute an operation, or resume it, or repeat the answer given before. */
    method ExecuteConvergence(op: ConvergenceOperation, adapter: Adapter) returns (res: Executing)
      requires Ready()
      modifies this, store
      ensures store.Valid() && (!res.Ended? ==> Ready())
      ensures res.Rejected? <==>
        Refuses(old(state), op) || (IndexOf(old(state).receipts, op.id).None? && Crowded(old(state).receipts))
      ensures res.Rejected? ==> state == old(state) && store.acts == old(store.acts)
      ensures res.Executed? ==>
        res.receipt in state.receipts && res.receipt.id == op.id && res.receipt.state.IsTerminal()
          && MatchesReceipt(op, res.receipt)
      ensures res.Executed? && !Finished(old(state), op) ==> Answered(op, adapter, old(state), state, res.receipt)
      ensures res.Executed? && Finished(old(state), op) ==> state == old(state)
      ensures AllLand(old(store.fates)) ==> AllLand(store.fates) && !res.Ended?
      ensures res.Executed? ==> (res.replayed <==> IndexOf(old(state).receipts, op.id).Some?)
      ensures Effects(store.acts) == Effects(old(store.acts)) || Effects(store.acts) == Effects(old(store.acts)) + [op]
      ensures Settled(old(state), op.id, op.sequence) ==> Effects(store.acts) == Effects(old(store.acts))
      ensures WriteAhead(store.acts)
    {
      hide Orderly, Evolves, Sound, Effects, Finishes, WriteAhead, WritesAround, Crowded, Answered;
      OrderlyWritesAhead(store.acts);
      if op.scope != state.scope || op.sequence == 0 { return Rejected; }
      var existing := IndexOf(state.receipts, op.id);
      if existing.Some? {
        var receipt := state.receipts[existing.value];
        if !MatchesReceipt(op, receipt) { return Rejected; }
        if !receipt.state.IsTerminal() && !MatchesDesired(state, op) { return Rejected; }
        EffectsMore(store.acts, Reported(state, receipt));
        store.Record(Reported(state, receipt));
        OrderlyWritesAhead(store.acts);
        if receipt.state.IsTerminal() { return Executed(receipt, true); }
        ghost var before := state;
        res := ApplyOperation(op, true, adapter);
        if res.Executed? {
          FinishesMatches(before, op, adapter, state, res.receipt);
          AnsweredFrom(before, before, op, adapter, state, res.receipt);
        }
        return;
      }
      if !MatchesDesired(state, op) || op.sequence <= state.lastSequence { return Rejected; }
      res := ExecuteNew(op, adapter);
      if res.Executed? { AnsweredMatches(op, adapter, old(state), state, res.receipt); }
      OrderlyWritesAhead(store.acts);
    }
  }

  /** Another scope, no revision, or other content under the current revision. */
  predicate RefusesDesired(s: ManagementState, desired: DesiredStateSnapshot) {
    desired.scope != s.scope || desired.revision == 0 ||
    (s.desired.Some? && desired.revision == s.desired.value.revision && Some(desired) != s.desired)
  }

  /** The operations the adapter was asked to perform, in order. */
  function Effects(acts: seq<Act>): seq<ConvergenceOperation> {
    if acts == [] then []
    else
      var n := |acts| - 1;
      Effects(acts[..n]) + if acts[n].Performed? then [acts[n].op] else []
  }

  lemma {:induction false} EffectsMore(acts: seq<Act>, act: Act)
    ensures Effects(acts + [act]) == if act.Performed? then Effects(acts) + [act.op] else Effects(acts)
  {
    assert (acts + [act])[..|acts|] == acts;
  }

  /** The operation has a receipt of its own, not yet finished, and is still wanted. */
  ghost predicate Pending(s: ManagementState, op: ConvergenceOperation) {
    var k := IndexOf(s.receipts, op.id);
    && k.Some? && !s.receipts[k.value].state.IsTerminal() && MatchesReceipt(op, s.receipts[k.value])
    && MatchesDesired(s, op)
  }

  /** The adapter is asked at all: not for a configuration that is not there, nor for a
      rebootstrap that was not confirmed. */
  predicate Asks(op: ConvergenceOperation) {
    match op.kind
    case ApplyConfiguration => op.configuration.Some?
    case Rebootstrap => op.confirmed
    case _ => true
  }

  /** The adapter is asked and answers as it should: with the very run state asked for, or
      with success. */
  predicate Achieved(op: ConvergenceOperation, adapter: Adapter) {
    match op.kind
    case ConvergeState => adapter.enter(op.runState) == Some(Observed(op.runState))
    case ApplyConfiguration => op.configuration.Some? && adapter.configure(op.configuration.value)
    case Reconcile => adapter.reconcile(op.deleteOrphans)
    case Rebootstrap => op.confirmed && adapter.rebootstrap
  }

  /** What is observed and applied then: the state reached, or an error when the adapter
      was asked in vain; the operation's configuration once it is applied; all else as it
      was. */
  ghost predicate Outcome(op: ConvergenceOperation, adapter: Adapter, s: ManagementState, observed: ObservedRunState,
                          applied: Option<ConfigurationBundle>)
  {
    && (Asks(op) && !Achieved(op, adapter) ==> observed == Error)
    && (Achieved(op, adapter) && op.kind.ConvergeState? ==> observed == Observed(op.runState))
    && (!Asks(op) || (Achieved(op, adapter) && !op.kind.ConvergeState?) ==> observed == s.observed)
    && applied == if op.kind.ApplyConfiguration? && Achieved(op, adapter) then op.configuration else s.applied
  }

  /** `b` is `a` with the operation finished: successfully if and only if the adapter
      achieved it. */
  ghost predicate Finishes(a: ManagementState, op: ConvergenceOperation, adapter: Adapter, b: ManagementState,
                           receipt: OperationReceipt)
  {
    var k := IndexOf(a.receipts, op.id);
    && k.Some? && receipt == a.receipts[k.value].(state := receipt.state) && receipt.state.IsTerminal()
    && b == a.(receipts := a.receipts[k.value := receipt], observed := b.observed, applied := b.applied)
    && (receipt.state.Succeeded? <==> Achieved(op, adapter))
    && Outcome(op, adapter, a, b.observed, b.applied)
  }

  /** The state holds the operation's own receipt, finished, successfully if and only if
      the adapter achieved it, with what was then observed and applied. */
  ghost predicate Answered(op: ConvergenceOperation, adapter: Adapter, a: ManagementState, b: ManagementState,
                           receipt: OperationReceipt)
  {
    && receipt in b.receipts && receipt.id == op.id && MatchesReceipt(op, receipt)
    && receipt.state.IsTerminal() && (receipt.state.Succeeded? <==> Achieved(op, adapter))
    && Outcome(op, adapter, a, b.observed, b.applied) && b.desired == a.desired
  }

  lemma {:induction false} AnsweredFrom(a: ManagementState, mid: ManagementState, op: ConvergenceOperation,
                                        adapter: Adapter, b: ManagementState, receipt: OperationReceipt)
    requires Finishes(mid, op, adapter, b, receipt) && Pending(mid, op)
    requires mid.observed == a.observed && mid.applied == a.applied && mid.desired == a.desired
    ensures Answered(op, adapter, a, b, receipt) && b.lastSequence == mid.lastSequence
  {
    hide Achieved;
    FinishesMatches(mid, op, adapter, b, receipt);
  }

  lemma {:induction false} AnsweredMatches(op: ConvergenceOperation, adapter: Adapter, a: ManagementState,
                                           b: ManagementState, receipt: OperationReceipt)
    requires Answered(op, adapter, a, b, receipt)
    ensures receipt in b.receipts && receipt.id == op.id && receipt.state.IsTerminal() && MatchesReceipt(op, receipt)
  {
  }

  /** The operation already has a terminal receipt. */
  predicate Finished(s: ManagementState, op: ConvergenceOperation) {
    var k := IndexOf(s.receipts, op.id);
    k.Some? && s.receipts[k.value].state.IsTerminal()
  }

  /** The state an agent starts from: what the disk holds for its scope, or a fresh one. */
  ghost predicate Startable(scope: AgentScope, disk: Option<ManagementState>) {
    disk.Some? ==> Loadable(disk.value, scope)
  }

  function RunStateOf(disk: Option<ManagementState>): Option<DesiredRunState> {
    if disk.Some? && disk.value.desired.Some? then Some(disk.value.desired.value.runState) else None
  }

  /** After the startup gate: what the disk held, or nothing at all yet, with the run state
      the gate let through, or an error. */
  ghost predicate Gated(scope: AgentScope, disk: Option<ManagementState>, adapter: Adapter, s: Option<ManagementState>)
  {
    && s.Some?
    && s.value.observed == adapter.gate(RunStateOf(disk)).GetOr(Error)
    && (disk.Some? ==> s.value == disk.value.(observed := s.value.observed) && s.value.scope == scope)
    && (disk.None? ==>
          && s.value.schemaVersion == STATE_SCHEMA_VERSION && s.value.scope == scope && s.value.desired.None?
          && s.value.applied.None? && s.value.lastSequence == 0 && s.value.receipts == [])
  }

  /** First a write, and a report, of the operation in progress; then at most its own
      effect; then a write, and a report, of the result. */
  ghost predicate WritesAround(was: seq<Act>, now: seq<Act>, op: ConvergenceOperation, final: ManagementState,
                               receipt: OperationReceipt)
  {
    exists running, k, effects :: WritesAroundWith(was, now, op, running, k, effects, final, receipt)
  }

  ghost predicate WritesAroundWith(was: seq<Act>, now: seq<Act>, op: ConvergenceOperation, running: ManagementState,
                                   k: nat, effects: seq<Act>, final: ManagementState, receipt: OperationReceipt)
  {
    && k < |running.receipts| && running.receipts[k].id == op.id && running.receipts[k].state.InProgress?
    && (effects == [] || effects == [Performed(op)])
    && now == was + [Persisted(running), Reported(running, running.receipts[k])] + effects
      + [Persisted(final), Reported(final, receipt)]
  }

  /** No scope, sequence or receipt clash, and still wanted: it may be accepted. */
  predicate Refuses(s: ManagementState, op: ConvergenceOperation) {
    op.scope != s.scope || op.sequence == 0 ||
    (match IndexOf(s.receipts, op.id)
     case Some(k) => !MatchesReceipt(op, s.receipts[k]) || (!s.receipts[k].state.IsTerminal() && !MatchesDesired(s, op))
     case None => !MatchesDesired(s, op) || op.sequence <= s.lastSequence)
  }

  lemma {:induction false} SoundIncreases(s: ManagementState)
    requires Sound(s)
    ensures Increasing(s.receipts)
  {
  }

  lemma {:induction false} FreshIsSound(scope: AgentScope)
    ensures Sound(FreshState(scope))
  {
  }

  lemma {:induction false} LoadableScope(s: ManagementState, scope: AgentScope)
    requires Loadable(s, scope)
    ensures s.scope == scope
  {
  }

  lemma {:induction false} FinishesMatches(a: ManagementState, op: ConvergenceOperation, adapter: Adapter,
                                           b: ManagementState, receipt: OperationReceipt)
    requires Pending(a, op) && Finishes(a, op, adapter, b, receipt)
    ensures receipt in b.receipts && receipt.id == op.id && receipt.state.IsTerminal() && MatchesReceipt(op, receipt)
  {
    var k := IndexOf(a.receipts, op.id).value;
    assert b.receipts[k] == receipt;
  }

  lemma {:induction false} AcknowledgedIsPending(s: ManagementState, op: ConvergenceOperation)
    requires Sound(s) && |s.receipts| > 0 && s.receipts[|s.receipts| - 1] == ReceiptFor(op, Acknowledged)
    requires MatchesDesired(s, op)
    ensures Pending(s, op)
  {
    var n := |s.receipts| - 1;
    assert s.receipts[n].id == op.id;
    assert forall i :: 0 <= i < n ==> s.receipts[i].id != op.id;
  }
}
