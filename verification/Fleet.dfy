/** The fleet agent's durable state, what each write to disk may change, and what
    that means for whole runs with crashes. */
module Fleet {
  import opened Json

  type Uuid = nat

  const STATE_SCHEMA_VERSION: nat := 1
  const MAX_OPERATION_RECEIPTS: nat := 1024

  datatype AgentScope = AgentScope(pipelineId: Uuid, deploymentId: Uuid)

  datatype DesiredRunState = Running | Paused | Drained

  datatype ObservedRunState = Starting | Observed(running: DesiredRunState) | Error | Stopped

  datatype AgentOperationKind = ConvergeState | ApplyConfiguration | Reconcile | Rebootstrap

  datatype DesiredStateSnapshot = DesiredStateSnapshot(
    scope: AgentScope,
    revision: nat,
    runState: DesiredRunState,
    configurationRevision: Option<nat>)

  datatype ConfigurationBundle = ConfigurationBundle(revision: nat, document: string)

  datatype ConvergenceOperation = ConvergenceOperation(
    id: Uuid,
    scope: AgentScope,
    sequence: nat,
    expectedDesiredRevision: nat,
    kind: AgentOperationKind,
    runState: DesiredRunState,
    deleteOrphans: bool,
    confirmed: bool,
    configuration: Option<ConfigurationBundle>)
  {
    function ConfigurationRevision(): Option<nat> {
      if configuration.Some? then Some(configuration.value.revision) else None
    }
  }

  datatype ReceiptState = Acknowledged | InProgress | Succeeded | Failed {
    predicate IsTerminal() {
      Succeeded? || Failed?
    }
  }

  datatype OperationReceipt = OperationReceipt(
    id: Uuid,
    sequence: nat,
    expectedDesiredRevision: nat,
    kind: AgentOperationKind,
    runState: DesiredRunState,
    deleteOrphans: bool,
    confirmed: bool,
    configurationRevision: Option<nat>,
    state: ReceiptState)

  datatype ManagementState = ManagementState(
    schemaVersion: nat,
    scope: AgentScope,
    desired: Option<DesiredStateSnapshot>,
    observed: ObservedRunState,
    applied: Option<ConfigurationBundle>,
    lastSequence: nat,
    receipts: seq<OperationReceipt>)

  function FreshState(scope: AgentScope): ManagementState {
    ManagementState(STATE_SCHEMA_VERSION, scope, None, Stopped, None, 0, [])
  }

  // ---- validation --------------------------------------------------------

  /** What the store checks before every write and after every read. */
  ghost predicate Loadable(s: ManagementState, scope: AgentScope) {
    && s.schemaVersion == STATE_SCHEMA_VERSION && s.scope == scope
    && (s.desired.Some? ==> s.desired.value.scope == s.scope)
    && (forall i :: 0 <= i < |s.receipts| ==> s.receipts[i].sequence <= s.lastSequence)
    && (forall i, j :: 0 <= i < j < |s.receipts| ==> s.receipts[i].id != s.receipts[j].id)
  }

  method ValidateState(s: ManagementState, scope: AgentScope) returns (ok: bool)
    ensures ok <==> Loadable(s, scope)
  {
    if s.schemaVersion != STATE_SCHEMA_VERSION || s.scope != scope { return false; }
    if s.desired.Some? && s.desired.value.scope != s.scope { return false; }
    var ids: set<Uuid> := {};
    for n := 0 to |s.receipts|
      invariant forall i :: 0 <= i < n ==> s.receipts[i].sequence <= s.lastSequence
      invariant forall i, j :: 0 <= i < j < n ==> s.receipts[i].id != s.receipts[j].id
      invariant forall id :: id in ids <==> exists i :: 0 <= i < n && s.receipts[i].id == id
    {
      if s.receipts[n].sequence > s.lastSequence { return false; }
      if s.receipts[n].id in ids { return false; }
      ids := ids + {s.receipts[n].id};
    }
    ok := true;
  }

  predicate MatchesReceipt(op: ConvergenceOperation, r: OperationReceipt) {
    && r.sequence == op.sequence && r.expectedDesiredRevision == op.expectedDesiredRevision && r.kind == op.kind
    && r.runState == op.runState && r.deleteOrphans == op.deleteOrphans && r.confirmed == op.confirmed
    && r.configurationRevision == op.ConfigurationRevision()
  }

  predicate MatchesDesired(s: ManagementState, op: ConvergenceOperation) {
    && s.desired.Some? && s.desired.value.revision == op.expectedDesiredRevision
      && s.desired.value.runState == op.runState
    && s.desired.value.configurationRevision ==
       (if op.configuration.Some? then op.ConfigurationRevision() else s.desired.value.configurationRevision)
  }

  function ReceiptFor(op: ConvergenceOperation, state: ReceiptState): OperationReceipt {
    OperationReceipt(op.id, op.sequence, op.expectedDesiredRevision, op.kind, op.runState, op.deleteOrphans,
                     op.confirmed, op.ConfigurationRevision(), state)
  }

  /** A receipt matches an operation exactly when it is that operation's, but for the id
      under which it was looked up and how far it has got. */
  lemma {:induction false} MatchesReceiptIff(op: ConvergenceOperation, r: OperationReceipt)
    ensures MatchesReceipt(op, r) <==> r == ReceiptFor(op, r.state).(id := r.id)
  {
  }

  /** An operation is wanted exactly when the current snapshot is the one it was made for. */
  lemma {:induction false} MatchesDesiredIff(s: ManagementState, op: ConvergenceOperation)
    ensures MatchesDesired(s, op) <==>
      exists scope, configuration ::
        && s.desired == Some(DesiredStateSnapshot(scope, op.expectedDesiredRevision, op.runState, configuration))
        && (op.configuration.Some? ==> configuration == Some(op.configuration.value.revision))
  {
    if s.desired.Some? {
      var d := s.desired.value;
      assert d == DesiredStateSnapshot(d.scope, d.revision, d.runState, d.configurationRevision);
    }
  }

  // ---- what holds of every state the agent writes ------------------------

  ghost predicate Increasing(receipts: seq<OperationReceipt>) {
    forall i, j :: 0 <= i < j < |receipts| ==> receipts[i].sequence < receipts[j].sequence
  }

  ghost predicate UniqueIds(receipts: seq<OperationReceipt>) {
    forall i, j :: 0 <= i < j < |receipts| ==> receipts[i].id != receipts[j].id
  }

  ghost predicate Sound(s: ManagementState) {
    && s.schemaVersion == STATE_SCHEMA_VERSION
    && (s.desired.Some? ==> s.desired.value.scope == s.scope)
    && |s.receipts| <= MAX_OPERATION_RECEIPTS && Increasing(s.receipts) && UniqueIds(s.receipts)
    && (forall r :: r in s.receipts ==> 0 < r.sequence <= s.lastSequence)
  }

  lemma {:induction false} SoundIsLoadable(s: ManagementState)
    requires Sound(s)
    ensures Loadable(s, s.scope)
  {
    forall i | 0 <= i < |s.receipts| ensures s.receipts[i].sequence <= s.lastSequence {
      assert s.receipts[i] in s.receipts;
    }
  }

  // ---- what one write may change -----------------------------------------

  ghost predicate Forward(a: ReceiptState, b: ReceiptState) {
    match a
    case Acknowledged => true
    case InProgress => !b.Acknowledged?
    case _ => b == a
  }

  /** `b` is the same operation's receipt, no further back. */
  ghost predicate Advances(a: OperationReceipt, b: OperationReceipt) {
    b == a.(state := b.state) && Forward(a.state, b.state)
  }

  /** Unfinished work is never dropped, and receipts only move forward. */
  ghost predicate Keeps(a: ManagementState, b: ManagementState) {
    forall r :: r in a.receipts ==>
      (exists r' :: r' in b.receipts && Advances(r, r')) ||
      (r.state.IsTerminal() && forall r' :: r' in b.receipts ==> r'.sequence != r.sequence)
  }

  /** A receipt is either carried over or for a sequence never accepted before. */
  ghost predicate Derives(a: ManagementState, b: ManagementState) {
    forall r' :: r' in b.receipts && r'.sequence <= a.lastSequence ==> exists r :: r in a.receipts && Advances(r, r')
  }

  /** The desired snapshot only moves to higher revisions. */
  ghost predicate DesiredMoves(a: ManagementState, b: ManagementState) {
    a.desired.Some? ==>
      b.desired.Some? && (b.desired == a.desired || a.desired.value.revision < b.desired.value.revision)
  }

  /** A configuration is only recorded when it is the one desired. */
  ghost predicate AppliesDesired(a: ManagementState, b: ManagementState) {
    b.applied != a.applied ==>
      b.applied.Some? && b.desired.Some? && b.desired.value.configurationRevision == Some(b.applied.value.revision)
  }

  ghost predicate Evolves(a: ManagementState, b: ManagementState) {
    && b.scope == a.scope && a.lastSequence <= b.lastSequence
    && DesiredMoves(a, b) && Keeps(a, b) && Derives(a, b) && AppliesDesired(a, b)
  }

  // ---- histories ---------------------------------------------------------

  /** A durable write, an effect of the adapter, a report to the control plane. */
  datatype Act =
    | Persisted(s: ManagementState)
    | Performed(op: ConvergenceOperation)
    | Reported(mem: ManagementState, receipt: OperationReceipt)

  /** What the disk holds after these acts. */
  function Disk(start: Option<ManagementState>, acts: seq<Act>): Option<ManagementState> {
    if acts == [] then start
    else if acts[|acts| - 1].Persisted? then Some(acts[|acts| - 1].s)
    else Disk(start, acts[..|acts| - 1])
  }

  ghost predicate Unfinished(s: ManagementState, op: ConvergenceOperation) {
    exists r :: r in s.receipts && r.id == op.id && r.state.InProgress? && MatchesReceipt(op, r)
  }

  /** An act is right for what the disk holds when it happens. */
  ghost predicate Proper(disk: Option<ManagementState>, act: Act) {
    match act
    case Persisted(s) => Sound(s) && (if disk.Some? then Evolves(disk.value, s) else s == FreshState(s.scope))
    case Performed(op) => disk.Some? && Unfinished(disk.value, op) && MatchesDesired(disk.value, op)
    case Reported(mem, receipt) => disk == Some(mem) && receipt in mem.receipts
  }

  ghost predicate Orderly(start: Option<ManagementState>, acts: seq<Act>) {
    forall i :: 0 <= i < |acts| ==> Proper(Disk(start, acts[..i]), acts[i])
  }

  // ---- crashes -----------------------------------------------------------

  /** Cutting a history anywhere leaves an orderly history. */
  lemma {:induction false} CrashAnywhere(start: Option<ManagementState>, acts: seq<Act>, n: nat)
    requires Orderly(start, acts) && n <= |acts|
    ensures Orderly(start, acts[..n])
  {
    forall i | 0 <= i < n ensures Proper(Disk(start, acts[..n][..i]), acts[..n][i]) {
      assert acts[..n][..i] == acts[..i];
    }
  }

  lemma {:induction false} DiskConcat(start: Option<ManagementState>, a: seq<Act>, b: seq<Act>)
    ensures Disk(start, a + b) == Disk(Disk(start, a), b)
  {
    if b == [] {
      assert a + b == a;
    } else {
      assert (a + b)[..|a + b| - 1] == a + b[..|b| - 1];
      DiskConcat(start, a, b[..|b| - 1]);
    }
  }

  /** A new process starting from what the disk holds continues the history. */
  lemma {:induction false} OrderlyConcat(start: Option<ManagementState>, a: seq<Act>, b: seq<Act>)
    requires Orderly(start, a) && Orderly(Disk(start, a), b)
    ensures Orderly(start, a + b)
  {
    hide Proper;
    forall i | 0 <= i < |a + b| ensures Proper(Disk(start, (a + b)[..i]), (a + b)[i]) {
      if i < |a| {
        assert (a + b)[..i] == a[..i];
      } else {
        var j := i - |a|;
        assert (a + b)[..i] == a + b[..j];
        DiskConcat(start, a, b[..j]);
        assert Proper(Disk(Disk(start, a), b[..j]), b[j]);
      }
    }
  }

  /** One process after another, each cut off anywhere, each starting from the disk
      the one before it left. */
  ghost predicate Lives(start: Option<ManagementState>, lives: seq<seq<Act>>)
    decreases |lives|
  {
    lives == [] ||
    ((exists whole :: |lives[0]| <= |whole| && whole[..|lives[0]|] == lives[0] && Orderly(start, whole))
     && Lives(Disk(start, lives[0]), lives[1..]))
  }

  function Joined(lives: seq<seq<Act>>): seq<Act> {
    if lives == [] then [] else lives[0] + Joined(lives[1..])
  }

  lemma {:induction false} LivesAreOrderly(start: Option<ManagementState>, lives: seq<seq<Act>>)
    requires Lives(start, lives)
    ensures Orderly(start, Joined(lives))
    decreases |lives|
  {
    if lives != [] {
      var whole :| |lives[0]| <= |whole| && whole[..|lives[0]|] == lives[0] && Orderly(start, whole);
      CrashAnywhere(start, whole, |lives[0]|);
      LivesAreOrderly(Disk(start, lives[0]), lives[1..]);
      OrderlyConcat(start, lives[0], Joined(lives[1..]));
    }
  }

  // ---- no repeated effect ------------------------------------------------

  /** The operation was accepted and is not waiting to be finished. */
  ghost predicate Settled(s: ManagementState, id: Uuid, sequence: nat) {
    sequence <= s.lastSequence &&
    forall r :: r in s.receipts && r.id == id && r.sequence == sequence ==> r.state.IsTerminal()
  }

  lemma {:induction false} StaysSettled(a: ManagementState, b: ManagementState, id: Uuid, sequence: nat)
    requires Evolves(a, b) && Settled(a, id, sequence)
    ensures Settled(b, id, sequence)
  {
    forall r' | r' in b.receipts && r'.id == id && r'.sequence == sequence ensures r'.state.IsTerminal() {
      var r :| r in a.receipts && Advances(r, r');
    }
  }

  lemma {:induction false} SettledForever(start: Option<ManagementState>, acts: seq<Act>, id: Uuid, sequence: nat)
    requires Orderly(start, acts) && start.Some? && Settled(start.value, id, sequence)
    ensures Disk(start, acts).Some? && Settled(Disk(start, acts).value, id, sequence)
  {
    if acts != [] {
      var n := |acts| - 1;
      CrashAnywhere(start, acts, n);
      SettledForever(start, acts[..n], id, sequence);
      assert Proper(Disk(start, acts[..n]), acts[n]);
      if acts[n].Persisted? { StaysSettled(Disk(start, acts[..n]).value, acts[n].s, id, sequence); }
    }
  }

  /** Once a terminal receipt of an operation is on disk, nothing that follows, in
      this process or any later one, performs it again. */
  lemma {:induction false} NoRepeatedEffect(start: Option<ManagementState>, acts: seq<Act>, i: nat, j: nat,
                                            r: OperationReceipt)
    requires Orderly(start, acts) && i < j < |acts|
    requires acts[i].Persisted? && r in acts[i].s.receipts && r.state.IsTerminal() && acts[j].Performed?
    ensures !(acts[j].op.id == r.id && acts[j].op.sequence == r.sequence)
  {
    hide Proper, Settled, Sound;
    var s := acts[i].s;
    PersistedIsSound(Disk(start, acts[..i]), acts[i]);
    OneReceiptPerId(s, r);
    var before, after := acts[..i + 1], acts[i + 1..j];
    assert before + after == acts[..j] && Disk(start, before) == Some(s);
    DiskConcat(start, before, after);
    SliceOrderly(start, acts, i + 1, j);
    SettledForever(Some(s), after, r.id, r.sequence);
    PerformedIsUnsettled(Disk(start, acts[..j]), acts[j]);
  }

  lemma {:induction false} PersistedIsSound(disk: Option<ManagementState>, act: Act)
    requires Proper(disk, act) && act.Persisted?
    ensures Sound(act.s)
  {
  }

  lemma {:induction false} PerformedIsUnsettled(disk: Option<ManagementState>, act: Act)
    requires Proper(disk, act) && act.Performed?
    ensures disk.Some? && !Settled(disk.value, act.op.id, act.op.sequence)
  {
  }

  lemma {:induction false} OneReceiptPerId(s: ManagementState, r: OperationReceipt)
    requires Sound(s) && r in s.receipts && r.state.IsTerminal()
    ensures Settled(s, r.id, r.sequence)
  {
  }

  lemma {:induction false} SliceOrderly(start: Option<ManagementState>, acts: seq<Act>, i: nat, j: nat)
    requires Orderly(start, acts) && i <= j <= |acts|
    ensures Orderly(Disk(start, acts[..i]), acts[i..j])
  {
    hide Proper;
    var slice := acts[i..j];
    forall k | 0 <= k < |slice| ensures Proper(Disk(Disk(start, acts[..i]), slice[..k]), slice[k]) {
      assert acts[..i] + slice[..k] == acts[..i + k];
      DiskConcat(start, acts[..i], slice[..k]);
    }
  }

  // ---- what a whole run keeps --------------------------------------------

  /** From one durable state to any later one: nothing moves back, and a receipt for
      a sequence accepted before is that operation's, no further back. */
  ghost predicate Later(a: ManagementState, b: ManagementState) {
    a.scope == b.scope && a.lastSequence <= b.lastSequence && DesiredMoves(a, b) && Derives(a, b)
  }

  lemma {:induction false} DerivesOn(a: ManagementState, b: ManagementState, c: ManagementState)
    requires a.lastSequence <= b.lastSequence && Derives(a, b) && Derives(b, c)
    ensures Derives(a, c)
  {
    forall r' | r' in c.receipts && r'.sequence <= a.lastSequence
      ensures exists r :: r in a.receipts && Advances(r, r')
    {
      var m :| m in b.receipts && Advances(m, r');
      var r :| r in a.receipts && Advances(r, m);
      assert Advances(r, r');
    }
  }

  lemma {:induction false} LaterStep(a: ManagementState, b: ManagementState, c: ManagementState)
    requires Later(a, b) && Evolves(b, c)
    ensures Later(a, c)
  {
    hide Derives, Keeps;
    DerivesOn(a, b, c);
  }

  lemma {:induction false} DiskMovesOn(s: ManagementState, acts: seq<Act>)
    requires Orderly(Some(s), acts) && Sound(s)
    ensures Disk(Some(s), acts).Some? && Later(s, Disk(Some(s), acts).value) && Sound(Disk(Some(s), acts).value)
  {
    if acts == [] {
      assert forall r :: r in s.receipts ==> Advances(r, r);
    } else {
      var n := |acts| - 1;
      CrashAnywhere(Some(s), acts, n);
      DiskMovesOn(s, acts[..n]);
      assert Proper(Disk(Some(s), acts[..n]), acts[n]);
      if acts[n].Persisted? { LaterStep(s, Disk(Some(s), acts[..n]).value, acts[n].s); }
    }
  }

  /** Across restarts the accepted sequence and the desired revision never go back,
      and receipts only move forward. */
  lemma {:induction false} RunOnlyMovesForward(start: Option<ManagementState>, acts: seq<Act>, i: nat, j: nat)
    requires Orderly(start, acts) && i <= j < |acts| && acts[i].Persisted? && acts[j].Persisted?
    ensures Sound(acts[i].s) && Sound(acts[j].s) && Later(acts[i].s, acts[j].s)
  {
    hide Proper, Later, Sound, Disk, Orderly;
    var s := acts[i].s;
    WrittenIsOnDisk(start, acts, i);
    WrittenIsOnDisk(start, acts, j);
    var before, after := acts[..i + 1], acts[i + 1..j + 1];
    assert before + after == acts[..j + 1];
    DiskConcat(start, before, after);
    SliceOrderly(start, acts, i + 1, j + 1);
    DiskMovesOn(s, after);
  }

  lemma {:induction false} WrittenIsOnDisk(start: Option<ManagementState>, acts: seq<Act>, i: nat)
    requires Orderly(start, acts) && i < |acts| && acts[i].Persisted?
    ensures Sound(acts[i].s) && Disk(start, acts[..i + 1]) == Some(acts[i].s)
  {
    hide Proper, Sound;
    PersistedIsSound(Disk(start, acts[..i]), acts[i]);
  }

  ghost predicate Selected(s: ManagementState, c: ConfigurationBundle) {
    s.applied == Some(c) && s.desired.Some? && s.desired.value.configurationRevision == Some(c.revision)
  }

  /** A configuration on disk was, when it was first recorded, the one the desired
      snapshot selected. */
  lemma {:induction false} AppliedWasDesired(acts: seq<Act>, j: nat)
    requires Orderly(None, acts) && j < |acts| && acts[j].Persisted? && acts[j].s.applied.Some?
    ensures exists i :: 0 <= i <= j && acts[i].Persisted? && Selected(acts[i].s, acts[j].s.applied.value)
  {
    hide Evolves;
    var disk := Disk(None, acts[..j]);
    assert Proper(disk, acts[j]);
    assert disk.Some?;
    if acts[j].s.applied == disk.value.applied {
      var k := LastPersisted(acts[..j], disk.value);
      AppliedWasDesired(acts, k);
    } else {
      AppliedOnlyWhenDesired(disk.value, acts[j].s);
    }
  }

  lemma {:induction false} AppliedOnlyWhenDesired(a: ManagementState, b: ManagementState)
    requires Evolves(a, b) && a.applied != b.applied
    ensures b.applied.Some? && b.desired.Some?
    ensures b.desired.value.configurationRevision == Some(b.applied.value.revision)
  {
  }

  lemma {:induction false} LastPersisted(acts: seq<Act>, s: ManagementState) returns (k: nat)
    requires Disk(None, acts) == Some(s)
    ensures k < |acts| && acts[k] == Persisted(s) && WroteLast(acts, k, |acts|)
  {
    var n := |acts| - 1;
    if acts[n].Persisted? {
      k := n;
    } else {
      k := LastPersisted(acts[..n], s);
      forall m | k < m < |acts| ensures !acts[m].Persisted? {
        if m < n { assert acts[..n][m] == acts[m]; }
      }
    }
  }

  // ---- write-ahead --------------------------------------------------------

  /** Act `m` is the last write before position `j`. */
  ghost predicate WroteLast(acts: seq<Act>, m: int, j: int) {
    0 <= m < j <= |acts| && acts[m].Persisted? && forall k :: m < k < j ==> !acts[k].Persisted?
  }

  /** The last write before the effect holds its operation as in progress. */
  ghost predicate WrittenAhead(acts: seq<Act>, j: nat)
    requires j < |acts| && acts[j].Performed?
  {
    exists m :: WroteLast(acts, m, j) && Unfinished(acts[m].s, acts[j].op)
  }

  /** What is reported is what was written last. */
  ghost predicate ReportedAsWritten(acts: seq<Act>, j: nat)
    requires j < |acts| && acts[j].Reported?
  {
    exists m :: WroteLast(acts, m, j) && acts[m].s == acts[j].mem && acts[j].receipt in acts[j].mem.receipts
  }

  ghost predicate WriteAhead(acts: seq<Act>) {
    forall j :: 0 <= j < |acts| ==>
      (acts[j].Performed? ==> WrittenAhead(acts, j)) && (acts[j].Reported? ==> ReportedAsWritten(acts, j))
  }

  lemma {:induction false} OrderlyWritesAhead(acts: seq<Act>)
    requires Orderly(None, acts)
    ensures WriteAhead(acts)
  {
    hide Proper, WrittenAhead, ReportedAsWritten;
    forall j | 0 <= j < |acts|
      ensures (acts[j].Performed? ==> WrittenAhead(acts, j)) && (acts[j].Reported? ==> ReportedAsWritten(acts, j))
    {
      if acts[j].Performed? || acts[j].Reported? { ActAfterWrite(acts, j); }
    }
  }

  lemma {:induction false} ActAfterWrite(acts: seq<Act>, j: nat)
    requires j < |acts| && !acts[j].Persisted? && Proper(Disk(None, acts[..j]), acts[j])
    ensures acts[j].Performed? ==> WrittenAhead(acts, j)
    ensures acts[j].Reported? ==> ReportedAsWritten(acts, j)
  {
    hide Unfinished, MatchesDesired, Disk;
    var disk := Disk(None, acts[..j]);
    var m := LastPersisted(acts[..j], disk.value);
    assert acts[m] == acts[..j][m];
    assert forall k :: m < k < j ==> acts[k] == acts[..j][k];
    assert WroteLast(acts, m, j);
  }

  // ---- unfinished work ----------------------------------------------------

  /** After the acts the receipt is still on disk, no further back, or a terminal one
      of it has been. */
  ghost predicate NotLost(start: Option<ManagementState>, acts: seq<Act>, r: OperationReceipt) {
    || (Disk(start, acts).Some? && exists r' :: r' in Disk(start, acts).value.receipts && Advances(r, r'))
    || exists m, r' :: FinishedAt(acts, m, r, r')
  }

  /** The act wrote a terminal receipt of the operation. */
  ghost predicate FinishedAt(acts: seq<Act>, m: int, r: OperationReceipt, r': OperationReceipt) {
    && 0 <= m < |acts| && acts[m].Persisted? && r' in acts[m].s.receipts
    && Advances(r, r') && r'.state.IsTerminal()
  }

  lemma {:induction false} NotLostStep(start: Option<ManagementState>, acts: seq<Act>, act: Act, r: OperationReceipt)
    requires NotLost(start, acts, r) && Proper(Disk(start, acts), act) && !r.state.IsTerminal()
    requires Disk(start, acts).Some?
    requires (exists r' :: r' in Disk(start, acts).value.receipts && Advances(r, r') && r'.state.IsTerminal()) ==>
      exists m, r' :: FinishedAt(acts, m, r, r')
    ensures NotLost(start, acts + [act], r)
  {
    hide Sound, Unfinished, MatchesDesired, Derives, DesiredMoves, AppliesDesired;
    var more := acts + [act];
    assert more[..|acts|] == acts;
    if m, r' :| FinishedAt(acts, m, r, r') {
      assert FinishedAt(more, m, r, r');
    } else if act.Persisted? {
      var r' :| r' in Disk(start, acts).value.receipts && Advances(r, r');
      var r'' :| r'' in act.s.receipts && Advances(r', r'');
      assert Advances(r, r'');
    }
  }

  /** An unfinished receipt on disk is later still there, no further back, or a
      terminal one of the same operation was on disk in between; across restarts. */
  lemma {:induction false} UnfinishedNeverLost(s: ManagementState, acts: seq<Act>, r: OperationReceipt)
    requires Orderly(Some(s), acts) && Sound(s) && r in s.receipts && !r.state.IsTerminal()
    ensures NotLost(Some(s), acts, r)
    ensures Disk(Some(s), acts).Some?
    ensures (exists r' :: r' in Disk(Some(s), acts).value.receipts && Advances(r, r') && r'.state.IsTerminal()) ==>
      exists m, r' :: FinishedAt(acts, m, r, r')
  {
    hide Proper;
    if acts == [] {
      assert Advances(r, r);
      assert forall r' :: r' in s.receipts && r'.id == r.id ==> r' == r;
    } else {
      var n := |acts| - 1;
      CrashAnywhere(Some(s), acts, n);
      UnfinishedNeverLost(s, acts[..n], r);
      NotLostStep(Some(s), acts[..n], acts[n], r);
      assert acts[..n] + [acts[n]] == acts;
      if r' :| r' in Disk(Some(s), acts).value.receipts && Advances(r, r') && r'.state.IsTerminal() {
        if acts[n].Persisted? {
          assert FinishedAt(acts, n, r, r');
        } else {
          var m, last :| FinishedAt(acts[..n], m, r, last);
          assert FinishedAt(acts, m, r, last);
        }
      }
    }
  }
}
