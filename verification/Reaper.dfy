/** Session set-up against the orphan reaper: one pod's live set and deletion gate,
    the broker's consumers, and any interleaving of sessions and sweeps. */
module Reaper {
  import opened Json

  datatype Owner = Owner(role: string, pod: string)

  datatype Name = Name(owner: Owner, tenant: string, id: string)

  /** A session from its first call to its end. `Ready` holds a consumer but has not
      yet been handed to its owner. */
  datatype Stage = Waiting | AtGate | Reserved | Ready | Live | Ended

  datatype Gate = Free | ForSession(n: Name) | ForSweep

  /** One sweep: the live set it started from and, while it considers a consumer,
      that consumer. `Checked` is after the second look, gate still held. */
  datatype Sweep = Resting | Listing(live: set<string>) | Considering(live: set<string>,
    n: Name) | Gated(live: set<string>, n: Name)
    | Checked(live: set<string>, n: Name)

  datatype World = World(
    own: Owner,
    sessions: map<Name, Stage>,
    active: set<string>,
    consumers: set<Name>,
    everCreated: set<Name>,
    gate: Gate,
    sweep: Sweep)

  datatype Step =
    | Begin(n: Name)          // a new session, under an id its owner never used before
    | EnterGate(n: Name)      // the reservation gets the deletion gate
    | Reserve(n: Name)        // and puts the id in the live set, giving the gate back
    | CreateConsumer(n: Name)
    | Commit(n: Name)         // the handle takes over the registration
    | FailSetup(n: Name)      // set-up fails or is cancelled: the registration is dropped
    | DropSession(n: Name)    // the handle is dropped: the id leaves the live set first
    | DeleteOwn(n: Name)      // and its detached task deletes the consumer
    | SweepStart
    | SweepList(n: Name)      // a listed name, perhaps of a consumer gone meanwhile
    | SweepSkip               // another owner's, or in the live set the sweep started from
    | SweepGate
    | SweepLookAgain
    | SweepDelete(ok: bool)
    | SweepEnd

  predicate InUse(w: World, n: Name) {
    n in w.sessions && (w.sessions[n].Reserved? || w.sessions[n].Ready? || w.sessions[n].Live?)
  }

  predicate At(w: World, n: Name, stage: Stage) {
    n in w.sessions && w.sessions[n] == stage
  }

  /** Sessions of other owners register in their own live set, not this one. */
  function Register(w: World, n: Name): set<string> {
    if n.owner == w.own then w.active + {n.id} else w.active
  }

  function Unregister(w: World, n: Name): set<string> {
    if n.owner == w.own then w.active - {n.id} else w.active
  }

  predicate Enabled(w: World, step: Step) {
    match step
    case Begin(n) => forall m :: m in w.sessions.Keys + w.everCreated && m.owner == n.owner ==> m.id != n.id
    case EnterGate(n) => At(w, n, Waiting) && (n.owner == w.own ==> w.gate.Free?)
    case Reserve(n) => At(w, n, AtGate) && (n.owner == w.own ==> w.gate == ForSession(n))
    case CreateConsumer(n) => At(w, n, Reserved)
    case Commit(n) => At(w, n, Ready)
    case FailSetup(n) => At(w, n, Waiting) || At(w, n, Reserved) || At(w, n, Ready)
    case DropSession(n) => At(w, n, Live)
    case DeleteOwn(n) => At(w, n, Ended)
    case SweepStart => w.sweep.Resting?
    case SweepList(n) => w.sweep.Listing? && n in w.everCreated
    case SweepSkip => w.sweep.Considering? && (w.sweep.n.owner != w.own || w.sweep.n.id in w.sweep.live)
    case SweepGate => w.sweep.Considering? && w.sweep.n.owner == w.own && w.sweep.n.id !in w.sweep.live && w.gate.Free?
    case SweepLookAgain => w.sweep.Gated?
    case SweepDelete(_) => w.sweep.Checked?
    case SweepEnd => w.sweep.Listing?
  }

  function Do(w: World, step: Step): World
    requires Enabled(w, step)
  {
    match step
    case Begin(n) => w.(sessions := w.sessions[n := Waiting])
    case EnterGate(n) => w.(sessions := w.sessions[n := AtGate], gate := if n.owner == w.own then ForSession(n)
      else w.gate)
    case Reserve(n) =>
      w.(sessions := w.sessions[n := Reserved], active := Register(w, n), gate := if n.owner == w.own then Free
        else w.gate)
    case CreateConsumer(n) =>
      w.(sessions := w.sessions[n := Ready], consumers := w.consumers + {n}, everCreated := w.everCreated + {n})
    case Commit(n) => w.(sessions := w.sessions[n := Live])
    case FailSetup(n) =>
      w.(sessions := w.sessions[n := Ended], active := if At(w, n, Waiting) then w.active else Unregister(w, n))
    case DropSession(n) => w.(sessions := w.sessions[n := Ended], active := Unregister(w, n))
    case DeleteOwn(n) => w.(consumers := w.consumers - {n})
    case SweepStart => w.(sweep := Listing(w.active))
    case SweepList(n) => w.(sweep := Considering(w.sweep.live, n))
    case SweepSkip => w.(sweep := Listing(w.sweep.live))
    case SweepGate => w.(sweep := Gated(w.sweep.live, w.sweep.n), gate := ForSweep)
    case SweepLookAgain =>
      if w.sweep.n.id in w.active then w.(sweep := Listing(w.sweep.live), gate := Free)
      else w.(sweep := Checked(w.sweep.live, w.sweep.n))
    case SweepDelete(ok) =>
      w.(consumers := if ok then w.consumers - {w.sweep.n}
        else w.consumers, sweep := Listing(w.sweep.live), gate := Free)
    case SweepEnd => w.(sweep := Resting)
  }

  /** A pod starts among the consumers earlier processes left behind. */
  function Boot(own: Owner, left: set<Name>): World {
    World(own, map[], {}, left, left, Free, Resting)
  }

  predicate IsRun(w: World, steps: seq<Step>)
    decreases |steps|
  {
    steps == [] || (Enabled(w, steps[0]) && IsRun(Do(w, steps[0]), steps[1..]))
  }

  function After(w: World, steps: seq<Step>): World
    requires IsRun(w, steps)
    decreases |steps|
  {
    if steps == [] then w else After(Do(w, steps[0]), steps[1..])
  }

  // ---- what every step keeps ---------------------------------------------

  /** A session of this pod in use is in the live set. */
  ghost predicate Registered(w: World) {
    forall n :: InUse(w, n) && n.owner == w.own ==> n.id in w.active
  }

  ghost predicate IdsUsedOnce(w: World) {
    forall m, n :: m in w.sessions && n in w.sessions && m.owner == n.owner && m.id == n.id ==> m == n
  }

  /** The gate serialises the second look and the delete with new registrations. */
  ghost predicate GateHeld(w: World) {
    && (forall n :: At(w, n, AtGate) && n.owner == w.own ==> w.gate == ForSession(n))
    && (w.sweep.Gated? || w.sweep.Checked? ==> w.gate.ForSweep? && w.sweep.n.owner == w.own)
    && (w.sweep.Checked? ==> w.sweep.n.id !in w.active)
  }

  /** A session in use whose consumer exists at the broker. */
  ghost predicate Served(w: World) {
    forall n :: At(w, n, Ready) || At(w, n, Live) ==> n in w.consumers
  }

  ghost predicate Safe(w: World) {
    Registered(w) && IdsUsedOnce(w) && GateHeld(w) && Served(w)
  }

  /** The live set holds nothing but sessions in use, and a consumer under a session's
      id is that session's. */
  ghost predicate OnlyLive(w: World) {
    && (forall id :: id in w.active ==> exists n :: InUse(w, n) && n.owner == w.own && n.id == id)
    && w.consumers <= w.everCreated
    && (forall m, n :: m in w.everCreated && n in w.sessions && m.owner == n.owner && m.id == n.id ==> m == n)
  }

  lemma {:induction false} StepOnlyLive(w: World, step: Step)
    requires OnlyLive(w) && IdsUsedOnce(w) && Enabled(w, step)
    ensures OnlyLive(Do(w, step))
  {
    var w' := Do(w, step);
    forall id | id in w'.active ensures exists n :: InUse(w', n) && n.owner == w'.own && n.id == id {
      if id in w.active {
        var n :| InUse(w, n) && n.owner == w.own && n.id == id;
        assert InUse(w', n);
      } else {
        assert InUse(w', step.n) && step.n.id == id;
      }
    }
  }

  lemma {:induction false} AlwaysOnlyLive(w: World, steps: seq<Step>)
    requires Safe(w) && OnlyLive(w) && IsRun(w, steps)
    ensures Safe(After(w, steps)) && OnlyLive(After(w, steps)) && After(w, steps).own == w.own
    decreases |steps|
  {
    hide Registered, IdsUsedOnce, GateHeld, Served, OnlyLive, Enabled, Do;
    if steps != [] {
      AlwaysSafe(w, steps[..1]);
      StepOnlyLive(w, steps[0]);
      StepRegistered(w, steps[0]);
      AlwaysOnlyLive(Do(w, steps[0]), steps[1..]);
    }
  }

  lemma {:induction false} StepRegistered(w: World, step: Step)
    requires Registered(w) && IdsUsedOnce(w) && Enabled(w, step)
    ensures Registered(Do(w, step)) && Do(w, step).own == w.own
  {
    var w' := Do(w, step);
    forall n | InUse(w', n) && n.owner == w'.own ensures n.id in w'.active {
      if InUse(w, n) { assert n.id in w.active; }
    }
  }

  lemma {:induction false} StepIdsUsedOnce(w: World, step: Step)
    requires IdsUsedOnce(w) && Enabled(w, step)
    ensures IdsUsedOnce(Do(w, step))
  {
  }

  lemma {:induction false} StepGateHeld(w: World, step: Step)
    requires GateHeld(w) && Enabled(w, step)
    ensures GateHeld(Do(w, step))
  {
    var w' := Do(w, step);
    forall n | At(w', n, AtGate) && n.owner == w'.own ensures w'.gate == ForSession(n) {
      if At(w, n, AtGate) { assert w.gate == ForSession(n); }
    }
  }

  /** The delete a sweep gets to is never of a consumer in use. */
  lemma {:induction false} DeleteIsOfOrphan(w: World)
    requires Safe(w) && w.sweep.Checked?
    ensures !InUse(w, w.sweep.n)
  {
  }

  lemma {:induction false} StepServed(w: World, step: Step)
    requires Safe(w) && Enabled(w, step)
    ensures Served(Do(w, step))
  {
    var w' := Do(w, step);
    if step.SweepDelete? { DeleteIsOfOrphan(w); }
    forall n | At(w', n, Ready) || At(w', n, Live) ensures n in w'.consumers {
      assert At(w, n, Ready) || At(w, n, Live) || step == CreateConsumer(n);
    }
  }

  lemma {:induction false} AlwaysSafe(w: World, steps: seq<Step>)
    requires Safe(w) && IsRun(w, steps)
    ensures Safe(After(w, steps))
    decreases |steps|
  {
    hide Registered, IdsUsedOnce, GateHeld, Served, Enabled, Do;
    if steps != [] {
      StepRegistered(w, steps[0]);
      StepIdsUsedOnce(w, steps[0]);
      StepGateHeld(w, steps[0]);
      StepServed(w, steps[0]);
      AlwaysSafe(Do(w, steps[0]), steps[1..]);
    }
  }

  /** In every run, whatever the interleaving: the next sweep delete is not of a
      session in use, and every session that was given a consumer still has it. */
  lemma {:induction false} ReaperSparesTheLiving(own: Owner, left: set<Name>, steps: seq<Step>)
    requires IsRun(Boot(own, left), steps)
    ensures var w := After(Boot(own, left), steps);
      && (w.sweep.Checked? ==> !InUse(w, w.sweep.n))
      && (forall n :: At(w, n, Ready) || At(w, n, Live) ==> n in w.consumers)
  {
    AlwaysSafe(Boot(own, left), steps);
    var w := After(Boot(own, left), steps);
    if w.sweep.Checked? { DeleteIsOfOrphan(w); }
  }

  // ---- what a sweep collects -------------------------------------------------

  /** What a sweep does about one listed consumer when nothing comes between. */
  function Consider(w: World, n: Name): seq<Step> {
    if n.owner != w.own || (w.sweep.Listing? && n.id in w.sweep.live) then [SweepList(n), SweepSkip]
    else if n.id in w.active then [SweepList(n), SweepGate, SweepLookAgain]
    else [SweepList(n), SweepGate, SweepLookAgain, SweepDelete(true)]
  }

  lemma {:induction false} OneStep(w: World, step: Step, more: seq<Step>, steps: seq<Step>)
    requires Enabled(w, step) && IsRun(Do(w, step), more) && steps == [step] + more
    ensures IsRun(w, steps) && After(w, steps) == After(Do(w, step), more)
  {
    assert steps[1..] == more;
  }

  lemma {:induction false} ConsiderRuns(w: World, n: Name)
    requires w.sweep.Listing? && w.gate.Free? && n in w.everCreated
    ensures IsRun(w, Consider(w, n))
    ensures After(w, Consider(w, n)) ==
      if n.owner == w.own && n.id !in w.sweep.live && n.id !in w.active then w.(consumers := w.consumers - {n}) else w
  {
    hide IsRun, After;
    var w1 := Do(w, SweepList(n));
    if n.owner != w.own || n.id in w.sweep.live {
      NoStep(Do(w1, SweepSkip));
      OneStep(w1, SweepSkip, [], [SweepSkip]);
      OneStep(w, SweepList(n), [SweepSkip], [SweepList(n), SweepSkip]);
    } else {
      var w2 := Do(w1, SweepGate);
      var w3 := Do(w2, SweepLookAgain);
      if n.id in w.active {
        NoStep(w3);
        OneStep(w2, SweepLookAgain, [], [SweepLookAgain]);
        OneStep(w1, SweepGate, [SweepLookAgain], [SweepGate, SweepLookAgain]);
        OneStep(w, SweepList(n), [SweepGate, SweepLookAgain], [SweepList(n), SweepGate, SweepLookAgain]);
      } else {
        NoStep(Do(w3, SweepDelete(true)));
        OneStep(w3, SweepDelete(true), [], [SweepDelete(true)]);
        OneStep(w2, SweepLookAgain, [SweepDelete(true)], [SweepLookAgain, SweepDelete(true)]);
        OneStep(w1, SweepGate, [SweepLookAgain, SweepDelete(true)], [SweepGate, SweepLookAgain, SweepDelete(true)]);
        OneStep(w, SweepList(n), [SweepGate, SweepLookAgain, SweepDelete(true)],
          [SweepList(n), SweepGate, SweepLookAgain, SweepDelete(true)]);
      }
    }
  }

  lemma {:induction false} NoStep(w: World)
    ensures IsRun(w, []) && After(w, []) == w
  {
  }

  /** In every state of every run where a sweep is listing and the gate is free, the
      sweep, undisturbed, deletes a listed consumer exactly when it is this pod's, was
      not live when the sweep began and is not in use now; and it changes nothing else.
      Consumers that earlier processes left behind are among them. */
  lemma {:induction false} SweepCollectsIff(own: Owner, left: set<Name>, steps: seq<Step>, n: Name)
    requires IsRun(Boot(own, left), steps)
    requires var w := After(Boot(own, left), steps);
      w.sweep.Listing? && w.gate.Free? && n in w.consumers
    ensures var w := After(Boot(own, left), steps);
      && IsRun(w, Consider(w, n))
      && var swept := After(w, Consider(w, n));
      && swept == w.(consumers := swept.consumers)
      && w.consumers - {n} <= swept.consumers <= w.consumers
      && (n !in swept.consumers <==> n.owner == own && n.id !in w.sweep.live && !InUse(w, n))
  {
    hide IsRun, After;
    BootOnlyLive(own, left);
    AlwaysOnlyLive(Boot(own, left), steps);
    var w := After(Boot(own, left), steps);
    ConsiderRuns(w, n);
    if n.owner == own { ActiveIffInUse(w, n); }
  }

  lemma {:induction false} BootOnlyLive(own: Owner, left: set<Name>)
    ensures Safe(Boot(own, left)) && OnlyLive(Boot(own, left))
  {
  }

  lemma {:induction false} ActiveIffInUse(w: World, n: Name)
    requires Safe(w) && OnlyLive(w) && n in w.consumers && n.owner == w.own
    ensures n.id in w.active <==> InUse(w, n)
  {
    if n.id in w.active {
      var m :| InUse(w, m) && m.owner == w.own && m.id == n.id;
      assert m == n;
    }
  }
}
