/** The byte budget: its admission limits, and the protocol by which events reserve,
    share and release bytes under any interleaving. */
module Memory {
  import opened Json

  const U64_MAX: nat := 0xFFFF_FFFF_FFFF_FFFF

  datatype Pressure = Normal | Constrained | High | Critical {
    function Rank(): nat {
      match this
      case Normal => 0
      case Constrained => 1
      case High => 2
      case Critical => 3
    }
  }

  datatype Admission = Direct | TransformInput | TransformOutput

  // ---- limits ------------------------------------------------------------

  function Max(a: nat, b: nat): nat {
    if a < b then b else a
  }

  function Min(a: nat, b: nat): nat {
    if a < b then a else b
  }

  function SaturatingMul(a: nat, b: nat): nat {
    Min(a * b, U64_MAX)
  }

  function DivCeil(a: nat, b: nat): nat
    requires b > 0
  {
    if a % b == 0 then a / b else a / b + 1
  }

  function Percent(p: Pressure, a: Admission): nat {
    match (p, a)
    case (Normal, TransformInput) => 70
    case (Normal, _) => 100
    case (Constrained, TransformInput) => 35
    case (Constrained, _) => 65
    case (High, TransformInput) => 15
    case (High, TransformOutput) => 50
    case (High, Direct) => 45
    case (Critical, TransformInput) => 5
    case (Critical, TransformOutput) => 50
    case (Critical, Direct) => 25
  }

  /** The configured limits after clamping. */
  datatype Limits = Limits(hard: nat, maxEvent: nat)

  function Clamp(hard: nat, maxEvent: nat): Limits {
    var h := Max(hard, 1);
    Limits(h, Min(Max(maxEvent, 1), Max(h / 4, 1)))
  }

  function AdmissionLimit(l: Limits, p: Pressure, a: Admission): nat {
    Min(Max(DivCeil(SaturatingMul(l.hard, Percent(p, a)), 100), l.maxEvent), l.hard)
  }

  lemma DivCeilBounds(a: nat)
    ensures a <= 100 * DivCeil(a, 100) < a + 100
  {
  }

  lemma DivCeilMonotone(a: nat, b: nat)
    requires a <= b
    ensures DivCeil(a, 100) <= DivCeil(b, 100)
  {
    DivCeilBounds(a);
    DivCeilBounds(b);
  }

  lemma {:induction false} PercentShrinks(p: Pressure, q: Pressure, a: Admission)
    requires p.Rank() <= q.Rank()
    ensures Percent(q, a) <= Percent(p, a)
  {
  }

  lemma {:induction false} ShareMonotone(h: nat, x: nat, y: nat)
    requires x <= y
    ensures DivCeil(SaturatingMul(h, x), 100) <= DivCeil(SaturatingMul(h, y), 100)
  {
    hide DivCeil;
    assert h * x <= h * y;
    DivCeilMonotone(SaturatingMul(h, x), SaturatingMul(h, y));
  }

  /** Limits never grow as pressure rises. */
  lemma {:induction false} LimitsShrink(hard: nat, maxEvent: nat, p: Pressure, q: Pressure, a: Admission)
    requires p.Rank() <= q.Rank()
    ensures AdmissionLimit(Clamp(hard, maxEvent), q, a) <= AdmissionLimit(Clamp(hard, maxEvent), p, a)
  {
    hide Percent, DivCeil, SaturatingMul, Clamp;
    PercentShrinks(p, q, a);
    ShareMonotone(Clamp(hard, maxEvent).hard, Percent(q, a), Percent(p, a));
  }

  /** Any event that passes the size check fits an empty budget, at any pressure. */
  lemma {:induction false} AcceptedFitsEmpty(hard: nat, maxEvent: nat, p: Pressure, a: Admission, charge: nat)
    requires charge <= Clamp(hard, maxEvent).maxEvent
    ensures charge <= AdmissionLimit(Clamp(hard, maxEvent), p, a) <= Clamp(hard, maxEvent).hard
  {
  }

  /** Exactly which totals an admission takes: those that fit the largest event, or its
      percentage of the hard limit rounded up, and never more than the hard limit. */
  lemma {:induction false} LimitIff(l: Limits, p: Pressure, a: Admission, x: nat)
    requires x > 0
    ensures x <= AdmissionLimit(l, p, a) <==>
      && x <= l.hard
      && (x <= l.maxEvent || (100 * (x - 1) < l.hard * Percent(p, a) && 100 * (x - 1) < U64_MAX))
  {
    hide DivCeil, Percent;
    DivCeilBounds(SaturatingMul(l.hard, Percent(p, a)));
  }

  /** Transform input never gets more than a direct event, and that never more than
      transform output. */
  lemma {:induction false} LimitsOrdered(l: Limits, p: Pressure)
    ensures AdmissionLimit(l, p, TransformInput) <= AdmissionLimit(l, p, Direct)
    ensures AdmissionLimit(l, p, Direct) <= AdmissionLimit(l, p, TransformOutput)
  {
    hide DivCeil, SaturatingMul;
    ShareMonotone(l.hard, Percent(p, TransformInput), Percent(p, Direct));
    ShareMonotone(l.hard, Percent(p, Direct), Percent(p, TransformOutput));
  }

  /** Without pressure the whole budget is usable by direct events, up to a hundredth of
      the range; above it the percentage saturates. */
  lemma {:induction false} FullBudgetIff(hard: nat, maxEvent: nat)
    requires hard <= U64_MAX
    ensures AdmissionLimit(Clamp(hard, maxEvent), Normal, Direct) == Clamp(hard, maxEvent).hard
      <==> 100 * (Clamp(hard, maxEvent).hard - 1) < U64_MAX
  {
    hide DivCeil;
    DivCeilBounds(SaturatingMul(Clamp(hard, maxEvent).hard, 100));
  }

  ghost predicate HasHeadroom(l: Limits, p: Pressure) {
    AdmissionLimit(l, p, TransformInput) + l.maxEvent <= AdmissionLimit(l, p, TransformOutput)
  }

  /** A quarter of the budget beside a limited share of it fits a larger share. */
  lemma {:induction false} ShareFits(h: nat, e: nat, input: nat, output: nat)
    requires 4 <= h && e <= h / 4
    requires (input == 70 && output == 100) || (input == 35 && output == 65) || (input == 15 && output == 50)
      || (input == 5 && output == 50)
    ensures Max(DivCeil(h * input, 100), e) + e <= Max(DivCeil(h * output, 100), e)
  {
    DivCeilBounds(h * input);
    DivCeilBounds(h * output);
    assert 4 * e <= h;
    if h < 20 {
      assert e <= 4;
      SmallShares(h, e);
    }
  }

  lemma {:induction false} SmallShares(h: nat, e: nat)
    requires 4 <= h < 20 && e <= h / 4
    ensures Max(DivCeil(h * 70, 100), e) + e <= DivCeil(h * 100, 100)
    ensures Max(DivCeil(h * 35, 100), e) + e <= DivCeil(h * 65, 100)
    ensures Max(DivCeil(h * 15, 100), e) + e <= DivCeil(h * 50, 100)
    ensures Max(DivCeil(h * 5, 100), e) + e <= DivCeil(h * 50, 100)
  {
    var k := h;
    assert k == 4 || k == 5 || k == 6 || k == 7 || k == 8 || k == 9 || k == 10 || k == 11 || k == 12 || k == 13
      || k == 14 || k == 15
      || k == 16 || k == 17 || k == 18 || k == 19;
  }

  lemma {:induction false} ShareWithin(h: nat, x: nat)
    requires x <= 100 && h * x <= U64_MAX
    ensures SaturatingMul(h, x) == h * x && DivCeil(h * x, 100) <= h
  {
    hide DivCeil;
    assert h * x <= h * 100;
    DivCeilBounds(h * x);
  }

  /** Where neither percentage saturates there is headroom from a hard limit of 4 on. */
  lemma {:induction false} HeadroomAt(l: Limits, p: Pressure)
    requires 4 <= l.hard && l.maxEvent <= l.hard / 4 && l.hard * Percent(p, TransformOutput) <= U64_MAX
    ensures HasHeadroom(l, p)
  {
    hide DivCeil;
    var x, y := Percent(p, TransformInput), Percent(p, TransformOutput);
    assert l.hard * x <= l.hard * y;
    ShareFits(l.hard, l.maxEvent, x, y);
    ShareWithin(l.hard, x);
    ShareWithin(l.hard, y);
  }

  lemma {:induction false} NoRoomBelowFour(l: Limits)
    requires 1 <= l.hard < 4 && l.maxEvent == 1
    ensures !HasHeadroom(l, Normal)
  {
  }

  /** What the output share is cut to once the whole hard limit saturates. */
  const SATURATED_SHARE: nat := DivCeil(U64_MAX, 100)

  /** Above a hundredth of the range the output share of normal pressure is cut. */
  lemma {:induction false} CutShareIff(l: Limits)
    requires U64_MAX / 100 < l.hard && 1 <= l.maxEvent <= l.hard / 4
    ensures HasHeadroom(l, Normal) <==> DivCeil(l.hard * 70, 100) + l.maxEvent <= SATURATED_SHARE
  {
    hide DivCeil;
    DivCeilBounds(U64_MAX);
    DivCeilBounds(l.hard * 70);
    assert SaturatingMul(l.hard, 100) == U64_MAX;
    assert SATURATED_SHARE <= l.hard;
    if l.hard * 70 < U64_MAX {
      assert SaturatingMul(l.hard, 70) == l.hard * 70;
      assert DivCeil(l.hard * 70, 100) <= l.hard;
      assert l.maxEvent <= DivCeil(l.hard * 70, 100);
      assert l.maxEvent <= SATURATED_SHARE;
    } else {
      assert SaturatingMul(l.hard, 70) == U64_MAX;
      DivCeilMonotone(U64_MAX, l.hard * 70);
    }
  }

  /** For every hard limit and configured event size: transform output keeps room for
      the largest event beyond a full input share, at every pressure, exactly when
      the hard limit is at least 4 and, above a hundredth of the range, 70 percent of
      it and the largest event still fit the share saturation leaves. */
  lemma {:induction false} HeadroomIff(hard: nat, maxEvent: nat)
    ensures var l := Clamp(hard, maxEvent);
      (forall p :: HasHeadroom(l, p)) <==>
        hard >= 4 && (hard > U64_MAX / 100 ==> DivCeil(hard * 70, 100) + l.maxEvent <= SATURATED_SHARE)
  {
    hide HasHeadroom, DivCeil;
    var l := Clamp(hard, maxEvent);
    if hard < 4 {
      NoRoomBelowFour(l);
    } else if hard <= U64_MAX / 100 {
      forall p ensures HasHeadroom(l, p) {
        assert l.hard * Percent(p, TransformOutput) <= l.hard * 100;
        HeadroomAt(l, p);
      }
    } else {
      CutShareIff(l);
      if DivCeil(hard * 70, 100) + l.maxEvent <= SATURATED_SHARE {
        DivCeilBounds(hard * 70);
        DivCeilBounds(U64_MAX);
        forall p ensures HasHeadroom(l, p) {
          if p != Normal {
            assert l.hard * Percent(p, TransformOutput) <= l.hard * 65;
            HeadroomAt(l, p);
          }
        }
      }
    }
  }

  // ---- the reservation protocol ------------------------------------------

  /** A charge shared by every clone of one payload. `released` once the last clone
      is gone and the bytes have been given back. */
  datatype Reservation = Reservation(bytes: nat, refs: nat, released: bool)

  /** Where an event value stands: at rest, part-way through reserving, or gone. */
  datatype Stage = AtRest | Reserving(limit: nat, seen: Option<nat>) | Gone

  datatype EventValue = EventValue(size: nat, reservation: Option<nat>, stage: Stage)

  datatype Budget = Budget(limits: Limits, used: nat, pressure: Pressure, held: seq<Reservation>,
    events: seq<EventValue>)

  datatype Step =
    | Create(size: nat)
    | Admit(e: nat, admission: Admission)   // a publish starts to reserve: the limit is read
    | TooLarge(e: nat)                      // a publish fails the size check: the event is dropped
    | LoadUsed(e: nat)                      // the counter is read
    | CasOk(e: nat)                         // the counter still holds what was read
    | CasFail(e: nat)                       // it does not, or the exchange failed spuriously
    | Refuse(e: nat)                        // over the limit: the publish fails, the event is dropped
    | Wait(e: nat)                          // over the limit: the publish waits and starts over
    | Hop(e: nat)                           // a publish of an event that is already charged
    | CloneEvent(e: nat)
    | DropEvent(e: nat)
    | Release(i: nat)                       // the last holder's drop gives the bytes back
    | SetPressure(p: Pressure)

  function Charge(v: EventValue): nat {
    Max(v.size, 1)
  }

  predicate OverLimit(v: EventValue)
    requires v.stage.Reserving? && v.stage.seen.Some?
  {
    v.stage.seen.value + Charge(v) > U64_MAX || v.stage.seen.value + Charge(v) > v.stage.limit
  }

  predicate Loaded(v: EventValue) {
    v.stage.Reserving? && v.stage.seen.Some?
  }

  predicate Enabled(s: Budget, step: Step) {
    match step
    case Create(_) => true
    case SetPressure(_) => true
    case Release(i) => i < |s.held| && s.held[i].refs == 0 && !s.held[i].released
    case Admit(e, _) => e < |s.events| && s.events[e].stage.AtRest? && s.events[e].reservation.None?
      && Charge(s.events[e]) <= s.limits.maxEvent
    case TooLarge(e) => e < |s.events| && s.events[e].stage.AtRest? && s.events[e].reservation.None?
      && Charge(s.events[e]) > s.limits.maxEvent
    case LoadUsed(e) => e < |s.events| && s.events[e].stage.Reserving? && s.events[e].stage.seen.None?
    case CasOk(e) => e < |s.events| && Loaded(s.events[e]) && !OverLimit(s.events[e])
      && s.events[e].stage.seen.value == s.used
    case CasFail(e) => e < |s.events| && Loaded(s.events[e]) && !OverLimit(s.events[e])
    case Refuse(e) => e < |s.events| && Loaded(s.events[e]) && OverLimit(s.events[e])
    case Wait(e) => e < |s.events| && Loaded(s.events[e]) && OverLimit(s.events[e])
    case Hop(e) => e < |s.events| && s.events[e].stage.AtRest? && s.events[e].reservation.Some?
    case CloneEvent(e) => e < |s.events| && s.events[e].stage.AtRest?
    case DropEvent(e) => e < |s.events| && !s.events[e].stage.Gone?
  }

  function Retain(held: seq<Reservation>, r: Option<nat>): seq<Reservation> {
    if r.Some? && r.value < |held| then held[r.value := held[r.value].(refs := held[r.value].refs + 1)] else held
  }

  function LetGo(held: seq<Reservation>, r: Option<nat>): seq<Reservation> {
    if r.Some? && r.value < |held| && held[r.value].refs > 0
    then held[r.value := held[r.value].(refs := held[r.value].refs - 1)] else held
  }

  /** The counter is a machine word: subtracting too much would wrap. */
  function WrappingSub(a: nat, b: nat): nat {
    if b <= a then a - b else if b <= a + U64_MAX + 1 then a + U64_MAX + 1 - b else 0
  }

  function SetEvent(s: Budget, e: nat, v: EventValue): Budget
    requires e < |s.events|
  {
    s.(events := s.events[e := v])
  }

  function Do(s: Budget, step: Step): Budget
    requires Enabled(s, step)
  {
    match step
    case Create(size) => s.(events := s.events + [EventValue(size, None, AtRest)])
    case SetPressure(p) => s.(pressure := p)
    case Admit(e, admission) =>
      SetEvent(s, e, s.events[e].(stage := Reserving(AdmissionLimit(s.limits, s.pressure, admission), None)))
    case TooLarge(e) => SetEvent(s, e, s.events[e].(stage := Gone))
    case LoadUsed(e) => SetEvent(s, e, s.events[e].(stage := s.events[e].stage.(seen := Some(s.used))))
    case CasFail(e) => SetEvent(s, e, s.events[e].(stage := s.events[e].stage.(seen := Some(s.used))))
    case CasOk(e) =>
      SetEvent(s, e, s.events[e].(stage := AtRest, reservation := Some(|s.held|)))
        .(used := s.used + Charge(s.events[e]), held := s.held + [Reservation(Charge(s.events[e]), 1, false)])
    case Refuse(e) => SetEvent(s, e, s.events[e].(stage := Gone))
    case Wait(e) => SetEvent(s, e, s.events[e].(stage := AtRest))
    case Hop(_) => s
    case CloneEvent(e) =>
      s.(events := s.events + [s.events[e]], held := Retain(s.held, s.events[e].reservation))
    case DropEvent(e) =>
      SetEvent(s, e, s.events[e].(stage := Gone)).(held := LetGo(s.held, s.events[e].reservation))
    case Release(i) => s.(used := WrappingSub(s.used, s.held[i].bytes),
      held := s.held[i := s.held[i].(released := true)])
  }

  function Boot(hard: nat, maxEvent: nat): Budget {
    Budget(Clamp(hard, maxEvent), 0, Normal, [], [])
  }

  predicate IsRun(s: Budget, steps: seq<Step>)
    decreases |steps|
  {
    steps == [] || (Enabled(s, steps[0]) && IsRun(Do(s, steps[0]), steps[1..]))
  }

  function After(s: Budget, steps: seq<Step>): Budget
    requires IsRun(s, steps)
    decreases |steps|
  {
    if steps == [] then s else After(Do(s, steps[0]), steps[1..])
  }

  // ---- conservation ------------------------------------------------------

  function Live(r: Reservation): nat {
    if r.released then 0 else r.bytes
  }

  /** The bytes of every reservation not yet given back. */
  function Sum(held: seq<Reservation>): nat {
    if held == [] then 0 else Sum(held[..|held| - 1]) + Live(held[|held| - 1])
  }

  /** How many event values still in use hold reservation `i`. */
  function Holders(events: seq<EventValue>, i: nat): nat {
    if events == [] then 0
    else
      var n := |events| - 1;
      Holders(events[..n], i) + if !events[n].stage.Gone? && events[n].reservation == Some(i) then 1 else 0
  }

  ghost predicate Conserved(s: Budget) {
    && s.used == Sum(s.held) && s.used <= s.limits.hard
    && (forall e :: 0 <= e < |s.events| && s.events[e].reservation.Some? ==>
      s.events[e].reservation.value < |s.held| && !s.events[e].stage.Reserving?)
    && (forall e :: 0 <= e < |s.events| && s.events[e].stage.Reserving? ==> s.events[e].stage.limit <= s.limits.hard)
    && (forall i :: 0 <= i < |s.held| ==>
      s.held[i].refs == Holders(s.events, i) && (s.held[i].released ==> s.held[i].refs == 0))
  }

  lemma {:induction false} SumUpdate(held: seq<Reservation>, i: nat, r: Reservation)
    requires i < |held|
    ensures Sum(held[i := r]) == Sum(held) - Live(held[i]) + Live(r)
  {
    var n := |held| - 1;
    if i < n {
      SumUpdate(held[..n], i, r);
      assert held[i := r][..n] == held[..n][i := r];
    } else {
      assert held[i := r][..n] == held[..n];
    }
  }

  lemma {:induction false} SumAtLeast(held: seq<Reservation>, i: nat)
    requires i < |held|
    ensures Sum(held) >= Live(held[i])
  {
    if i < |held| - 1 { SumAtLeast(held[..|held| - 1], i); }
  }

  predicate Holds(v: EventValue, i: nat) {
    !v.stage.Gone? && v.reservation == Some(i)
  }

  lemma {:induction false} HoldersUpdate(events: seq<EventValue>, e: nat, v: EventValue, i: nat)
    requires e < |events|
    ensures Holders(events[e := v], i) == Holders(events, i) - (if Holds(events[e], i) then 1 else 0)
      + (if Holds(v, i) then 1 else 0)
  {
    var n := |events| - 1;
    if e < n {
      HoldersUpdate(events[..n], e, v, i);
      assert events[e := v][..n] == events[..n][e := v];
    } else {
      assert events[e := v][..n] == events[..n];
    }
  }

  lemma {:induction false} HoldersNew(events: seq<EventValue>, v: EventValue, i: nat)
    ensures Holders(events + [v], i) == Holders(events, i) + if Holds(v, i) then 1 else 0
  {
    assert (events + [v])[..|events|] == events;
  }

  lemma {:induction false} NobodyHolds(events: seq<EventValue>, i: nat)
    requires forall e :: 0 <= e < |events| && events[e].reservation.Some? ==> events[e].reservation.value < i
    ensures Holders(events, i) == 0
  {
    if events != [] { NobodyHolds(events[..|events| - 1], i); }
  }

  /** Changing an event's stage without letting go of anything keeps all counts. */
  lemma {:induction false} StageConserved(s: Budget, e: nat, v: EventValue)
    requires Conserved(s) && e < |s.events| && v.reservation == s.events[e].reservation
    requires !s.events[e].stage.Gone? && (v.stage.Gone? ==> v.reservation.None?)
    requires v.stage.Reserving? ==> v.reservation.None? && v.stage.limit <= s.limits.hard
    ensures Conserved(SetEvent(s, e, v))
  {
    forall i | 0 <= i < |s.held| ensures Holders(s.events[e := v], i) == Holders(s.events, i) {
      HoldersUpdate(s.events, e, v, i);
    }
  }

  lemma {:induction false} RetainSum(held: seq<Reservation>, r: Option<nat>)
    ensures Sum(Retain(held, r)) == Sum(held) && Sum(LetGo(held, r)) == Sum(held)
  {
    if r.Some? && r.value < |held| {
      SumUpdate(held, r.value, held[r.value].(refs := held[r.value].refs + 1));
      if held[r.value].refs > 0 { SumUpdate(held, r.value, held[r.value].(refs := held[r.value].refs - 1)); }
    }
  }

  lemma {:induction false} CloneConserved(s: Budget, e: nat)
    requires Conserved(s) && Enabled(s, CloneEvent(e))
    ensures Conserved(Do(s, CloneEvent(e)))
  {
    var s' := Do(s, CloneEvent(e));
    RetainSum(s.held, s.events[e].reservation);
    forall i | 0 <= i < |s'.held|
      ensures s'.held[i].refs == Holders(s'.events, i) && (s'.held[i].released ==> s'.held[i].refs == 0)
    {
      HoldersNew(s.events, s.events[e], i);
      HoldersPositive(s.events, e, i);
    }
  }

  lemma {:induction false} HoldersPositive(events: seq<EventValue>, e: nat, i: nat)
    requires e < |events|
    ensures Holds(events[e], i) ==> Holders(events, i) > 0
  {
    if e < |events| - 1 { HoldersPositive(events[..|events| - 1], e, i); }
  }

  lemma {:induction false} DropConserved(s: Budget, e: nat)
    requires Conserved(s) && Enabled(s, DropEvent(e))
    ensures Conserved(Do(s, DropEvent(e)))
  {
    var s' := Do(s, DropEvent(e));
    RetainSum(s.held, s.events[e].reservation);
    forall i | 0 <= i < |s'.held|
      ensures s'.held[i].refs == Holders(s'.events, i) && (s'.held[i].released ==> s'.held[i].refs == 0)
    {
      HoldersUpdate(s.events, e, s.events[e].(stage := Gone), i);
      HoldersPositive(s.events, e, i);
    }
  }

  lemma {:induction false} CasConserved(s: Budget, e: nat)
    requires Conserved(s) && Enabled(s, CasOk(e))
    ensures Conserved(Do(s, CasOk(e)))
  {
    var s' := Do(s, CasOk(e));
    var n := |s.held|;
    assert s'.held[..n] == s.held;
    var v := s'.events[e];
    NobodyHolds(s.events, n);
    HoldersUpdate(s.events, e, v, n);
    forall i | 0 <= i < n ensures Holders(s'.events, i) == Holders(s.events, i) {
      HoldersUpdate(s.events, e, v, i);
    }
  }

  lemma {:induction false} ReleaseConserved(s: Budget, i: nat)
    requires Conserved(s) && Enabled(s, Release(i))
    ensures s.held[i].bytes <= s.used && Conserved(Do(s, Release(i)))
  {
    SumAtLeast(s.held, i);
    SumUpdate(s.held, i, s.held[i].(released := true));
  }

  lemma {:induction false} CreateConserved(s: Budget, size: nat)
    requires Conserved(s)
    ensures Conserved(Do(s, Create(size)))
  {
    forall i | 0 <= i < |s.held| ensures Holders(Do(s, Create(size)).events, i) == Holders(s.events, i) {
      HoldersNew(s.events, EventValue(size, None, AtRest), i);
    }
  }

  lemma {:induction false} LimitBelowHard(l: Limits, p: Pressure, a: Admission)
    ensures AdmissionLimit(l, p, a) <= l.hard
  {
  }

  /** Every step keeps the books. */
  lemma {:induction false} StepConserved(s: Budget, step: Step)
    requires Conserved(s) && Enabled(s, step)
    ensures Conserved(Do(s, step)) && Do(s, step).limits == s.limits
  {
    hide Conserved, AdmissionLimit;
    match step
    case Create(size) => CreateConserved(s, size);
    case SetPressure(p) => PressureConserved(s, p);
    case Admit(e, admission) =>
      LimitBelowHard(s.limits, s.pressure, admission);
      StageConserved(s, e, Do(s, step).events[e]);
    case TooLarge(e) => StageConserved(s, e, Do(s, step).events[e]);
    case LoadUsed(e) => ReservingFacts(s, e); StageConserved(s, e, Do(s, step).events[e]);
    case CasOk(e) => CasConserved(s, e);
    case CasFail(e) => ReservingFacts(s, e); StageConserved(s, e, Do(s, step).events[e]);
    case Refuse(e) => ReservingFacts(s, e); StageConserved(s, e, Do(s, step).events[e]);
    case Wait(e) => ReservingFacts(s, e); StageConserved(s, e, Do(s, step).events[e]);
    case Hop(e) =>
    case CloneEvent(e) => CloneConserved(s, e);
    case DropEvent(e) => DropConserved(s, e);
    case Release(i) => ReleaseConserved(s, i);
  }

  lemma {:induction false} PressureConserved(s: Budget, p: Pressure)
    requires Conserved(s)
    ensures Conserved(s.(pressure := p))
  {
  }

  lemma {:induction false} ReservingFacts(s: Budget, e: nat)
    requires Conserved(s) && e < |s.events| && s.events[e].stage.Reserving?
    ensures s.events[e].reservation.None? && s.events[e].stage.limit <= s.limits.hard
  {
  }

  /** Under every interleaving the counter equals the bytes of the reservations not
      yet given back and stays within the hard limit. */
  lemma {:induction false} AlwaysConserved(s: Budget, steps: seq<Step>)
    requires Conserved(s) && IsRun(s, steps)
    ensures Conserved(After(s, steps)) && After(s, steps).limits == s.limits
    decreases |steps|
  {
    hide Conserved, Enabled, Do;
    if steps != [] {
      StepConserved(s, steps[0]);
      AlwaysConserved(Do(s, steps[0]), steps[1..]);
    }
  }

  lemma {:induction false} BootConserved(hard: nat, maxEvent: nat)
    ensures Conserved(Boot(hard, maxEvent))
  {
  }

  /** And no release ever takes the counter below zero. */
  lemma {:induction false} NeverUnderflows(hard: nat, maxEvent: nat, steps: seq<Step>, i: nat)
    requires IsRun(Boot(hard, maxEvent), steps) && Enabled(After(Boot(hard, maxEvent), steps), Release(i))
    ensures var s := After(Boot(hard, maxEvent), steps);
      s.held[i].bytes <= s.used <= s.limits.hard == Max(hard, 1)
  {
    hide Conserved;
    BootConserved(hard, maxEvent);
    AlwaysConserved(Boot(hard, maxEvent), steps);
    ReleaseConserved(After(Boot(hard, maxEvent), steps), i);
    WithinHard(After(Boot(hard, maxEvent), steps));
  }

  lemma {:induction false} WithinHard(s: Budget)
    requires Conserved(s)
    ensures s.used <= s.limits.hard
  {
  }

  // ---- charged once ------------------------------------------------------

  function Charges(steps: seq<Step>, e: nat): nat {
    if steps == [] then 0 else (if steps[0] == CasOk(e) then 1 else 0) + Charges(steps[1..], e)
  }

  lemma {:induction false} StaysCharged(s: Budget, step: Step, e: nat)
    requires Enabled(s, step) && e < |s.events|
    ensures e < |Do(s, step).events|
    ensures s.events[e].reservation.Some? && !s.events[e].stage.Reserving? ==>
      Do(s, step).events[e].reservation == s.events[e].reservation && !Do(s, step).events[e].stage.Reserving?
        && step != CasOk(e)
  {
    hide AdmissionLimit;
  }

  /** However many buses an event crosses, it is charged at most once, and not at all
      if it already carries a reservation. */
  lemma {:induction false} ChargedAtMostOnce(s: Budget, steps: seq<Step>, e: nat)
    requires IsRun(s, steps) && e < |s.events| && (s.events[e].reservation.Some? ==> !s.events[e].stage.Reserving?)
    ensures Charges(steps, e) <= if s.events[e].reservation.Some? then 0 else 1
    decreases |steps|
  {
    hide AdmissionLimit;
    if steps != [] {
      StaysCharged(s, steps[0], e);
      var s' := Do(s, steps[0]);
      ChargedAtMostOnce(s', steps[1..], e);
    }
  }

  /** A publish that is charged and then refused by the channel: dropping the event
      and the release that follows put the counter back. */
  lemma {:induction false} RefusedPublishRestores(s: Budget, e: nat)
    requires Conserved(s) && Enabled(s, CasOk(e))
    ensures var i := |s.held|;
      var charged := Do(s, CasOk(e));
      && Enabled(charged, DropEvent(e))
      && var dropped := Do(charged, DropEvent(e));
      && Enabled(dropped, Release(i))
      && Do(dropped, Release(i)).used == s.used
      && Do(dropped, Release(i)).events[e].stage.Gone?
  {
  }

  // ---- what a publish comes to ---------------------------------------------

  /** What an event of this size must fit. */
  ghost predicate Admissible(s: Budget, size: nat, a: Admission) {
    var charge := if size == 0 then 1 else size;
    var total := s.used + charge;
    && charge <= s.limits.maxEvent
    && total <= s.limits.hard
    && (total <= s.limits.maxEvent
    || (100 * (total - 1) < s.limits.hard * Percent(s.pressure, a) && 100 * (total - 1) < U64_MAX))
  }

  /** A publish that nobody disturbs: when the event fits, the counter grows by exactly
      its size, at least 1, and the event holds that charge; otherwise it is turned away
      and the counter stays. */
  lemma {:induction false} AdmittedIff(s: Budget, e: nat, a: Admission)
    requires e < |s.events| && s.events[e].stage.AtRest? && s.events[e].reservation.None? && s.limits.hard <= U64_MAX
    ensures Enabled(s, Admit(e, a)) || Enabled(s, TooLarge(e))
    ensures Enabled(s, TooLarge(e)) ==> !Admissible(s, s.events[e].size, a) && Do(s, TooLarge(e)).used == s.used
    ensures Enabled(s, Admit(e, a)) ==>
      && Enabled(Do(s, Admit(e, a)), LoadUsed(e))
      && var loaded := Do(Do(s, Admit(e, a)), LoadUsed(e));
      && (Enabled(loaded, CasOk(e)) <==> Admissible(s, s.events[e].size, a))
      && (Enabled(loaded, Refuse(e)) <==> !Admissible(s, s.events[e].size, a))
      && (Enabled(loaded, CasOk(e)) ==> Charged(s, e, Do(loaded, CasOk(e))))
      && (Enabled(loaded, Refuse(e)) ==> Do(loaded, Refuse(e)).used == s.used)
  {
    hide AdmissionLimit, Percent;
    LimitIff(s.limits, s.pressure, a, s.used + Charge(s.events[e]));
  }

  /** The counter has grown by the event's size, at least 1, and the event holds that. */
  ghost predicate Charged(s: Budget, e: nat, after: Budget)
    requires e < |s.events|
  {
    var charge := if s.events[e].size == 0 then 1 else s.events[e].size;
    && after.used == s.used + charge && after.held == s.held + [Reservation(charge, 1, false)]
    && after.events == s.events[e := s.events[e].(reservation := Some(|s.held|))]
  }

  /** Every event that carries a reservation carries one of its own size. */
  ghost predicate Priced(s: Budget) {
    forall e :: 0 <= e < |s.events| && s.events[e].reservation.Some? ==>
      && s.events[e].reservation.value < |s.held|
      && s.held[s.events[e].reservation.value].bytes == if s.events[e].size == 0 then 1 else s.events[e].size
  }

  lemma {:induction false} StepPriced(s: Budget, step: Step)
    requires Priced(s) && Enabled(s, step)
    ensures Priced(Do(s, step))
  {
    hide AdmissionLimit;
    var s' := Do(s, step);
    assert |s.held| <= |s'.held| && forall i :: 0 <= i < |s.held| ==> s'.held[i].bytes == s.held[i].bytes;
  }

  /** In every run an event's charge is its own size, whoever else shares it; and once every
      event is gone and every release done, the counter is back at 0. */
  lemma {:induction false} AllGivenBack(hard: nat, maxEvent: nat, steps: seq<Step>)
    requires IsRun(Boot(hard, maxEvent), steps)
    ensures var s := After(Boot(hard, maxEvent), steps);
      && Priced(s)
      && ((forall e :: 0 <= e < |s.events| ==> s.events[e].stage.Gone?) && (forall i :: !Enabled(s, Release(i))) ==>
        s.used == 0)
  {
    hide Conserved, Priced, Enabled;
    BootConserved(hard, maxEvent);
    AlwaysConserved(Boot(hard, maxEvent), steps);
    assert Priced(Boot(hard, maxEvent)) by { BootPriced(hard, maxEvent); }
    AlwaysPriced(Boot(hard, maxEvent), steps);
    var s := After(Boot(hard, maxEvent), steps);
    if (forall e :: 0 <= e < |s.events| ==> s.events[e].stage.Gone?) && (forall i :: !Enabled(s, Release(i))) {
      NothingHeld(s);
    }
  }

  lemma {:induction false} BootPriced(hard: nat, maxEvent: nat)
    ensures Priced(Boot(hard, maxEvent))
  {
  }

  lemma {:induction false} AlwaysPriced(s: Budget, steps: seq<Step>)
    requires Priced(s) && IsRun(s, steps)
    ensures Priced(After(s, steps))
    decreases |steps|
  {
    hide Priced, Enabled, Do;
    if steps != [] {
      StepPriced(s, steps[0]);
      AlwaysPriced(Do(s, steps[0]), steps[1..]);
    }
  }

  lemma {:induction false} NothingHeld(s: Budget)
    requires Conserved(s) && (forall e :: 0 <= e < |s.events| ==> s.events[e].stage.Gone?)
    requires forall i :: !Enabled(s, Release(i))
    ensures s.used == 0
  {
    forall i | 0 <= i < |s.held| ensures s.held[i].released {
      AllGone(s.events, i);
      assert !Enabled(s, Release(i));
    }
    SumReleased(s.held);
  }

  lemma {:induction false} AllGone(events: seq<EventValue>, i: nat)
    requires forall e :: 0 <= e < |events| ==> events[e].stage.Gone?
    ensures Holders(events, i) == 0
  {
    if events != [] { AllGone(events[..|events| - 1], i); }
  }

  lemma {:induction false} SumReleased(held: seq<Reservation>)
    requires forall i :: 0 <= i < |held| ==> held[i].released
    ensures Sum(held) == 0
  {
    if held != [] { SumReleased(held[..|held| - 1]); }
  }
}
