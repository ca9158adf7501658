/** A broker session with cumulative acknowledgements and the pump that feeds its
    deliveries to attached operations. What the broker answers and when operations attach
    are inputs. */
module Acks {
  import opened Json

  const SESSION_ACK_EVERY: nat := 64
  const SESSION_MAX_REOPEN: nat := 6

  /** What the session meets next: a failed open, a delivery, an interruption, the
      end of the pull stream, or the flush timer. A failure is late when recovery has by
      then taken too long. */
  datatype Poll =
    | OpenFailed(late: bool)
    | Message(sequence: nat)
    | Interrupted(consumerDeleted: bool, late: bool)
    | StreamEnded(late: bool)
    | Quiet

  datatype Delivery = Delivered(sequence: nat) | Closed | Idle

  /** What becomes visible outside, in the order it happens: an event broadcast to
      attached operations, an event dropped, an acknowledgement sent. */
  datatype Act = Sent(sequence: nat, receivers: nat) | Dropped(sequence: nat) | Acked(sequence: nat)

  // ---- what the session has met -----------------------------------------------

  /** What has been taken off a list of which `rest` is left. */
  ghost function Taken<T>(was: seq<T>, rest: seq<T>): seq<T> {
    if |rest| <= |was| then was[..|was| - |rest|] else []
  }

  ghost predicate RestOf<T>(was: seq<T>, rest: seq<T>) {
    |rest| <= |was| && rest == was[|was| - |rest|..]
  }

  predicate Fails(p: Poll) {
    p.OpenFailed? || p.StreamEnded? || (p.Interrupted? && !p.consumerDeleted)
  }

  function Failures(polls: seq<Poll>): nat {
    if polls == [] then 0 else Failures(polls[..|polls| - 1]) + if Fails(polls[|polls| - 1]) then 1 else 0
  }

  ghost predicate SomeLate(polls: seq<Poll>) {
    exists p :: p in polls && Fails(p) && p.late
  }

  ghost predicate ConsumerGone(polls: seq<Poll>) {
    exists p :: p in polls && p.Interrupted? && p.consumerDeleted
  }

  /** Some poll makes the session acknowledge what was accepted. */
  ghost predicate Flushes(polls: seq<Poll>) {
    exists p :: p in polls && (p.Interrupted? || p.StreamEnded? || p.Quiet?)
  }

  ghost predicate NoMessage(polls: seq<Poll>) {
    forall p :: p in polls ==> !p.Message?
  }

  ghost predicate AllTrue(answers: seq<bool>) {
    forall i :: 0 <= i < |answers| ==> answers[i]
  }

  lemma {:induction false} FailuresMore(polls: seq<Poll>, p: Poll)
    ensures Failures(polls + [p]) == Failures(polls) + if Fails(p) then 1 else 0
  {
    assert (polls + [p])[..|polls|] == polls;
  }

  /** What the polls so far have done to the attempts at recovery. */
  ghost predicate Met(used: seq<Poll>, attempts0: nat, late0: bool, attempts: nat, late: bool) {
    && NoMessage(used)
    && attempts == attempts0 + Failures(used) && (late <==> late0 || SomeLate(used))
  }

  /** What they have done to the delivery that was accepted, while the broker answers yes. */
  ghost predicate Settles(used: seq<Poll>, pending0: Option<nat>, trace0: seq<Act>, pending: Option<nat>,
                          trace: seq<Act>)
  {
    && trace == trace0 + (if pending0.Some? && Flushes(used) then [Acked(pending0.value)] else [])
    && pending == if Flushes(used) then None else pending0
  }

  lemma {:induction false} MetNothing(attempts: nat, late: bool, pending: Option<nat>, trace: seq<Act>)
    ensures Met([], attempts, late, attempts, late) && Settles([], pending, trace, pending, trace) && !ConsumerGone([])
  {
  }

  lemma {:induction false} MetMore(used: seq<Poll>, attempts0: nat, late0: bool, attempts: nat, late: bool, p: Poll)
    requires Met(used, attempts0, late0, attempts, late) && !p.Message?
    ensures Met(used + [p], attempts0, late0, if Fails(p) then attempts + 1 else attempts, late || (Fails(p) && p.late))
    ensures ConsumerGone(used + [p]) <==> ConsumerGone(used) || (p.Interrupted? && p.consumerDeleted)
  {
    FailuresMore(used, p);
    forall q ensures q in used + [p] <==> q in used || q == p { }
  }

  lemma {:induction false} SettlesMore(used: seq<Poll>, pending0: Option<nat>, trace0: seq<Act>, pending: Option<nat>,
                                       trace: seq<Act>, p: Poll)
    requires Settles(used, pending0, trace0, pending, trace)
    ensures p.OpenFailed? || p.Message? ==> Settles(used + [p], pending0, trace0, pending, trace)
    ensures !p.OpenFailed? && !p.Message? ==>
      Settles(used + [p], pending0, trace0, None, trace + if pending.Some? then [Acked(pending.value)] else [])
  {
    forall q ensures q in used + [p] <==> q in used || q == p { }
    if !p.OpenFailed? && !p.Message? { assert Flushes(used + [p]); }
  }

  lemma {:induction false} OneMoreTaken<T>(was: seq<T>, rest: seq<T>)
    requires RestOf(was, rest) && rest != []
    ensures RestOf(was, rest[1..]) && Taken(was, rest[1..]) == Taken(was, rest) + [rest[0]]
  {
  }

  // ---- deliveries in order -----------------------------------------------

  /** Deliveries above the floor come without holes: each is a repeat or the next
      one after the highest so far. */
  ghost predicate NoHoles(floor: nat, top: nat, script: seq<Poll>)
    decreases |script|
  {
    script == [] ||
    (match script[0]
     case Message(s) => floor < s <= top + 1 && NoHoles(floor, if s > top then s else top, script[1..])
     case _ => NoHoles(floor, top, script[1..]))
  }

  /** `rest` is what is left of `script` after its first delivery, `s`. */
  ghost predicate FirstMessage(script: seq<Poll>, s: nat, rest: seq<Poll>) {
    script != [] &&
    (match script[0]
     case Message(q) => q == s && rest == script[1..]
     case _ => FirstMessage(script[1..], s, rest))
  }

  lemma {:induction false} NoHolesFirst(floor: nat, top: nat, script: seq<Poll>, s: nat, rest: seq<Poll>)
    requires NoHoles(floor, top, script) && FirstMessage(script, s, rest)
    ensures floor < s <= top + 1 && NoHoles(floor, if s > top then s else top, rest)
  {
    if !script[0].Message? { NoHolesFirst(floor, top, script[1..], s, rest); }
  }

  // ---- the session -------------------------------------------------------

  class JetStreamSession {
    var streamOpen: bool
    var delivered: Option<nat>
    var pending: Option<nat>
    var sinceAck: nat
    var reopenAttempts: nat
    var late: bool
    var script: seq<Poll>
    /** What the broker answers to coming acknowledgements; then always yes. */
    var answers: seq<bool>
    /** Everything visible outside so far, this session's acknowledgements among it. */
    ghost var trace: seq<Act>

    constructor (script: seq<Poll>, answers: seq<bool>)
      ensures delivered.None? && pending.None? && sinceAck == 0 && reopenAttempts == 0 && !late
      ensures this.script == script && this.answers == answers && trace == []
    {
      streamOpen, delivered, pending, sinceAck, reopenAttempts, late := false, None, None, 0, 0, false;
      this.script, this.answers, trace := script, answers, [];
    }

    /** Acknowledge the last accepted delivery; on failure it is kept for a retry. */
    method FlushPending() returns (ok: bool)
      modifies this`pending, this`sinceAck, this`trace, this`answers
      ensures old(pending).None? ==>
        ok && pending.None? && trace == old(trace) && sinceAck == old(sinceAck) && answers == old(answers)
      ensures old(pending).Some? ==> trace == old(trace) + [Acked(old(pending).value)]
      ensures old(pending).Some? ==> (ok <==> old(answers) == [] || old(answers)[0])
      ensures old(pending).Some? ==> answers == if old(answers) == [] then [] else old(answers)[1..]
      ensures old(pending).Some? ==>
        (if ok then pending.None? && sinceAck == 0 else pending == old(pending) && sinceAck == old(sinceAck))
      ensures AllTrue(old(answers)) ==> AllTrue(answers) && pending.None?
    {
      if pending.None? { return true; }
      trace := trace + [Acked(pending.value)];
      ok := true;
      if answers != [] { ok, answers := answers[0], answers[1..]; }
      if ok { pending, sinceAck := None, 0; }
    }

    method RecordStreamFailure(tooLate: bool)
      modifies this`streamOpen, this`reopenAttempts, this`late
      ensures !streamOpen && reopenAttempts == old(reopenAttempts) + 1 && late == (old(late) || tooLate)
    {
      streamOpen := false;
      reopenAttempts := reopenAttempts + 1;
      late := late || tooLate;
    }

    /** Recovery has taken too many attempts or too long. */
    ghost predicate Exhausted()
      reads this
    {
      reopenAttempts > SESSION_MAX_REOPEN || late
    }

    /** The next delivery, reopening the pull stream when it fails. It is given up exactly
        when the consumer is deleted or recovery is exhausted before the next delivery.
        Only the delivery accepted before may be acknowledged on the way, and is at every
        interruption, end and quiet spell. */
    method Next() returns (res: Delivery)
      modifies this
      ensures old(delivered).Some? ==> res.Closed? && delivered == old(delivered) && script == old(script)
      ensures RestOf(old(script), script)
      ensures res.Delivered? ==>
        old(delivered).None? && delivered == Some(res.sequence) && FirstMessage(old(script), res.sequence, script)
      ensures res.Delivered? ==> reopenAttempts == 0 && !late && streamOpen
      ensures !res.Delivered? ==> delivered == old(delivered)
      ensures !res.Delivered? && old(delivered).None? ==>
        Met(Taken(old(script), script), old(reopenAttempts), old(late), reopenAttempts, late)
      ensures res.Closed? && old(delivered).None? ==> Exhausted() || ConsumerGone(Taken(old(script), script))
      ensures res.Idle? ==> script == [] && !Exhausted() && !ConsumerGone(old(script))
      ensures res.Delivered? ==>
        && old(reopenAttempts) + Failures(Taken(old(script), script)) <= SESSION_MAX_REOPEN
        && !old(late) && !SomeLate(Taken(old(script), script)) && !ConsumerGone(Taken(old(script), script))
      ensures pending == old(pending) || pending.None?
      ensures Repeats(old(trace), trace, old(pending))
      ensures AllTrue(old(answers)) && old(delivered).None? ==>
        AllTrue(answers) && Settles(Taken(old(script), script), old(pending), old(trace), pending, trace)
    {
      hide Repeats, FirstMessage, Met, Settles, ConsumerGone, RestOf, Taken, AllTrue;
      RepeatsNothing(trace, pending);
      AllLeft(script);
      MetNothing(reopenAttempts, late, pending, trace);
      if delivered.Some? { return Closed; }
      ghost var used: seq<Poll>, script0 := [], script;
      while true
        invariant delivered.None? && RestOf(script0, script) && used == Taken(script0, script) && !ConsumerGone(used)
        invariant Met(used, old(reopenAttempts), old(late), reopenAttempts, late)
        invariant pending == old(pending) || pending.None?
        invariant Repeats(old(trace), trace, old(pending))
        invariant AllTrue(old(answers)) ==>
          AllTrue(answers) && Settles(used, old(pending), old(trace), pending, trace)
        decreases |script|
      {
        if reopenAttempts > SESSION_MAX_REOPEN || late { return Closed; }
        if script == [] {
          AllTaken(script0, script);
          return Idle;
        }
        var poll := script[0];
        ghost var before, was, owed := used, trace, pending;
        OneMoreTaken(script0, script);
        ghost var left := script;
        script, used := script[1..], used + [poll];
        if poll.Message? {
          NextIsFirst(script0, left, before, old(reopenAttempts), old(late), reopenAttempts, late);
          DeliveredHealthy(before, old(reopenAttempts), old(late), reopenAttempts, late, poll);
          if AllTrue(old(answers)) { SettlesMore(before, old(pending), old(trace), owed, was, poll); }
          streamOpen, delivered, reopenAttempts, late := true, Some(poll.sequence), 0, false;
          return Delivered(poll.sequence);
        }
        MetMore(before, old(reopenAttempts), old(late), reopenAttempts, late, poll);
        if AllTrue(old(answers)) { SettlesMore(before, old(pending), old(trace), owed, was, poll); }
        if poll.OpenFailed? {
          RecordStreamFailure(poll.late);
          continue;
        }
        streamOpen := true;
        var _ := FlushPending();
        RepeatsMore(old(trace), was, trace, old(pending), owed);
        if poll.Interrupted? && poll.consumerDeleted { return Closed; }
        if !poll.Quiet? { RecordStreamFailure(poll.late); }
      }
    }

    /** Take over the delivery as accepted, and acknowledge now and then. */
    method Accepted(cursor: Option<nat>) returns (ok: bool)
      modifies this
      ensures ok <==> cursor.Some? && old(delivered) == cursor
      ensures script == old(script) && reopenAttempts == old(reopenAttempts) && late == old(late)
      ensures ok ==> delivered.None? && (pending.None? || pending == cursor) && Repeats(old(trace), trace, cursor)
      ensures ok && old(sinceAck) + 1 < SESSION_ACK_EVERY ==>
        pending == cursor && trace == old(trace) && sinceAck == old(sinceAck) + 1
      ensures ok && old(sinceAck) + 1 >= SESSION_ACK_EVERY ==> trace == old(trace) + [Acked(cursor.value)]
      ensures ok && old(sinceAck) + 1 >= SESSION_ACK_EVERY && AllTrue(old(answers)) ==> pending.None? && sinceAck == 0
      ensures !ok ==> delivered == old(delivered) && pending == old(pending) && trace == old(trace)
      ensures AllTrue(old(answers)) ==> AllTrue(answers)
    {
      if cursor.None? || delivered.None? || delivered != cursor { return false; }
      pending, delivered := delivered, None;
      sinceAck := sinceAck + 1;
      if sinceAck >= SESSION_ACK_EVERY {
        var _ := FlushPending();
      }
      ok := true;
    }
  }

  lemma {:induction false} AllLeft<T>(s: seq<T>)
    ensures RestOf(s, s) && Taken(s, s) == []
  {
  }

  lemma {:induction false} AllTaken<T>(was: seq<T>, rest: seq<T>)
    requires RestOf(was, rest) && rest == []
    ensures Taken(was, rest) == was
  {
  }

  /** Nothing but the delivery itself can have come after the last failure. */
  lemma {:induction false} DeliveredHealthy(used: seq<Poll>, attempts0: nat, late0: bool, attempts: nat, late: bool,
                                            p: Poll)
    requires Met(used, attempts0, late0, attempts, late) && !late && attempts <= SESSION_MAX_REOPEN && p.Message?
    requires !ConsumerGone(used)
    ensures attempts0 + Failures(used + [p]) <= SESSION_MAX_REOPEN && !late0
    ensures !SomeLate(used + [p]) && !ConsumerGone(used + [p])
  {
    FailuresMore(used, p);
    forall q ensures q in used + [p] <==> q in used || q == p { }
  }

  lemma {:induction false} RepeatsNothing(trace: seq<Act>, only: Option<nat>)
    ensures Repeats(trace, trace, only)
  {
  }

  lemma {:induction false} RepeatsMore(start: seq<Act>, was: seq<Act>, now: seq<Act>, only: Option<nat>,
                                       owed: Option<nat>)
    requires Repeats(start, was, only) && (owed == only || owed.None?)
    requires now == was + if owed.Some? then [Acked(owed.value)] else []
    ensures Repeats(start, now, only)
  {
    if owed.Some? {
      assert now == was + [Acked(only.value)];
      assert now[..|start|] == was[..|start|];
    } else {
      assert now == was;
    }
  }

  lemma {:induction false} NextIsFirst(script: seq<Poll>, left: seq<Poll>, used: seq<Poll>, attempts0: nat, late0: bool,
                                       attempts: nat, late: bool)
    requires RestOf(script, left) && used == Taken(script, left) && left != [] && left[0].Message?
    requires Met(used, attempts0, late0, attempts, late)
    ensures FirstMessage(script, left[0].sequence, left[1..])
  {
    hide FirstMessage, Failures, SomeLate;
    assert left == [left[0]] + left[1..];
    FirstAfter(script, left[0].sequence, left[1..], used);
  }

  lemma {:induction false} FirstAfter(script: seq<Poll>, s: nat, rest: seq<Poll>, before: seq<Poll>)
    requires script == before + [Message(s)] + rest && NoMessage(before)
    ensures FirstMessage(script, s, rest)
    decreases |before|
  {
    if before == [] {
      assert script[0] == Message(s) && script[1..] == rest;
    } else {
      assert before[0] in before && script[0] == before[0];
      assert script[1..] == before[1..] + [Message(s)] + rest;
      FirstAfter(script[1..], s, rest, before[1..]);
    }
  }

  /** Everything after `was` is an acknowledgement of one sequence. */
  ghost predicate Repeats(was: seq<Act>, now: seq<Act>, only: Option<nat>) {
    |was| <= |now| && now[..|was|] == was && forall i :: |was| <= i < |now| ==>
      only.Some? && now[i] == Acked(only.value)
  }

  // ---- the order of things -----------------------------------------------

  /** The act broadcasts the event to an attached operation, or drops it as malformed. */
  ghost predicate Handles(a: Act, q: nat, wellFormed: nat -> bool) {
    match a
    case Sent(s, receivers) => s == q && receivers > 0
    case Dropped(s) => s == q && !wellFormed(q)
    case Acked(_) => false
  }

  /** One of the first `n` acts handles the event. */
  ghost predicate HandledBefore(trace: seq<Act>, n: nat, q: nat, wellFormed: nat -> bool)
    requires n <= |trace|
  {
    exists j :: 0 <= j < n && Handles(trace[j], q, wellFormed)
  }

  /** Every acknowledgement comes after all events it covers have been handled. */
  ghost predicate HandledFirst(floor: nat, trace: seq<Act>, wellFormed: nat -> bool) {
    forall i, q :: 0 <= i < |trace| && trace[i].Acked? && floor < q <= trace[i].sequence ==>
      HandledBefore(trace, i, q, wellFormed)
  }

  /** All events above the floor up to `top` have been handled. */
  ghost predicate HandledUpTo(floor: nat, top: nat, trace: seq<Act>, wellFormed: nat -> bool) {
    forall q :: floor < q <= top ==> HandledBefore(trace, |trace|, q, wellFormed)
  }

  lemma {:induction false} StaysHandled(was: seq<Act>, now: seq<Act>, n: nat, q: nat, wellFormed: nat -> bool)
    requires was <= now && n <= |was| && HandledBefore(was, n, q, wellFormed)
    ensures forall m :: n <= m <= |now| ==> HandledBefore(now, m, q, wellFormed)
  {
    var j :| 0 <= j < n && Handles(was[j], q, wellFormed);
    assert now[j] == was[j];
  }

  /** Acknowledging what is covered keeps the order, any number of times. */
  lemma {:induction false} AckedInOrder(floor: nat, top: nat, was: seq<Act>, now: seq<Act>, only: Option<nat>,
                                        wellFormed: nat -> bool)
    requires Repeats(was, now, only) && (only.Some? ==> only.value <= top)
    requires HandledFirst(floor, was, wellFormed) && HandledUpTo(floor, top, was, wellFormed)
    ensures HandledFirst(floor, now, wellFormed) && HandledUpTo(floor, top, now, wellFormed)
  {
    hide HandledBefore;
    assert was <= now;
    forall i, q | 0 <= i < |now| && now[i].Acked? && floor < q <= now[i].sequence
      ensures HandledBefore(now, i, q, wellFormed)
    {
      if i < |was| {
        assert was[i] == now[i];
        StaysHandled(was, now, i, q, wellFormed);
      } else {
        StaysHandled(was, now, |was|, q, wellFormed);
      }
    }
    forall q | floor < q <= top ensures HandledBefore(now, |now|, q, wellFormed) {
      StaysHandled(was, now, |was|, q, wellFormed);
    }
  }

  /** Handling the next event, or an old one again, extends what has been handled. */
  lemma {:induction false} HandledNext(floor: nat, top: nat, was: seq<Act>, a: Act, s: nat, wellFormed: nat -> bool)
    requires HandledFirst(floor, was, wellFormed) && HandledUpTo(floor, top, was, wellFormed)
    requires floor < s <= top + 1 && Handles(a, s, wellFormed)
    ensures HandledFirst(floor, was + [a], wellFormed)
    ensures HandledUpTo(floor, if s > top then s else top, was + [a], wellFormed)
  {
    hide HandledBefore;
    var now := was + [a];
    assert was <= now && now[|was|] == a;
    forall i, q | 0 <= i < |now| && now[i].Acked? && floor < q <= now[i].sequence
      ensures HandledBefore(now, i, q, wellFormed)
    {
      assert was[i] == now[i];
      StaysHandled(was, now, i, q, wellFormed);
    }
    forall q | floor < q <= (if s > top then s else top) ensures HandledBefore(now, |now|, q, wellFormed) {
      if q <= top { StaysHandled(was, now, |was|, q, wellFormed); } else { JustHandled(was, a, q, wellFormed); }
    }
  }

  lemma {:induction false} JustHandled(was: seq<Act>, a: Act, q: nat, wellFormed: nat -> bool)
    requires Handles(a, q, wellFormed)
    ensures HandledBefore(was + [a], |was| + 1, q, wellFormed)
  {
    assert (was + [a])[|was|] == a;
  }

  // ---- the pump ----------------------------------------------------------

  /** Nobody shuts the connection down. */
  ghost predicate NeverShut(operations: seq<Option<nat>>) {
    forall i :: 0 <= i < |operations| ==> operations[i].Some?
  }

  class Pump {
    const session: JetStreamSession
    /** Whether the envelope at a sequence parses and validates. */
    const wellFormed: nat -> bool
    /** What the pump finds when it next waits for an operation: none, because the
        connection is shut down, or one, and how many receivers a send then has. Used up,
        there always is one. */
    var operations: seq<Option<nat>>

    constructor (session: JetStreamSession, wellFormed: nat -> bool, operations: seq<Option<nat>>)
      ensures this.session == session && this.wellFormed == wellFormed && this.operations == operations
    {
      this.session, this.wellFormed, this.operations := session, wellFormed, operations;
    }

    method AwaitOperation() returns (receivers: Option<nat>)
      modifies this`operations
      ensures old(operations) == [] ==> receivers == Some(1) && operations == []
      ensures old(operations) != [] ==> receivers == old(operations)[0] && operations == old(operations)[1..]
      ensures NeverShut(old(operations)) ==> receivers.Some? && NeverShut(operations)
    {
      if operations == [] { return Some(1); }
      receivers, operations := operations[0], operations[1..];
    }

    /** Send an event, waiting through handoffs between operations for a receiver. */
    method BroadcastEvent(s: nat) returns (done: bool)
      modifies session`trace, this`operations
      ensures if done then exists receivers ::
        receivers > 0 && session.trace == old(session.trace) + [Sent(s, receivers)]
              else session.trace == old(session.trace)
      ensures NeverShut(old(operations)) ==> done && NeverShut(operations)
    {
      while true
        invariant session.trace == old(session.trace) && (NeverShut(old(operations)) ==> NeverShut(operations))
        decreases |operations|
      {
        var receivers := AwaitOperation();
        if receivers.None? { return false; }
        if receivers.value > 0 {
          session.trace := session.trace + [Sent(s, receivers.value)];
          return true;
        }
      }
    }

    /** Broadcast the event, or drop it when it is malformed. */
    method Handle(s: nat) returns (done: bool)
      modifies session`trace, this`operations
      ensures if done then exists a :: Handles(a, s, wellFormed) && session.trace == old(session.trace) + [a]
              else session.trace == old(session.trace)
      ensures NeverShut(old(operations)) ==> done && NeverShut(operations)
    {
      if wellFormed(s) {
        done := BroadcastEvent(s);
        if done {
          ghost var receivers :| receivers > 0 && session.trace == old(session.trace) + [Sent(s, receivers)];
          assert Handles(Sent(s, receivers), s, wellFormed);
        }
      } else {
        session.trace := session.trace + [Dropped(s)];
        assert Handles(Dropped(s), s, wellFormed);
        done := true;
      }
    }

    /** Deliver one event after another until the stream, the operations or the
        session end it. At every moment of the run, an acknowledgement covers only
        events that were broadcast to an attached operation, or dropped as
        malformed, before it was sent. And unless the connection is shut down or the
        session gives up, every event the broker delivers is handled. */
    method Run(floor: nat)
      requires session.delivered.None? && session.pending.None? && session.trace == []
      requires NoHoles(floor, floor, session.script)
      modifies session, this`operations
      ensures HandledFirst(floor, session.trace, wellFormed)
      ensures NeverShut(old(operations)) && !session.Exhausted() && !ConsumerGone(old(session.script)) ==>
        session.script == [] && AllHandled(old(session.script), session.trace, wellFormed)
    {
      hide HandledFirst, HandledUpTo, Handles, FirstMessage, Repeats, RestOf, Taken, ConsumerGone, AllHandled, Settles,
        Failures, SomeLate, NoMessage, NeverShut;
      ghost var top, script0 := floor, session.script;
      NothingYet(floor, wellFormed);
      AllLeft(script0);
      NoneToHandle(session.trace, wellFormed);
      while session.script != []
        invariant session.delivered.None? && top >= floor && NoHoles(floor, top, session.script)
        invariant HandledFirst(floor, session.trace, wellFormed) && HandledUpTo(floor, top, session.trace, wellFormed)
        invariant session.pending.Some? ==> session.pending.value <= top
        invariant RestOf(script0, session.script)
        invariant AllHandled(Taken(script0, session.script), session.trace, wellFormed)
        invariant NeverShut(old(operations)) ==> NeverShut(operations)
        decreases |session.script|
      {
        var attached := AwaitOperation();
        if attached.None? { return; }
        ghost var script, was, pending := session.script, session.trace, session.pending;
        var delivery := session.Next();
        AckedInOrder(floor, top, was, session.trace, pending, wellFormed);
        TakenOn(script0, script, session.script);
        if !delivery.Delivered? {
          StillHandled(Taken(script0, script), was, session.trace, pending, wellFormed);
          GoneThen(script0, script, session.script);
          if delivery.Idle? { NoneLeft(script0, script, session.script, session.trace, wellFormed); }
          return;
        }
        var s := delivery.sequence;
        NoHolesFirst(floor, top, script, s, session.script);
        RestIsShorter(script, s, session.script);
        StillHandled(Taken(script0, script), was, session.trace, pending, wellFormed);
        was := session.trace;
        var done := Handle(s);
        if !done { return; }
        ghost var a :| Handles(a, s, wellFormed) && session.trace == was + [a];
        HandledNext(floor, top, was, a, s, wellFormed);
        NowHandled(script0, script, session.script, s, was, a, wellFormed);
        if s > top { top := s; }
        was := session.trace;
        var ok := session.Accepted(Some(s));
        AckedInOrder(floor, top, was, session.trace, Some(s), wellFormed);
        StillHandled(Taken(script0, session.script), was, session.trace, Some(s), wellFormed);
        if !ok { return; }
      }
      AllTaken(script0, session.script);
    }
  }

  /** Every event among the polls has been handled. */
  ghost predicate AllHandled(polls: seq<Poll>, trace: seq<Act>, wellFormed: nat -> bool) {
    forall q :: Message(q) in polls ==> HandledBefore(trace, |trace|, q, wellFormed)
  }

  lemma {:induction false} NoneToHandle(trace: seq<Act>, wellFormed: nat -> bool)
    ensures AllHandled([], trace, wellFormed)
  {
  }

  lemma {:induction false} TakenOn<T>(all: seq<T>, was: seq<T>, rest: seq<T>)
    requires RestOf(all, was) && RestOf(was, rest)
    ensures RestOf(all, rest) && Taken(all, rest) == Taken(all, was) + Taken(was, rest)
    ensures forall x :: x in Taken(was, rest) ==> x in all
  {
  }

  lemma {:induction false} GoneThen(all: seq<Poll>, was: seq<Poll>, rest: seq<Poll>)
    requires RestOf(all, was) && RestOf(was, rest)
    ensures ConsumerGone(Taken(was, rest)) ==> ConsumerGone(all)
  {
    TakenOn(all, was, rest);
  }

  lemma {:induction false} StillHandled(polls: seq<Poll>, was: seq<Act>, now: seq<Act>, only: Option<nat>,
                                        wellFormed: nat -> bool)
    requires AllHandled(polls, was, wellFormed) && Repeats(was, now, only)
    ensures AllHandled(polls, now, wellFormed)
  {
    hide HandledBefore;
    assert was <= now;
    forall q | Message(q) in polls ensures HandledBefore(now, |now|, q, wellFormed) {
      StaysHandled(was, now, |was|, q, wellFormed);
    }
  }

  lemma {:induction false} NoneLeft(all: seq<Poll>, was: seq<Poll>, rest: seq<Poll>, trace: seq<Act>,
                                    wellFormed: nat -> bool)
    requires RestOf(all, was) && RestOf(was, rest) && rest == [] && NoMessage(Taken(was, rest))
    requires AllHandled(Taken(all, was), trace, wellFormed)
    ensures AllHandled(all, trace, wellFormed)
  {
    hide HandledBefore;
    TakenOn(all, was, rest);
    AllTaken(all, rest);
  }

  lemma {:induction false} FirstTaken(script: seq<Poll>, s: nat, rest: seq<Poll>)
    requires FirstMessage(script, s, rest)
    ensures RestOf(script, rest) && forall q :: Message(q) in Taken(script, rest) ==> q == s
    decreases |script|
  {
    if script[0].Message? {
      assert Taken(script, rest) == [script[0]];
    } else {
      FirstTaken(script[1..], s, rest);
      assert Taken(script, rest) == [script[0]] + Taken(script[1..], rest);
    }
  }

  lemma {:induction false} NowHandled(all: seq<Poll>, was: seq<Poll>, rest: seq<Poll>, s: nat, trace: seq<Act>, a: Act,
                                      wellFormed: nat -> bool)
    requires RestOf(all, was) && FirstMessage(was, s, rest) && AllHandled(Taken(all, was), trace, wellFormed)
    requires Handles(a, s, wellFormed)
    ensures RestOf(all, rest) && AllHandled(Taken(all, rest), trace + [a], wellFormed)
  {
    hide HandledBefore, Handles, FirstMessage;
    FirstTaken(was, s, rest);
    TakenOn(all, was, rest);
    JustHandled(trace, a, s, wellFormed);
    forall q | Message(q) in Taken(all, rest) ensures HandledBefore(trace + [a], |trace + [a]|, q, wellFormed) {
      if Message(q) in Taken(all, was) { StaysHandled(trace, trace + [a], |trace|, q, wellFormed); }
    }
  }

  lemma {:induction false} NothingYet(floor: nat, wellFormed: nat -> bool)
    ensures HandledFirst(floor, [], wellFormed) && HandledUpTo(floor, floor, [], wellFormed)
  {
  }

  lemma {:induction false} RestIsShorter(script: seq<Poll>, s: nat, rest: seq<Poll>)
    requires FirstMessage(script, s, rest)
    ensures |rest| < |script|
  {
    if !script[0].Message? { RestIsShorter(script[1..], s, rest); }
  }
}
