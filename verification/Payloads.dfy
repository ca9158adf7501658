/** What an event says, read off its subject, headers and payload, and what handling it
    leaves stored. */
module Payloads {
  import opened Json
  import opened Keys
  import opened Config
  import opened Index
  import opened JoinModel
  import opened Incremental
  import opened Events
  import opened Lookups
  import opened Backfill
  import opened Replays
  import opened Cells
  import opened Carries

  // ---- table and kind ----------------------------------------------------------

  ghost predicate Dotless(parts: seq<string>) {
    parts != [] && forall i :: 0 <= i < |parts| ==> '.' !in parts[i]
  }

  /** The segments with dots between them. */
  function Dotted(parts: seq<string>): string
    requires parts != []
  {
    if |parts| == 1 then parts[0] else Dotted(parts[..|parts| - 1]) + "." + parts[|parts| - 1]
  }

  lemma {:induction false} DottedSegments(parts: seq<string>)
    requires Dotless(parts)
    ensures Segments(Dotted(parts)) == parts
  {
    hide Segments;
    var n := |parts| - 1;
    if n == 0 {
      PlainSegment(parts[0]);
    } else {
      DottedSegments(parts[..n]);
      SegmentsAppend(Dotted(parts[..n]), parts[n]);
      assert parts == parts[..n] + [parts[n]];
    }
  }

  lemma {:induction false} SegmentsDotted(s: string)
    ensures Dotless(Segments(s)) && Dotted(Segments(s)) == s
  {
    if s != "" {
      var rest := Segments(s[1..]);
      SegmentsDotted(s[1..]);
      if s[0] == '.' { DottedPrepend("", rest); } else { DottedFirst(s[0], rest); }
      assert s == [s[0]] + s[1..];
    }
  }

  lemma {:induction false} DottedPrepend(first: string, rest: seq<string>)
    requires rest != []
    ensures Dotted([first] + rest) == first + "." + Dotted(rest)
  {
    var all, n := [first] + rest, |rest| - 1;
    assert all[..|all| - 1] == [first] + rest[..n];
    if n > 0 { DottedPrepend(first, rest[..n]); }
  }

  lemma {:induction false} DottedFirst(c: char, parts: seq<string>)
    requires parts != []
    ensures Dotted([[c] + parts[0]] + parts[1..]) == [c] + Dotted(parts)
  {
    var all, n := [[c] + parts[0]] + parts[1..], |parts| - 1;
    if n > 0 {
      DottedFirst(c, parts[..n]);
      assert all[..n] == [[c] + parts[..n][0]] + parts[..n][1..];
    }
  }

  function KindName(kind: ChangeKind): string {
    match kind
    case Insert => "insert"
    case Update => "update"
    case Delete => "delete"
    case Truncate => "truncate"
  }

  /** The headers name the table, or else the second and third of at least four segments
      of the subject do. */
  ghost predicate FromTable(e: Event, table: string) {
    if NAMESPACE_HEADER in e.headers && RELATION_HEADER in e.headers then
      table == e.headers[NAMESPACE_HEADER] + "." + e.headers[RELATION_HEADER]
    else exists parts :: InSubject(e, parts) && |parts| >= 4 && table == parts[1] + "." + parts[2]
  }

  ghost predicate InSubject(e: Event, parts: seq<string>) {
    Dotless(parts) && e.subject == Dotted(parts)
  }

  /** The last segment of the subject is the name of the kind. */
  ghost predicate HasKind(e: Event, kind: ChangeKind) {
    exists parts :: InSubject(e, parts) && parts[|parts| - 1] == KindName(kind)
  }

  lemma {:induction false} TableIsRead(e: Event, table: string)
    ensures SourceTable(e) == Ok(table) <==> FromTable(e, table)
  {
    hide Segments, Dotted, Dotless;
    var parts := Segments(e.subject);
    SegmentsDotted(e.subject);
    assert InSubject(e, parts);
    forall other | InSubject(e, other) ensures other == parts { DottedSegments(other); }
  }

  lemma {:induction false} KindIsRead(e: Event, kind: ChangeKind)
    ensures SubjectKind(e) == Ok(kind) <==> HasKind(e, kind)
  {
    hide Segments, Dotted, Dotless;
    var parts := Segments(e.subject);
    SegmentsDotted(e.subject);
    assert InSubject(e, parts);
    forall other | InSubject(e, other) ensures other == parts { DottedSegments(other); }
  }

  // ---- what one role makes of the payload ------------------------------------------

  /** The row's own key columns, or, for what is not an object, the document id header,
      name the row. */
  ghost predicate Names(row: Json, columns: seq<string>, e: Event, key: PkValue) {
    if row.Obj? then key == KeyOf(row, columns)
    else DOC_ID_HEADER in e.headers && PkFromDocId(e.headers[DOC_ID_HEADER], |columns|) == Some(key)
  }

  ghost predicate SaysUpsert(role: Role, e: Event, row: Json, merge: bool, op: RowOp) {
    match role
    case AsPrimary(d) => row.Obj? && exists key :: Names(row, d.pk, e, key) && op == PUpsert(d, key, row, merge)
    case AsRelated(d, r) => exists key :: Names(row, r.pk, e, key) && op == FUpsert(d, r, key, row, merge)
  }

  ghost predicate SaysDelete(role: Role, e: Event, row: Json, op: RowOp) {
    match role
    case AsPrimary(d) => exists key :: Names(row, d.pk, e, key) && op == PDelete(d, key)
    case AsRelated(d, r) => exists key :: Names(row, r.pk, e, key) && op == FDelete(d, r, key, KeyOf(row, r.to))
  }

  /** What the event says in one role: an insert is its payload; an update is laid over
      the row and is the payload's `new` member, or a payload without one; a delete is of
      the payload's `old` member, or of the row the document id names. */
  ghost predicate Says(role: Role, kind: ChangeKind, e: Event, op: RowOp) {
    if kind.Truncate? then op == (if role.AsPrimary? then NoOp else FTruncate(role.d, role.r))
    else
      && e.payload.Some?
      && var v := e.payload.value;
      match kind
      case Insert => SaysUpsert(role, e, v, false, op)
      case Update =>
        v.Obj? && SaysUpsert(role, e, if "new" in v.fields then v.fields["new"] else v, true, op)
      case _ => SaysDelete(role, e, if v.Obj? && "old" in v.fields then v.fields["old"] else Null, op)
  }

  lemma {:induction false} KeyIsNamed(row: Option<Json>, columns: seq<string>, e: Event)
    ensures forall key :: EventKey(row, columns, e) == Some(key) <==> Names(row.GetOr(Null), columns, e, key)
  {
    hide FromValues, PkFromDocId;
  }

  /** Decoding is what the event says: it yields an operation exactly when the event says
      one, and that one. */
  lemma {:induction false} DecodeSays(role: Role, kind: ChangeKind, e: Event, op: RowOp)
    ensures Decode(role, kind, e) == Ok(op) <==> Says(role, kind, e, op)
    ensures Decode(role, kind, e).Err? ==> Decode(role, kind, e).error == InvalidPayload
  {
    hide EventKey, Names, KeyOf, CurrentRow, SaysUpsert, SaysDelete;
    if !kind.Truncate? && e.payload.Some? {
      var row, v := CurrentRow(e.payload.value, kind), e.payload.value;
      RowIsRead(v, kind);
      if kind.Delete? {
        DeleteSays(role, e, row, op);
      } else if row.Some? {
        UpsertSays(role, e, row.value, kind.Update?, op);
      }
    }
  }

  lemma {:induction false} RowIsRead(v: Json, kind: ChangeKind)
    ensures var row := CurrentRow(v, kind);
      && (kind.Insert? ==> row == Some(v))
      && (kind.Update? ==> row == if v.Obj? then Some(if "new" in v.fields then v.fields["new"] else v) else None)
      && (kind.Delete? ==> row.GetOr(Null) == if v.Obj? && "old" in v.fields then v.fields["old"] else Null)
  {
  }

  lemma {:induction false} UpsertSays(role: Role, e: Event, row: Json, merge: bool, op: RowOp)
    ensures SaysUpsert(role, e, row, merge, op) <==>
      var key := EventKey(Some(row), if role.AsPrimary? then role.d.pk else role.r.pk, e);
      key.Some? && match role
        case AsPrimary(d) => row.Obj? && op == PUpsert(d, key.value, row, merge)
        case AsRelated(d, r) => op == FUpsert(d, r, key.value, row, merge)
  {
    hide EventKey, Names, KeyOf;
    var columns := if role.AsPrimary? then role.d.pk else role.r.pk;
    KeyIsNamed(Some(row), columns, e);
    assert Some(row).GetOr(Null) == row;
    var key := EventKey(Some(row), columns, e);
    if key.Some? { assert Names(row, columns, e, key.value); }
  }

  lemma {:induction false} DeleteSays(role: Role, e: Event, row: Option<Json>, op: RowOp)
    ensures SaysDelete(role, e, row.GetOr(Null), op) <==>
      var key := EventKey(row, if role.AsPrimary? then role.d.pk else role.r.pk, e);
      key.Some? && match role
        case AsPrimary(d) => op == PDelete(d, key.value)
        case AsRelated(d, r) => op == FDelete(d, r, key.value, KeyOf(row.GetOr(Null), r.to))
  {
    hide EventKey, Names, KeyOf;
    var columns := if role.AsPrimary? then role.d.pk else role.r.pk;
    KeyIsNamed(row, columns, e);
    var key := EventKey(row, columns, e);
    if key.Some? { assert Names(row.GetOr(Null), columns, e, key.value); }
  }

  // ---- the whole plan ------------------------------------------------------------

  /** The event is neither a barrier nor the end of a snapshot, and is a change of this
      kind to this table. */
  ghost predicate Changes(e: Event, table: string, kind: ChangeKind) {
    && !(ACK_BARRIER_HEADER in e.headers && e.headers[ACK_BARRIER_HEADER] == "true")
    && !(BOOTSTRAP_HEADER in e.headers && e.headers[BOOTSTRAP_HEADER] == "snapshot-complete")
    && FromTable(e, table) && HasKind(e, kind)
  }

  /** The operations are what the event says in each role in turn; the first role in which
      it says nothing ends it. */
  ghost predicate SaidInTurn(roles: seq<Role>, kind: ChangeKind, e: Event, plan: Plan) {
    && |plan.ops| <= |roles|
    && (forall i :: 0 <= i < |plan.ops| ==> Says(roles[i], kind, e, plan.ops[i]))
    && (|plan.ops| == |roles| ==> plan.verdict == Handled)
    && (|plan.ops| < |roles| ==>
          plan.verdict == Failed(InvalidPayload) && forall op :: !Says(roles[|plan.ops|], kind, e, op))
  }

  lemma {:induction false} RolesSay(roles: seq<Role>, kind: ChangeKind, e: Event)
    ensures SaidInTurn(roles, kind, e, PlanRoles(roles, kind, e))
  {
    hide Says, Decode;
    if roles != [] {
      var plan := PlanRoles(roles, kind, e);
      RolesSay(roles[1..], kind, e);
      forall op { DecodeSays(roles[0], kind, e, op); }
      if Decode(roles[0], kind, e).Ok? {
        var rest := PlanRoles(roles[1..], kind, e);
        forall i | 0 <= i < |plan.ops| ensures Says(roles[i], kind, e, plan.ops[i]) {
          if i > 0 { assert roles[1..][i - 1] == roles[i] && rest.ops[i - 1] == plan.ops[i]; }
        }
        if |rest.ops| < |roles| - 1 { assert roles[1..][|rest.ops|] == roles[|plan.ops|]; }
      } else {
        DecodeSays(roles[0], kind, e, NoOp);
      }
    }
  }

  /** A change plans what it says in each role its table plays; the truncation of a
      primary table comes first; a change to any other table passes through. */
  lemma {:induction false} PlanSays(defs: seq<JoinDef>, e: Event, table: string, kind: ChangeKind)
    requires Changes(e, table, kind)
    ensures var roles, plan := Roles(defs, table), PlanEvent(defs, e);
      if roles == [] then plan == Plan([], PassThrough)
      else if kind.Truncate? && exists d :: d in defs && d.table == table then
        plan.ops != [] && plan.ops[0] == PTruncate(table) && SaidInTurn(roles, kind, e, plan.(ops := plan.ops[1..]))
      else SaidInTurn(roles, kind, e, plan)
  {
    hide FromTable, HasKind, SourceTable, SubjectKind, SaidInTurn, PlanRoles, Roles;
    TableIsRead(e, table);
    KindIsRead(e, kind);
    RolesSay(Roles(defs, table), kind, e);
  }

  lemma {:induction false} SoleSays(defs: seq<JoinDef>, e: Event, table: string, kind: ChangeKind, role: Role,
                                    op: RowOp)
    requires Changes(e, table, kind) && Roles(defs, table) == [role]
    requires !kind.Truncate? || forall d :: d in defs ==> d.table != table
    ensures Says(role, kind, e, op) ==> PlanEvent(defs, e) == Plan([op], Handled)
    ensures PlanEvent(defs, e).ops == [] ==> PlanEvent(defs, e) == Plan([], Failed(InvalidPayload))
    ensures PlanEvent(defs, e).ops != [] ==>
      PlanEvent(defs, e).verdict == Handled && |PlanEvent(defs, e).ops| == 1
        && Says(role, kind, e, PlanEvent(defs, e).ops[0])
  {
    hide Changes, Says, PlanEvent;
    PlanSays(defs, e, table, kind);
    var plan := PlanEvent(defs, e);
    DecodeSays(role, kind, e, op);
    assert SaidInTurn([role], kind, e, plan);
    if plan.ops == [] {
      assert !Says([role][0], kind, e, op);
    } else {
      assert Says([role][0], kind, e, plan.ops[0]);
      DecodeSays(role, kind, e, plan.ops[0]);
      assert plan.ops == [plan.ops[0]];
    }
  }

  /** A primary table with no other role: what each form of payload plans. */
  lemma {:induction false} PrimaryPlanned(defs: seq<JoinDef>, e: Event, table: string, kind: ChangeKind, d: JoinDef,
                                          v: Json)
    requires Changes(e, table, kind) && Roles(defs, table) == [AsPrimary(d)] && e.payload == Some(v)
    ensures kind.Insert? && v.Obj? ==> PlanEvent(defs, e) == Plan([PUpsert(d, KeyOf(v, d.pk), v, false)], Handled)
    ensures kind.Update? && v.Obj? && "new" in v.fields && v.fields["new"].Obj? ==>
      PlanEvent(defs, e) == Plan([PUpsert(d, KeyOf(v.fields["new"], d.pk), v.fields["new"], true)], Handled)
    ensures kind.Update? && v.Obj? && "new" !in v.fields ==>
      PlanEvent(defs, e) == Plan([PUpsert(d, KeyOf(v, d.pk), v, true)], Handled)
    ensures kind.Delete? && v.Obj? && "old" in v.fields && v.fields["old"].Obj? ==>
      PlanEvent(defs, e) == Plan([PDelete(d, KeyOf(v.fields["old"], d.pk))], Handled)
    ensures forall t, values :: kind.Delete? && v.Obj? && "old" !in v.fields && NamedById(e, t, values, |d.pk|) ==>
      PlanEvent(defs, e) == Plan([PDelete(d, FromValues(values))], Handled)
    ensures kind.Delete? && v.Obj? && "old" !in v.fields && DOC_ID_HEADER !in e.headers ==>
      PlanEvent(defs, e) == Plan([], Failed(InvalidPayload))
  {
    hide Changes, KeyOf, PkFromDocId, FromValues, PlanEvent, NamedById;
    var role, row := AsPrimary(d), PayloadRow(kind, v);
    if !kind.Truncate? {
      if row.Obj? { assert Names(row, d.pk, e, KeyOf(row, d.pk)); }
      SoleSays(defs, e, table, kind, role,
        if kind.Delete? then PDelete(d, KeyOf(row, d.pk)) else PUpsert(d, KeyOf(row, d.pk), row, kind.Update?));
      forall t, values | kind.Delete? && v.Obj? && "old" !in v.fields && NamedById(e, t, values, |d.pk|)
        ensures PlanEvent(defs, e) == Plan([PDelete(d, FromValues(values))], Handled)
      {
        IdNames(e, t, values, d.pk);
        SoleSays(defs, e, table, kind, role, PDelete(d, FromValues(values)));
      }
    }
  }

  /** The row a payload is about. */
  ghost function PayloadRow(kind: ChangeKind, v: Json): Json {
    if kind.Update? && v.Obj? && "new" in v.fields then v.fields["new"]
    else if kind.Delete? then (if v.Obj? && "old" in v.fields then v.fields["old"] else Null)
    else v
  }

  /** The header holds the document id of a row with these components. */
  ghost predicate NamedById(e: Event, table: string, values: seq<Json>, columns: nat) {
    && ':' !in table && Scalars(values) && |values| == columns
    && DOC_ID_HEADER in e.headers && e.headers[DOC_ID_HEADER] == DocIdValue(table, FromValues(values))
  }

  lemma {:induction false} IdNames(e: Event, table: string, values: seq<Json>, columns: seq<string>)
    requires NamedById(e, table, values, |columns|)
    ensures Names(Null, columns, e, FromValues(values))
  {
    hide FromValues, DocIdValue, PkFromDocId;
    DocIdRoundTripIff(table, values);
  }

  /** A related table with no other role: the same, with the key the row joined on. */
  lemma {:induction false} RelatedPlanned(defs: seq<JoinDef>, e: Event, table: string, kind: ChangeKind, d: JoinDef,
                                          r: RelatedDef, v: Json)
    requires Changes(e, table, kind) && Roles(defs, table) == [AsRelated(d, r)] && e.payload == Some(v)
    ensures kind.Insert? && v.Obj? ==> PlanEvent(defs, e) == Plan([FUpsert(d, r, KeyOf(v, r.pk), v, false)], Handled)
    ensures kind.Update? && v.Obj? && "new" in v.fields && v.fields["new"].Obj? ==>
      PlanEvent(defs, e) == Plan([FUpsert(d, r, KeyOf(v.fields["new"], r.pk), v.fields["new"], true)], Handled)
    ensures kind.Update? && v.Obj? && "new" !in v.fields ==>
      PlanEvent(defs, e) == Plan([FUpsert(d, r, KeyOf(v, r.pk), v, true)], Handled)
    ensures kind.Delete? && v.Obj? && "old" in v.fields && v.fields["old"].Obj? ==>
      var old' := v.fields["old"];
      PlanEvent(defs, e) == Plan([FDelete(d, r, KeyOf(old', r.pk), KeyOf(old', r.to))], Handled)
    ensures forall t, values :: kind.Delete? && v.Obj? && "old" !in v.fields && NamedById(e, t, values, |r.pk|) ==>
      PlanEvent(defs, e) == Plan([FDelete(d, r, FromValues(values), EMPTY_KEY)], Handled)
    ensures kind.Truncate? ==> PlanEvent(defs, e) == Plan([FTruncate(d, r)], Handled)
  {
    hide Changes, KeyOf, PkFromDocId, FromValues, PlanEvent, NamedById;
    var role, row := AsRelated(d, r), PayloadRow(kind, v);
    PrimaryRole(defs, table);
    if row.Obj? { assert Names(row, r.pk, e, KeyOf(row, r.pk)); }
    SoleSays(defs, e, table, kind, role,
      if kind.Truncate? then FTruncate(d, r)
      else if kind.Delete? then FDelete(d, r, KeyOf(row, r.pk), KeyOf(row, r.to))
      else FUpsert(d, r, KeyOf(row, r.pk), row, kind.Update?));
    NoKey(r.to);
    forall t, values | kind.Delete? && v.Obj? && "old" !in v.fields && NamedById(e, t, values, |r.pk|)
      ensures PlanEvent(defs, e) == Plan([FDelete(d, r, FromValues(values), EMPTY_KEY)], Handled)
    {
      IdNames(e, t, values, r.pk);
      SoleSays(defs, e, table, kind, role, FDelete(d, r, FromValues(values), EMPTY_KEY));
    }
  }

  lemma {:induction false} NoKey(columns: seq<string>)
    ensures KeyOf(Null, columns) == EMPTY_KEY
  {
  }

  // ---- what is stored afterwards ---------------------------------------------------

  /** What an operation leaves in one place of the tables. */
  ghost predicate Leaves(t: Tables, op: RowOp, x: Slot, row: Option<Json>) {
    if Puts(op, x) then row.Some? && Overlays(At(t, x), op.row, op.merge, row.value)
    else if Clears(op, x) then row.None?
    else row == At(t, x)
  }

  /** The operation took `st` to `now`: each primary is as it leaves it, and so is each
      foreign row, unless the source has supplied that row since. */
  ghost predicate OpLands(joins: seq<JoinDef>, fetch: Fetcher, st: State, op: RowOp, now: State) {
    && (forall k :: Leaves(TablesOf(st), op, Prim(k), Lookup(TablesOf(now).prim, k)))
    && (forall k :: Leaves(TablesOf(st), op, Forn(k), Lookup(now.foreign, k))
          || (k in now.foreign && RowSupplied(joins, fetch, now, k, now.foreign[k])))
  }

  lemma {:induction false} FollowsLands(joins: seq<JoinDef>, fetch: Fetcher, st: State, op: RowOp, now: State)
    requires Filled(joins, fetch, Apply(st, op), now)
    ensures OpLands(joins, fetch, st, op, now)
  {
    hide Apply, Replay, Puts, Clears, Overlays, RowSupplied, EntriesFilled, NoEmpties;
    var mid := Apply(st, op);
    ApplyReplays(st, op);
    forall k ensures Leaves(TablesOf(st), op, Prim(k), Lookup(TablesOf(now).prim, k)) {
      ReplayOverlays(TablesOf(st), op, Prim(k));
      assert TablesOf(now).prim == TablesOf(mid).prim;
    }
    forall k ensures Leaves(TablesOf(st), op, Forn(k), Lookup(now.foreign, k))
      || (k in now.foreign && RowSupplied(joins, fetch, now, k, now.foreign[k]))
    {
      ReplayOverlays(TablesOf(st), op, Forn(k));
      assert At(TablesOf(mid), Forn(k)) == Lookup(mid.foreign, k);
    }
  }

  /** What the event says in its only role; the truncation of a primary is of the table. */
  ghost predicate SaysSole(role: Role, table: string, kind: ChangeKind, e: Event, op: RowOp) {
    if kind.Truncate? && role.AsPrimary? then op == PTruncate(table) else Says(role, kind, e, op)
  }

  /** A change to a table with one role has left stored what its payload says. */
  ghost predicate EventLands(joins: seq<JoinDef>, fetch: Fetcher, e: Event, st: State, now: State) {
    forall table, kind, role :: Changes(e, table, kind) && Roles(joins, table) == [role] ==>
      exists op :: SaysSole(role, table, kind, e, op) && OpLands(joins, fetch, st, op, now)
  }

  lemma {:induction false} EventsLand(joins: seq<JoinDef>, fetch: Fetcher, e: Event, st: State, start: seq<Emission>,
                                      res: Result<bool>, outs: seq<seq<Emission>>, now: State, out: seq<Emission>)
    requires Ends(joins, fetch, st, start, PlanEvent(joins, e), res, outs, now, out)
    ensures res.Ok? ==> EventLands(joins, fetch, e, st, now)
  {
    hide Changes, Roles, PlanEvent, SaysSole, OpLands, Passes, AllQuiet, KeysCarried, CarriedAll, ApplyOps,
      StoredObjects;
    if res.Ok? {
      forall table, kind, role | Changes(e, table, kind) && Roles(joins, table) == [role]
        ensures exists op :: SaysSole(role, table, kind, e, op) && OpLands(joins, fetch, st, op, now)
      {
        SoleLands(joins, fetch, e, st, now, table, kind, role);
      }
    }
  }

  lemma {:induction false} SoleLands(joins: seq<JoinDef>, fetch: Fetcher, e: Event, st: State, now: State,
                                     table: string, kind: ChangeKind, role: Role)
    requires Changes(e, table, kind) && Roles(joins, table) == [role]
    requires PlanEvent(joins, e).verdict != Failed(InvalidPayload)
    requires Passes(joins, Each(fetch, |PlanEvent(joins, e).ops|), st, PlanEvent(joins, e).ops, now)
    ensures exists op :: SaysSole(role, table, kind, e, op) && OpLands(joins, fetch, st, op, now)
  {
    hide Changes, PlanEvent, Says, OpLands, Filled, Passes, Apply;
    var ops := PlanEvent(joins, e).ops;
    PrimaryRole(joins, table);
    PlanSays(joins, e, table, kind);
    if kind.Truncate? && role.AsPrimary? {
      assert ops[0] == PTruncate(table) && SaidInTurn([role], kind, e, PlanEvent(joins, e).(ops := ops[1..]));
      assert Says([role][0], kind, e, ops[1..][0]);
      assert ops[1] == NoOp by { NothingSaid(role, kind, e, ops[1]); }
      var mid := PassedBefore(joins, Each(fetch, 2), st, ops, now);
      var first := PassedBefore(joins, Each(fetch, 2)[..1], st, ops[..1], mid);
      PassesSize(joins, Each(fetch, 2)[..1][..0], st, ops[..1][..0], first);
      SameAfterNothing(mid);
      FilledTwice(joins, fetch, Apply(st, PTruncate(table)), mid, now);
      FollowsLands(joins, fetch, st, PTruncate(table), now);
    } else {
      SoleSays(joins, e, table, kind, role, NoOp);
      var mid := PassedBefore(joins, Each(fetch, 1), st, ops, now);
      PassesSize(joins, Each(fetch, 1)[..0], st, ops[..0], mid);
      FollowsLands(joins, fetch, st, ops[0], now);
    }
  }

  lemma {:induction false} NothingSaid(role: Role, kind: ChangeKind, e: Event, op: RowOp)
    requires kind.Truncate? && role.AsPrimary? && Says(role, kind, e, op)
    ensures op == NoOp
  {
  }

  lemma {:induction false} SameAfterNothing(st: State)
    ensures Apply(st, NoOp) == st
  {
  }

  /** A table is a primary's exactly when one of its roles says so. */
  lemma {:induction false} PrimaryRole(defs: seq<JoinDef>, table: string)
    ensures (exists d :: d in defs && d.table == table) <==>
      exists role :: role in Roles(defs, table) && role.AsPrimary?
  {
    if defs != [] {
      var n := |defs| - 1;
      var d := defs[n];
      PrimaryRole(defs[..n], table);
      RelatedOnly(d, d.related, table);
      assert defs == defs[..n] + [d];
      if d.table == table { assert AsPrimary(d) in Roles(defs, table); }
      forall role | role in Roles(defs[..n], table) ensures role in Roles(defs, table) { }
      forall role | role in Roles(defs, table) && role.AsPrimary?
        ensures d.table == table || role in Roles(defs[..n], table) { }
    }
  }

  lemma {:induction false} RelatedOnly(d: JoinDef, related: seq<RelatedDef>, table: string)
    ensures forall role :: role in RelatedRoles(d, related, table) ==> role.AsRelated?
  {
    if related != [] { RelatedOnly(d, related[..|related| - 1], table); }
  }
}
