/** From a change event to the row operations it stands for. */
module Events {
  import opened Json
  import opened Keys
  import opened Config
  import opened JoinModel
  import opened Incremental

  /** `payload` is absent when the bytes are not JSON. */
  datatype Event = Event(headers: map<string, string>, subject: string, payload: Option<Json>)

  datatype ChangeKind = Insert | Update | Delete | Truncate

  datatype JoinError = MissingColumn | InvalidPayload | FetcherFailed | MalformedSubject | Internal {
    /** A property of the event itself: replaying it fails the same way. */
    predicate IsPermanent() {
      MissingColumn? || InvalidPayload? || MalformedSubject?
    }
  }

  datatype Result<+T> = Ok(value: T) | Err(error: JoinError)

  const ACK_BARRIER_HEADER := "ventstream.internal.ack_barrier"
  const BOOTSTRAP_HEADER := "ventstream.cdc.bootstrap"
  const NAMESPACE_HEADER := "ventstream.cdc.namespace"
  const RELATION_HEADER := "ventstream.cdc.relation"
  const DOC_ID_HEADER := "ventstream.doc.id"

  function Header(e: Event, name: string): Option<string> {
    if name in e.headers then Some(e.headers[name]) else None
  }

  /** The dot-separated segments of a subject. */
  function Segments(s: string): (r: seq<string>)
    ensures r != []
  {
    if s == "" then [""]
    else
      var rest := Segments(s[1..]);
      if s[0] == '.' then [""] + rest else [[s[0]] + rest[0]] + rest[1..]
  }

  function SourceTable(e: Event): Result<string> {
    match (Header(e, NAMESPACE_HEADER), Header(e, RELATION_HEADER))
    case (Some(n), Some(r)) => Ok(n + "." + r)
    case _ =>
      var parts := Segments(e.subject);
      if |parts| >= 4 then Ok(parts[1] + "." + parts[2]) else Err(MalformedSubject)
  }

  function SubjectKind(e: Event): Result<ChangeKind> {
    var parts := Segments(e.subject);
    var last := parts[|parts| - 1];
    if last == "insert" then Ok(Insert)
    else if last == "update" then Ok(Update)
    else if last == "delete" then Ok(Delete)
    else if last == "truncate" then Ok(Truncate)
    else Err(MalformedSubject)
  }

  /** The row an event carries: the payload itself, or its `new` or `old` part. */
  function CurrentRow(payload: Json, kind: ChangeKind): Option<Json> {
    match kind
    case Insert => Some(payload)
    case Update =>
      if Get(payload, "new").Some? then Get(payload, "new")
      else if payload.Obj? then Some(payload) else None
    case Delete => Get(payload, "old")
    case Truncate => None
  }

  /** The row's key from its columns, else from the document id header. */
  function EventKey(row: Option<Json>, columns: seq<string>, e: Event): Option<PkValue> {
    var own := if row.Some? then ExtractPk(row.value, columns) else None;
    if own.Some? then own
    else match Header(e, DOC_ID_HEADER)
      case None => None
      case Some(id) => PkFromDocId(id, |columns|)
  }

  // ---- one role ----------------------------------------------------------

  datatype Role = AsPrimary(d: JoinDef) | AsRelated(d: JoinDef, r: RelatedDef)

  /** Truncates of a primary are planned once, ahead of the roles. */
  function DecodePrimary(d: JoinDef, kind: ChangeKind, e: Event): Result<RowOp> {
    if kind.Truncate? then Ok(NoOp)
    else if e.payload.None? then Err(InvalidPayload)
    else
      var row := CurrentRow(e.payload.value, kind);
      match EventKey(row, d.pk, e)
      case None => Err(InvalidPayload)
      case Some(pk) =>
        if kind.Delete? then Ok(PDelete(d, pk))
        else if row.None? || !row.value.Obj? then Err(InvalidPayload)
        else Ok(PUpsert(d, pk, row.value, kind.Update?))
  }

  function DecodeRelated(d: JoinDef, r: RelatedDef, kind: ChangeKind, e: Event): Result<RowOp> {
    if kind.Truncate? then Ok(FTruncate(d, r))
    else if e.payload.None? then Err(InvalidPayload)
    else
      var row := CurrentRow(e.payload.value, kind);
      match EventKey(row, r.pk, e)
      case None => Err(InvalidPayload)
      case Some(pk) =>
        if kind.Delete? then Ok(FDelete(d, r, pk, KeyOf(row.GetOr(Null), r.to)))
        else if row.None? then Err(InvalidPayload)
        else Ok(FUpsert(d, r, pk, row.value, kind.Update?))
  }

  function Decode(role: Role, kind: ChangeKind, e: Event): Result<RowOp> {
    match role
    case AsPrimary(d) => DecodePrimary(d, kind, e)
    case AsRelated(d, r) => DecodeRelated(d, r, kind, e)
  }

  // ---- a whole event -----------------------------------------------------

  datatype Verdict = PassThrough | Handled | Failed(error: JoinError)

  /** The operations carried out, in order, and how handling ends. */
  datatype Plan = Plan(ops: seq<RowOp>, verdict: Verdict)

  function RelatedRoles(d: JoinDef, related: seq<RelatedDef>, table: string): seq<Role> {
    if related == [] then []
    else
      var n := |related| - 1;
      RelatedRoles(d, related[..n], table) + (if related[n].table == table then [AsRelated(d, related[n])] else [])
  }

  /** The roles a table plays, definition by definition, primary first. */
  function Roles(defs: seq<JoinDef>, table: string): seq<Role> {
    if defs == [] then []
    else
      var d := defs[|defs| - 1];
      Roles(defs[..|defs| - 1], table)
      + (if d.table == table then [AsPrimary(d)] else [])
      + RelatedRoles(d, d.related, table)
  }

  /** Each role in turn; the first that cannot be decoded ends the event. */
  function PlanRoles(roles: seq<Role>, kind: ChangeKind, e: Event): Plan {
    if roles == [] then Plan([], Handled)
    else match Decode(roles[0], kind, e)
      case Err(error) => Plan([], Failed(error))
      case Ok(op) =>
        var rest := PlanRoles(roles[1..], kind, e);
        Plan([op] + rest.ops, rest.verdict)
  }

  predicate IsPrimaryTable(defs: seq<JoinDef>, table: string) {
    exists d :: d in defs && d.table == table
  }

  function PlanChange(defs: seq<JoinDef>, table: string, kind: ChangeKind, e: Event): Plan {
    var roles := Roles(defs, table);
    if roles == [] then Plan([], PassThrough)
    else
      var plan := PlanRoles(roles, kind, e);
      if kind.Truncate? && IsPrimaryTable(defs, table) then plan.(ops := [PTruncate(table)] + plan.ops) else plan
  }

  function PlanEvent(defs: seq<JoinDef>, e: Event): Plan {
    if Header(e, ACK_BARRIER_HEADER) == Some("true") then Plan([], PassThrough)
    else if Header(e, BOOTSTRAP_HEADER) == Some("snapshot-complete") then Plan([], Handled)
    else match (SourceTable(e), SubjectKind(e))
      case (Err(error), _) => Plan([], Failed(error))
      case (_, Err(error)) => Plan([], Failed(error))
      case (Ok(table), Ok(kind)) => PlanChange(defs, table, kind, e)
  }

  // ---- what plans contain ------------------------------------------------

  ghost predicate RoleIn(defs: seq<JoinDef>, role: Role) {
    match role
    case AsPrimary(d) => d in defs
    case AsRelated(d, r) => Has(defs, d, r)
  }

  lemma {:induction false} RelatedRolesIn(defs: seq<JoinDef>, d: JoinDef, related: seq<RelatedDef>, table: string)
    requires d in defs && forall r :: r in related ==> r in d.related
    ensures forall role :: role in RelatedRoles(d, related, table) ==> RoleIn(defs, role)
  {
    if related != [] {
      RelatedRolesIn(defs, d, related[..|related| - 1], table);
    }
  }

  lemma {:induction false} RolesIn(defs: seq<JoinDef>, n: nat, table: string)
    requires n <= |defs|
    ensures forall role :: role in Roles(defs[..n], table) ==> RoleIn(defs, role)
  {
    if n > 0 {
      RolesIn(defs, n - 1, table);
      RelatedRolesIn(defs, defs[n - 1], defs[n - 1].related, table);
      assert defs[..n][..n - 1] == defs[..n - 1];
    }
  }

  lemma {:induction false} PlanRolesIn(defs: seq<JoinDef>, roles: seq<Role>, kind: ChangeKind, e: Event)
    requires forall role :: role in roles ==> RoleIn(defs, role)
    ensures forall op :: op in PlanRoles(roles, kind, e).ops ==> OpIn(defs, op)
    ensures PlanRoles(roles, kind, e).verdict.Failed? ==> PlanRoles(roles, kind, e).verdict.error.IsPermanent()
    ensures !PlanRoles(roles, kind, e).verdict.PassThrough?
  {
    if roles != [] {
      assert roles[0] in roles;
      PlanRolesIn(defs, roles[1..], kind, e);
    }
  }

  /** Every planned operation belongs to the configured joins, a primary upsert
      always carries an object, and every planned failure is permanent. */
  lemma {:induction false} PlanWithinJoins(defs: seq<JoinDef>, e: Event)
    ensures forall op :: op in PlanEvent(defs, e).ops ==> OpIn(defs, op)
    ensures PlanEvent(defs, e).verdict.Failed? ==> PlanEvent(defs, e).verdict.error.IsPermanent()
  {
    match (SourceTable(e), SubjectKind(e)) {
      case (Ok(table), Ok(kind)) =>
        assert defs[..|defs|] == defs;
        RolesIn(defs, |defs|, table);
        PlanRolesIn(defs, Roles(defs, table), kind, e);
      case _ =>
    }
  }

  // ---- poison rows -------------------------------------------------------

  /** A role can take the event: the payload parses, a key can be found, and the
      row an upsert needs is there (an object, for a primary). */
  predicate Accepts(role: Role, kind: ChangeKind, e: Event) {
    kind.Truncate? || (e.payload.Some? &&
    var row := CurrentRow(e.payload.value, kind);
    EventKey(row, if role.AsPrimary? then role.d.pk else role.r.pk, e).Some? &&
    (kind.Delete? || (row.Some? && (role.AsPrimary? ==> row.value.Obj?))))
  }

  lemma {:induction false} DecodesIffAccepts(role: Role, kind: ChangeKind, e: Event)
    ensures Decode(role, kind, e).Ok? <==> Accepts(role, kind, e)
  {
    hide EventKey, CurrentRow, KeyOf;
  }

  lemma {:induction false} PlanRolesFailsIff(roles: seq<Role>, kind: ChangeKind, e: Event)
    ensures var plan := PlanRoles(roles, kind, e);
      && (plan.verdict.Failed? <==> exists i :: 0 <= i < |roles| && !Accepts(roles[i], kind, e))
      && |plan.ops| <= |roles|
      && (forall i :: 0 <= i < |plan.ops| ==> Accepts(roles[i], kind, e))
      && (plan.verdict.Failed? ==> |plan.ops| < |roles| && !Accepts(roles[|plan.ops|], kind, e))
  {
    hide Decode, Accepts;
    if roles != [] { DecodesIffAccepts(roles[0], kind, e); }
    if roles != [] && Accepts(roles[0], kind, e) {
      PlanRolesFailsIff(roles[1..], kind, e);
      var plan, rest := PlanRoles(roles, kind, e), PlanRoles(roles[1..], kind, e);
      assert plan.ops[1..] == rest.ops;
      if rest.verdict.Failed? {
        assert roles[1..][|rest.ops|] == roles[|plan.ops|];
      }
      if i :| 0 <= i < |roles| && !Accepts(roles[i], kind, e) {
        assert roles[1..][i - 1] == roles[i];
      }
      forall i | 0 <= i < |plan.ops| ensures Accepts(roles[i], kind, e) {
        if i > 0 { assert roles[1..][i - 1] == roles[i]; }
      }
    }
  }

  /** The role handled first rejects the event, or no table or kind could be read. */
  predicate RejectedAtOnce(defs: seq<JoinDef>, e: Event) {
    SourceTable(e).Ok? && SubjectKind(e).Ok? && Roles(defs, SourceTable(e).value) != [] ==>
      !Accepts(Roles(defs, SourceTable(e).value)[0], SubjectKind(e).value, e)
  }

  /** A failing event plans nothing exactly when it is rejected at once; in
      particular whenever its table has a single role. */
  lemma {:induction false} NothingPlannedIff(defs: seq<JoinDef>, e: Event)
    requires PlanEvent(defs, e).verdict.Failed?
    ensures PlanEvent(defs, e).ops == [] <==> RejectedAtOnce(defs, e)
    ensures (SourceTable(e).Ok? ==> |Roles(defs, SourceTable(e).value)| <= 1) ==> PlanEvent(defs, e).ops == []
  {
    match (SourceTable(e), SubjectKind(e)) {
      case (Ok(table), Ok(kind)) => PlanRolesFailsIff(Roles(defs, table), kind, e);
      case _ =>
    }
  }

  // ---- tombstone subjects --------------------------------------------------

  /** The subject without its last segment, when it has more than one. */
  function BaseSubject(s: string): string {
    if s == "" then ""
    else if '.' !in s[1..] then (if s[0] == '.' then "" else s)
    else [s[0]] + BaseSubject(s[1..])
  }

  /** A tombstone's subject: the event's with its last segment replaced. */
  function DeleteSubject(s: string): string {
    (if '.' in s then BaseSubject(s) else s) + ".delete"
  }

  lemma {:induction false} SegmentsAppend(a: string, b: string)
    requires '.' !in b
    ensures Segments(a + "." + b) == Segments(a) + [b]
  {
    if a == "" {
      assert a + "." + b == "." + b && ("." + b)[1..] == b;
      PlainSegment(b);
    } else {
      assert (a + "." + b)[1..] == a[1..] + "." + b;
      SegmentsAppend(a[1..], b);
    }
  }

  lemma {:induction false} PlainSegment(s: string)
    requires '.' !in s
    ensures Segments(s) == [s]
  {
    if s != "" {
      PlainSegment(s[1..]);
      assert s == [s[0]] + s[1..];
    }
  }

  lemma {:induction false} BaseSegments(s: string)
    requires '.' in s
    ensures Segments(BaseSubject(s)) == Segments(s)[..|Segments(s)| - 1] && |Segments(s)| > 1
  {
    if '.' in s[1..] {
      BaseSegments(s[1..]);
      assert ([s[0]] + BaseSubject(s[1..]))[1..] == BaseSubject(s[1..]);
    } else {
      PlainSegment(s[1..]);
    }
  }

  /** Whatever the triggering event was, its tombstone is classified as a delete and
      keeps the segments before the change kind. */
  lemma {:induction false} TombstoneIsDelete(e: Event)
    ensures SubjectKind(e.(subject := DeleteSubject(e.subject))) == Ok(Delete)
    ensures '.' in e.subject ==>
      Segments(DeleteSubject(e.subject)) == Segments(e.subject)[..|Segments(e.subject)| - 1] + ["delete"]
  {
    hide Segments, BaseSubject;
    var s := e.subject;
    if '.' in s { BaseSegments(s); }
    var base := if '.' in s then BaseSubject(s) else s;
    SegmentsAppend(base, "delete");
    assert base + "." + "delete" == base + ".delete";
  }
}
