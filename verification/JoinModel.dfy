/** The values the join engine works on: its state, the row operations an event
    turns into, plain table replay, and the documents a state stands for. */
module JoinModel {
  import opened Order
  import opened Json
  import opened Keys
  import opened Config
  import opened Index

  /** A primary row and, per related id, the key it references. */
  datatype PrimaryRow = PrimaryRow(raw: Json, fks: map<string, PkValue>)

  datatype State = State(
    primary: map<RowKey, PrimaryRow>,
    foreign: map<RowKey, Json>,
    reverse: Index<RowKey>,
    byFk: Index<PkValue>)

  const EMPTY_STATE := State(map[], map[], map[], map[])

  /** What one event does in one of its roles. `merge` marks an update, whose
      row may omit unchanged columns. */
  datatype RowOp =
    | NoOp
    | PUpsert(d: JoinDef, pk: PkValue, row: Json, merge: bool)
    | PDelete(d: JoinDef, pk: PkValue)
    | PTruncate(table: string)
    | FUpsert(d: JoinDef, r: RelatedDef, pk: PkValue, row: Json, merge: bool)
    | FDelete(d: JoinDef, r: RelatedDef, pk: PkValue, eventKey: PkValue)
    | FTruncate(d: JoinDef, r: RelatedDef)

  // ---- the engine's state transition -------------------------------------

  /** The key each relation reads off a primary row. */
  function FksFrom(related: seq<RelatedDef>, row: Json): map<string, PkValue> {
    if related == [] then map[]
    else
      var last := related[|related| - 1];
      FksFrom(related[..|related| - 1], row)[last.id := KeyOf(row, last.from)]
  }

  /** Add `p` under its keys, relation by relation. */
  function Link(ix: Index<RowKey>, related: seq<RelatedDef>, fks: map<string, PkValue>, p: RowKey): Index<RowKey> {
    if related == [] then ix
    else
      var last := related[|related| - 1];
      var before := Link(ix, related[..|related| - 1], fks, p);
      if last.id in fks && !fks[last.id].IsNull() then Add(before, last.id, fks[last.id], p) else before
  }

  /** Remove `p` from the keys recorded for the given relations. */
  function UnlinkIds(ix: Index<RowKey>, ids: seq<string>, fks: map<string, PkValue>, p: RowKey): Index<RowKey>
    requires forall id :: id in ids ==> id in fks
  {
    if ids == [] then ix
    else
      var last := ids[|ids| - 1];
      Remove(UnlinkIds(ix, ids[..|ids| - 1], fks, p), last, fks[last], p)
  }

  function Unlink(ix: Index<RowKey>, fks: map<string, PkValue>, p: RowKey): Index<RowKey> {
    StrStrictTotal();
    UnlinkIds(ix, Ascending(StrLt, fks.Keys), fks, p)
  }

  /** Remove a row and its reverse links. */
  function DropPrimary(st: State, p: RowKey): State {
    if p !in st.primary then st
    else st.(primary := st.primary - {p}, reverse := Unlink(st.reverse, st.primary[p].fks, p))
  }

  /** Remove many rows of one table and every reverse link to them. */
  function DropPrimaries(st: State, gone: set<RowKey>): State {
    st.(primary := st.primary - gone, reverse := Without(st.reverse, gone))
  }

  function StorePrimary(st: State, related: seq<RelatedDef>, p: RowKey, row: Json): State {
    var fks := FksFrom(related, row);
    var cleared := if p in st.primary then Unlink(st.reverse, st.primary[p].fks, p) else st.reverse;
    st.(primary := st.primary[p := PrimaryRow(row, fks)], reverse := Link(cleared, related, fks, p))
  }

  /** The row an upsert leaves stored, given the row before it. */
  function Written(prior: Option<Json>, row: Json, merge: bool): Json {
    if merge && prior.Some? then Merge(prior.value, row) else row
  }

  /** `stored` is what writing `row` leaves. An update over a stored object has exactly the
      columns of the two, each with the new value where the event carries one, else with
      the value it had. Otherwise it is the event's row. */
  ghost predicate Overlays(prior: Option<Json>, row: Json, merge: bool, stored: Json) {
    if merge && prior.Some? && prior.value.Obj? && row.Obj? then
      && stored.Obj?
      && (forall c :: c in stored.fields <==> c in prior.value.fields || c in row.fields)
      && (forall c :: Get(stored, c) == if Get(row, c).Some? then Get(row, c) else Get(prior.value, c))
    else stored == row
  }

  lemma {:induction false} WrittenOverlays(prior: Option<Json>, row: Json, merge: bool, stored: Json)
    ensures Overlays(prior, row, merge, stored) <==> stored == Written(prior, row, merge)
  {
    if merge && prior.Some? && prior.value.Obj? && row.Obj? {
      var written := Written(prior, row, merge);
      assert Overlays(prior, row, merge, written);
      if Overlays(prior, row, merge, stored) {
        forall c | c in stored.fields ensures stored.fields[c] == written.fields[c] {
          assert Get(stored, c) == Get(written, c);
        }
        assert stored.fields == written.fields;
      }
    }
  }

  function Lookup<K, V>(m: map<K, V>, k: K): Option<V> {
    if k in m then Some(m[k]) else None
  }

  /** The key an update moved the row away from, when it changed. */
  function MovedFrom(prior: Option<Json>, row: Json, merge: bool, columns: seq<string>): Option<PkValue> {
    if merge && prior.Some? && prior.value.Obj?
      && KeyOf(prior.value, columns) != KeyOf(Written(prior, row, merge), columns)
    then Some(KeyOf(prior.value, columns)) else None
  }

  /** The key a delete removes: the stored row's, else the one on the event. */
  function DeletedKey(prior: Option<Json>, columns: seq<string>, eventKey: PkValue): PkValue {
    if prior.Some? && prior.value.Obj? then KeyOf(prior.value, columns) else eventKey
  }

  function StoreForeign(st: State, r: RelatedDef, pk: PkValue, row: Json, merge: bool): State {
    var prior := Lookup(st.foreign, (r.table, pk));
    var stored := Written(prior, row, merge);
    var moved := MovedFrom(prior, row, merge, r.to);
    var added := Add(st.byFk, r.id, KeyOf(stored, r.to), pk);
    st.(foreign := st.foreign[(r.table, pk) := stored],
        byFk := if moved.Some? then Remove(added, r.id, moved.value, pk) else added)
  }

  function DropForeign(st: State, r: RelatedDef, pk: PkValue, eventKey: PkValue): State {
    var prior := Lookup(st.foreign, (r.table, pk));
    st.(foreign := st.foreign - {(r.table, pk)}, byFk := Remove(st.byFk, r.id, DeletedKey(prior, r.to, eventKey), pk))
  }

  function OfTable<V>(m: map<RowKey, V>, table: string): set<RowKey> {
    set k | k in m && k.0 == table
  }

  function PurgeRelated(st: State, r: RelatedDef): State {
    st.(foreign := st.foreign - OfTable(st.foreign, r.table), byFk := st.byFk - {r.id})
  }

  function Apply(st: State, op: RowOp): State {
    match op
    case NoOp => st
    case PUpsert(d, pk, row, merge) =>
      var p := (d.table, pk);
      var prior := if p in st.primary then Some(st.primary[p].raw) else None;
      StorePrimary(st, d.related, p, Written(prior, row, merge))
    case PDelete(d, pk) => DropPrimary(st, (d.table, pk))
    case PTruncate(table) => DropPrimaries(st, OfTable(st.primary, table))
    case FUpsert(_, r, pk, row, merge) => StoreForeign(st, r, pk, row, merge)
    case FDelete(_, r, pk, eventKey) => DropForeign(st, r, pk, eventKey)
    case FTruncate(_, r) => PurgeRelated(st, r)
  }

  // ---- plain table replay ------------------------------------------------

  /** The primary and the related tables, as rows by key. */
  datatype Tables = Tables(prim: map<RowKey, Json>, forn: map<RowKey, Json>)

  const NO_ROWS := Tables(map[], map[])

  function Replay(t: Tables, op: RowOp): Tables {
    match op
    case NoOp => t
    case PUpsert(d, pk, row, merge) =>
      t.(prim := t.prim[(d.table, pk) := Written(Lookup(t.prim, (d.table, pk)), row, merge)])
    case PDelete(d, pk) => t.(prim := t.prim - {(d.table, pk)})
    case PTruncate(table) => t.(prim := t.prim - OfTable(t.prim, table))
    case FUpsert(_, r, pk, row, merge) =>
      t.(forn := t.forn[(r.table, pk) := Written(Lookup(t.forn, (r.table, pk)), row, merge)])
    case FDelete(_, r, pk, _) => t.(forn := t.forn - {(r.table, pk)})
    case FTruncate(_, r) => t.(forn := t.forn - OfTable(t.forn, r.table))
  }

  function Raws(primary: map<RowKey, PrimaryRow>): map<RowKey, Json> {
    map p | p in primary :: primary[p].raw
  }

  function TablesOf(st: State): Tables {
    Tables(Raws(st.primary), st.foreign)
  }

  // ---- which documents an operation re-emits -----------------------------

  /** The primaries of `d` whose key for `r` is one of `keys`. */
  function Referencing(t: Tables, d: JoinDef, r: RelatedDef, keys: set<PkValue>): set<RowKey> {
    set p | p in t.prim && p.0 == d.table && KeyOf(t.prim[p], r.from) in keys
  }

  function OptionSet<T>(o: Option<T>): set<T> {
    if o.Some? then {o.value} else {}
  }

  function Touched(t: Tables, op: RowOp): set<RowKey> {
    match op
    case NoOp => {}
    case PUpsert(d, pk, _, _) => {(d.table, pk)}
    case PDelete(d, pk) => {(d.table, pk)}
    case PTruncate(table) => OfTable(t.prim, table)
    case FUpsert(d, r, pk, row, merge) =>
      var prior := Lookup(t.forn, (r.table, pk));
      Referencing(t, d, r, {KeyOf(Written(prior, row, merge), r.to)} + OptionSet(MovedFrom(prior, row, merge, r.to)))
    case FDelete(d, r, pk, eventKey) =>
      Referencing(t, d, r, {DeletedKey(Lookup(t.forn, (r.table, pk)), r.to, eventKey)})
    case FTruncate(d, r) => OfTable(t.prim, d.table)
  }

  // ---- documents ---------------------------------------------------------

  /** A primary row and, for each related entry, the foreign rows it embeds. */
  datatype DocView = DocView(row: Json, matches: seq<map<RowKey, Json>>)

  /** The foreign rows of `r` that join on `key`, read off the tables. */
  function JoinedRows(t: Tables, r: RelatedDef, key: PkValue): map<RowKey, Json> {
    map k | k in t.forn && k.0 == r.table && KeyOf(t.forn[k], r.to) == key :: t.forn[k]
  }

  function JoinedMatches(d: JoinDef, t: Tables, row: Json): (m: seq<map<RowKey, Json>>)
    ensures |m| == |d.related|
  {
    seq(|d.related|, i requires 0 <= i < |d.related| => JoinedRows(t, d.related[i], KeyOf(row, d.related[i].from)))
  }

  /** The from-scratch join of one primary row. */
  function TableView(d: JoinDef, t: Tables, p: RowKey): Option<DocView> {
    if p !in t.prim then None else Some(DocView(t.prim[p], JoinedMatches(d, t, t.prim[p])))
  }

  /** The foreign rows the engine finds through `foreign_by_fk`. */
  function IndexedRows(st: State, r: RelatedDef, key: PkValue): map<RowKey, Json> {
    map k | k in st.foreign && k.0 == r.table && k.1 in Bucket(st.byFk, r.id, key) :: st.foreign[k]
  }

  function IndexedMatches(d: JoinDef, st: State, row: Json): (m: seq<map<RowKey, Json>>)
    ensures |m| == |d.related|
  {
    seq(|d.related|, i requires 0 <= i < |d.related| => IndexedRows(st, d.related[i], KeyOf(row, d.related[i].from)))
  }

  /** What the engine composes for one stored primary. */
  function IndexView(d: JoinDef, st: State, p: RowKey): Option<DocView> {
    if p !in st.primary then None
    else Some(DocView(st.primary[p].raw, IndexedMatches(d, st, st.primary[p].raw)))
  }

  // ---- rendering a document ----------------------------------------------

  function ProjectRow(row: Json, select: seq<string>): Json {
    if select == [] then row
    else if !row.Obj? then Null
    else Obj(map c | c in select && c in row.fields :: row.fields[c])
  }

  function ProjectAll(rows: seq<Json>, select: seq<string>): (out: seq<Json>)
    ensures |out| == |rows|
  {
    seq(|rows|, i requires 0 <= i < |rows| => ProjectRow(rows[i], select))
  }

  /** The value embedded for the rows found: the first for `One`, all of them,
      sorted when asked, for `Many`. */
  function Shape(r: RelatedDef, rows: seq<Json>): Json {
    match r.cardinality
    case One =>
      if rows == [] then (if r.onMissing.EmbedEmptyObject? then Obj(map[]) else Null)
      else ProjectRow(rows[0], r.select)
    case Many =>
      var projected := ProjectAll(rows, r.select);
      Arr(if r.sortBy.Some? then SortRows(r.sortBy.value, projected) else projected)
  }

  /** Embed each relation's rows into the document, in declaration order. */
  function Embed(related: seq<RelatedDef>, fields: Fields, found: seq<seq<Json>>): Fields
    requires |found| == |related|
  {
    if related == [] then fields
    else
      var n := |related| - 1;
      Embed(related[..n], fields, found[..n])[related[n].embedAs := Shape(related[n], found[n])]
  }

  /** `order` lists the keys of `m`, each once, in any order. */
  ghost predicate Lists(order: seq<RowKey>, m: map<RowKey, Json>) {
    Distinct(order) && forall k :: k in order <==> k in m
  }

  function RowsIn(order: seq<RowKey>, m: map<RowKey, Json>): (rows: seq<Json>)
    requires forall k :: k in order ==> k in m
    ensures |rows| == |order|
  {
    seq(|order|, i requires 0 <= i < |order| => m[order[i]])
  }

  ghost predicate FoundIn(found: seq<Json>, m: map<RowKey, Json>) {
    exists order :: Lists(order, m) && found == RowsIn(order, m)
  }

  /** `doc` is the view written out as JSON, its foreign rows taken in some order. */
  ghost predicate Renders(d: JoinDef, doc: Json, v: DocView)
  {
    exists found: seq<seq<Json>> :: RendersWith(d, doc, v, found)
  }

  ghost predicate RendersWith(d: JoinDef, doc: Json, v: DocView, found: seq<seq<Json>>) {
    && v.row.Obj? && |v.matches| == |d.related| == |found|
    && (forall i :: 0 <= i < |found| ==> FoundIn(found[i], v.matches[i]))
    && doc == Obj(Embed(d.related, v.row.fields, found))
  }

  // ---- emissions and the sink --------------------------------------------

  datatype Emission = Upsert(key: RowKey, doc: Json) | Tombstone(key: RowKey)

  type Sink = map<RowKey, Json>

  function Deliver(sink: Sink, e: Emission): Sink {
    if e.Upsert? then sink[e.key := e.doc] else sink - {e.key}
  }

  function DeliverAll(sink: Sink, out: seq<Emission>): Sink {
    if out == [] then sink else Deliver(DeliverAll(sink, out[..|out| - 1]), out[|out| - 1])
  }

  /** The sink's entry for `p` is the view written out, or absent with it. */
  ghost predicate Shows(d: JoinDef, entry: Option<Json>, v: Option<DocView>) {
    (entry.Some? <==> v.Some?) && (v.Some? ==> Renders(d, entry.value, v.value))
  }

  function EntryOf(e: Emission): Option<Json> {
    if e.Upsert? then Some(e.doc) else None
  }

  /** `out` carries one emission for each touched primary, and each carries what
      the engine composes in state `st`. */
  ghost predicate Announces(defs: seq<JoinDef>, st: State, touched: set<RowKey>, out: seq<Emission>) {
    && (forall i, j :: 0 <= i < j < |out| ==> out[i].key != out[j].key)
    && (forall p :: p in touched <==> exists i :: 0 <= i < |out| && out[i].key == p)
    && (forall i, d :: 0 <= i < |out| && d in defs && d.table == out[i].key.0 ==>
          Shows(d, EntryOf(out[i]), IndexView(d, st, out[i].key)))
  }
}
