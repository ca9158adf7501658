/** What a document holds, member by member: the row's own columns, and for each relation
    the rows found, projected, in order, or sorted where the relation says so. */
module Documents {
  import opened Json
  import opened Keys
  import opened Config
  import opened JoinModel
  import opened Incremental
  import opened Replays
  import opened Cells
  import opened Lookups
  import opened Compose

  // ---- one relation ----------------------------------------------------------

  /** The row cut down to the selected columns; nothing selected means all of it. */
  ghost predicate Projected(row: Json, select: seq<string>, v: Json) {
    if select == [] then v == row
    else if !row.Obj? then v == Null
    else v.Obj? && forall c :: Get(v, c) == if c in select then Get(row, c) else None
  }

  ghost predicate AllProjected(rows: seq<Json>, select: seq<string>, projected: seq<Json>) {
    |projected| == |rows| && forall i :: 0 <= i < |rows| ==> Projected(rows[i], select, projected[i])
  }

  /** The items are the projected rows, each once: in the order found, or ascending by the
      sort column, a missing one counting as null, with ties in the order found. */
  ghost predicate Ordered(sortBy: Option<string>, projected: seq<Json>, items: seq<Json>) {
    match sortBy
    case None => items == projected
    case Some(column) =>
      && multiset(items) == multiset(projected)
      && (forall i, j :: 0 <= i < j < |items| ==>
            JsonLe(Get(items[i], column).GetOr(Null), Get(items[j], column).GetOr(Null)))
      && forall key :: Ties(column, items, key) == Ties(column, projected, key)
  }

  /** What is embedded for the rows found. */
  ghost predicate EmbedsValue(r: RelatedDef, rows: seq<Json>, v: Json) {
    match r.cardinality
    case One =>
      if rows == [] then v == (if r.onMissing.EmbedEmptyObject? then Obj(map[]) else Null)
      else Projected(rows[0], r.select, v)
    case Many => v.Arr? && exists projected ::
      AllProjected(rows, r.select, projected) && Ordered(r.sortBy, projected, v.items)
  }

  lemma {:induction false} ProjectRowIs(row: Json, select: seq<string>)
    ensures Projected(row, select, ProjectRow(row, select))
  {
  }

  lemma {:induction false} ShapeEmbeds(r: RelatedDef, rows: seq<Json>)
    ensures EmbedsValue(r, rows, Shape(r, rows))
  {
    hide ProjectRow, Projected, SortRows, Ties, JsonLe;
    match r.cardinality {
      case One => if rows != [] { ProjectRowIs(rows[0], r.select); }
      case Many =>
        var projected := ProjectAll(rows, r.select);
        forall i | 0 <= i < |rows| ensures Projected(rows[i], r.select, projected[i]) {
          ProjectRowIs(rows[i], r.select);
        }
        assert AllProjected(rows, r.select, projected);
        if r.sortBy.Some? {
          SortRowsStable(r.sortBy.value, projected, Null);
          forall key
            ensures Ties(r.sortBy.value, SortRows(r.sortBy.value, projected), key) ==
              Ties(r.sortBy.value, projected, key)
          {
            SortRowsStable(r.sortBy.value, projected, key);
          }
        }
        assert Ordered(r.sortBy, projected, Shape(r, rows).items);
    }
  }

  // ---- a whole document --------------------------------------------------------

  /** Relation `j` is the last that is embedded under this name. */
  ghost predicate LastNamed(related: seq<RelatedDef>, found: seq<Option<seq<Json>>>, name: string, j: int)
    requires |found| == |related|
  {
    && 0 <= j < |related| && related[j].embedAs == name && found[j].Some?
    && forall k :: j < k < |related| && related[k].embedAs == name ==> found[k].None?
  }

  ghost predicate NotNamed(related: seq<RelatedDef>, found: seq<Option<seq<Json>>>, name: string)
    requires |found| == |related|
  {
    forall k :: 0 <= k < |related| && related[k].embedAs == name ==> found[k].None?
  }

  /** Under each name stands what the last relation of that name embeds; every other
      member is the row's own. */
  ghost predicate DocHolds(related: seq<RelatedDef>, row: Json, found: seq<Option<seq<Json>>>, doc: Json) {
    && |found| == |related| && doc.Obj?
    && (forall name, j :: LastNamed(related, found, name, j) ==>
          name in doc.fields && EmbedsValue(related[j], found[j].value, doc.fields[name]))
    && (forall name :: NotNamed(related, found, name) ==> Get(doc, name) == Get(row, name))
  }

  lemma {:induction false} EmbedDocHolds(related: seq<RelatedDef>, row: Json, found: seq<Option<seq<Json>>>)
    requires |found| == |related| && row.Obj?
    ensures DocHolds(related, row, found, EmbedDoc(related, row, found))
  {
    hide EmbedsValue, Shape;
    if related != [] {
      var n := |related| - 1;
      var doc, before := EmbedDoc(related, row, found), EmbedDoc(related[..n], row, found[..n]);
      EmbedDocHolds(related[..n], row, found[..n]);
      if found[n].Some? { ShapeEmbeds(related[n], found[n].value); }
      forall name, j | LastNamed(related, found, name, j)
        ensures name in doc.fields && EmbedsValue(related[j], found[j].value, doc.fields[name])
      {
        if j < n { assert LastNamed(related[..n], found[..n], name, j); }
      }
      forall name | NotNamed(related, found, name) ensures Get(doc, name) == Get(row, name) {
        assert NotNamed(related[..n], found[..n], name);
        assert Get(before, name) == Get(row, name);
      }
    }
  }

  lemma {:induction false} ComposedHolds(fetch: Fetcher, d: JoinDef, st: State, row: Json, fks: map<string, PkValue>,
                                         found: seq<Option<seq<Json>>>, doc: Json, now: State)
    requires ComposedSoFar(fetch, d, st, row, fks, |d.related|, found, doc, now)
    ensures DocHolds(d.related, row, found, doc)
  {
    hide EmbedDoc, DocHolds, AfterRelations, FoundAt;
    assert d.related[..|d.related|] == d.related;
    EmbedDocHolds(d.related, row, found);
  }

  ghost predicate ChunkHolds(related: seq<RelatedDef>, raws: seq<Json>, founds: seq<seq<Option<seq<Json>>>>,
                             docs: seq<Json>)
  {
    |raws| == |founds| == |docs| && forall i :: 0 <= i < |docs| && raws[i].Obj? ==>
      DocHolds(related, raws[i], founds[i], docs[i])
  }

  lemma {:induction false} ComposedChunkHolds(d: JoinDef, raws: seq<Json>, founds: seq<seq<Option<seq<Json>>>>,
                                              docs: seq<Json>)
    requires ChunkComposed(d, raws, founds, |d.related|, docs)
    ensures ChunkHolds(d.related, raws, founds, docs)
  {
    hide EmbedDoc, DocHolds;
    assert d.related[..|d.related|] == d.related;
    forall i | 0 <= i < |docs| && raws[i].Obj? ensures DocHolds(d.related, raws[i], founds[i], docs[i]) {
      EmbedDocHolds(d.related, raws[i], founds[i]);
    }
  }

  /** The stored primaries of the chunk were sent, in order, with documents that hold what
      was found. */
  ghost predicate SentHolds(d: JoinDef, st: State, affected: seq<RowKey>, founds: seq<seq<Option<seq<Json>>>>,
                            was: seq<Emission>, now: seq<Emission>)
  {
    var keys := StoredOf(st, d.table, affected);
    exists docs :: SentHoldsWith(d, RawsOf(st, keys), founds, keys, docs, was, now)
  }

  ghost predicate SentHoldsWith(d: JoinDef, raws: seq<Json>, founds: seq<seq<Option<seq<Json>>>>, keys: seq<RowKey>,
                                docs: seq<Json>, was: seq<Emission>, now: seq<Emission>)
  {
    |docs| == |keys| && now == was + Upserts(keys, docs) && ChunkHolds(d.related, raws, founds, docs)
  }

  // ---- the sink ------------------------------------------------------------------

  /** Rows found for every relation. */
  function AllFound(found: seq<seq<Json>>): (r: seq<Option<seq<Json>>>)
    ensures |r| == |found| && forall j :: 0 <= j < |found| ==> r[j] == Some(found[j])
  {
    seq(|found|, j requires 0 <= j < |found| => Some(found[j]))
  }

  /** The document is made of a primary row of the tables and, for each relation, the
      related rows that join on its key, listed in some order. */
  ghost predicate JoinHolds(d: JoinDef, t: Tables, p: RowKey, found: seq<seq<Json>>, doc: Json) {
    && p in t.prim && |found| == |d.related|
    && (forall j :: 0 <= j < |found| ==>
          FoundIn(found[j], JoinedRows(t, d.related[j], KeyOf(t.prim[p], d.related[j].from))))
    && DocHolds(d.related, t.prim[p], AllFound(found), doc)
  }

  lemma {:induction false} EmbedIsEmbedFound(related: seq<RelatedDef>, fields: Fields, found: seq<seq<Json>>)
    requires |found| == |related|
    ensures Embed(related, fields, found) == EmbedFound(related, fields, AllFound(found))
  {
    hide Shape;
    if related != [] {
      var n := |related| - 1;
      EmbedIsEmbedFound(related[..n], fields, found[..n]);
      assert AllFound(found)[..n] == AllFound(found[..n]);
    }
  }

  /** Every document of a sink that is the join of the tables holds, name by name, its
      row's columns and the joining rows, sorted where the relation says so. */
  lemma {:induction false} SinkHolds(defs: seq<JoinDef>, sink: Sink, t: Tables, d: JoinDef, p: RowKey)
    requires SinkIsJoin(defs, sink, t) && d in defs && p.0 == d.table
    ensures p in sink <==> p in t.prim
    ensures p in sink ==> exists found :: JoinHolds(d, t, p, found, sink[p])
  {
    hide Embed, EmbedFound, DocHolds, FoundIn, JoinedRows, KeyOf;
    assert Shows(d, Lookup(sink, p), TableView(d, t, p));
    if p in sink {
      var v := TableView(d, t, p).value;
      var found :| RendersWith(d, sink[p], v, found);
      EmbedIsEmbedFound(d.related, v.row.fields, found);
      EmbedDocHolds(d.related, v.row, AllFound(found));
      assert JoinHolds(d, t, p, found, sink[p]);
    }
  }

  /** So after every log the sink has a document for a primary exactly when the last
      operation on it wrote one, and each member not taken by a relation is what was
      written last in that column. */
  lemma {:induction false} SinkHoldsLastWritten(defs: seq<JoinDef>, log: seq<RowOp>, outs: seq<seq<Emission>>,
          d: JoinDef, p: RowKey, column: string)
    requires OneRolePerKind(defs) && Log(defs, log) && Emitted(defs, log, outs)
    requires d in defs && p.0 == d.table
    ensures p in SinkAfter(outs) <==> Present(log, Prim(p))
    ensures p in SinkAfter(outs) && (forall r :: r in d.related ==> r.embedAs != column) ==>
      Get(SinkAfter(outs)[p], column) == Cell(log, Prim(p), column)
  {
    hide Log, Emitted, OneRolePerKind, SinkIsJoin, Cell, Present, EmbedsValue, FoundIn, JoinedRows, KeyOf;
    SinkAlwaysJoin(defs, log, outs);
    SinkHolds(defs, SinkAfter(outs), ReplayAll(log), d, p);
    LogOfObjects(defs, log);
    TablesHoldLastWritten(log, Prim(p), column);
    if p in SinkAfter(outs) && forall r :: r in d.related ==> r.embedAs != column {
      var found :| JoinHolds(d, ReplayAll(log), p, found, SinkAfter(outs)[p]);
      assert NotNamed(d.related, AllFound(found), column);
    }
  }

  lemma {:induction false} LogOfObjects(defs: seq<JoinDef>, log: seq<RowOp>)
    requires Log(defs, log)
    ensures ObjectLog(log)
  {
    hide FreshInsert;
    forall i | 0 <= i < |log| && (log[i].PUpsert? || log[i].FUpsert?) ensures log[i].row.Obj? {
      assert OpIn(defs, log[i]) && ObjectRow(log[i]);
    }
  }
}
