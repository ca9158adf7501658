/** Where a table is the primary of two definitions, or a primary and a related table,
    and exactly what then goes wrong. */
module Limits {
  import opened Json
  import opened Keys
  import opened Config
  import opened JoinModel
  import opened Incremental
  import opened Events
  import opened Index
  import opened Carries
  import opened SharedTables

  // ---- two definitions on one primary table ------------------------------

  /** The primary is linked under no key but those it is stored with. */
  ghost predicate LinkedAsStored(st: State, p: RowKey) {
    forall id, key :: p in Bucket(st.reverse, id, key) ==>
      p in st.primary && id in st.primary[p].fks && st.primary[p].fks[id] == key
  }

  /** Storing a row for one definition clears whatever another had linked: afterwards
      it is linked exactly under the keys of the definition stored last. */
  lemma {:induction false} LastDefinitionLinks(st: State, d: JoinDef, pk: PkValue, row: Json, merge: bool, id: string,
          key: PkValue)
    requires LinkedAsStored(st, (d.table, pk)) && Distinct(RelatedIds(d.related))
    ensures var p, st' := (d.table, pk), Apply(st, PUpsert(d, pk, row, merge));
      && (p in Bucket(st'.reverse, id, key) <==>
        exists r :: r in d.related && r.id == id && KeyOf(st'.primary[p].raw, r.from) == key)
      && st'.primary[p].fks == FksFrom(d.related, st'.primary[p].raw)
  {
    hide KeyOf, Link, Unlink, FksFrom, Merge, Bucket;
    var p, st' := (d.table, pk), Apply(st, PUpsert(d, pk, row, merge));
    var stored, fks := st'.primary[p].raw, st'.primary[p].fks;
    FksCover(d.related, stored);
    var cleared := if p in st.primary then Unlink(st.reverse, st.primary[p].fks, p) else st.reverse;
    if p in st.primary { UnlinkBuckets(st.reverse, st.primary[p].fks, p); }
    assert p !in Bucket(cleared, id, key);
    forall r | r in d.related ensures !fks[r.id].IsNull() { KeyIsNotNull(stored, r.from); }
    LinkBuckets(cleared, d.related, fks, p);
  }

  lemma {:induction false} KeyIsNotNull(row: Json, columns: seq<string>)
    ensures !KeyOf(row, columns).IsNull()
  {
  }

  /** An event on a table that two definitions have as their primary stores its row
      for each in turn. Afterwards a change of a related row, through any entry whose
      id the last definition does not use, reaches the primary in no state of the
      related table; through an entry of the last definition it reaches the primary
      exactly when the tables say it should. */
  lemma {:induction false} SharedPrimaryReachesIff(st: State, d1: JoinDef, d2: JoinDef, pk: PkValue, row: Json,
          merge: bool, op: RowOp)
    requires d1.table == d2.table && Distinct(RelatedIds(d1.related)) && Distinct(RelatedIds(d2.related))
    requires LinkedAsStored(st, (d1.table, pk)) && (op.FUpsert? || op.FDelete?) && op.d.table == d1.table
    ensures var p, after := (d1.table, pk), ApplyOps(st, [PUpsert(d1, pk, row, merge), PUpsert(d2, pk, row, merge)]);
      && (p in FanOut(after, op) <==>
            exists r :: r in d2.related && r.id == op.r.id && KeyOf(after.primary[p].raw, r.from) in AffectedKeys(after,
              op))
      && (op.r in d2.related ==> (p in FanOut(after, op) <==> p in Touched(TablesOf(after), op)))
      && LinkedAsStored(after, p)
  {
    hide KeyOf, FksFrom, Bucket, Apply, Touched, FanOut;
    var p, first, second := (d1.table, pk), PUpsert(d1, pk, row, merge), PUpsert(d2, pk, row, merge);
    var mid := Apply(st, first);
    var after := Apply(mid, second);
    TwoOps(st, first, second);
    StaysLinkedAsStored(st, d1, pk, row, merge);
    StaysLinkedAsStored(mid, d2, pk, row, merge);
    ReachedThroughLinks(after, op, p);
    forall key ensures p in Bucket(after.reverse, op.r.id, key) <==>
      exists r :: r in d2.related && r.id == op.r.id && KeyOf(after.primary[p].raw, r.from) == key
    {
      LastDefinitionLinks(mid, d2, pk, row, merge, op.r.id, key);
    }
    var keys, own := AffectedKeys(after, op), after.primary[p].raw;
    if p in FanOut(after, op) {
      var key :| key in keys && p in Bucket(after.reverse, op.r.id, key);
      assert exists r :: r in d2.related && r.id == op.r.id && KeyOf(own, r.from) == key;
    }
    if r :| r in d2.related && r.id == op.r.id && KeyOf(own, r.from) in keys {
      assert p in Bucket(after.reverse, op.r.id, KeyOf(own, r.from));
    }
    if op.r in d2.related { OneEntryPerId(d2, op.r); }
  }

  lemma {:induction false} OneEntryPerId(d: JoinDef, r: RelatedDef)
    requires Distinct(RelatedIds(d.related)) && r in d.related
    ensures forall r' :: r' in d.related && r'.id == r.id ==> r' == r
  {
    forall r' | r' in d.related && r'.id == r.id ensures r' == r {
      var i :| 0 <= i < |d.related| && d.related[i] == r;
      var j :| 0 <= j < |d.related| && d.related[j] == r';
      assert RelatedIds(d.related)[i] == RelatedIds(d.related)[j];
    }
  }

  lemma {:induction false} TwoOps(st: State, a: RowOp, b: RowOp)
    ensures ApplyOps(st, [a, b]) == Apply(Apply(st, a), b)
  {
    hide Apply;
    assert [a, b][..1] == [a] && [a][..0] == [];
    assert ApplyOps(st, [a]) == Apply(ApplyOps(st, []), a);
  }

  lemma {:induction false} StaysLinkedAsStored(st: State, d: JoinDef, pk: PkValue, row: Json, merge: bool)
    requires LinkedAsStored(st, (d.table, pk)) && Distinct(RelatedIds(d.related))
    ensures (d.table, pk) in Apply(st, PUpsert(d, pk, row, merge)).primary
    ensures LinkedAsStored(Apply(st, PUpsert(d, pk, row, merge)), (d.table, pk))
  {
    hide KeyOf, Link, Unlink, FksFrom, Merge, Bucket;
    var p, st' := (d.table, pk), Apply(st, PUpsert(d, pk, row, merge));
    forall id, key | p in Bucket(st'.reverse, id, key)
      ensures id in st'.primary[p].fks && st'.primary[p].fks[id] == key
    {
      LastDefinitionLinks(st, d, pk, row, merge, id, key);
      FksCover(d.related, st'.primary[p].raw);
    }
  }

  // ---- a rejected event that leaves a trace ------------------------------

  const CHILD := RelatedDef("r", "a.b", ["id"], ["id"], ["id"], [], "r", One, EmbedNull, None)
  const PARENT := JoinDef("p", ["id"], [CHILD], NoBackfill)
  const BOTH := [PARENT, JoinDef("a.b", ["id"], [], NoBackfill)]

  function JunkInsert(): Event {
    Event(map[NAMESPACE_HEADER := "a", RELATION_HEADER := "b",
      DOC_ID_HEADER := DocIdValue("a.b", FromValues([Str("k")]))],
          "insert", Some(Str("junk")))
  }

  lemma {:induction false} JunkRoles()
    ensures Roles(BOTH, "a.b") == [AsRelated(PARENT, CHILD), AsPrimary(BOTH[1])]
  {
    assert BOTH[..1] == [PARENT] && [PARENT][..0] == [];
    assert [CHILD][..0] == [];
    assert RelatedRoles(PARENT, [CHILD], "a.b") == [AsRelated(PARENT, CHILD)];
    assert "a.b" != "p";
    assert Roles([PARENT], "a.b") == [AsRelated(PARENT, CHILD)];
  }

  lemma {:induction false} JunkHeaders()
    ensures var e := JunkInsert();
      && Header(e, ACK_BARRIER_HEADER) == None && Header(e, BOOTSTRAP_HEADER) == None
      && Header(e, NAMESPACE_HEADER) == Some("a") && Header(e, RELATION_HEADER) == Some("b")
      && Header(e, DOC_ID_HEADER) == Some(DocIdValue("a.b", FromValues([Str("k")])))
  {
    hide DocIdValue, FromValues;
    assert |ACK_BARRIER_HEADER| != |NAMESPACE_HEADER| && |ACK_BARRIER_HEADER| != |RELATION_HEADER|
      && |ACK_BARRIER_HEADER| != |DOC_ID_HEADER|;
    assert BOOTSTRAP_HEADER[15] != NAMESPACE_HEADER[15] && BOOTSTRAP_HEADER[15] != RELATION_HEADER[15];
    assert NAMESPACE_HEADER[15] != RELATION_HEADER[15];
    assert |DOC_ID_HEADER| != |NAMESPACE_HEADER| && |DOC_ID_HEADER| != |RELATION_HEADER|
      && |DOC_ID_HEADER| != |BOOTSTRAP_HEADER|;
  }

  lemma {:induction false} JunkKind()
    ensures SubjectKind(JunkInsert()) == Ok(Insert)
  {
    hide DocIdValue, FromValues;
    PlainSegment("insert");
  }

  lemma {:induction false} JunkDecodes()
    ensures var e := JunkInsert();
      && Decode(AsRelated(PARENT, CHILD), Insert, e) ==
        Ok(FUpsert(PARENT, CHILD, FromValues([Str("k")]), Str("junk"), false))
      && Decode(AsPrimary(BOTH[1]), Insert, e) == Err(InvalidPayload)
  {
    hide DocIdValue, FromValues, PkFromDocId, Header;
    JunkHeaders();
    DocIdRoundTripIff("a.b", [Str("k")]);
  }

  /** With two roles a rejected event can leave a trace: the related role accepts a
      row that is not an object, the primary role after it does not. */
  lemma {:induction false} RejectedAfterStoring()
    ensures var e := JunkInsert();
      var op := FUpsert(PARENT, CHILD, FromValues([Str("k")]), Str("junk"), false);
      PlanEvent(BOTH, e) == Plan([op], Failed(InvalidPayload)) && Apply(EMPTY_STATE, op) != EMPTY_STATE
  {
    hide FromValues, DocIdValue, Decode, Roles, Header, JunkInsert, Segments, SubjectKind;
    var e := JunkInsert();
    JunkRoles();
    JunkHeaders();
    JunkKind();
    JunkDecodes();
    var roles := Roles(BOTH, "a.b");
    assert roles[1..] == [AsPrimary(BOTH[1])];
    assert PlanRoles(roles[1..], Insert, e) == Plan([], Failed(InvalidPayload));
    assert "a" + "." + "b" == "a.b";
    assert SourceTable(e) == Ok("a.b");
    var key := FromValues([Str("k")]);
    assert ("a.b", key) in Apply(EMPTY_STATE, FUpsert(PARENT, CHILD, key, Str("junk"), false)).foreign;
  }
}
