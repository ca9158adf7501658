/** Join definitions and the rule that related ids are unique. */
module Config {
  import opened Json

  datatype Cardinality = One | Many

  datatype OnMissing = EmbedNull | EmbedEmptyObject | DropTheRow

  datatype BackfillMode = SyncOnMiss | NoBackfill

  /** One foreign table the primary is enriched with. Rows join when the
      primary's `from` columns and the foreign `to` columns make equal keys. */
  datatype RelatedDef = RelatedDef(
    id: string,
    table: string,
    pk: seq<string>,
    from: seq<string>,
    to: seq<string>,
    select: seq<string>,
    embedAs: string,
    cardinality: Cardinality,
    onMissing: OnMissing,
    sortBy: Option<string>)

  datatype JoinDef = JoinDef(table: string, pk: seq<string>, related: seq<RelatedDef>, backfill: BackfillMode)

  /** A definition and one of its related entries. */
  ghost predicate Has(defs: seq<JoinDef>, d: JoinDef, r: RelatedDef) {
    d in defs && r in d.related
  }

  /** Every related id of the spec, in declaration order. */
  function DeclaredIds(defs: seq<JoinDef>): seq<string> {
    if defs == [] then [] else DeclaredIds(defs[..|defs| - 1]) + RelatedIds(defs[|defs| - 1].related)
  }

  function RelatedIds(related: seq<RelatedDef>): (ids: seq<string>)
    ensures |ids| == |related|
    ensures forall i :: 0 <= i < |ids| ==> ids[i] == related[i].id
  {
    seq(|related|, i requires 0 <= i < |related| => related[i].id)
  }

  ghost predicate Distinct<T(!new)>(s: seq<T>) {
    forall i, j :: 0 <= i < j < |s| ==> s[i] != s[j]
  }

  lemma DeclaredIdsSnoc(defs: seq<JoinDef>, k: nat)
    requires k < |defs|
    ensures DeclaredIds(defs[..k + 1]) == DeclaredIds(defs[..k]) + RelatedIds(defs[k].related)
  {
    assert defs[..k + 1][..k] == defs[..k];
  }

  lemma {:induction false} DeclaredIdsGrow(defs: seq<JoinDef>, k: nat)
    requires k <= |defs|
    ensures DeclaredIds(defs[..k]) <= DeclaredIds(defs)
    decreases |defs| - k
  {
    if k == |defs| {
      assert defs[..k] == defs;
    } else {
      DeclaredIdsGrow(defs, k + 1);
      DeclaredIdsSnoc(defs, k);
    }
  }

  lemma TwiceNotDistinct(all: seq<string>, k: nat, id: string)
    requires k < |all| && all[k] == id && id in all[..k]
    ensures multiset(all)[id] > 1 && !Distinct(all)
  {
    assert all == all[..k] + all[k..];
    assert id in multiset(all[..k]) && id in multiset(all[k..]) by { assert all[k..][0] == id; }
  }

  /** One definition's ids, entered into `seen` until one is already there. */
  method ScanRelated(related: seq<RelatedDef>, index: nat, seen: map<string, nat>, ghost before: seq<string>)
    returns (seen': map<string, nat>, duplicate: Option<string>)
    requires Distinct(before)
    requires forall id :: id in seen <==> id in before
    ensures var all := before + RelatedIds(related);
      && (duplicate.None? <==> Distinct(all))
      && (duplicate.None? ==> forall id :: id in seen' <==> id in all)
      && (duplicate.Some? ==> multiset(all)[duplicate.value] > 1)
  {
    seen' := seen;
    ghost var all, sofar := before + RelatedIds(related), before;
    for a := 0 to |related|
      invariant |sofar| == |before| + a && sofar == all[..|sofar|]
      invariant Distinct(sofar)
      invariant forall id :: id in seen' <==> id in sofar
    {
      var id := related[a].id;
      assert all[|sofar|] == id;
      if id in seen' {
        TwiceNotDistinct(all, |sofar|, id);
        return seen', Some(id);
      }
      DistinctSnoc(sofar, id);
      sofar := sofar + [id];
      seen' := seen'[id := index];
    }
    assert sofar == all;
    duplicate := None;
  }

  lemma DistinctSnoc(s: seq<string>, id: string)
    requires Distinct(s) && id !in s
    ensures Distinct(s + [id])
  {
  }

  /** Accepts a spec exactly when no related id is declared twice, in one
      definition or across definitions. */
  method ValidateRelatedIdsUnique(defs: seq<JoinDef>) returns (duplicate: Option<string>)
    ensures duplicate.None? <==> Distinct(DeclaredIds(defs))
    ensures duplicate.Some? ==> multiset(DeclaredIds(defs))[duplicate.value] > 1
  {
    var seen: map<string, nat> := map[];
    for i := 0 to |defs|
      invariant Distinct(DeclaredIds(defs[..i]))
      invariant forall id :: id in seen <==> id in DeclaredIds(defs[..i])
    {
      DeclaredIdsSnoc(defs, i);
      seen, duplicate := ScanRelated(defs[i].related, i, seen, DeclaredIds(defs[..i]));
      if duplicate.Some? {
        DeclaredIdsGrow(defs, i + 1);
        PrefixCounts(DeclaredIds(defs[..i + 1]), DeclaredIds(defs), duplicate.value);
        return;
      }
    }
    assert defs[..|defs|] == defs;
    duplicate := None;
  }

  lemma PrefixCounts(prefix: seq<string>, all: seq<string>, id: string)
    requires prefix <= all && multiset(prefix)[id] > 1 && !Distinct(prefix)
    ensures multiset(all)[id] > 1 && !Distinct(all)
  {
    assert all == prefix + all[|prefix|..];
  }

  // ---- roles -------------------------------------------------------------

  /** Each table is the primary of at most one definition and the related table
      of at most one entry; related ids are unique. A table may still be the
      primary of one definition and a related table of another, or of its own. */
  ghost predicate OneRolePerKind(defs: seq<JoinDef>) {
    && (forall i, j :: 0 <= i < j < |defs| ==> defs[i].table != defs[j].table)
    && (forall i, a, j, b :: IsRelation(defs, i, a) && IsRelation(defs, j, b) ==>
          (Clash(defs[i].related[a], defs[j].related[b]) ==> i == j && a == b))
  }

  ghost predicate IsRelation(defs: seq<JoinDef>, i: int, a: int) {
    0 <= i < |defs| && 0 <= a < |defs[i].related|
  }

  predicate Clash(r1: RelatedDef, r2: RelatedDef) {
    r1.id == r2.id || r1.table == r2.table
  }

  lemma SameTableSameDef(defs: seq<JoinDef>, d1: JoinDef, d2: JoinDef)
    requires OneRolePerKind(defs) && d1 in defs && d2 in defs && d1.table == d2.table
    ensures d1 == d2
  {
  }

  lemma SameRelation(defs: seq<JoinDef>, d1: JoinDef, r1: RelatedDef, d2: JoinDef, r2: RelatedDef)
    requires OneRolePerKind(defs) && Has(defs, d1, r1) && Has(defs, d2, r2) && Clash(r1, r2)
    ensures d1 == d2 && r1 == r2
  {
    var i :| 0 <= i < |defs| && defs[i] == d1;
    var a :| 0 <= a < |d1.related| && d1.related[a] == r1;
    var j :| 0 <= j < |defs| && defs[j] == d2;
    var b :| 0 <= b < |d2.related| && d2.related[b] == r2;
    assert IsRelation(defs, i, a) && IsRelation(defs, j, b);
  }
}
