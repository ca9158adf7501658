/** One concrete input for each way in which the engine falls short of the join. */
module Witnesses {
  import opened Json
  import opened Keys
  import opened Config
  import opened Index
  import opened JoinModel
  import opened Incremental
  import opened Lookups
  import opened Compose
  import opened Batches
  import opened Carries
  import opened Leftovers
  import opened SharedTables
  import opened Limits

  function K(s: string): PkValue {
    FromValues([Str(s)])
  }

  lemma {:induction false} KeysDiffer(a: string, b: string)
    requires a != b
    ensures K(a) != K(b)
  {
    hide FromValues;
    KeysEqualIff([Str(a)], [Str(b)]);
    assert !SameComponent([Str(a)][0], [Str(b)][0]);
  }

  lemma {:induction false} KeyOfColumn(fields: Fields, c: string, s: string)
    requires c in fields && fields[c] == Str(s)
    ensures KeyOf(Obj(fields), [c]) == K(s)
  {
    hide FromValues;
    assert Columns(fields, [c]) == [Str(s)];
  }

  lemma {:induction false} KeyOfMissing(fields: Fields, c: string, s: string)
    requires c !in fields
    ensures KeyOf(Obj(fields), [c]) == FromValues([Null]) != K(s)
  {
    hide FromValues;
    assert Columns(fields, [c]) == [Null];
    KeysEqualIff([Null], [Str(s)]);
    assert !SameComponent([Null][0], [Str(s)][0]);
  }

  // ---- a related table shared by two entries ---------------------------------

  const SHIP := RelatedDef("ship", "addr", ["id"], ["ship"], ["code"], [], "ship", One, EmbedNull, None)
  const BILL := RelatedDef("bill", "addr", ["id"], ["bill"], ["tag"], [], "bill", One, EmbedNull, None)
  const ORDERS := JoinDef("orders", ["id"], [SHIP, BILL], NoBackfill)
  const ENTRIES := [Entry(ORDERS, SHIP), Entry(ORDERS, BILL)]

  const ADDRESS := Obj(map["id" := Str("a"), "code" := Str("1"), "tag" := Str("x")])
  const RETAGGED := Obj(map["id" := Str("a"), "code" := Str("1"), "tag" := Str("y")])
  const ORDER := Obj(map["id" := Str("o"), "ship" := Str("1"), "bill" := Str("x")])
  const OTHER_ORDER := Obj(map["id" := Str("o"), "ship" := Str("2"), "bill" := Str("x")])

  function OrderKey(): RowKey { ("orders", K("o")) }

  function AddressKey(): RowKey { ("addr", K("a")) }

  /** One address, cached under its two keys, and one order, linked under its own. */
  function OneOrder(order: Json, ship: string): State {
    State(map[OrderKey() := PrimaryRow(order, map["ship" := K(ship), "bill" := K("x")])],
          map[AddressKey() := ADDRESS],
          map["ship" := map[K(ship) := {OrderKey()}], "bill" := map[K("x") := {OrderKey()}]],
          map["ship" := map[K("1") := {K("a")}], "bill" := map[K("x") := {K("a")}]])
  }

  ghost predicate Holds(order: Json, ship: string) {
    && order.Obj? && "ship" in order.fields && "bill" in order.fields
    && order.fields["ship"] == Str(ship) && order.fields["bill"] == Str("x")
  }

  lemma {:induction false} OrderKeys(order: Json, ship: string)
    requires Holds(order, ship)
    ensures KeyOf(ADDRESS, ["code"]) == K("1") && KeyOf(ADDRESS, ["tag"]) == K("x")
    ensures KeyOf(order, ["ship"]) == K(ship) && KeyOf(order, ["bill"]) == K("x")
  {
    hide KeyOf, K;
    KeyOfColumn(ADDRESS.fields, "code", "1");
    KeyOfColumn(ADDRESS.fields, "tag", "x");
    KeyOfColumn(order.fields, "ship", ship);
    KeyOfColumn(order.fields, "bill", "x");
  }

  lemma {:induction false} ShipExact(order: Json, ship: string)
    requires Holds(order, ship)
    ensures KeyExact(OneOrder(order, ship), SHIP) && LinksExact(OneOrder(order, ship), ORDERS, SHIP)
  {
    hide KeyOf, K, Holds;
    OrderKeys(order, ship);
  }

  lemma {:induction false} BillExact(order: Json, ship: string)
    requires Holds(order, ship)
    ensures KeyExact(OneOrder(order, ship), BILL) && LinksExact(OneOrder(order, ship), ORDERS, BILL)
  {
    hide KeyOf, K, Holds;
    OrderKeys(order, ship);
  }

  lemma {:induction false} EntriesPlaced()
    ensures Placed(ENTRIES, "addr", ORDERS) && SHIP in ORDERS.related && BILL in ORDERS.related
    ensures forall r :: r in ORDERS.related ==> r == SHIP || r == BILL
  {
    assert ENTRIES[0] == Entry(ORDERS, SHIP) && ENTRIES[1] == Entry(ORDERS, BILL);
    assert ORDERS.related[0] == SHIP && ORDERS.related[1] == BILL;
  }

  lemma {:induction false} OneOrderFits(order: Json, ship: string)
    requires Holds(order, ship)
    ensures Fits(ENTRIES, "addr", ORDERS, OneOrder(order, ship))
  {
    hide KeyExact, LinksExact, Placed, OneOrder, Holds;
    ShipExact(order, ship);
    BillExact(order, ship);
    EntriesPlaced();
  }

  lemma {:induction false} OneOrderHas(order: Json, ship: string)
    requires Holds(order, ship)
    ensures var st := OneOrder(order, ship);
      && ObjectRows(TablesOf(st)) && OwnKey(st, OrderKey(), SHIP) == K(ship) && OwnKey(st, OrderKey(), BILL) == K("x")
      && KeyAt(TablesOf(st), SHIP, K("a")) == Some(K("1")) && KeyAt(TablesOf(st), BILL, K("a")) == Some(K("x"))
  {
    hide KeyOf, K, Holds;
    OrderKeys(order, ship);
  }

  /** The address is retagged. The order's shipping entry, the first, is reached and the
      order is sent again, but still embeds the address as its billing address. */
  lemma {:induction false} UpdateKeepsOldAddress()
    ensures var st, ops := OneOrder(ORDER, "1"), Writing(ENTRIES, K("a"), RETAGGED, true);
      && OrderKey() in FanOut(st, ops[0])
      && SentView(ORDERS, st, ops, OrderKey()) != TableView(ORDERS, TablesOf(ApplyOps(st, ops)), OrderKey())
  {
    hide KeyOf, K, Fits, FanOut, SentView, TableView, ApplyOps, ObjectRows, Bucket;
    var st, ops, p := OneOrder(ORDER, "1"), Writing(ENTRIES, K("a"), RETAGGED, true), OrderKey();
    OneOrderFits(ORDER, "1");
    OneOrderHas(ORDER, "1");
    ShipExact(ORDER, "1");
    EntriesPlaced();
    SharedTableUpdateGoesStaleIff(ENTRIES, "addr", ORDERS, st, K("a"), RETAGGED, p);
    RetaggedKeys();
    assert MovedAway(ENTRIES[1].r, "addr", st, K("a"), RETAGGED, p);
    assert Stuck(ENTRIES, "addr", ORDERS, st, K("a"), RETAGGED, p);
    Reached(st, ops[0], p);
  }

  lemma {:induction false} RetaggedKeys()
    ensures Merge(ADDRESS, RETAGGED) == RETAGGED
    ensures KeyOf(RETAGGED, SHIP.to) == K("1") && KeyOf(RETAGGED, BILL.to) == K("y") && K("y") != K("x")
    ensures K("1") != K("2")
  {
    hide KeyOf, K;
    KeyOfColumn(RETAGGED.fields, "code", "1");
    KeyOfColumn(RETAGGED.fields, "tag", "y");
    KeysDiffer("y", "x");
    KeysDiffer("1", "2");
    assert ADDRESS.fields + RETAGGED.fields == RETAGGED.fields;
  }

  /** The address is deleted with only its own key on the event. An order that does not
      ship there is not sent again, and its document keeps the address. */
  lemma {:induction false} DeleteKeepsAddress()
    ensures var st := OneOrder(OTHER_ORDER, "2");
      var only := Obj(map["id" := Str("a")]);
      var ops := Deleting(ENTRIES, K("a"), [KeyOf(only, SHIP.to), KeyOf(only, BILL.to)]);
      && SentView(ORDERS, st, ops, OrderKey()) != TableView(ORDERS, TablesOf(ApplyOps(st, ops)), OrderKey())
      && K("a") in Bucket(ApplyOps(st, ops).byFk, "bill", K("x"))
  {
    hide KeyOf, K, Fits, SentView, TableView, ApplyOps, ObjectRows, Bucket;
    var st, p, only := OneOrder(OTHER_ORDER, "2"), OrderKey(), Obj(map["id" := Str("a")]);
    var keys := [KeyOf(only, SHIP.to), KeyOf(only, BILL.to)];
    OneOrderFits(OTHER_ORDER, "2");
    OneOrderHas(OTHER_ORDER, "2");
    BillExact(OTHER_ORDER, "2");
    EntriesPlaced();
    KeyOfMissing(only.fields, "tag", "x");
    RetaggedKeys();
    SharedTableDeleteGoesStaleIff(ENTRIES, "addr", ORDERS, st, K("a"), keys, p);
    assert ENTRIES[1].d == ORDERS && ENTRIES[1].r in ORDERS.related;
    assert Embeds(ENTRIES, ORDERS, st, K("a"), p);
    assert DeleteKey(ENTRIES, st, K("a"), keys, 0) == K("1");
    assert !Informed(ENTRIES, ORDERS, st, K("a"), keys, p);
    DeleteLeavesEntryIff(ENTRIES, "addr", st, K("a"), keys, 1, K("x"));
  }

  // ---- a primary table shared by two definitions -------------------------------

  const BILLED := JoinDef("orders", ["id"], [BILL], NoBackfill)
  const SHIPPED := JoinDef("orders", ["id"], [SHIP], NoBackfill)

  /** An order is stored for both definitions. An address inserted afterwards under its
      billing key belongs in the first definition's document, and reaches no order. */
  lemma {:induction false} FirstDefinitionUnreached()
    ensures var after := ApplyOps(EMPTY_STATE,
      [PUpsert(BILLED, K("o"), ORDER, false), PUpsert(SHIPPED, K("o"), ORDER, false)]);
      var op := FUpsert(BILLED, BILL, K("a"), ADDRESS, false);
      OrderKey() in Touched(TablesOf(after), op) && OrderKey() !in FanOut(after, op)
  {
    hide KeyOf, K, FanOut, Apply, ApplyOps, Touched;
    var op, p := FUpsert(BILLED, BILL, K("a"), ADDRESS, false), OrderKey();
    var first, second := PUpsert(BILLED, K("o"), ORDER, false), PUpsert(SHIPPED, K("o"), ORDER, false);
    var after := ApplyOps(EMPTY_STATE, [first, second]);
    OrderKeys(ORDER, "1");
    SharedPrimaryReachesIff(EMPTY_STATE, BILLED, SHIPPED, K("o"), ORDER, false, op);
    assert forall r :: r in SHIPPED.related ==> r == SHIP;
    StoredTwice();
    ReachedThroughLinks(after, op, p);
  }

  lemma {:induction false} StoredTwice()
    ensures var after := ApplyOps(EMPTY_STATE,
      [PUpsert(BILLED, K("o"), ORDER, false), PUpsert(SHIPPED, K("o"), ORDER, false)]);
      OrderKey() in after.primary && after.primary[OrderKey()].raw == ORDER && after.foreign == map[]
  {
    hide KeyOf, K, Link, Unlink, FksFrom;
    TwoOps(EMPTY_STATE, PUpsert(BILLED, K("o"), ORDER, false), PUpsert(SHIPPED, K("o"), ORDER, false));
  }

  // ---- a chunk in batches and in turn --------------------------------------------

  const FILLED := JoinDef("orders", ["id"], [BILL], SyncOnMiss)

  /** A source in which the address has been retagged. */
  function Retagging(): Fetcher {
    (table: string, columns: seq<string>, key: PkValue, select: seq<string>) => Fetched(if key == K("y") then [RETAGGED]
      else [])
  }

  /** The cache still holds the address under its old tag. */
  function OldAddress(): State {
    State(map[], map[AddressKey() := ADDRESS], map[], map["bill" := map[K("x") := {K("a")}]])
  }

  function TwoOrders(): seq<map<string, PkValue>> {
    [map["bill" := K("y")], map["bill" := K("x")]]
  }

  const RAWS := [Obj(map["id" := Str("p"), "bill" := Str("y")]), Obj(map["id" := Str("q"), "bill" := Str("x")])]

  lemma {:induction false} TagKeys()
    ensures ChunkKeys(TwoOrders(), "bill") == [K("y"), K("x")] && At(TwoOrders(), "bill", 1) == 1
    ensures FetchedBefore(FILLED, BILL, OldAddress(), [K("y"), K("x")], 1) == [K("y")]
  {
    hide K;
    var chunk, y := TwoOrders(), K("y");
    assert chunk[..1] == [map["bill" := y]] && chunk[..1][..0] == [];
    assert ChunkKeys(chunk[..1], "bill") == [y];
    KeysDiffer("y", "x");
    NotNull("y");
    assert [y, K("x")][..1] == [y] && [y][..0] == [];
    assert Unique([y]) == [y];
    assert Consults(FILLED, BILL, OldAddress(), y);
    assert Unresolved(FILLED, BILL, OldAddress(), [y]) == [y];
  }

  lemma {:induction false} NotNull(s: string)
    ensures !K(s).IsNull()
  {
  }

  lemma {:induction false} AddressVersions()
    ensures Latest(Retagging(), BILL, OldAddress(), [], K("a")) == Some(ADDRESS)
    ensures Latest(Retagging(), BILL, OldAddress(), [K("y")], K("a")) == Some(RETAGGED)
  {
    hide K, ExtractPk;
    assert [K("y")][..0] == [] && [RETAGGED][..0] == [];
    assert Ask(Retagging(), BILL, K("y")) == Fetched([RETAGGED]);
    assert ExtractPk(RETAGGED, ["id"]) == Some(K("a")) by {
      KeyOfColumn(RETAGGED.fields, "id", "a"); PkIsKey(RETAGGED, ["id"]);
    }
    assert LastVersion([RETAGGED], BILL, K("a")) == Some(RETAGGED);
  }

  lemma {:induction false} PkIsKey(row: Json, columns: seq<string>)
    requires row.Obj?
    ensures ExtractPk(row, columns) == Some(KeyOf(row, columns))
  {
  }

  lemma {:induction false} ShownAlone(fetch: Fetcher, r: RelatedDef, st: State, fetched: seq<PkValue>, pk: PkValue,
                                      row: Json)
    requires r.select == [] && Latest(fetch, r, st, fetched, pk) == Some(row)
    ensures OneOf(r, Shown(fetch, r, st, fetched, {pk})) == {row}
  {
    hide Latest;
    assert Shown(fetch, r, st, fetched, {pk}) == {row};
  }

  lemma {:induction false} OtherVersionDisturbs(fetch: Fetcher, d: JoinDef, r: RelatedDef, st: State,
          keys: seq<PkValue>, n: nat, pk: PkValue, was: Json, now: Json)
    requires r.cardinality.One? && d.backfill.SyncOnMiss? && r.select == [] && n < |keys| && !keys[n].IsNull()
    requires Bucket(st.byFk, r.id, keys[n]) == {pk} && was != now
    requires Latest(fetch, r, st, [], pk) == Some(was)
    requires Latest(fetch, r, st, FetchedBefore(d, r, st, keys, n), pk) == Some(now)
    ensures !Undisturbed(fetch, d, r, st, keys, n)
  {
    hide Latest, Shown, FetchedBefore;
    ShownAlone(fetch, r, st, [], pk, was);
    ShownAlone(fetch, r, st, FetchedBefore(d, r, st, keys, n), pk, now);
    assert was in {was} && was !in {now};
  }

  lemma {:induction false} OldTagDisturbed()
    ensures !Undisturbed(Retagging(), FILLED, BILL, OldAddress(), [K("y"), K("x")], 1)
  {
    hide K, Latest, FetchedBefore, Undisturbed, Retagging;
    TagKeys();
    AddressVersions();
    NotNull("x");
    assert ADDRESS.fields["tag"] != RETAGGED.fields["tag"];
    OtherVersionDisturbs(Retagging(), FILLED, BILL, OldAddress(), [K("y"), K("x")], 1, K("a"), ADDRESS, RETAGGED);
  }

  /** Two orders, the first on the new tag. Composed in turn, fetching it replaces the
      cached address and the second order embeds the new version; in a batch it embeds
      the cached one. */
  lemma {:induction false} BatchEmbedsOldAddress()
    ensures !(forall docs :: RowDocs(Retagging(), FILLED, OldAddress(), RAWS, TwoOrders(), docs) <==>
                             BatchDocs(Retagging(), FILLED, OldAddress(), RAWS, TwoOrders(), docs))
  {
    hide K, RowDocs, BatchDocs, Undisturbed, ChunkKeys, At, Consults, OldAddress;
    SameDocumentsIff(Retagging(), FILLED, OldAddress(), RAWS, TwoOrders());
    assert !SourceFails(Retagging(), FILLED, OldAddress(), TwoOrders());
    TagKeys();
    OldTagDisturbed();
    assert FILLED.related[0] == BILL && "bill" in TwoOrders()[1];
    assert !NoneDisturbed(Retagging(), FILLED, OldAddress(), TwoOrders());
  }

  // ---- an entry left behind --------------------------------------------------------

  /** Fetching the new tag leaves the address in the bucket of the old one, where it is
      found although it no longer joins there. */
  lemma {:induction false} FetchLeavesOldTag()
    ensures var after := AfterLookup(Retagging(), FILLED, BILL, OldAddress(), K("y"));
      && Leftover(after, BILL, K("x"), K("a"))
      && AddressKey() in IndexedRows(after, BILL, K("x")) && JoinedRows(TablesOf(after), BILL, K("x")) == map[]
  {
    hide K, KeyOf, ExtractPk, Add;
    var st, y := OldAddress(), K("y");
    KeysDiffer("y", "x");
    NotNull("y");
    RetaggedKeys();
    assert Ask(Retagging(), BILL, y) == Fetched([RETAGGED]);
    assert ExtractPk(RETAGGED, ["id"]) == Some(K("a")) by {
      KeyOfColumn(RETAGGED.fields, "id", "a"); PkIsKey(RETAGGED, ["id"]);
    }
    StoreOne(st, BILL, y, RETAGGED);
    AddBuckets(st.byFk, "bill", y, K("a"));
    assert Consults(FILLED, BILL, st, y);
  }
}
