/** `CreateOrder.mutate` of `crm/schema.py`: three short-circuiting checks
    (customer, non-empty product list, every product found), then one order
    whose products are the distinct requested ones and whose total is the
    sum of their prices. */
module Orders {
  import opened Text
  import opened Records

  datatype CreateOrderPayload = CreateOrderPayload(order: Option<Order>, errors: seq<string>)

  const InvalidCustomer: string := "Invalid customer ID"
  const NoProducts: string := "At least one product must be provided"

  /** The requested keys that the filter did not find: `set(requested) -
      set(p.id for p in found)`, kept as a sequence. */
  function MissingIds(requested: seq<nat>, found: seq<Product>): (r: seq<nat>)
    ensures Elems(r) == Elems(requested) - Elems(ProductIds(found))
  {
    if requested == [] then []
    else
      var last := requested[|requested| - 1];
      assert requested == requested[..|requested| - 1] + [last];
      ElemsAppend(requested[..|requested| - 1], last);
      var rest := MissingIds(requested[..|requested| - 1], found);
      if last in ProductIds(found) then rest
      else
        ElemsAppend(rest, last);
        rest + [last]
  }

  function Rendered(ids: seq<nat>): seq<string> {
    seq(|ids|, i requires 0 <= i < |ids| => NatToString(ids[i]))
  }

  /** `"Invalid product ID(s): " + ", ".join(map(str, ids))`. */
  function ListedIds(ids: seq<nat>): string {
    "Invalid product ID(s): " + Join(Rendered(ids), ", ")
  }

  /** The message for the missing keys, listed ascending and once each. */
  function MissingMessage(missing: seq<nat>): (r: string)
    ensures exists ids :: StrictlyIncreasing(ids) && Elems(ids) == Elems(missing) && r == ListedIds(ids)
  {
    ListedIds(SortedDistinct(missing))
  }

  /** `CreateOrder.mutate`; the clock reading `now` stands in for
      `timezone.now()`. */
  function CreateOrder(db: Db, customerId: nat, productIds: seq<nat>, orderDate: Option<Timestamp>, now: Timestamp)
    : (r: Outcome<CreateOrderPayload>)
    ensures r.payload.order.Some? <==> r.payload.errors == []
    ensures r.payload.order.None? ==> |r.payload.errors| == 1 && r.db == db
    ensures r.payload.order.Some? ==>
              && r.db.orders == db.orders + [r.payload.order.value]
              && r.db.customers == db.customers && r.db.products == db.products
  {
    if customerId !in CustomerIds(db.customers) then
      Outcome(db, CreateOrderPayload(None, [InvalidCustomer]))
    else if productIds == [] then
      Outcome(db, CreateOrderPayload(None, [NoProducts]))
    else
      var found := FoundProducts(db.products, Elems(productIds));
      var missing := MissingIds(productIds, found);
      if missing != [] then
        Outcome(db, CreateOrderPayload(None, [MissingMessage(missing)]))
      else
        var o := Order(db.nextOrderId, customerId, Elems(ProductIds(found)), SumPrices(found), orderDate.GetOr(now));
        Outcome(db.(orders := db.orders + [o], nextOrderId := db.nextOrderId + 1),
                CreateOrderPayload(Some(o), []))
  }

  /** The price stored for key `id`, found by scanning the table. */
  function PriceOf(ps: seq<Product>, id: nat): Cents {
    if ps == [] then 0
    else if ps[|ps| - 1].id == id then ps[|ps| - 1].price
    else PriceOf(ps[..|ps| - 1], id)
  }

  /** The sum of the stored prices of the keys `ids`, one term per key. */
  function PriceTotal(ps: seq<Product>, ids: seq<nat>): Cents {
    if ids == [] then 0 else PriceTotal(ps, ids[..|ids| - 1]) + PriceOf(ps, ids[|ids| - 1])
  }

  /** With keys unique, the scan finds the price of a stored row. */
  lemma {:induction false} PriceOfStored(ps: seq<Product>, p: Product)
    requires StrictlyIncreasing(ProductIds(ps))
    requires p in ps
    ensures PriceOf(ps, p.id) == p.price
    decreases |ps|
  {
    var init, last := ps[..|ps| - 1], ps[|ps| - 1];
    if last != p {
      assert ps == init + [last];
      assert p in init;
      var j :| 0 <= j < |init| && init[j] == p;
      assert ProductIds(ps)[j] < ProductIds(ps)[|ps| - 1];
      assert forall i | 0 <= i < |init| :: ProductIds(init)[i] == ProductIds(ps)[i];
      PriceOfStored(init, p);
    }
  }

  /** Summing the prices of rows taken from the table is summing the stored
      prices of their keys. */
  lemma {:induction false} SumPricesByKey(ps: seq<Product>, rows: seq<Product>)
    requires StrictlyIncreasing(ProductIds(ps))
    requires forall p | p in rows :: p in ps
    ensures SumPrices(rows) == PriceTotal(ps, ProductIds(rows))
    decreases |rows|
  {
    if rows != [] {
      var init := rows[..|rows| - 1];
      assert forall p | p in init :: p in rows;
      SumPricesByKey(ps, init);
      assert ProductIds(rows)[..|rows| - 1] == ProductIds(init);
      PriceOfStored(ps, rows[|rows| - 1]);
    }
  }

  /** A customer that does not exist is reported alone, whatever the products. */
  lemma CreateOrderUnknownCustomer(db: Db, customerId: nat, productIds: seq<nat>, orderDate: Option<Timestamp>, now: Timestamp)
    requires customerId !in CustomerIds(db.customers)
    ensures CreateOrder(db, customerId, productIds, orderDate, now)
            == Outcome(db, CreateOrderPayload(None, ["Invalid customer ID"]))
  {
  }

  /** For an existing customer, an empty product list is reported alone. */
  lemma CreateOrderNoProducts(db: Db, customerId: nat, orderDate: Option<Timestamp>, now: Timestamp)
    requires customerId in CustomerIds(db.customers)
    ensures CreateOrder(db, customerId, [], orderDate, now)
            == Outcome(db, CreateOrderPayload(None, ["At least one product must be provided"]))
  {
  }

  /** For an existing customer and a non-empty list, unknown product keys are
      reported in one message that lists each of them once, ascending. */
  lemma CreateOrderMissingProducts(db: Db, customerId: nat, productIds: seq<nat>, orderDate: Option<Timestamp>, now: Timestamp)
    requires customerId in CustomerIds(db.customers)
    requires productIds != []
    requires !(Elems(productIds) <= Elems(ProductIds(db.products)))
    ensures var r := CreateOrder(db, customerId, productIds, orderDate, now);
      && r.db == db
      && r.payload.order == None
      && exists ids ::
           && StrictlyIncreasing(ids)
           && Elems(ids) == Elems(productIds) - Elems(ProductIds(db.products))
           && r.payload.errors == [ListedIds(ids)]
  {
    var found := FoundProducts(db.products, Elems(productIds));
    FoundIds(db.products, Elems(productIds));
    var missing := MissingIds(productIds, found);
    var x :| x in Elems(productIds) && x !in Elems(ProductIds(db.products));
    assert x in Elems(missing);
    ElemsEmpty(missing);
    var ids := SortedDistinct(missing);
    assert CreateOrder(db, customerId, productIds, orderDate, now).payload.errors == [ListedIds(ids)];
  }

  /** A valid request creates one order for the customer, over the set of
      requested keys (so repeated keys count once), whose total is the sum of
      the stored prices of those distinct products and whose date is the given
      one or else the clock's; nothing else changes. */
  lemma CreateOrderSucceeds(db: Db, customerId: nat, productIds: seq<nat>, orderDate: Option<Timestamp>, now: Timestamp)
    requires Consistent(db)
    requires customerId in CustomerIds(db.customers)
    requires productIds != []
    requires Elems(productIds) <= Elems(ProductIds(db.products))
    ensures var r := CreateOrder(db, customerId, productIds, orderDate, now);
      exists o: Order ::
        && r.payload == CreateOrderPayload(Some(o), [])
        && o.customerId == customerId
        && o.productIds == Elems(productIds)
        && o.totalAmount == PriceTotal(db.products, SortedDistinct(productIds))
        && o.orderDate == (if orderDate.Some? then orderDate.value else now)
        && o.id == db.nextOrderId
        && o.id !in OrderIds(db.orders)
        && r.db.orders == db.orders + [o]
        && r.db.customers == db.customers
        && r.db.products == db.products
  {
    var found := FoundProducts(db.products, Elems(productIds));
    FoundIds(db.products, Elems(productIds));
    FoundProductsAscending(db.products, Elems(productIds));
    var missing := MissingIds(productIds, found);
    ElemsEmpty(missing);
    StrictlyIncreasingUnique(ProductIds(found), SortedDistinct(productIds));
    SumPricesByKey(db.products, found);
    var o := CreateOrder(db, customerId, productIds, orderDate, now).payload.order.value;
    assert o.id !in OrderIds(db.orders);
  }

  /** `CreateOrder` keeps the store invariant: the new order refers to a
      stored customer and stored products, and its total is their sum. */
  lemma CreateOrderConsistent(db: Db, customerId: nat, productIds: seq<nat>, orderDate: Option<Timestamp>, now: Timestamp)
    requires Consistent(db)
    ensures Consistent(CreateOrder(db, customerId, productIds, orderDate, now).db)
  {
    var r := CreateOrder(db, customerId, productIds, orderDate, now);
    if r.payload.order.Some? {
      var o := r.payload.order.value;
      var found := FoundProducts(db.products, Elems(productIds));
      FoundIds(db.products, Elems(productIds));
      var missing := MissingIds(productIds, found);
      assert missing == [];
      forall x | x in Elems(productIds)
        ensures x in Elems(ProductIds(found))
      {
        assert x !in Elems(missing);
      }
      assert Elems(productIds) <= Elems(ProductIds(db.products));
      assert o.productIds == Elems(productIds);
      assert productIds[0] in o.productIds;
      assert FoundProducts(db.products, o.productIds) == found;
      OrderIdsAppend(db.orders, o);
      KeysIssuedAppend(OrderIds(db.orders), db.nextOrderId);
    }
  }

  /** Only the set of requested keys matters: repeating or reordering keys
      gives the same result. */
  lemma CreateOrderDependsOnKeySet(db: Db, customerId: nat, a: seq<nat>, b: seq<nat>, orderDate: Option<Timestamp>, now: Timestamp)
    requires Elems(a) == Elems(b)
    ensures CreateOrder(db, customerId, a, orderDate, now) == CreateOrder(db, customerId, b, orderDate, now)
  {
    ElemsEmpty(a);
    ElemsEmpty(b);
    var found := FoundProducts(db.products, Elems(a));
    var ma, mb := MissingIds(a, found), MissingIds(b, found);
    ElemsEmpty(ma);
    ElemsEmpty(mb);
    SortedDistinctOfSameElems(ma, mb);
  }

  /** A refused call writes nothing, so repeating it gives the same payload. */
  lemma CreateOrderFailureRepeats(db: Db, customerId: nat, productIds: seq<nat>, orderDate: Option<Timestamp>, now: Timestamp, later: Timestamp)
    requires CreateOrder(db, customerId, productIds, orderDate, now).payload.order.None?
    ensures CreateOrder(db, customerId, productIds, orderDate, now).db == db
    ensures CreateOrder(db, customerId, productIds, orderDate, later) == CreateOrder(db, customerId, productIds, orderDate, now)
  {
  }
}

/** Worked examples of `CreateOrder` on a small store. */
module OrderExamples {
  import opened Text
  import opened Records
  import opened Orders

  /** A store with one customer and the products P1 at 10.00 and P2 at 5.50. */
  const SampleDb: Db := Db(
    [Customer(1, "Alice", "alice@example.com", "", 0)],
    [Product(1, "P1", 1000, 0), Product(2, "P2", 550, 0)],
    [], 2, 3, 1)

  const P1: Product := Product(1, "P1", 1000, 0)
  const P2: Product := Product(2, "P2", 550, 0)

  lemma SampleTables()
    ensures SampleDb.products == [P1, P2]
    ensures CustomerIds(SampleDb.customers) == [1]
    ensures ProductIds(SampleDb.products) == [1, 2]
    ensures Elems(ProductIds(SampleDb.products)) == {1, 2}
    ensures Consistent(SampleDb)
  {
  }

  /** Ordering both products of the sample store totals 15.50. */
  lemma SampleOrderTotal(now: Timestamp)
    ensures CreateOrder(SampleDb, 1, [1, 2], None, now).payload.order
            == Some(Order(1, 1, {1, 2}, 1550, now))
  {
    SampleTables();
    assert Elems([1, 2]) == {1, 2};
    CreateOrderSucceeds(SampleDb, 1, [1, 2], None, now);
    SamplePriceTotal();
  }

  /** The stored prices of the distinct keys 1 and 2 add up to 15.50. */
  lemma SamplePriceTotal()
    ensures PriceTotal(SampleDb.products, SortedDistinct([1, 2])) == 1550
  {
    SampleTables();
    StrictlyIncreasingUnique(SortedDistinct([1, 2]), [1, 2]);
    assert [1, 2][..1] == [1] && [1][..0] == [];
    assert [P1, P2][..1] == [P1];
  }

  /** The message for the single missing key 999. */
  lemma SampleListedIds()
    ensures ListedIds([999]) == "Invalid product ID(s): 999"
  {
    assert NatToString(999) == "999";
    assert Rendered([999]) == ["999"];
  }

  /** Adding the unknown key 999 to a request on the sample store is refused
      with a message naming only 999. */
  lemma SampleOrderUnknownProduct(now: Timestamp)
    ensures CreateOrder(SampleDb, 1, [1, 999], None, now).payload
            == CreateOrderPayload(None, ["Invalid product ID(s): 999"])
  {
    SampleTables();
    assert Elems([1, 999]) == {1, 999};
    CreateOrderMissingProducts(SampleDb, 1, [1, 999], None, now);
    var r := CreateOrder(SampleDb, 1, [1, 999], None, now);
    var ids :| StrictlyIncreasing(ids) && Elems(ids) == {999} && r.payload.errors == [ListedIds(ids)];
    assert Elems([999]) == {999};
    StrictlyIncreasingUnique(ids, [999]);
    SampleListedIds();
  }
}
