/** The entity store the mutations of `crm/schema.py` read and write:
    customers, products and orders as rows of three tables, with the
    invariants that the schema declares and the mutations keep. */
module Records {
  import opened Text

  datatype Option<T> = None | Some(value: T) {
    function GetOr(default: T): T {
      if Some? then value else default
    }
  }

  /** Money in hundredths: prices and totals are stored with two decimal places. */
  type Cents = int

  /** A reading of the clock. */
  type Timestamp = int

  datatype Customer = Customer(id: nat, name: string, email: string, phone: string, createdAt: Timestamp)

  datatype Product = Product(id: nat, name: string, price: Cents, stock: nat)

  /** An order row with its product associations folded in as the set of
      associated product keys. */
  datatype Order = Order(id: nat, customerId: nat, productIds: set<nat>, totalAmount: Cents, orderDate: Timestamp)

  /** The three tables in insertion order, and the next primary key each hands out. */
  datatype Db = Db(
    customers: seq<Customer>,
    products: seq<Product>,
    orders: seq<Order>,
    nextCustomerId: nat,
    nextProductId: nat,
    nextOrderId: nat)

  /** What a mutation leaves behind: the store afterwards and the payload it returns. */
  datatype Outcome<P> = Outcome(db: Db, payload: P)

  /** A fresh database: no rows, keys start at 1. */
  const EmptyDb: Db := Db([], [], [], 1, 1, 1)

  function CustomerIds(cs: seq<Customer>): seq<nat> {
    seq(|cs|, i requires 0 <= i < |cs| => cs[i].id)
  }

  function ProductIds(ps: seq<Product>): seq<nat> {
    seq(|ps|, i requires 0 <= i < |ps| => ps[i].id)
  }

  function OrderIds(os: seq<Order>): seq<nat> {
    seq(|os|, i requires 0 <= i < |os| => os[i].id)
  }

  /** Primary keys as an auto-increment column hands them out: increasing,
      and all below the next one to be issued. */
  predicate KeysIssued(ids: seq<nat>, next: nat) {
    StrictlyIncreasing(ids) && forall i | 0 <= i < |ids| :: ids[i] < next
  }

  /** `Customer.objects.filter(email=email).exists()`. */
  predicate EmailTaken(cs: seq<Customer>, email: string) {
    exists i | 0 <= i < |cs| :: cs[i].email == email
  }

  /** The unique constraint on the email column. */
  predicate EmailsUnique(cs: seq<Customer>) {
    forall i, j | 0 <= i < j < |cs| :: cs[i].email != cs[j].email
  }

  /** `Product.objects.filter(pk__in=ids)`: the rows whose key is requested,
      each once, in table order. */
  function FoundProducts(ps: seq<Product>, ids: set<nat>): (r: seq<Product>)
    ensures forall p :: p in r <==> p in ps && p.id in ids
  {
    if ps == [] then []
    else
      var last := ps[|ps| - 1];
      assert ps == ps[..|ps| - 1] + [last];
      FoundProducts(ps[..|ps| - 1], ids) + (if last.id in ids then [last] else [])
  }

  /** `sum(p.price for p in products)`. */
  function SumPrices(ps: seq<Product>): (r: Cents)
    ensures (forall i | 0 <= i < |ps| :: ps[i].price >= 0) ==>
              r >= 0 && forall i | 0 <= i < |ps| :: ps[i].price <= r
  {
    if ps == [] then 0 else SumPrices(ps[..|ps| - 1]) + ps[|ps| - 1].price
  }

  /** An order refers to a stored customer and to stored products, has at
      least one product, and its total is the sum of its products' prices. */
  predicate OrderConsistent(o: Order, cs: seq<Customer>, ps: seq<Product>) {
    && o.customerId in CustomerIds(cs)
    && o.productIds != {}
    && (forall id | id in o.productIds :: id in ProductIds(ps))
    && o.totalAmount == SumPrices(FoundProducts(ps, o.productIds))
  }

  /** The store invariant. */
  predicate Consistent(db: Db) {
    && KeysIssued(CustomerIds(db.customers), db.nextCustomerId)
    && KeysIssued(ProductIds(db.products), db.nextProductId)
    && KeysIssued(OrderIds(db.orders), db.nextOrderId)
    && EmailsUnique(db.customers)
    && forall i | 0 <= i < |db.orders| :: OrderConsistent(db.orders[i], db.customers, db.products)
  }

  lemma EmptyDbConsistent()
    ensures Consistent(EmptyDb)
  {
  }

  /** Issuing the next key keeps the keys increasing and below the counter. */
  lemma KeysIssuedAppend(ids: seq<nat>, next: nat)
    requires KeysIssued(ids, next)
    ensures KeysIssued(ids + [next], next + 1)
  {
  }

  lemma CustomerIdsAppend(cs: seq<Customer>, c: Customer)
    ensures CustomerIds(cs + [c]) == CustomerIds(cs) + [c.id]
  {
  }

  lemma ProductIdsAppend(ps: seq<Product>, p: Product)
    ensures ProductIds(ps + [p]) == ProductIds(ps) + [p.id]
  {
  }

  lemma OrderIdsAppend(os: seq<Order>, o: Order)
    ensures OrderIds(os + [o]) == OrderIds(os) + [o.id]
  {
  }

  /** A new customer makes exactly its own email taken in addition. */
  lemma EmailTakenAppend(cs: seq<Customer>, c: Customer, email: string)
    ensures EmailTaken(cs + [c], email) <==> EmailTaken(cs, email) || c.email == email
  {
    if EmailTaken(cs, email) {
      var i :| 0 <= i < |cs| && cs[i].email == email;
      assert (cs + [c])[i].email == email;
    }
    if c.email == email {
      assert (cs + [c])[|cs|].email == email;
    }
  }

  /** A row whose key is not requested does not change what the filter finds. */
  lemma FoundProductsIgnoresUnrequested(ps: seq<Product>, p: Product, ids: set<nat>)
    requires p.id !in ids
    ensures FoundProducts(ps + [p], ids) == FoundProducts(ps, ids)
  {
    assert (ps + [p])[..|ps|] == ps;
  }

  /** The filter finds exactly the requested keys that are stored. */
  lemma {:induction false} FoundIds(ps: seq<Product>, ids: set<nat>)
    ensures Elems(ProductIds(FoundProducts(ps, ids))) == ids * Elems(ProductIds(ps))
  {
    var found := FoundProducts(ps, ids);
    forall id | id in Elems(ProductIds(found))
      ensures id in ids * Elems(ProductIds(ps))
    {
      var k :| 0 <= k < |found| && found[k].id == id;
      assert found[k] in ps;
      var j :| 0 <= j < |ps| && ps[j] == found[k];
      assert ProductIds(ps)[j] == id;
    }
    forall id | id in ids * Elems(ProductIds(ps))
      ensures id in Elems(ProductIds(found))
    {
      var j :| 0 <= j < |ps| && ProductIds(ps)[j] == id;
      assert ps[j] in found;
      var k :| 0 <= k < |found| && found[k] == ps[j];
      assert ProductIds(found)[k] == id;
    }
  }

  /** In a table with increasing keys the filter returns the found rows in
      increasing key order, so each found product once. */
  lemma {:induction false} FoundProductsAscending(ps: seq<Product>, ids: set<nat>)
    requires StrictlyIncreasing(ProductIds(ps))
    ensures StrictlyIncreasing(ProductIds(FoundProducts(ps, ids)))
  {
    if ps != [] {
      var init, last := ps[..|ps| - 1], ps[|ps| - 1];
      assert forall i | 0 <= i < |init| :: ProductIds(init)[i] == ProductIds(ps)[i];
      FoundProductsAscending(init, ids);
      var found := FoundProducts(init, ids);
      FoundBelowLast(ps, ids);
      if last.id in ids {
        ProductIdsAppend(found, last);
      } else {
        assert found + [] == found;
      }
    }
  }

  /** Every row the filter finds before the last row of an increasing table
      has a smaller key than the last row. */
  lemma FoundBelowLast(ps: seq<Product>, ids: set<nat>)
    requires StrictlyIncreasing(ProductIds(ps))
    requires ps != []
    ensures forall p | p in FoundProducts(ps[..|ps| - 1], ids) :: p.id < ps[|ps| - 1].id
  {
    var init := ps[..|ps| - 1];
    forall p | p in FoundProducts(init, ids)
      ensures p.id < ps[|ps| - 1].id
    {
      assert p in init;
      var j :| 0 <= j < |init| && init[j] == p;
      assert ProductIds(ps)[j] < ProductIds(ps)[|ps| - 1];
    }
  }

  /** Adding a product with a fresh key leaves every stored order consistent. */
  lemma OrdersSurviveNewProduct(db: Db, p: Product)
    requires Consistent(db)
    requires p.id == db.nextProductId
    ensures forall i | 0 <= i < |db.orders| ::
              OrderConsistent(db.orders[i], db.customers, db.products + [p])
  {
    ProductIdsAppend(db.products, p);
    forall i | 0 <= i < |db.orders|
      ensures OrderConsistent(db.orders[i], db.customers, db.products + [p])
    {
      var o := db.orders[i];
      assert p.id !in o.productIds;
      FoundProductsIgnoresUnrequested(db.products, p, o.productIds);
    }
  }

  /** Adding a customer with a fresh key leaves every stored order consistent. */
  lemma OrdersSurviveNewCustomer(db: Db, c: Customer)
    requires Consistent(db)
    ensures forall i | 0 <= i < |db.orders| ::
              OrderConsistent(db.orders[i], db.customers + [c], db.products)
  {
    CustomerIdsAppend(db.customers, c);
  }
}
