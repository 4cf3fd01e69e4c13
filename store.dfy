/** The mutations of `crm/schema.py` as they run: a store whose three tables
    and key counters are updated in place, and one method per mutation that
    builds its error list step by step. Each method is proved to leave the
    store and return the payload that the matching function of `Customers`,
    `Products` or `Orders` prescribes, and to keep the store invariant. */
module Storage {
  import opened Text
  import opened Records
  import opened Customers
  import opened Products
  import opened Orders

  class Store {
    var customers: seq<Customer>
    var products: seq<Product>
    var orders: seq<Order>
    var nextCustomerId: nat
    var nextProductId: nat
    var nextOrderId: nat

    /** The store's contents as a value. */
    function Snapshot(): Db
      reads this
    {
      Db(customers, products, orders, nextCustomerId, nextProductId, nextOrderId)
    }

    predicate Valid()
      reads this
    {
      Consistent(Snapshot())
    }

    /** An empty database. */
    constructor ()
      ensures Snapshot() == EmptyDb
      ensures Valid()
    {
      customers, products, orders := [], [], [];
      nextCustomerId, nextProductId, nextOrderId := 1, 1, 1;
    }

    /** `Customer.objects.create(...)`: insert a row under the next key. */
    method InsertCustomer(name: string, email: string, phone: string, now: Timestamp) returns (c: Customer)
      modifies this
      ensures c == Customer(old(nextCustomerId), name, email, phone, now)
      ensures customers == old(customers) + [c]
      ensures nextCustomerId == old(nextCustomerId) + 1
      ensures products == old(products) && orders == old(orders)
      ensures nextProductId == old(nextProductId) && nextOrderId == old(nextOrderId)
    {
      c := Customer(nextCustomerId, name, email, phone, now);
      customers := customers + [c];
      nextCustomerId := nextCustomerId + 1;
    }

    /** `CreateCustomer.mutate`. */
    method CreateCustomer(input: CustomerInput, now: Timestamp) returns (p: CreateCustomerPayload)
      requires Valid()
      modifies this
      ensures Valid()
      ensures Outcome(Snapshot(), p) == Customers.CreateCustomer(old(Snapshot()), input, now)
    {
      ghost var db := Snapshot();
      CreateCustomerConsistent(db, input, now);
      var errs: seq<string> := [];
      ghost var reasons: seq<Reason> := [];
      if EmailTaken(customers, input.email) {
        errs := errs + [ReasonText(EmailExists)];
        reasons := reasons + [EmailExists];
      }
      if PhoneRejected(input.phone) {
        errs := errs + [ReasonText(InvalidPhone)];
        reasons := reasons + [InvalidPhone];
      }
      assert reasons == CustomerReasons(db.customers, input);
      assert errs == Texts(reasons);
      if errs != [] {
        return CreateCustomerPayload(None, None, errs);
      }
      var c := InsertCustomer(input.name, input.email, StoredPhone(input.phone), now);
      p := CreateCustomerPayload(Some(c), Some(CustomerCreated), []);
    }

    /** `BulkCreateCustomers.mutate`: rows are checked and inserted one at a
        time, so a row sees the customers inserted by the rows before it. */
    method BulkCreateCustomers(rows: seq<CustomerInput>, now: Timestamp) returns (p: BulkCreateCustomersPayload)
      requires Valid()
      modifies this
      ensures Valid()
      ensures Outcome(Snapshot(), p) == Customers.BulkCreateCustomers(old(Snapshot()), rows, now)
    {
      ghost var db0 := Snapshot();
      var created: seq<Customer> := [];
      var errors: seq<string> := [];
      ghost var errs: seq<RowError> := [];
      ghost var createdRows: seq<nat> := [];
      var i := 0;
      while i < |rows|
        invariant 0 <= i <= |rows|
        invariant Valid()
        invariant BulkRun(db0, rows[..i], now) == BulkState(Snapshot(), created, errs, createdRows)
        invariant errors == RowMessages(errs)
      {
        var item, idx := rows[i], i + 1;
        ghost var before := BulkState(Snapshot(), created, errs, createdRows);
        var rowErrs;
        ghost var reasons;
        rowErrs, reasons := RowCheck(item, idx);
        if rowErrs != [] {
          errors := errors + rowErrs;
          RowMessagesAppend(errs, RowErrors(idx, reasons));
          errs := errs + RowErrors(idx, reasons);
        } else {
          AddCustomerConsistent(Snapshot(), item, now);
          var c := InsertCustomer(item.name, item.email, StoredPhone(item.phone), now);
          created := created + [c];
          createdRows := createdRows + [idx];
        }
        assert rows[..i + 1][..i] == rows[..i];
        assert BulkState(Snapshot(), created, errs, createdRows) == BulkStep(before, item, idx, now);
        i := i + 1;
      }
      assert rows[..i] == rows;
      p := BulkCreateCustomersPayload(created, errors);
    }

    /** The four checks of one bulk row, numbered `idx`, against the current
        customers; `reasons` names the failed checks in order. */
    method RowCheck(item: CustomerInput, idx: nat) returns (errs: seq<string>, ghost reasons: seq<Reason>)
      ensures reasons == RowReasons(customers, item)
      ensures errs == RowMessages(RowErrors(idx, reasons))
    {
      var prefix := "Row " + NatToString(idx) + ": ";
      errs, reasons := [], [];
      if EmailTaken(customers, item.email) {
        RowMessagesExtend(idx, reasons, EmailExists);
        errs, reasons := errs + [prefix + ReasonText(EmailExists)], reasons + [EmailExists];
      }
      if PhoneRejected(item.phone) {
        RowMessagesExtend(idx, reasons, InvalidPhone);
        errs, reasons := errs + [prefix + ReasonText(InvalidPhone)], reasons + [InvalidPhone];
      }
      assert reasons == CustomerReasons(customers, item);
      if item.name == "" {
        RowMessagesExtend(idx, reasons, NameRequired);
        errs, reasons := errs + [prefix + ReasonText(NameRequired)], reasons + [NameRequired];
      }
      if item.email == "" {
        RowMessagesExtend(idx, reasons, EmailRequired);
        errs, reasons := errs + [prefix + ReasonText(EmailRequired)], reasons + [EmailRequired];
      }
    }

    /** `CreateProduct.mutate`. */
    method CreateProduct(input: ProductInput) returns (p: CreateProductPayload)
      requires Valid()
      modifies this
      ensures Valid()
      ensures Outcome(Snapshot(), p) == Products.CreateProduct(old(Snapshot()), input)
    {
      CreateProductConsistent(Snapshot(), input);
      var errors: seq<string> := [];
      if input.price.None? {
        errors := errors + [InvalidPrice];
      } else if input.price.value <= 0 {
        errors := errors + [PriceNotPositive];
      }
      var stock := input.stock.GetOr(0);
      if stock < 0 {
        errors := errors + [NegativeStock];
      }
      assert errors == ProductErrors(input);
      if errors != [] {
        return CreateProductPayload(None, errors);
      }
      var product := Product(nextProductId, input.name, input.price.value, stock);
      products := products + [product];
      nextProductId := nextProductId + 1;
      p := CreateProductPayload(Some(product), []);
    }

    /** `CreateOrder.mutate`: after the checks, the order is inserted with no
        products and a zero total, then its products are set, then its
        total is computed and saved. */
    method CreateOrder(customerId: nat, productIds: seq<nat>, orderDate: Option<Timestamp>, now: Timestamp)
      returns (p: CreateOrderPayload)
      requires Valid()
      modifies this
      ensures Valid()
      ensures Outcome(Snapshot(), p) == Orders.CreateOrder(old(Snapshot()), customerId, productIds, orderDate, now)
    {
      ghost var db := Snapshot();
      CreateOrderConsistent(db, customerId, productIds, orderDate, now);
      if customerId !in CustomerIds(customers) {
        return CreateOrderPayload(None, [InvalidCustomer]);
      }
      if productIds == [] {
        return CreateOrderPayload(None, [NoProducts]);
      }
      var found := FoundProducts(products, Elems(productIds));
      var missing := MissingIds(productIds, found);
      if missing != [] {
        return CreateOrderPayload(None, [MissingMessage(missing)]);
      }
      var date := if orderDate.Some? then orderDate.value else now;
      var order := Order(nextOrderId, customerId, {}, 0, date);
      orders := orders + [order];
      nextOrderId := nextOrderId + 1;
      order := order.(productIds := Elems(ProductIds(found)));
      orders := orders[|orders| - 1 := order];
      order := order.(totalAmount := SumPrices(found));
      orders := orders[|orders| - 1 := order];
      assert order == Order(db.nextOrderId, customerId, Elems(ProductIds(found)), SumPrices(found), orderDate.GetOr(now));
      assert orders == db.orders + [order];
      p := CreateOrderPayload(Some(order), []);
    }
  }

  /** The messages of a row grow by one message per failed check. */
  lemma RowMessagesExtend(idx: nat, rs: seq<Reason>, r: Reason)
    ensures RowMessages(RowErrors(idx, rs + [r]))
            == RowMessages(RowErrors(idx, rs)) + ["Row " + NatToString(idx) + ": " + ReasonText(r)]
  {
  }

  lemma RowMessagesAppend(es: seq<RowError>, more: seq<RowError>)
    ensures RowMessages(es + more) == RowMessages(es) + RowMessages(more)
  {
  }
}
