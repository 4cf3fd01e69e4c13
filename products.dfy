/** `CreateProduct.mutate` of `crm/schema.py`: validate the price and the
    stock, then insert one product or nothing. */
module Products {
  import opened Records

  /** `ProductInput`. The price arrives as an amount in cents, or as `None`
      when it does not parse as a decimal; the stock may be absent. */
  datatype ProductInput = ProductInput(name: string, price: Option<Cents>, stock: Option<int>)

  datatype CreateProductPayload = CreateProductPayload(product: Option<Product>, errors: seq<string>)

  const InvalidPrice: string := "Invalid price"
  const PriceNotPositive: string := "Price must be positive"
  const NegativeStock: string := "Stock cannot be negative"

  /** `input.stock or 0`. */
  function StockOrDefault(stock: Option<int>): int {
    stock.GetOr(0)
  }

  /** The price check, then the stock check. */
  function ProductErrors(input: ProductInput): seq<string> {
    (if input.price.None? then [InvalidPrice]
     else if input.price.value <= 0 then [PriceNotPositive]
     else [])
    + (if StockOrDefault(input.stock) < 0 then [NegativeStock] else [])
  }

  /** `CreateProduct.mutate`. */
  function CreateProduct(db: Db, input: ProductInput): (r: Outcome<CreateProductPayload>)
    ensures r.payload.product.Some? <==> r.payload.errors == []
    ensures r.payload.product.None? ==> r.db == db
    ensures r.payload.product.Some? ==>
              && r.db.products == db.products + [r.payload.product.value]
              && r.db.customers == db.customers && r.db.orders == db.orders
  {
    var errors := ProductErrors(input);
    if errors != [] then
      Outcome(db, CreateProductPayload(None, errors))
    else
      var p := Product(db.nextProductId, input.name, input.price.value, StockOrDefault(input.stock));
      Outcome(db.(products := db.products + [p], nextProductId := db.nextProductId + 1),
              CreateProductPayload(Some(p), []))
  }

  /** Each error is reported exactly when its check fails, price before
      stock; any error means no product and no write. */
  lemma CreateProductErrors(db: Db, input: ProductInput)
    ensures var r := CreateProduct(db, input);
      && (InvalidPrice in r.payload.errors <==> input.price.None?)
      && (PriceNotPositive in r.payload.errors <==> input.price.Some? && input.price.value <= 0)
      && (NegativeStock in r.payload.errors <==> input.stock.Some? && input.stock.value < 0)
      && |r.payload.errors|
         == (if input.price.None? || input.price.value <= 0 then 1 else 0)
            + (if input.stock.Some? && input.stock.value < 0 then 1 else 0)
      && (NegativeStock in r.payload.errors ==> r.payload.errors[|r.payload.errors| - 1] == NegativeStock)
      && (r.payload.product.None? <==> r.payload.errors != [])
      && (r.payload.product.None? ==> r.db == db)
  {
  }

  /** A valid input adds exactly one product, with the given name and price,
      the stock or 0 when absent, and a fresh key; nothing else changes. */
  lemma CreateProductSucceeds(db: Db, input: ProductInput)
    requires Consistent(db)
    requires input.price.Some? && input.price.value > 0
    requires input.stock.None? || input.stock.value >= 0
    ensures var r := CreateProduct(db, input);
      exists p: Product ::
        && r.payload == CreateProductPayload(Some(p), [])
        && p.name == input.name
        && p.price == input.price.value
        && p.stock == (if input.stock.Some? then input.stock.value else 0)
        && p.id !in ProductIds(db.products)
        && r.db.products == db.products + [p]
        && r.db.customers == db.customers
        && r.db.orders == db.orders
  {
    var p := CreateProduct(db, input).payload.product.value;
    assert p.id !in ProductIds(db.products);
  }

  /** `CreateProduct` keeps the store invariant. */
  lemma CreateProductConsistent(db: Db, input: ProductInput)
    requires Consistent(db)
    ensures Consistent(CreateProduct(db, input).db)
  {
    var r := CreateProduct(db, input);
    if r.payload.product.Some? {
      var p := r.payload.product.value;
      ProductIdsAppend(db.products, p);
      KeysIssuedAppend(ProductIds(db.products), db.nextProductId);
      OrdersSurviveNewProduct(db, p);
    }
  }

  /** A price of 0 or of -5.00 is refused and writes nothing; 0.01 is accepted. */
  lemma PriceBoundaryExamples(db: Db)
    ensures var zero := CreateProduct(db, ProductInput("Pen", Some(0), None));
      zero.payload == CreateProductPayload(None, [PriceNotPositive]) && zero.db == db
    ensures var negative := CreateProduct(db, ProductInput("Pen", Some(-500), None));
      negative.payload == CreateProductPayload(None, [PriceNotPositive]) && negative.db == db
    ensures CreateProduct(db, ProductInput("Pen", Some(1), None)).payload.product.Some?
  {
  }

  /** A refused call writes nothing, so repeating it gives the same payload. */
  lemma CreateProductFailureRepeats(db: Db, input: ProductInput)
    requires CreateProduct(db, input).payload.product.None?
    ensures CreateProduct(db, input).db == db
    ensures CreateProduct(CreateProduct(db, input).db, input) == CreateProduct(db, input)
  {
  }
}
