/** The `orderBy` argument of the `all_customers`, `all_products` and
    `all_orders` resolvers of `crm/schema.py`: a value from the table's
    allow-list orders the result, any other value (or none) leaves the default
    ordering, and no value is ever an error. */
module Queries {
  import opened Records

  datatype Table = CustomerTable | ProductTable | OrderTable

  /** `ALLOWED_CUSTOMER_ORDER_FIELDS`. */
  const CustomerOrderFields: seq<string> :=
    ["name", "-name", "email", "-email", "created_at", "-created_at"]

  /** `ALLOWED_PRODUCT_ORDER_FIELDS`. */
  const ProductOrderFields: seq<string> :=
    ["name", "-name", "price", "-price", "stock", "-stock", "created_at", "-created_at"]

  /** `ALLOWED_ORDER_ORDER_FIELDS`. */
  const OrderOrderFields: seq<string> :=
    ["order_date", "-order_date", "total_amount", "-total_amount", "created_at", "-created_at"]

  function AllowedOrderFields(t: Table): seq<string> {
    match t
    case CustomerTable => CustomerOrderFields
    case ProductTable => ProductOrderFields
    case OrderTable => OrderOrderFields
  }

  /** The column names each table may be sorted on. */
  function SortableColumns(t: Table): seq<string> {
    match t
    case CustomerTable => ["name", "email", "created_at"]
    case ProductTable => ["name", "price", "stock", "created_at"]
    case OrderTable => ["order_date", "total_amount", "created_at"]
  }

  /** Each column, followed by the same column with a leading `-`. */
  function BothWays(cols: seq<string>): seq<string> {
    if cols == [] then [] else [cols[0], "-" + cols[0]] + BothWays(cols[1..])
  }

  /** What a resolver hands back: all rows of the table, optionally made
      distinct, in the given ordering or the default one. */
  datatype QuerySet = QuerySet(table: Table, distinct: bool, ordering: Option<string>)

  /** `Query.resolve_all_*`. */
  function ResolveAll(t: Table, orderBy: Option<string>): (r: QuerySet)
    ensures r.ordering.Some? ==>
              var f := r.ordering.value;
              f in SortableColumns(t) || (|f| > 0 && f[0] == '-' && f[1..] in SortableColumns(t))
  {
    AllowedAreColumnsBothWays(t, orderBy.GetOr(""));
    var qs := QuerySet(t, t == OrderTable, None);
    if orderBy.Some? && orderBy.value in AllowedOrderFields(t) then qs.(ordering := orderBy) else qs
  }

  /** Each allow-list is its table's columns, each ascending and then
      descending. */
  lemma AllowedListsAreBothWays(t: Table)
    ensures AllowedOrderFields(t) == BothWays(SortableColumns(t))
  {
    match t
    case CustomerTable => CustomerListBothWays();
    case ProductTable => ProductListBothWays();
    case OrderTable => OrderListBothWays();
  }

  lemma CustomerListBothWays()
    ensures CustomerOrderFields == BothWays(["name", "email", "created_at"])
  {
    assert "-" + "name" == "-name";
    assert "-" + "email" == "-email";
    assert "-" + "created_at" == "-created_at";
    assert ["name", "email", "created_at"][1..] == ["email", "created_at"];
    assert ["email", "created_at"][1..] == ["created_at"];
    assert ["created_at"][1..] == [];
  }

  lemma ProductListBothWays()
    ensures ProductOrderFields == BothWays(["name", "price", "stock", "created_at"])
  {
    assert "-" + "name" == "-name";
    assert "-" + "price" == "-price";
    assert "-" + "stock" == "-stock";
    assert "-" + "created_at" == "-created_at";
    assert ["name", "price", "stock", "created_at"][1..] == ["price", "stock", "created_at"];
    assert ["price", "stock", "created_at"][1..] == ["stock", "created_at"];
    assert ["stock", "created_at"][1..] == ["created_at"];
    assert ["created_at"][1..] == [];
  }

  lemma OrderListBothWays()
    ensures OrderOrderFields == BothWays(["order_date", "total_amount", "created_at"])
  {
    assert "-" + "order_date" == "-order_date";
    assert "-" + "total_amount" == "-total_amount";
    assert "-" + "created_at" == "-created_at";
    assert ["order_date", "total_amount", "created_at"][1..] == ["total_amount", "created_at"];
    assert ["total_amount", "created_at"][1..] == ["created_at"];
    assert ["created_at"][1..] == [];
  }

  /** A name is in `BothWays(cols)` exactly when it is a column, or a column
      after a `-`. */
  lemma {:induction false} BothWaysMembers(cols: seq<string>, f: string)
    ensures f in BothWays(cols) <==> f in cols || (|f| > 0 && f[0] == '-' && f[1..] in cols)
    decreases |cols|
  {
    if cols != [] {
      BothWaysMembers(cols[1..], f);
      assert cols == [cols[0]] + cols[1..];
      if |f| > 0 && f[0] == '-' && f[1..] == cols[0] {
        assert f == "-" + cols[0];
      }
      if f == "-" + cols[0] {
        assert f[1..] == cols[0];
      }
    }
  }

  /** Each allow-list holds exactly the sortable columns, ascending or with a
      leading `-` for descending. */
  lemma AllowedAreColumnsBothWays(t: Table, f: string)
    ensures f in AllowedOrderFields(t) <==>
              f in SortableColumns(t) || (|f| > 0 && f[0] == '-' && f[1..] in SortableColumns(t))
  {
    AllowedListsAreBothWays(t);
    BothWaysMembers(SortableColumns(t), f);
  }

  /** The ordering asked for is applied exactly when it is allowed; otherwise
      the rows come back in the default ordering. Only orders are made
      distinct. */
  lemma ResolveAllOrdering(t: Table, orderBy: Option<string>)
    ensures var q := ResolveAll(t, orderBy);
      && q.table == t
      && q.distinct == (t == OrderTable)
      && (q.ordering.Some? <==> orderBy.Some? && orderBy.value in AllowedOrderFields(t))
      && (q.ordering.Some? ==> q.ordering == orderBy)
  {
  }

  /** Camel-case names, columns of another table and a doubled sign are
      ignored rather than refused. */
  lemma UnknownOrderingsIgnored()
    ensures ResolveAll(CustomerTable, Some("createdAt")).ordering == None
    ensures ResolveAll(CustomerTable, Some("price")).ordering == None
    ensures ResolveAll(OrderTable, Some("totalAmount")).ordering == None
    ensures ResolveAll(ProductTable, Some("--price")).ordering == None
    ensures ResolveAll(OrderTable, Some("-total_amount")).ordering == Some("-total_amount")
  {
    AllowedAreColumnsBothWays(CustomerTable, "createdAt");
    AllowedAreColumnsBothWays(CustomerTable, "price");
    AllowedAreColumnsBothWays(OrderTable, "totalAmount");
    AllowedAreColumnsBothWays(ProductTable, "--price");
    assert "--price"[1..] == "-price";
    assert "-total_amount" == OrderOrderFields[3];
  }
}
