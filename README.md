# CRM write pipeline, modelled and proved in Dafny

This project models the validated write path of a small GraphQL CRM: the
customer, product and order mutations of `crm/schema.py`, the phone-number
pattern they check, and the `orderBy` allow-lists of the three list queries.
The store is three tables (customers, products, orders) with auto-increment
keys. Each mutation runs its checks in a fixed order and collects error
messages. A single create writes nothing when any check fails; a bulk create
checks its rows one at a time and inserts every row that passes, even when
other rows of the batch fail.

The model has two layers.

- **Specification functions** (`Customers`, `Products`, `Orders`) map the
  store before a call (a `Db` value) and the call's arguments to the store
  after it and the payload returned (`Outcome`). Lemmas about these
  functions state what the mutations promise:
  - which error is reported exactly when;
  - the order of the messages;
  - what a successful call writes;
  - that a refused call writes nothing;
  - that the store invariant `Records.Consistent` is kept. The invariant
    covers increasing keys below the counter, unique emails, and orders
    that refer to stored customers and products and whose total is the sum
    of their prices.
- **The running store** (`Storage.Store`) is a class. Its fields are the
  tables and the key counters, and its methods update them in place, as
  the mutations do:
  - error lists are built by appending;
  - bulk creation is a `while` loop that inserts row by row;
  - an order is inserted first, then gets its products, then its total.

  Each method is proved to produce exactly the store and payload of its
  specification function, and to keep `Valid()`.

Money is counted in cents, keys are natural numbers, and the clock is an
argument `now`.

Two details of the code are easy to miss:

- The `orderBy` allow-lists hold snake_case names (`created_at`,
  `-total_amount`, ...), so a camelCase value such as `createdAt` is
  ignored like any other value not on the list.
- `PHONE_REGEX.match` uses `$` without the MULTILINE flag. In Python that
  `$` also matches just before a final newline, so a valid number followed
  by one `"\n"` passes the check and is stored with the newline. See
  `Phone.Matches` and `Phone.TrailingNewlineAccepted`.

## Model

| member | source | states |
|---|---|---|
| Text.NatToString | crm/schema.py:98-104 | The row number in a message is rendered as Python's `str` does: at least one digit, all digits, no leading zero. |
| Text.NatToStringRoundTrip | crm/schema.py:98-104 | Reading the digits of a rendered row number back gives the number. |
| Text.NatToStringInjective | crm/schema.py:98-104 | Different row numbers render differently. |
| Text.SortedDistinct | crm/schema.py:161-163 | `sorted(set(...))`: the result is strictly ascending and has exactly the elements of the input. |
| Text.StrictlyIncreasingUnique | crm/schema.py:161-163 | Two strictly ascending sequences with the same elements are equal, so the sorted listing of a set is unique. |
| Text.SortedDistinctOfSameElems | crm/schema.py:161-163 | The sorted, de-duplicated listing depends only on which keys occur, not on their order or repetition. |
| Phone.Matches | crm/schema.py:14 | `PHONE_REGEX.match`: an accepted string has at least 8 characters, starts with `+` or a digit, and holds only digits and hyphens apart from that leading `+` and one final newline. |
| Phone.ShapeOfParts | crm/schema.py:14 | Every optional `+`, then a digit, at least six digits or hyphens and a digit, has the accepted shape. |
| Phone.PartsOfShape | crm/schema.py:14 | Every string of the accepted shape splits into those pieces (the converse). |
| Phone.MatchesIffShapeWithoutFinalNewline | crm/schema.py:14 | The pattern accepts a string exactly when it has the shape once at most one final newline is dropped. |
| Phone.TrailingNewlineAccepted | crm/schema.py:14 | A valid number followed by one newline is accepted; followed by two it is refused. |
| Phone.MalformedNumbersRejected | crm/schema.py:14 | Too short, a letter or a space inside, a hyphen at either end, or a doubled sign are refused. |
| Phone.SeedNumbersAccepted | seed_db.py:12-13 | The two phone numbers the seed script stores pass the check. |
| Records.FoundProducts | crm/schema.py:160 | `filter(pk__in=ids)` returns exactly the stored rows whose key is requested. |
| Records.FoundIds | crm/schema.py:160-161 | The keys found are the requested keys that are stored. |
| Records.FoundProductsAscending | crm/schema.py:160 | In a table with increasing keys the found rows come in increasing key order, each once. |
| Records.SumPrices | crm/schema.py:173 | `sum(p.price for p in products)`: when no price is negative, the total is not negative and is at least each product's price. |
| Records.EmptyDbConsistent | models.py:3-26 | An empty database satisfies the store invariant. |
| Records.EmailTakenAppend | crm/schema.py:74 | After a customer is inserted, an email is taken exactly when it was taken before or is the new customer's. |
| Records.OrdersSurviveNewProduct | crm/schema.py:136 | Inserting a product under a fresh key leaves every stored order consistent. |
| Records.OrdersSurviveNewCustomer | crm/schema.py:81 | Inserting a customer leaves every stored order consistent. |
| Customers.CreateCustomer | crm/schema.py:71-82 | A call either creates a customer and reports no error, or reports at least one error with no message and writes nothing. A created customer is appended to the customers; products and orders are unchanged. |
| Customers.CreateCustomerErrors | crm/schema.py:72-80 | "Email already exists" is reported exactly when the email is stored. "Invalid phone format" is reported exactly when a non-empty phone fails the pattern. There is one message per failed check and no other. Any error means no customer, no message and no write. |
| Customers.CreateCustomerRejectsTakenEmail | crm/schema.py:74-80 | A stored email is refused with "Email already exists" as the first error, and nothing is written. |
| Customers.CreateCustomerSucceeds | crm/schema.py:81-82 | Valid input adds one customer after the stored ones, with the given name and email, the phone or `""`, a fresh key and the clock's time. The message is "Customer created", there are no errors, and no other table changes. |
| Customers.AddCustomerConsistent | crm/schema.py:81 | Inserting a customer whose email is not taken keeps the store invariant. |
| Customers.CreateCustomerConsistent | crm/schema.py:71-82 | `CreateCustomer` keeps the store invariant. |
| Customers.CreateCustomerThenDuplicate | crm/schema.py:74-81 | After a successful call the email is taken, and any later call with it is refused with "Email already exists". |
| Customers.CreateCustomerFailureRepeats | crm/schema.py:79-80 | A refused call writes nothing, so repeating it at any time gives the same payload. |
| Customers.RowReasons | crm/schema.py:96-104 | A row has no failed check exactly when its email is not stored, its phone is absent, empty or well-formed, and its name and email are not empty. |
| Customers.BulkStep | crm/schema.py:96-111 | One row either reports errors and creates nothing, or reports nothing and creates exactly the customer made from it under the next key. Products and orders are unchanged. |
| Customers.BulkRun | crm/schema.py:95-111 | The loop creates at most one customer per row and records the row of each, and leaves products and orders unchanged. |
| Customers.BulkCreateCustomers | crm/schema.py:91-112 | A batch creates at most as many customers as it has rows and changes no other table. An empty batch creates nothing, reports nothing and writes nothing. |
| Customers.RowReasonsMembers | crm/schema.py:97-104 | A row reports each of its four checks exactly when that check fails. |
| Customers.RowReasonsAscending | crm/schema.py:96-104 | A row's messages come in check order (email exists, phone, name required, email required), at most four. |
| Customers.BulkStoreEffect | crm/schema.py:106-111 | A batch appends its created customers, in order, to the stored ones, with consecutive fresh keys. It changes no other table and keeps the store invariant. |
| Customers.BulkCreatedFromRows | crm/schema.py:95-111 | The created customers follow input order and each is made from its own row. Every error names a row of the batch. |
| Customers.BulkRowAccounting | crm/schema.py:106-111 | Every row is either created or reports errors, never both. The number created plus the number of failing rows is the number of rows. |
| Customers.BulkErrorsOrdered | crm/schema.py:95-107 | The flat error list is ordered by row number, and within a row by check order. |
| Customers.BulkRowChecks | crm/schema.py:99-104 | A row's phone, name-required and email-required messages are reported exactly when that row fails that check. |
| Customers.BulkEmailExists | crm/schema.py:97-98 | A row reports "Email already exists" exactly when its email was stored before the batch or was inserted by an earlier row of it. |
| Customers.BulkFirstWithEmailCreated | crm/schema.py:97-111 | The first row carrying an email not stored yet, if it passes its other checks, is created and reports no error. |
| Customers.BulkDuplicateEmail | crm/schema.py:97-111 | Two rows share an email not stored yet, and the earlier one is valid and the first with that email. Then the earlier row's customer is in the result and the later row reports "Row j: Email already exists". |
| Customers.RowMessageInjective | crm/schema.py:98-104 | A message "Row n: text" determines its row and its check, so the flat strings lose nothing. |
| Products.CreateProduct | crm/schema.py:120-137 | A call either creates a product and reports no error, or reports an error and writes nothing. A created product is appended to the products; customers and orders are unchanged. |
| Products.CreateProductErrors | crm/schema.py:121-134 | "Invalid price" is reported exactly when the price does not parse. "Price must be positive" is reported exactly when it is at most 0. "Stock cannot be negative" is reported exactly when a given stock is below 0. Price comes before stock, there is one message per failed check and no other, and any error means no product and no write. |
| Products.CreateProductSucceeds | crm/schema.py:129-137 | Valid input adds one product with the given name and price, the stock or 0 when absent, and a fresh key. Nothing else changes. |
| Products.CreateProductConsistent | crm/schema.py:136 | `CreateProduct` keeps the store invariant. |
| Products.PriceBoundaryExamples | crm/schema.py:123-125 | Prices 0.00 and -5.00 are refused with exactly "Price must be positive" and no write; 0.01 is accepted. |
| Products.CreateProductFailureRepeats | crm/schema.py:133-134 | A refused call writes nothing, so repeating it gives the same result. |
| Orders.CreateOrder | crm/schema.py:148-176 | Every call returns either an order and no error, or no order, exactly one error and an unchanged store. A created order is appended to the orders; customers and products are unchanged. |
| Orders.MissingMessage | crm/schema.py:163 | The message is "Invalid product ID(s): " followed by a strictly ascending listing of exactly the missing keys. |
| Orders.MissingIds | crm/schema.py:161 | The missing keys are exactly the requested keys minus the keys found. |
| Orders.CreateOrderUnknownCustomer | crm/schema.py:150-154 | An unknown customer is reported alone as "Invalid customer ID", with no order and no write, whatever products are requested. |
| Orders.CreateOrderNoProducts | crm/schema.py:156-158 | For a known customer, an empty product list is reported alone as "At least one product must be provided", with no write. |
| Orders.CreateOrderMissingProducts | crm/schema.py:160-164 | Unknown product keys give one message, "Invalid product ID(s): " followed by exactly the unknown keys, ascending and each once. There is no write. |
| Orders.CreateOrderSucceeds | crm/schema.py:166-176 | A valid request creates one order, under the next key, for the customer. Its products are the set of requested keys, so duplicates collapse. Its total is the sum of the stored prices of those distinct products. Its date is the given one or else the clock's. Customers and products are unchanged. |
| Orders.SumPricesByKey | crm/schema.py:173 | Summing the prices of the found rows equals summing the stored price of each found key. |
| Orders.CreateOrderConsistent | crm/schema.py:169-175 | `CreateOrder` keeps the store invariant: the new order refers to a stored customer and stored products, and its total is their sum. |
| Orders.CreateOrderDependsOnKeySet | crm/schema.py:160-163 | Repeating or reordering requested keys does not change the result. |
| Orders.CreateOrderFailureRepeats | crm/schema.py:150-164 | A refused call writes nothing and does not depend on the clock. |
| OrderExamples.SampleOrderTotal | crm/schema.py:169-175 | An order for products at 10.00 and 5.50 has total 15.50, the next key, and the clock's date. |
| OrderExamples.SampleOrderUnknownProduct | crm/schema.py:160-164 | Requesting keys 1 and 999 when only 1 and 2 exist is refused with "Invalid product ID(s): 999". |
| Queries.ResolveAll | crm/schema.py:202-218 | A resolver only ever orders by a sortable column of its table, ascending or after one `-` for descending. |
| Queries.AllowedListsAreBothWays | crm/schema.py:179-181 | Each allow-list is its table's sortable columns, each ascending and then with a leading `-`. |
| Queries.AllowedAreColumnsBothWays | crm/schema.py:179-181 | A value is allowed exactly when it is a sortable column of the table, or such a column after one `-`. |
| Queries.ResolveAllOrdering | crm/schema.py:202-218 | A resolver applies the requested ordering exactly when it is allowed, and otherwise keeps the default. It never fails. Only orders are made distinct. |
| Queries.UnknownOrderingsIgnored | crm/schema.py:202-218 | camelCase names, another table's column and a doubled sign are ignored, while "-total_amount" orders the orders. |
| Storage.Store.InsertCustomer | crm/schema.py:109-110 | The insert appends one row under the next key and advances the counter; the other tables stay as they were. |
| Storage.Store.CreateCustomer | crm/schema.py:71-82 | The in-place mutation leaves exactly the store and returns exactly the payload of `Customers.CreateCustomer`, and keeps the invariant. |
| Storage.Store.RowCheck | crm/schema.py:96-104 | The row's messages, built by appending, are exactly the "Row n: ..." messages of the checks the row fails against the current customers, in check order. |
| Storage.Store.BulkCreateCustomers | crm/schema.py:91-112 | The loop leaves exactly the store and returns exactly the payload of `Customers.BulkCreateCustomers`, and keeps the invariant. |
| Storage.Store.CreateProduct | crm/schema.py:120-137 | The in-place mutation matches `Products.CreateProduct` and keeps the invariant. |
| Storage.Store.CreateOrder | crm/schema.py:148-176 | The order is inserted, then its products are set, then its total is saved. The final store and payload are exactly those of `Orders.CreateOrder`, and the invariant holds. |

## Left out

- `\d` in the phone pattern is modelled as the ASCII digits `0`-`9`. Python's `\d` on a `str` pattern also matches other Unicode decimal digits.
- Field limits of the Django models (`max_length`, the email format of `EmailField`, `max_digits=10` on prices and totals) are not enforced, so the model has no error for an over-long value or a total too large for its column.
- Prices are whole cents. `decimal.Decimal(str(price))` failing is modelled as an absent price, including a `NaN` whose comparison with 0 raises. Sub-cent precision and infinite amounts are not modelled.
- `customer_id` and `product_ids` arrive as GraphQL ID strings and go through `int(...)`. The model takes natural numbers. In the source a negative id is reported like any unknown one (`Customer.objects.get` raises `DoesNotExist`, caught as "Invalid customer ID"; an unknown product key such as -3 is listed in "Invalid product ID(s): ...", before the positive ones); the model has no negative keys and so no such input. Only a non-numeric id raises, and that is not modelled.
- `transaction.atomic()` and concurrency: calls are modelled one at a time, and no statement fails half-way, so there is no rollback to model.
- The clock (`timezone.now()` and the `auto_now_add` timestamps) is the argument `now`.
- Customers.BulkCreateCustomers: one clock reading stands for the creation time of every row of a batch, where the source reads the clock at each insert.
- Orders.CreateOrder: the order date is the given date or else `now`, as `crm/schema.py` sets it. `models.py:26` declares `auto_now_add=True` on `order_date`, which in Django would replace a given date at insert. The models module the schema imports (`crm/models.py`) is not part of this model.
- The `Order.save` override in `models.py:28-33` is not modelled. On the first save it reads `self.products.all()` while `self.pk` is still `None`, which Django refuses with a `ValueError` (a many-to-many relation cannot be used before the instance has a key), so as written it would make `Order.objects.create` fail. The model follows `crm/schema.py`: the order is inserted, its products are set, and the total computed there is saved.
- Query results are described by table, distinctness and ordering field; rows are not sorted. Whether Django can resolve an allowed field is not checked. `models.py` declares no `created_at` on products or orders, although both allow-lists admit it.
- GraphQL and Django plumbing (types, relay nodes, the filtersets of `crm/filters.py`, connection pagination, `resolve_hello`) and the cron jobs and the seed script are outside the write pipeline.
