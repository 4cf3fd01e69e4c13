/** `CreateCustomer.mutate` and `BulkCreateCustomers.mutate` of
    `crm/schema.py`, as functions from the store before a call to the store
    after it and the payload the call returns, with what they promise. */
module Customers {
  import opened Text
  import Phone
  import opened Records

  /** `CustomerInput`: name and email are required strings, the phone may be absent. */
  datatype CustomerInput = CustomerInput(name: string, email: string, phone: Option<string>)

  datatype CreateCustomerPayload = CreateCustomerPayload(
    customer: Option<Customer>,
    message: Option<string>,
    errors: seq<string>)

  datatype BulkCreateCustomersPayload = BulkCreateCustomersPayload(
    customers: seq<Customer>,
    errors: seq<string>)

  /** A failed check on a customer, named in the order the checks run. */
  datatype Reason = EmailExists | InvalidPhone | NameRequired | EmailRequired

  function ReasonText(r: Reason): string {
    match r
    case EmailExists => "Email already exists"
    case InvalidPhone => "Invalid phone format"
    case NameRequired => "Name is required"
    case EmailRequired => "Email is required"
  }

  /** The position of a check in the order the mutations run them. */
  function Rank(r: Reason): nat {
    match r
    case EmailExists => 0
    case InvalidPhone => 1
    case NameRequired => 2
    case EmailRequired => 3
  }

  /** `phone and not PHONE_REGEX.match(phone)`: an absent or empty phone is never checked. */
  predicate PhoneRejected(phone: Option<string>) {
    phone.Some? && phone.value != "" && !Phone.Matches(phone.value)
  }

  /** `phone or ""`. */
  function StoredPhone(phone: Option<string>): string {
    phone.GetOr("")
  }

  /** The checks of `CreateCustomer`: email uniqueness, then the phone format. */
  function CustomerReasons(cs: seq<Customer>, input: CustomerInput): seq<Reason> {
    (if EmailTaken(cs, input.email) then [EmailExists] else [])
    + (if PhoneRejected(input.phone) then [InvalidPhone] else [])
  }

  /** The checks of one bulk row: those of `CreateCustomer`, then that the
      name and the email are not empty. */
  function RowReasons(cs: seq<Customer>, input: CustomerInput): (r: seq<Reason>)
    ensures r == [] <==>
              !EmailTaken(cs, input.email) && !PhoneRejected(input.phone) && input.name != "" && input.email != ""
  {
    CustomerReasons(cs, input)
    + (if input.name == "" then [NameRequired] else [])
    + (if input.email == "" then [EmailRequired] else [])
  }

  function Texts(rs: seq<Reason>): seq<string> {
    seq(|rs|, i requires 0 <= i < |rs| => ReasonText(rs[i]))
  }

  /** The row an insert of `input` gets: the next key, the given name and
      email, the phone or `""`, and the clock reading as creation time. */
  function NewCustomer(db: Db, input: CustomerInput, now: Timestamp): Customer {
    Customer(db.nextCustomerId, input.name, input.email, StoredPhone(input.phone), now)
  }

  function AddCustomer(db: Db, input: CustomerInput, now: Timestamp): Db {
    db.(customers := db.customers + [NewCustomer(db, input, now)],
        nextCustomerId := db.nextCustomerId + 1)
  }

  const CustomerCreated: string := "Customer created"

  /** `CreateCustomer.mutate`. */
  function CreateCustomer(db: Db, input: CustomerInput, now: Timestamp): (r: Outcome<CreateCustomerPayload>)
    ensures r.payload.customer.Some? <==> r.payload.errors == []
    ensures r.payload.customer.None? ==> r.db == db && r.payload.message == None
    ensures r.payload.customer.Some? ==>
              && r.db.customers == db.customers + [r.payload.customer.value]
              && r.db.products == db.products && r.db.orders == db.orders
  {
    var reasons := CustomerReasons(db.customers, input);
    if reasons != [] then
      Outcome(db, CreateCustomerPayload(None, None, Texts(reasons)))
    else
      Outcome(AddCustomer(db, input, now),
              CreateCustomerPayload(Some(NewCustomer(db, input, now)), Some(CustomerCreated), []))
  }

  /** Inserting a customer whose email is not taken keeps the store invariant. */
  lemma AddCustomerConsistent(db: Db, input: CustomerInput, now: Timestamp)
    requires Consistent(db)
    requires !EmailTaken(db.customers, input.email)
    ensures Consistent(AddCustomer(db, input, now))
  {
    var c := NewCustomer(db, input, now);
    CustomerIdsAppend(db.customers, c);
    KeysIssuedAppend(CustomerIds(db.customers), db.nextCustomerId);
    OrdersSurviveNewCustomer(db, c);
    var cs := db.customers + [c];
    forall i, j | 0 <= i < j < |cs|
      ensures cs[i].email != cs[j].email
    {
      if j == |db.customers| {
        assert cs[i] == db.customers[i];
      }
    }
  }

  /** An email already in the store is refused, reported first, and nothing
      is written. */
  lemma CreateCustomerRejectsTakenEmail(db: Db, input: CustomerInput, now: Timestamp)
    requires EmailTaken(db.customers, input.email)
    ensures var r := CreateCustomer(db, input, now);
      && r.db == db
      && r.payload.customer == None
      && r.payload.message == None
      && |r.payload.errors| >= 1
      && r.payload.errors[0] == "Email already exists"
  {
  }

  /** The errors of `CreateCustomer` say exactly which checks failed, and a
      call either creates a customer or reports at least one error and
      writes nothing. */
  lemma CreateCustomerErrors(db: Db, input: CustomerInput, now: Timestamp)
    ensures var r := CreateCustomer(db, input, now);
      && ("Email already exists" in r.payload.errors <==> EmailTaken(db.customers, input.email))
      && ("Invalid phone format" in r.payload.errors <==> PhoneRejected(input.phone))
      && |r.payload.errors|
         == (if EmailTaken(db.customers, input.email) then 1 else 0) + (if PhoneRejected(input.phone) then 1 else 0)
      && (r.payload.customer.Some? <==> r.payload.errors == [])
      && (r.payload.customer.None? ==> r.db == db && r.payload.message == None)
  {
    var rs := CustomerReasons(db.customers, input);
    var ts := Texts(rs);
    assert forall i | 0 <= i < |ts| :: ts[i] == ReasonText(rs[i]);
    if EmailTaken(db.customers, input.email) {
      assert ts[0] == "Email already exists";
    }
    if PhoneRejected(input.phone) {
      assert ts[|ts| - 1] == "Invalid phone format";
    }
  }

  /** A successful call adds exactly one customer, carrying the given name,
      email, phone or `""` and a fresh key, and changes nothing else. */
  lemma CreateCustomerSucceeds(db: Db, input: CustomerInput, now: Timestamp)
    requires Consistent(db)
    requires !EmailTaken(db.customers, input.email)
    requires !PhoneRejected(input.phone)
    ensures var r := CreateCustomer(db, input, now);
      exists c: Customer ::
        && r.payload == CreateCustomerPayload(Some(c), Some("Customer created"), [])
        && c.name == input.name
        && c.email == input.email
        && c.phone == (if input.phone.Some? then input.phone.value else "")
        && c.createdAt == now
        && c.id !in CustomerIds(db.customers)
        && r.db.customers == db.customers + [c]
        && r.db.products == db.products
        && r.db.orders == db.orders
  {
    var c := NewCustomer(db, input, now);
    assert c.id !in CustomerIds(db.customers);
  }

  /** `CreateCustomer` keeps the store invariant. */
  lemma CreateCustomerConsistent(db: Db, input: CustomerInput, now: Timestamp)
    requires Consistent(db)
    ensures Consistent(CreateCustomer(db, input, now).db)
  {
    if CustomerReasons(db.customers, input) == [] {
      AddCustomerConsistent(db, input, now);
    }
  }

  /** After a successful call the email is taken, so any later call with the
      same email is refused with "Email already exists". */
  lemma CreateCustomerThenDuplicate(db: Db, input: CustomerInput, now: Timestamp,
                                    again: CustomerInput, later: Timestamp)
    requires CreateCustomer(db, input, now).payload.customer.Some?
    requires again.email == input.email
    ensures var r := CreateCustomer(db, input, now);
      && EmailTaken(r.db.customers, input.email)
      && CreateCustomer(r.db, again, later).payload.customer == None
      && CreateCustomer(r.db, again, later).payload.errors[0] == "Email already exists"
  {
    var c := NewCustomer(db, input, now);
    EmailTakenAppend(db.customers, c, input.email);
    CreateCustomerRejectsTakenEmail(CreateCustomer(db, input, now).db, again, later);
  }

  /** A refused call writes nothing, so repeating it, at any time, gives the
      same payload and again writes nothing. */
  lemma CreateCustomerFailureRepeats(db: Db, input: CustomerInput, now: Timestamp, later: Timestamp)
    requires CreateCustomer(db, input, now).payload.customer.None?
    ensures CreateCustomer(db, input, now).db == db
    ensures CreateCustomer(CreateCustomer(db, input, now).db, input, later) == CreateCustomer(db, input, now)
  {
  }

  // ---------------------------------------------------------------------
  // BulkCreateCustomers

  /** A failed check on the row numbered `row` (from 1). */
  datatype RowError = RowError(row: nat, reason: Reason)

  /** `f"Row {idx}: ..."`. */
  function RowMessage(e: RowError): string {
    "Row " + NatToString(e.row) + ": " + ReasonText(e.reason)
  }

  function RowMessages(es: seq<RowError>): seq<string> {
    seq(|es|, i requires 0 <= i < |es| => RowMessage(es[i]))
  }

  function RowErrors(idx: nat, rs: seq<Reason>): seq<RowError> {
    seq(|rs|, i requires 0 <= i < |rs| => RowError(idx, rs[i]))
  }

  /** How far a batch has got: the store, the customers created and the
      errors reported so far, and (kept by the model only, for stating what
      happened to each row) the numbers of the rows that were created. */
  datatype BulkState = BulkState(db: Db, created: seq<Customer>, errs: seq<RowError>, createdRows: seq<nat>)

  /** One turn of the loop, on the row numbered `idx`: a row that fails a
      check adds its errors; any other row is inserted at once. */
  function BulkStep(s: BulkState, row: CustomerInput, idx: nat, now: Timestamp): (r: BulkState)
    ensures r.errs == s.errs <==> r.created == s.created + [NewCustomer(s.db, row, now)]
    ensures r.errs == s.errs || r.created == s.created
    ensures r.db.products == s.db.products && r.db.orders == s.db.orders
  {
    var reasons := RowReasons(s.db.customers, row);
    if reasons != [] then
      s.(errs := s.errs + RowErrors(idx, reasons))
    else
      BulkState(AddCustomer(s.db, row, now), s.created + [NewCustomer(s.db, row, now)], s.errs,
                s.createdRows + [idx])
  }

  /** The loop run over `rows`, numbered from 1. */
  function BulkRun(db: Db, rows: seq<CustomerInput>, now: Timestamp): (r: BulkState)
    ensures |r.created| == |r.createdRows| <= |rows|
    ensures r.db.products == db.products && r.db.orders == db.orders
    decreases |rows|
  {
    if rows == [] then BulkState(db, [], [], [])
    else BulkStep(BulkRun(db, rows[..|rows| - 1], now), rows[|rows| - 1], |rows|, now)
  }

  /** `BulkCreateCustomers.mutate`. One clock reading stands for the creation
      time of every row of the batch. */
  function BulkCreateCustomers(db: Db, rows: seq<CustomerInput>, now: Timestamp): (r: Outcome<BulkCreateCustomersPayload>)
    ensures |r.payload.customers| <= |rows|
    ensures r.db.products == db.products && r.db.orders == db.orders
    ensures rows == [] ==> r == Outcome(db, BulkCreateCustomersPayload([], []))
  {
    var s := BulkRun(db, rows, now);
    assert s.errs == [] ==> RowMessages(s.errs) == [];
    Outcome(s.db, BulkCreateCustomersPayload(s.created, RowMessages(s.errs)))
  }

  /** The numbers of the rows that reported at least one error. */
  function FailedRows(es: seq<RowError>): set<nat> {
    set e | e in es :: e.row
  }

  /** `c` is the customer made from `row`. */
  predicate FromRow(c: Customer, row: CustomerInput, now: Timestamp) {
    c.name == row.name && c.email == row.email && c.phone == StoredPhone(row.phone) && c.createdAt == now
  }

  /** `e` comes before `f` when its row does, or within a row when its check runs first. */
  predicate ErrorBefore(e: RowError, f: RowError) {
    e.row < f.row || (e.row == f.row && Rank(e.reason) < Rank(f.reason))
  }

  lemma RowErrorsMembers(idx: nat, rs: seq<Reason>)
    ensures forall r :: RowError(idx, r) in RowErrors(idx, rs) <==> r in rs
    ensures forall e | e in RowErrors(idx, rs) :: e.row == idx
  {
    var es := RowErrors(idx, rs);
    forall r | r in rs
      ensures RowError(idx, r) in es
    {
      var i :| 0 <= i < |rs| && rs[i] == r;
      assert es[i] == RowError(idx, r);
    }
  }

  lemma FailedRowsAppend(es: seq<RowError>, idx: nat, rs: seq<Reason>)
    ensures FailedRows(es + RowErrors(idx, rs)) == FailedRows(es) + (if rs == [] then {} else {idx})
  {
    var more := RowErrors(idx, rs);
    if rs != [] {
      assert more[0] in es + more;
    }
  }

  /** The checks of a row are reported in the order they run. */
  lemma RowReasonsAscending(cs: seq<Customer>, input: CustomerInput)
    ensures var rs := RowReasons(cs, input);
      |rs| <= 4 && forall p, q | 0 <= p < q < |rs| :: Rank(rs[p]) < Rank(rs[q])
  {
  }

  /** A batch adds the customers it created, in order, after the stored ones,
      with consecutive fresh keys; it touches no other table and keeps the
      store invariant. */
  lemma {:induction false} BulkStoreEffect(db: Db, rows: seq<CustomerInput>, now: Timestamp)
    ensures var s := BulkRun(db, rows, now);
      && s.db.customers == db.customers + s.created
      && s.db.nextCustomerId == db.nextCustomerId + |s.created|
      && (forall t | 0 <= t < |s.created| :: s.created[t].id == db.nextCustomerId + t)
      && s.db.products == db.products && s.db.nextProductId == db.nextProductId
      && s.db.orders == db.orders && s.db.nextOrderId == db.nextOrderId
      && (Consistent(db) ==> Consistent(s.db))
    decreases |rows|
  {
    if rows != [] {
      var prev := BulkRun(db, rows[..|rows| - 1], now);
      BulkStoreEffect(db, rows[..|rows| - 1], now);
      var row := rows[|rows| - 1];
      if RowReasons(prev.db.customers, row) == [] {
        if Consistent(db) {
          AddCustomerConsistent(prev.db, row, now);
        }
      }
    }
  }

  /** The created customers follow input order, one per created row, each
      made from its row; every error names a row of the batch. */
  predicate CreatedFromRows(s: BulkState, rows: seq<CustomerInput>, now: Timestamp) {
    && |s.createdRows| == |s.created|
    && StrictlyIncreasing(s.createdRows)
    && (forall t | 0 <= t < |s.createdRows| ::
          1 <= s.createdRows[t] <= |rows| && FromRow(s.created[t], rows[s.createdRows[t] - 1], now))
    && (forall e | e in s.errs :: 1 <= e.row <= |rows|)
  }

  lemma CreatedFromRowsStep(prev: BulkState, rows: seq<CustomerInput>, now: Timestamp)
    requires |rows| > 0
    requires CreatedFromRows(prev, rows[..|rows| - 1], now)
    ensures CreatedFromRows(BulkStep(prev, rows[|rows| - 1], |rows|, now), rows, now)
  {
    var n := |rows|;
    var s := BulkStep(prev, rows[n - 1], n, now);
    assert forall i | 0 <= i < n - 1 :: rows[..n - 1][i] == rows[i];
    if RowReasons(prev.db.customers, rows[n - 1]) != [] {
      assert forall e | e in s.errs :: e in prev.errs || e.row == n;
    } else {
      assert s.createdRows == prev.createdRows + [n];
    }
  }

  lemma {:induction false} BulkCreatedFromRows(db: Db, rows: seq<CustomerInput>, now: Timestamp)
    ensures CreatedFromRows(BulkRun(db, rows, now), rows, now)
    decreases |rows|
  {
    if rows != [] {
      BulkCreatedFromRows(db, rows[..|rows| - 1], now);
      CreatedFromRowsStep(BulkRun(db, rows[..|rows| - 1], now), rows, now);
    }
  }

  /** Each row numbered 1 to `n` is either created or reports errors, never
      both, and so the counts add up. */
  predicate RowsPartitioned(s: BulkState, n: nat) {
    && (forall k | 1 <= k <= n :: k in s.createdRows <==> k !in FailedRows(s.errs))
    && |s.created| + |FailedRows(s.errs)| == n
  }

  lemma RowsPartitionedStep(prev: BulkState, row: CustomerInput, n: nat, now: Timestamp)
    requires n >= 1
    requires |prev.created| == |prev.createdRows|
    requires forall e | e in prev.errs :: e.row < n
    requires forall t | 0 <= t < |prev.createdRows| :: prev.createdRows[t] < n
    requires RowsPartitioned(prev, n - 1)
    ensures RowsPartitioned(BulkStep(prev, row, n, now), n)
  {
    var reasons := RowReasons(prev.db.customers, row);
    var s := BulkStep(prev, row, n, now);
    assert n !in FailedRows(prev.errs);
    assert n !in prev.createdRows;
    FailedRowsAppend(prev.errs, n, reasons);
    if reasons == [] {
      assert s.errs == prev.errs + RowErrors(n, reasons);
      assert s.createdRows == prev.createdRows + [n];
    }
  }

  /** Every row is accounted for exactly once: it is created, or it reports
      errors, never both; so the number created plus the number of rows with
      errors is the number of rows. The created customers follow input
      order, each made from its row. */
  lemma {:induction false} BulkRowAccounting(db: Db, rows: seq<CustomerInput>, now: Timestamp)
    ensures var s := BulkRun(db, rows, now);
      && CreatedFromRows(s, rows, now)
      && (forall k | 1 <= k <= |rows| :: k in s.createdRows <==> k !in FailedRows(s.errs))
      && |s.created| + |FailedRows(s.errs)| == |rows|
    decreases |rows|
  {
    BulkCreatedFromRows(db, rows, now);
    if rows != [] {
      var init := rows[..|rows| - 1];
      BulkRowAccounting(db, init, now);
      RowsPartitionedStep(BulkRun(db, init, now), rows[|rows| - 1], |rows|, now);
    }
  }

  /** Which checks a row fails. */
  lemma RowReasonsMembers(cs: seq<Customer>, input: CustomerInput)
    ensures var rs := RowReasons(cs, input);
      && (EmailExists in rs <==> EmailTaken(cs, input.email))
      && (InvalidPhone in rs <==> PhoneRejected(input.phone))
      && (NameRequired in rs <==> input.name == "")
      && (EmailRequired in rs <==> input.email == "")
  {
  }

  predicate ErrorsOrdered(es: seq<RowError>) {
    forall p, q | 0 <= p < q < |es| :: ErrorBefore(es[p], es[q])
  }

  /** A turn of the loop adds errors only for its own row, and exactly those
      of the checks the row fails. */
  lemma StepErrors(prev: BulkState, row: CustomerInput, n: nat, now: Timestamp)
    requires forall e | e in prev.errs :: e.row < n
    ensures var es := BulkStep(prev, row, n, now).errs;
      && (forall r :: RowError(n, r) in es <==> r in RowReasons(prev.db.customers, row))
      && (forall e | e !in prev.errs && e in es :: e.row == n)
      && (forall e | e in prev.errs :: e in es)
      && (forall e | e in es :: e.row <= n)
      && (ErrorsOrdered(prev.errs) ==> ErrorsOrdered(es))
  {
    var reasons := RowReasons(prev.db.customers, row);
    RowErrorsMembers(n, reasons);
    assert BulkStep(prev, row, n, now).errs == prev.errs + RowErrors(n, reasons) by {
      if reasons == [] {
        assert prev.errs + RowErrors(n, reasons) == prev.errs;
      }
    }
    if ErrorsOrdered(prev.errs) {
      RowReasonsAscending(prev.db.customers, row);
      StepErrorsOrdered(prev.errs, n, reasons);
    }
  }

  /** Appending one row's errors, in the order its checks run, after the
      errors of earlier rows keeps the list ordered. */
  lemma StepErrorsOrdered(errs: seq<RowError>, n: nat, reasons: seq<Reason>)
    requires forall e | e in errs :: e.row < n
    requires ErrorsOrdered(errs)
    requires forall i, j | 0 <= i < j < |reasons| :: Rank(reasons[i]) < Rank(reasons[j])
    ensures ErrorsOrdered(errs + RowErrors(n, reasons))
  {
    var more := RowErrors(n, reasons);
    var es := errs + more;
    forall p, q | 0 <= p < q < |es|
      ensures ErrorBefore(es[p], es[q])
    {
      if q < |errs| {
        assert es[p] == errs[p] && es[q] == errs[q];
      } else if p < |errs| {
        assert es[p] in errs;
        assert es[q] == more[q - |errs|];
      } else {
        assert es[p] == RowError(n, reasons[p - |errs|]);
        assert es[q] == RowError(n, reasons[q - |errs|]);
      }
    }
  }

  /** The error list follows input order, and within a row the order in
      which the checks run: email exists, phone, name required, email
      required. */
  lemma {:induction false} BulkErrorsOrdered(db: Db, rows: seq<CustomerInput>, now: Timestamp)
    ensures ErrorsOrdered(BulkRun(db, rows, now).errs)
    decreases |rows|
  {
    if rows != [] {
      var init := rows[..|rows| - 1];
      BulkErrorsOrdered(db, init, now);
      BulkCreatedFromRows(db, init, now);
      StepErrors(BulkRun(db, init, now), rows[|rows| - 1], |rows|, now);
    }
  }

  /** The phone, name and email-required messages of a row depend on that
      row alone: each is reported exactly when its row fails that check. */
  lemma {:induction false} BulkRowChecks(db: Db, rows: seq<CustomerInput>, now: Timestamp, k: nat)
    requires 1 <= k <= |rows|
    ensures var es := BulkRun(db, rows, now).errs;
      && (RowError(k, InvalidPhone) in es <==> PhoneRejected(rows[k - 1].phone))
      && (RowError(k, NameRequired) in es <==> rows[k - 1].name == "")
      && (RowError(k, EmailRequired) in es <==> rows[k - 1].email == "")
    decreases |rows|
  {
    var n := |rows|;
    if k < n {
      var init := rows[..n - 1];
      var prev := BulkRun(db, init, now);
      BulkCreatedFromRows(db, init, now);
      StepErrors(prev, rows[n - 1], n, now);
      BulkRowChecks(db, init, now, k);
      assert init[k - 1] == rows[k - 1];
    } else {
      BulkRowChecksLastRow(db, rows, now);
    }
  }

  /** `BulkRowChecks` for the last row of the batch. */
  lemma BulkRowChecksLastRow(db: Db, rows: seq<CustomerInput>, now: Timestamp)
    requires rows != []
    ensures var es := BulkRun(db, rows, now).errs;
      var row := rows[|rows| - 1];
      && (RowError(|rows|, InvalidPhone) in es <==> PhoneRejected(row.phone))
      && (RowError(|rows|, NameRequired) in es <==> row.name == "")
      && (RowError(|rows|, EmailRequired) in es <==> row.email == "")
  {
    var n := |rows|;
    var prev := BulkRun(db, rows[..n - 1], now);
    BulkCreatedFromRows(db, rows[..n - 1], now);
    StepErrors(prev, rows[n - 1], n, now);
    RowReasonsMembers(prev.db.customers, rows[n - 1]);
  }

  /** `email` is stored already, or was stored by a row numbered below `k`
      of this batch. */
  predicate StoredBeforeRow(db: Db, s: BulkState, k: nat, email: string) {
    || EmailTaken(db.customers, email)
    || exists t | 0 <= t < |s.created| && t < |s.createdRows| ::
         s.createdRows[t] < k && s.created[t].email == email
  }

  /** A turn of the loop can only add a customer created by row `n`, so rows
      numbered up to `n` see the same earlier writes before and after it. */
  lemma StepStoredBefore(db: Db, prev: BulkState, row: CustomerInput, n: nat, now: Timestamp, k: nat, email: string)
    requires |prev.created| == |prev.createdRows|
    requires k <= n
    ensures StoredBeforeRow(db, BulkStep(prev, row, n, now), k, email) <==> StoredBeforeRow(db, prev, k, email)
  {
    var s := BulkStep(prev, row, n, now);
    assert forall t | 0 <= t < |prev.created| :: s.created[t] == prev.created[t] && s.createdRows[t] == prev.createdRows[t];
    if |s.created| > |prev.created| {
      assert s.createdRows[|prev.created|] == n;
    }
  }

  /** The uniqueness check sees the batch's own writes: row `k` reports
      "Email already exists" exactly when its email was stored before the
      batch or by an earlier row of it. */
  lemma {:induction false} BulkEmailExists(db: Db, rows: seq<CustomerInput>, now: Timestamp, k: nat)
    requires 1 <= k <= |rows|
    ensures var s := BulkRun(db, rows, now);
      RowError(k, EmailExists) in s.errs <==> StoredBeforeRow(db, s, k, rows[k - 1].email)
    decreases |rows|
  {
    var n := |rows|;
    if k < n {
      var init := rows[..n - 1];
      var prev := BulkRun(db, init, now);
      BulkCreatedFromRows(db, init, now);
      StepErrors(prev, rows[n - 1], n, now);
      StepStoredBefore(db, prev, rows[n - 1], n, now, k, rows[k - 1].email);
      BulkEmailExists(db, init, now, k);
      assert init[k - 1] == rows[k - 1];
    } else {
      BulkEmailExistsLastRow(db, rows, now);
    }
  }

  /** `BulkEmailExists` for the last row of the batch. */
  lemma BulkEmailExistsLastRow(db: Db, rows: seq<CustomerInput>, now: Timestamp)
    requires rows != []
    ensures var s := BulkRun(db, rows, now);
      RowError(|rows|, EmailExists) in s.errs <==> StoredBeforeRow(db, s, |rows|, rows[|rows| - 1].email)
  {
    var n := |rows|;
    var init := rows[..n - 1];
    var prev := BulkRun(db, init, now);
    var row := rows[n - 1];
    BulkCreatedFromRows(db, init, now);
    StepErrors(prev, row, n, now);
    RowReasonsMembers(prev.db.customers, row);
    StepStoredBefore(db, prev, row, n, now, n, row.email);
    BulkStoreEffect(db, init, now);
    StoredBeforeAll(db, prev, n, row.email);
  }

  /** When every created row is numbered below `n`, "stored before row `n`"
      is "taken in the store the batch has built so far". */
  lemma StoredBeforeAll(db: Db, s: BulkState, n: nat, email: string)
    requires |s.created| == |s.createdRows|
    requires forall t | 0 <= t < |s.createdRows| :: s.createdRows[t] < n
    ensures StoredBeforeRow(db, s, n, email) <==> EmailTaken(db.customers + s.created, email)
  {
    EmailTakenConcat(db.customers, s.created, email);
  }

  lemma EmailTakenConcat(cs: seq<Customer>, more: seq<Customer>, email: string)
    ensures EmailTaken(cs + more, email) <==>
              EmailTaken(cs, email) || exists t | 0 <= t < |more| :: more[t].email == email
  {
    if EmailTaken(cs, email) {
      var i :| 0 <= i < |cs| && cs[i].email == email;
      assert (cs + more)[i].email == email;
    }
    if exists t | 0 <= t < |more| :: more[t].email == email {
      var t :| 0 <= t < |more| && more[t].email == email;
      assert (cs + more)[|cs| + t].email == email;
    }
  }

  /** The first row of a batch with an email that is not stored yet, and
      that passes its other checks, is created. */
  lemma BulkFirstWithEmailCreated(db: Db, rows: seq<CustomerInput>, now: Timestamp, i: nat)
    requires i < |rows|
    requires !EmailTaken(db.customers, rows[i].email)
    requires forall h | 0 <= h < i :: rows[h].email != rows[i].email
    requires rows[i].name != "" && rows[i].email != "" && !PhoneRejected(rows[i].phone)
    ensures var s := BulkRun(db, rows, now);
      && i + 1 in s.createdRows
      && i + 1 !in FailedRows(s.errs)
  {
    var s := BulkRun(db, rows, now);
    var e := rows[i].email;
    BulkRowAccounting(db, rows, now);
    forall t | 0 <= t < |s.created| && s.createdRows[t] < i + 1
      ensures s.created[t].email != e
    {
      assert FromRow(s.created[t], rows[s.createdRows[t] - 1], now);
    }
    assert !StoredBeforeRow(db, s, i + 1, e);
    BulkEmailExists(db, rows, now, i + 1);
    BulkRowChecks(db, rows, now, i + 1);
    forall f | f in s.errs
      ensures f.row != i + 1
    {
      if f.row == i + 1 {
        assert f == RowError(i + 1, f.reason);
        match f.reason
        case EmailExists =>
        case InvalidPhone =>
        case NameRequired =>
        case EmailRequired =>
      }
    }
  }

  /** Two rows of a batch share an email that is not stored yet. If the
      earlier one is the first row with that email and passes its other
      checks, it is created, and the later one reports "Email already exists"
      because the uniqueness check sees the earlier row's insert. */
  lemma BulkDuplicateEmail(db: Db, rows: seq<CustomerInput>, now: Timestamp, i: nat, j: nat)
    requires i < j < |rows|
    requires rows[i].email == rows[j].email
    requires !EmailTaken(db.customers, rows[i].email)
    requires forall h | 0 <= h < i :: rows[h].email != rows[i].email
    requires rows[i].name != "" && rows[i].email != "" && !PhoneRejected(rows[i].phone)
    ensures var out := BulkCreateCustomers(db, rows, now).payload;
      && (exists c | c in out.customers :: FromRow(c, rows[i], now))
      && RowMessage(RowError(j + 1, EmailExists)) in out.errors
  {
    var s := BulkRun(db, rows, now);
    BulkFirstWithEmailCreated(db, rows, now, i);
    BulkCreatedRowStored(db, rows, now, i, j);
    BulkEmailExists(db, rows, now, j + 1);
    ErrorReported(s.errs, RowError(j + 1, EmailExists));
  }

  /** A created row's customer is in the batch's result, and its email counts
      as stored for every later row. */
  lemma BulkCreatedRowStored(db: Db, rows: seq<CustomerInput>, now: Timestamp, i: nat, j: nat)
    requires i < j < |rows|
    requires i + 1 in BulkRun(db, rows, now).createdRows
    ensures var s := BulkRun(db, rows, now);
      && (exists c | c in s.created :: FromRow(c, rows[i], now))
      && StoredBeforeRow(db, s, j + 1, rows[i].email)
  {
    var s := BulkRun(db, rows, now);
    BulkCreatedFromRows(db, rows, now);
    var t :| 0 <= t < |s.createdRows| && s.createdRows[t] == i + 1;
    assert FromRow(s.created[t], rows[i], now);
    assert s.created[t] in s.created;
  }

  /** Every error of a run appears, as its message, in the payload. */
  lemma ErrorReported(es: seq<RowError>, e: RowError)
    requires e in es
    ensures RowMessage(e) in RowMessages(es)
  {
    var p :| 0 <= p < |es| && es[p] == e;
    assert RowMessages(es)[p] == RowMessage(e);
  }

  lemma ReasonTextInjective(a: Reason, b: Reason)
    requires ReasonText(a) == ReasonText(b)
    ensures a == b
  {
  }

  /** The row number in a message ends where ": " starts. */
  lemma RowPrefixSplits(d1: string, t1: string, d2: string, t2: string)
    requires AllDigits(d1) && AllDigits(d2)
    requires "Row " + d1 + ": " + t1 == "Row " + d2 + ": " + t2
    ensures d1 == d2 && t1 == t2
  {
    var m := "Row " + d1 + ": " + t1;
    assert m[4..] == d1 + (": " + t1);
    assert m[4..] == d2 + (": " + t2);
    LeadingDigitsOf(d1, ": " + t1);
    LeadingDigitsOf(d2, ": " + t2);
    assert d1 == m[4..][..|d1|];
    assert d2 == m[4..][..|d2|];
    assert t1 == m[4..][|d1| + 2..];
    assert t2 == m[4..][|d2| + 2..];
  }

  /** A message names its row and its check unambiguously, so the flat list
      of strings carries the same information as the list of row errors. */
  lemma RowMessageInjective(e: RowError, f: RowError)
    requires RowMessage(e) == RowMessage(f)
    ensures e == f
  {
    RowPrefixSplits(NatToString(e.row), ReasonText(e.reason), NatToString(f.row), ReasonText(f.reason));
    NatToStringInjective(e.row, f.row);
    ReasonTextInjective(e.reason, f.reason);
  }
}
