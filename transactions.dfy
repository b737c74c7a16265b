/**
 * transactions/transaction_manager.py: running operations on one connection
 * with autocommit off, committing only when all of them succeed, and the
 * three transactional services built on it (credit transfer, order
 * placement with an inventory check, order cancellation with a refund).
 */
module Transactions {
  import opened Wrappers
  import opened Text
  import opened Errors
  import opened Entities
  import opened Store

  // ---------------------------------------------------------------------
  // execute_in_transaction
  // ---------------------------------------------------------------------

  /** One operation run against the transaction's cursor: new tables and a result, or an exception. */
  type Step<V> = Tables -> Result<(Tables, V), Error>

  /** The steps run one after the other; the first exception stops the run. */
  function RunSteps<V>(t: Tables, steps: seq<Step<V>>): (r: Result<(Tables, seq<V>), Error>)
    ensures r.Ok? ==> |r.value.1| == |steps|
  {
    if steps == [] then Ok((t, []))
    else
      match RunSteps(t, steps[..|steps| - 1])
      case Err(e) => Err(e)
      case Ok((t1, results)) =>
        match steps[|steps| - 1](t1)
        case Err(e) => Err(e)
        case Ok((t2, v)) => Ok((t2, results + [v]))
  }

  /** Once a prefix of the steps has failed, the whole run fails with that error. */
  lemma {:induction false} FailureStops<V>(t: Tables, steps: seq<Step<V>>, i: nat, e: Error)
    requires i <= |steps| && RunSteps(t, steps[..i]) == Err(e)
    ensures RunSteps(t, steps) == Err(e)
    decreases |steps|
  {
    if i < |steps| {
      var init := steps[..|steps| - 1];
      assert init[..i] == steps[..i];
      FailureStops(t, init, i, e);
    } else {
      assert steps[..i] == steps;
    }
  }

  /** Running one more step. */
  lemma RunSnoc<V>(t: Tables, steps: seq<Step<V>>, last: Step<V>)
    ensures RunSteps(t, steps + [last]) ==
      match RunSteps(t, steps)
      case Err(e) => Err(e)
      case Ok((t1, results)) =>
        match last(t1)
        case Err(e) => Err(e)
        case Ok((t2, v)) => Ok((t2, results + [v]))
  {
    var s := steps + [last];
    assert s[..|s| - 1] == steps;
    assert s[|s| - 1] == last;
  }

  /** Three steps run as their composition. */
  lemma RunThree<V>(t: Tables, a: Step<V>, b: Step<V>, c: Step<V>)
    ensures RunSteps(t, [a, b, c]) ==
      match a(t)
      case Err(e) => Err(e)
      case Ok((t1, v1)) =>
        match b(t1)
        case Err(e) => Err(e)
        case Ok((t2, v2)) =>
          match c(t2)
          case Err(e) => Err(e)
          case Ok((t3, v3)) => Ok((t3, [v1, v2, v3]))
  {
    RunSnoc(t, [], a);
    assert [] + [a] == [a];
    RunSnoc(t, [a], b);
    assert [a] + [b] == [a, b];
    RunSnoc(t, [a, b], c);
    assert [a, b] + [c] == [a, b, c];
    assert RunSteps<V>(t, []) == Ok((t, []));
    match a(t) {
      case Err(e) =>
      case Ok((t1, v1)) =>
        assert [] + [v1] == [v1];
        match b(t1) {
          case Err(e) =>
          case Ok((t2, v2)) =>
            assert [v1] + [v2] == [v1, v2];
            match c(t2) {
              case Err(e) =>
              case Ok((t3, v3)) =>
                assert [v1, v2] + [v3] == [v1, v2, v3];
            }
        }
    }
  }

  /** A failed run failed at one step, after all steps before it succeeded. */
  lemma {:induction false} FailureHasOneCause<V>(t: Tables, steps: seq<Step<V>>)
    requires RunSteps(t, steps).Err?
    ensures exists k :: (0 <= k < |steps| && RunSteps(t, steps[..k]).Ok?
      && steps[k](RunSteps(t, steps[..k]).value.0) == Err(RunSteps(t, steps).error))
  {
    var n := |steps|;
    var init := steps[..n - 1];
    assert steps[..n - 1] == init;
    if RunSteps(t, init).Err? {
      FailureHasOneCause(t, init);
      var k :| 0 <= k < |init| && RunSteps(t, init[..k]).Ok?
        && init[k](RunSteps(t, init[..k]).value.0) == Err(RunSteps(t, init).error);
      assert init[..k] == steps[..k];
    }
  }

  /**
   * Runs every operation on one connection and commits, or rolls back and
   * passes the exception on. The committed tables change only on success.
   */
  method ExecuteInTransaction<V>(db: Database, steps: seq<Step<V>>) returns (r: Result<seq<V>, Error>)
    modifies db
    ensures r.Ok? ==> RunSteps(old(db.tables), steps) == Ok((db.tables, r.value))
    ensures r.Err? ==> RunSteps(old(db.tables), steps) == Err(r.error) && db.tables == old(db.tables)
    ensures db.open == old(db.open)
  {
    var conn := new Connection.Open(db);
    var results: seq<V> := [];
    var i := 0;
    while i < |steps|
      invariant 0 <= i <= |steps|
      invariant conn.db == db && conn.isOpen && db.tables == old(db.tables)
      invariant db.open == old(db.open) + {conn}
      invariant RunSteps(old(db.tables), steps[..i]) == Ok((conn.working, results))
    {
      assert steps[..i + 1][..i] == steps[..i];
      match steps[i](conn.working) {
        case Err(e) =>
          FailureStops(old(db.tables), steps, i + 1, e);
          conn.Rollback();
          conn.Close();
          return Err(e);
        case Ok((next, v)) =>
          conn.working := next;
          results := results + [v];
      }
      i := i + 1;
    }
    assert steps[..i] == steps;
    conn.Commit();
    conn.Close();
    r := Ok(results);
  }

  // ---------------------------------------------------------------------
  // Printing amounts in exception messages
  // ---------------------------------------------------------------------

  /** str() of a float holding a two-decimal amount: trailing zeros dropped, one digit kept. */
  function FloatText(cents: Cents): string {
    var m := if cents < 0 then -cents else cents;
    var fraction :=
      if m % 100 == 0 then "0"
      else if m % 10 == 0 then [DigitChar(m / 10 % 10)]
      else [DigitChar(m / 10 % 10), DigitChar(m % 10)];
    (if cents < 0 then "-" else "") + NatToString(m / 100) + "." + fraction
  }

  /** str() of `result[0] or 0`: a zero DECIMAL is falsy and prints as the int 0. */
  function CreditText(c: Customer): string {
    if Balance(c) == 0 then "0" else MoneyToString(Balance(c))
  }

  // ---------------------------------------------------------------------
  // transfer_customer_credit
  // ---------------------------------------------------------------------

  function SetCredit(t: Tables, id: int, credit: Option<Cents>): (r: Tables)
    requires id in t.customers
    ensures r.customers.Keys == t.customers.Keys
  {
    t.(customers := t.customers[id := t.customers[id].(creditLimit := credit)])
  }

  /** The debit operation: refuses an unknown customer or too little credit. */
  function Debit(t: Tables, fromId: int, amount: Cents): Result<(Tables, ()), Error> {
    if fromId !in t.customers then
      Err(ValueError("Customer with ID " + IntToString(fromId) + " does not exist"))
    else
      var c := t.customers[fromId];
      if Balance(c) < amount then
        Err(ValueError("Insufficient credit. Available: " + CreditText(c) + ", Requested: " + FloatText(amount)))
      else
        Ok((SetCredit(t, fromId, Some(Balance(c) - amount)), ()))
  }

  /** The credit operation; an UPDATE of a missing customer touches no row. */
  function Credit(t: Tables, toId: int, amount: Cents): Result<(Tables, ()), Error> {
    if toId in t.customers then Ok((SetCredit(t, toId, Some(Balance(t.customers[toId]) + amount)), ()))
    else Ok((t, ()))
  }

  /** The log operation; both foreign keys must hold. */
  function LogTransfer(t: Tables, fromId: int, toId: int, amount: Cents): Result<(Tables, ()), Error> {
    if fromId in t.customers && toId in t.customers then
      Ok((t.(transactionLog := t.transactionLog + [LogEntry(fromId, toId, amount)]), ()))
    else
      Err(IntegrityError("The INSERT statement conflicted with a FOREIGN KEY constraint on table TransactionLog"))
  }

  function TransferSteps(fromId: int, toId: int, amount: Cents): seq<Step<()>> {
    [t => Debit(t, fromId, amount), t => Credit(t, toId, amount), t => LogTransfer(t, fromId, toId, amount)]
  }

  /** The tables after the transfer transaction, or the exception that rolled it back. */
  function Transfer(t: Tables, fromId: int, toId: int, amount: Cents): Result<Tables, Error> {
    match RunSteps(t, TransferSteps(fromId, toId, amount))
    case Ok((t1, _)) => Ok(t1)
    case Err(e) => Err(e)
  }

  /** What the transfer does, step by step, when it commits. */
  lemma TransferUnfolds(t: Tables, fromId: int, toId: int, amount: Cents)
    ensures Transfer(t, fromId, toId, amount).Ok? <==>
      fromId in t.customers && Balance(t.customers[fromId]) >= amount && toId in t.customers
    ensures Transfer(t, fromId, toId, amount).Ok? ==>
      var t1 := Debit(t, fromId, amount).value.0;
      var t2 := Credit(t1, toId, amount).value.0;
      Transfer(t, fromId, toId, amount).value == LogTransfer(t2, fromId, toId, amount).value.0
  {
    RunThree(t, (t: Tables) => Debit(t, fromId, amount), (t: Tables) => Credit(t, toId, amount),
      (t: Tables) => LogTransfer(t, fromId, toId, amount));
  }

  /** A committed transfer moves the amount from one balance to the other. */
  lemma TransferMovesCredit(t: Tables, fromId: int, toId: int, amount: Cents)
    requires Transfer(t, fromId, toId, amount).Ok?
    ensures var after := Transfer(t, fromId, toId, amount).value;
      && after.customers.Keys == t.customers.Keys
      && (fromId != toId ==>
            Balance(after.customers[fromId]) == Balance(t.customers[fromId]) - amount
            && Balance(after.customers[toId]) == Balance(t.customers[toId]) + amount)
      && (fromId == toId ==> Balance(after.customers[fromId]) == Balance(t.customers[fromId]))
      && (forall id | id in t.customers && id != fromId && id != toId :: after.customers[id] == t.customers[id])
  {
    TransferUnfolds(t, fromId, toId, amount);
  }

  /** A committed transfer keeps the customers' total credit. */
  lemma TransferConservesCredit(t: Tables, fromId: int, toId: int, amount: Cents)
    requires Transfer(t, fromId, toId, amount).Ok?
    ensures TotalCredit(Transfer(t, fromId, toId, amount).value.customers) == TotalCredit(t.customers)
  {
    TransferUnfolds(t, fromId, toId, amount);
    DebitLowersTotal(t, fromId, amount);
    var t1 := Debit(t, fromId, amount).value.0;
    CreditRaisesTotal(t1, toId, amount);
    var t2 := Credit(t1, toId, amount).value.0;
    assert LogTransfer(t2, fromId, toId, amount).value.0.customers == t2.customers;
  }

  lemma DebitLowersTotal(t: Tables, fromId: int, amount: Cents)
    requires Debit(t, fromId, amount).Ok?
    ensures TotalCredit(Debit(t, fromId, amount).value.0.customers) == TotalCredit(t.customers) - amount
  {
    var c := t.customers[fromId];
    TotalCreditUpdate(t.customers, fromId, c.(creditLimit := Some(Balance(c) - amount)));
  }

  lemma CreditRaisesTotal(t: Tables, toId: int, amount: Cents)
    requires toId in t.customers
    ensures Credit(t, toId, amount).Ok?
    ensures TotalCredit(Credit(t, toId, amount).value.0.customers) == TotalCredit(t.customers) + amount
  {
    var c := t.customers[toId];
    TotalCreditUpdate(t.customers, toId, c.(creditLimit := Some(Balance(c) + amount)));
  }

  /** A committed transfer appends exactly one log row and touches no other table. */
  lemma TransferLogsOnce(t: Tables, fromId: int, toId: int, amount: Cents)
    requires Transfer(t, fromId, toId, amount).Ok?
    ensures var after := Transfer(t, fromId, toId, amount).value;
      && after.transactionLog == t.transactionLog + [LogEntry(fromId, toId, amount)]
      && after.products == t.products && after.orders == t.orders && after.orderItems == t.orderItems
      && after.productSuppliers == t.productSuppliers
      && after.customerSeq == t.customerSeq && after.orderSeq == t.orderSeq
  {
    TransferUnfolds(t, fromId, toId, amount);
  }

  lemma TransferKeepsValid(t: Tables, fromId: int, toId: int, amount: Cents)
    requires Valid(t) && Transfer(t, fromId, toId, amount).Ok?
    ensures Valid(Transfer(t, fromId, toId, amount).value)
  {
    TransferUnfolds(t, fromId, toId, amount);
    DebitKeepsValid(t, fromId, amount);
    var t1 := Debit(t, fromId, amount).value.0;
    CreditKeepsValid(t1, toId, amount);
    LogTransferKeepsValid(Credit(t1, toId, amount).value.0, fromId, toId, amount);
  }

  lemma DebitKeepsValid(t: Tables, fromId: int, amount: Cents)
    requires Valid(t) && Debit(t, fromId, amount).Ok?
    ensures Valid(Debit(t, fromId, amount).value.0)
  {
    SetCreditKeepsValid(t, fromId, Some(Balance(t.customers[fromId]) - amount));
  }

  lemma CreditKeepsValid(t: Tables, toId: int, amount: Cents)
    requires Valid(t)
    ensures Credit(t, toId, amount).Ok? && Valid(Credit(t, toId, amount).value.0)
  {
    if toId in t.customers {
      SetCreditKeepsValid(t, toId, Some(Balance(t.customers[toId]) + amount));
    }
  }

  lemma LogTransferKeepsValid(t: Tables, fromId: int, toId: int, amount: Cents)
    requires Valid(t) && LogTransfer(t, fromId, toId, amount).Ok?
    ensures Valid(LogTransfer(t, fromId, toId, amount).value.0)
  {
    LogAppendReferences(t.transactionLog, LogEntry(fromId, toId, amount), t.customers);
  }

  /** transfer_customer_credit: True when the transaction committed, False when it rolled back. */
  method TransferCustomerCredit(db: Database, fromId: int, toId: int, amount: Cents) returns (ok: bool)
    modifies db
    ensures ok <==> old(fromId in db.tables.customers && Balance(db.tables.customers[fromId]) >= amount
                        && toId in db.tables.customers)
    ensures ok ==> Transfer(old(db.tables), fromId, toId, amount) == Ok(db.tables)
    ensures !ok ==> db.tables == old(db.tables)
    ensures db.open == old(db.open)
  {
    TransferUnfolds(db.tables, fromId, toId, amount);
    var r := ExecuteInTransaction(db, TransferSteps(fromId, toId, amount));
    ok := r.Ok?;
  }

  // The same transfer with the UPDATE statements as written: `CreditLimit + ?`
  // and `CreditLimit - ?` leave a NULL CreditLimit NULL.

  /** SQL addition: NULL absorbs. */
  function SqlPlus(a: Option<Cents>, b: Cents): Option<Cents> {
    match a
    case None => None
    case Some(x) => Some(x + b)
  }

  function CreditAsWritten(t: Tables, toId: int, amount: Cents): Result<(Tables, ()), Error> {
    if toId in t.customers then Ok((SetCredit(t, toId, SqlPlus(t.customers[toId].creditLimit, amount)), ()))
    else Ok((t, ()))
  }

  function DebitAsWritten(t: Tables, fromId: int, amount: Cents): Result<(Tables, ()), Error> {
    if fromId !in t.customers then
      Err(ValueError("Customer with ID " + IntToString(fromId) + " does not exist"))
    else
      var c := t.customers[fromId];
      if Balance(c) < amount then
        Err(ValueError("Insufficient credit. Available: " + CreditText(c) + ", Requested: " + FloatText(amount)))
      else
        Ok((SetCredit(t, fromId, SqlPlus(c.creditLimit, -amount)), ()))
  }

  function TransferAsWritten(t: Tables, fromId: int, toId: int, amount: Cents): Result<Tables, Error> {
    var steps: seq<Step<()>> :=
      [t => DebitAsWritten(t, fromId, amount), t => CreditAsWritten(t, toId, amount), t => LogTransfer(t, fromId, toId, amount)];
    match RunSteps(t, steps)
    case Ok((t1, _)) => Ok(t1)
    case Err(e) => Err(e)
  }

  /** Two customers: one with 100.00 of credit, one whose CreditLimit is NULL. */
  const TwoCustomers := Empty.(customers := map[
    1 := Customer(customerId := Some(1), creditLimit := Some(10000)),
    2 := Customer(customerId := Some(2), creditLimit := None)], customerSeq := 3)

  lemma TotalCreditOfTwo(m: map<int, Customer>, a: Customer, b: Customer)
    requires m == map[1 := a, 2 := b]
    ensures TotalCredit(m) == Balance(a) + Balance(b)
  {
    TotalCreditRemove(m, 1);
    var rest := m - {1};
    assert rest == map[2 := b];
    TotalCreditRemove(rest, 2);
    assert rest - {2} == map[];
  }

  /**
   * Transferring 50.00 to the customer with NULL credit commits, debits the
   * sender and leaves the receiver NULL: 50.00 of credit disappears.
   */
  lemma TransferAsWrittenLosesCredit()
    ensures TransferAsWritten(TwoCustomers, 1, 2, 5000).Ok?
    ensures TotalCredit(TransferAsWritten(TwoCustomers, 1, 2, 5000).value.customers)
         == TotalCredit(TwoCustomers.customers) - 5000
  {
    var t := TwoCustomers;
    RunThree(t, (t: Tables) => DebitAsWritten(t, 1, 5000), (t: Tables) => CreditAsWritten(t, 2, 5000),
      (t: Tables) => LogTransfer(t, 1, 2, 5000));
    var after := TransferAsWritten(t, 1, 2, 5000).value;
    assert after.customers == map[1 := t.customers[1].(creditLimit := Some(5000)), 2 := t.customers[2]];
    TotalCreditOfTwo(t.customers, t.customers[1], t.customers[2]);
    TotalCreditOfTwo(after.customers, after.customers[1], after.customers[2]);
  }

  /** The corrected transfer keeps the total on the same input. */
  lemma TransferKeepsCreditOnNullReceiver()
    ensures Transfer(TwoCustomers, 1, 2, 5000).Ok?
    ensures TotalCredit(Transfer(TwoCustomers, 1, 2, 5000).value.customers) == TotalCredit(TwoCustomers.customers)
  {
    TransferUnfolds(TwoCustomers, 1, 2, 5000);
    TransferConservesCredit(TwoCustomers, 1, 2, 5000);
  }

  /** The debit as written and the corrected one agree unless the sender's credit limit is NULL. */
  lemma DebitAgreesWhenSet(t: Tables, fromId: int, amount: Cents)
    requires fromId in t.customers ==> t.customers[fromId].creditLimit.Some?
    ensures DebitAsWritten(t, fromId, amount) == Debit(t, fromId, amount)
  {
  }

  /** The credit as written and the corrected one agree unless the receiver's credit limit is NULL. */
  lemma CreditAgreesWhenSet(t: Tables, toId: int, amount: Cents)
    requires toId in t.customers ==> t.customers[toId].creditLimit.Some?
    ensures CreditAsWritten(t, toId, amount) == Credit(t, toId, amount)
  {
  }

  /**
   * Where both credit limits the transfer touches are set, the transfer as
   * written and the corrected one are the same transaction: the two differ
   * on NULL credit limits only.
   */
  lemma TransferAgreesWhenSet(t: Tables, fromId: int, toId: int, amount: Cents)
    requires fromId in t.customers ==> t.customers[fromId].creditLimit.Some?
    requires toId in t.customers ==> t.customers[toId].creditLimit.Some?
    ensures TransferAsWritten(t, fromId, toId, amount) == Transfer(t, fromId, toId, amount)
  {
    var debit := (t: Tables) => DebitAsWritten(t, fromId, amount);
    var credit := (t: Tables) => CreditAsWritten(t, toId, amount);
    var log := (t: Tables) => LogTransfer(t, fromId, toId, amount);
    RunThree(t, debit, credit, log);
    RunThree(t, TransferSteps(fromId, toId, amount)[0], TransferSteps(fromId, toId, amount)[1],
             TransferSteps(fromId, toId, amount)[2]);
    assert TransferSteps(fromId, toId, amount) == [TransferSteps(fromId, toId, amount)[0],
      TransferSteps(fromId, toId, amount)[1], TransferSteps(fromId, toId, amount)[2]];
    DebitAgreesWhenSet(t, fromId, amount);
    if Debit(t, fromId, amount).Ok? {
      CreditAgreesWhenSet(Debit(t, fromId, amount).value.0, toId, amount);
    }
  }

  /** The refund as written and the corrected one agree when the order has a total and the customer a credit limit. */
  lemma RefundAgreesWhenSet(t: Tables, customerId: Option<int>, amount: Option<Cents>)
    requires amount.Some?
    requires customerId.Some? && customerId.value in t.customers ==> t.customers[customerId.value].creditLimit.Some?
    ensures RefundAsWritten(t, customerId, amount) == Refund(t, customerId, amount)
  {
  }

  // ---------------------------------------------------------------------
  // place_order_with_inventory_check (the path that runs, lines 195-247)
  // ---------------------------------------------------------------------

  /** One entry of `order_items_data`. */
  datatype LineRequest = LineRequest(productId: int, quantity: int)

  predicate Available(products: map<int, Product>, productId: int) {
    productId in products && products[productId].inStock
  }

  function UnavailableError(products: map<int, Product>, productId: int): Error {
    if productId !in products then ValueError("Product with ID " + IntToString(productId) + " does not exist")
    else ValueError("Product " + IntToString(productId) + " is out of stock")
  }

  /** The first line whose product is missing or out of stock. */
  function FirstUnavailable(products: map<int, Product>, lines: seq<LineRequest>): (r: Option<nat>)
    ensures r.None? <==> forall i | 0 <= i < |lines| :: Available(products, lines[i].productId)
    ensures r.Some? ==> (r.value < |lines| && !Available(products, lines[r.value].productId)
      && forall i | 0 <= i < r.value :: Available(products, lines[i].productId))
  {
    if lines == [] then None
    else if !Available(products, lines[0].productId) then Some(0)
    else
      match FirstUnavailable(products, lines[1..])
      case None => None
      case Some(k) => Some(k + 1)
  }

  /**
   * check_inventory_and_reserve: raises for the first product that is
   * missing or out of stock, in the order of the lines.
   */
  method CheckInventoryAndReserve(products: map<int, Product>, lines: seq<LineRequest>) returns (problem: Option<Error>)
    ensures problem.None? <==> FirstUnavailable(products, lines).None?
    ensures problem.Some? ==>
      problem.value == UnavailableError(products, lines[FirstUnavailable(products, lines).value].productId)
  {
    var i := 0;
    while i < |lines|
      invariant 0 <= i <= |lines|
      invariant forall j | 0 <= j < i :: Available(products, lines[j].productId)
    {
      var productId := lines[i].productId;
      if productId !in products {
        FirstUnavailableIs(products, lines, i);
        return Some(ValueError("Product with ID " + IntToString(productId) + " does not exist"));
      }
      if !products[productId].inStock {
        FirstUnavailableIs(products, lines, i);
        return Some(ValueError("Product " + IntToString(productId) + " is out of stock"));
      }
      i := i + 1;
    }
    return None;
  }

  /** A line that is unavailable after only available ones is the first unavailable line. */
  lemma FirstUnavailableIs(products: map<int, Product>, lines: seq<LineRequest>, k: nat)
    requires k < |lines| && !Available(products, lines[k].productId)
    requires forall i | 0 <= i < k :: Available(products, lines[i].productId)
    ensures FirstUnavailable(products, lines) == Some(k)
  {
    var r := FirstUnavailable(products, lines);
    assert r.Some?;
    assert !(r.value < k) && !(k < r.value);
  }

  /** The row the INSERT into Orders creates, before its total is known. */
  function NewOrder(customerId: int): Order {
    Order(customerId := Some(customerId), totalAmount := Some(0), orderStatus := Some("processing"))
  }

  const NullPriceError := TypeError("unsupported operand type(s) for *: 'NoneType' and 'int'")

  /** One iteration of the item loop: read the price, add the line's amount, insert the item. */
  function AddLine(t: Tables, orderId: int, line: LineRequest): (r: Result<(Tables, Cents), Error>)
    ensures r.Ok? ==> (r.value.0.products == t.products && r.value.0.customers == t.customers
      && r.value.0.orders == t.orders)
  {
    if line.productId !in t.products then Err(TypeError("'NoneType' object is not subscriptable"))
    else
      match t.products[line.productId].price
      case None => Err(NullPriceError)
      case Some(price) =>
        var item := OrderItem(orderId := Some(orderId), productId := Some(line.productId),
                              quantity := Some(line.quantity), unitPrice := Some(price));
        Ok((InsertOrderItem(t, item).0, price * line.quantity))
  }

  function AddLines(t: Tables, orderId: int, lines: seq<LineRequest>): (r: Result<(Tables, Cents), Error>)
    ensures r.Ok? ==> (r.value.0.products == t.products && r.value.0.customers == t.customers
      && r.value.0.orders == t.orders)
  {
    if lines == [] then Ok((t, 0))
    else
      match AddLines(t, orderId, lines[..|lines| - 1])
      case Err(e) => Err(e)
      case Ok((t1, total)) =>
        match AddLine(t1, orderId, lines[|lines| - 1])
        case Err(e) => Err(e)
        case Ok((t2, amount)) => Ok((t2, total + amount))
  }

  lemma {:induction false} AddLinesStops(t: Tables, orderId: int, lines: seq<LineRequest>, i: nat, e: Error)
    requires i <= |lines| && AddLines(t, orderId, lines[..i]) == Err(e)
    ensures AddLines(t, orderId, lines) == Err(e)
    decreases |lines|
  {
    if i < |lines| {
      var init := lines[..|lines| - 1];
      assert init[..i] == lines[..i];
      AddLinesStops(t, orderId, init, i, e);
    } else {
      assert lines[..i] == lines;
    }
  }

  /** UPDATE Orders SET TotalAmount = ? WHERE OrderID = ? */
  function SetTotal(t: Tables, orderId: int, total: Cents): Tables {
    if orderId in t.orders then t.(orders := t.orders[orderId := t.orders[orderId].(totalAmount := Some(total))])
    else t
  }

  /** The tables after the order transaction commits and the new order's id, or the exception. */
  function PlaceOrder(t: Tables, customerId: int, lines: seq<LineRequest>): Result<(Tables, int), Error> {
    match FirstUnavailable(t.products, lines)
    case Some(k) => Err(UnavailableError(t.products, lines[k].productId))
    case None =>
      var (t1, orderId) := InsertOrder(t, NewOrder(customerId));
      match AddLines(t1, orderId, lines)
      case Err(e) => Err(e)
      case Ok((t2, total)) => Ok((SetTotal(t2, orderId, total), orderId))
  }

  /**
   * place_order_with_inventory_check: the order and its items are written
   * on one connection and committed together, or rolled back together.
   */
  method PlaceOrderWithInventoryCheck(db: Database, customerId: int, lines: seq<LineRequest>)
    returns (r: Result<int, Error>)
    modifies db
    ensures r.Ok? ==> PlaceOrder(old(db.tables), customerId, lines) == Ok((db.tables, r.value))
    ensures r.Err? ==> PlaceOrder(old(db.tables), customerId, lines) == Err(r.error) && db.tables == old(db.tables)
    ensures db.open == old(db.open)
  {
    var conn := new Connection.Open(db);
    var problem := CheckInventoryAndReserve(conn.working.products, lines);
    if problem.Some? {
      conn.Rollback();
      conn.Close();
      return Err(problem.value);
    }
    var inserted := InsertOrder(conn.working, NewOrder(customerId));
    var orderId := inserted.1;
    conn.working := inserted.0;
    var added := InsertOrderLines(conn, orderId, lines);
    if added.Err? {
      conn.Rollback();
      conn.Close();
      return Err(added.error);
    }
    conn.working := SetTotal(conn.working, orderId, added.value);
    conn.Commit();
    conn.Close();
    r := Ok(orderId);
  }

  /**
   * The item loop of place_order_with_inventory_check on the open
   * connection: each line reads its price, adds price times quantity to the
   * running total and inserts its item.
   */
  method InsertOrderLines(conn: Connection, orderId: int, lines: seq<LineRequest>) returns (r: Result<Cents, Error>)
    requires conn.isOpen
    modifies conn
    ensures conn.isOpen
    ensures r.Ok? ==> AddLines(old(conn.working), orderId, lines) == Ok((conn.working, r.value))
    ensures r.Err? ==> AddLines(old(conn.working), orderId, lines) == Err(r.error)
  {
    ghost var start := conn.working;
    var total := 0;
    var i := 0;
    while i < |lines|
      invariant 0 <= i <= |lines| && conn.isOpen
      invariant AddLines(start, orderId, lines[..i]) == Ok((conn.working, total))
    {
      assert lines[..i + 1][..i] == lines[..i];
      var line := lines[i];
      if line.productId !in conn.working.products {
        AddLinesStops(start, orderId, lines, i + 1, TypeError("'NoneType' object is not subscriptable"));
        return Err(TypeError("'NoneType' object is not subscriptable"));
      }
      var price := conn.working.products[line.productId].price;
      if price.None? {
        AddLinesStops(start, orderId, lines, i + 1, NullPriceError);
        return Err(NullPriceError);
      }
      total := total + price.value * line.quantity;
      var item := OrderItem(orderId := Some(orderId), productId := Some(line.productId),
                            quantity := Some(line.quantity), unitPrice := price);
      conn.working := InsertOrderItem(conn.working, item).0;
      i := i + 1;
    }
    assert lines[..i] == lines;
    return Ok(total);
  }

  /** Every product of the order exists, is in stock and has a price. */
  predicate Orderable(products: map<int, Product>, lines: seq<LineRequest>) {
    forall i | 0 <= i < |lines| :: Available(products, lines[i].productId) && products[lines[i].productId].price.Some?
  }

  /** The order's total: the sum of price times quantity over its lines. */
  function LinesTotal(products: map<int, Product>, lines: seq<LineRequest>): Cents
    requires Orderable(products, lines)
  {
    if lines == [] then 0
    else
      var last := lines[|lines| - 1];
      LinesTotal(products, lines[..|lines| - 1]) + products[last.productId].price.value * last.quantity
  }

  /** The OrderItems rows the order adds, keyed by their identities from `start` on. */
  function NewItems(start: int, orderId: int, products: map<int, Product>, lines: seq<LineRequest>): map<int, OrderItem>
    requires Orderable(products, lines)
  {
    if lines == [] then map[]
    else
      var n := |lines| - 1;
      var line := lines[n];
      NewItems(start, orderId, products, lines[..n])[start + n :=
        OrderItem(Some(start + n), Some(orderId), Some(line.productId), Some(line.quantity), products[line.productId].price)]
  }

  /** One more line adds one more row, keyed start + i. */
  lemma NewItemsSnoc(start: int, orderId: int, products: map<int, Product>, lines: seq<LineRequest>, i: nat)
    requires Orderable(products, lines) && i < |lines|
    ensures Orderable(products, lines[..i]) && Orderable(products, lines[..i + 1])
    ensures NewItems(start, orderId, products, lines[..i + 1]) == NewItems(start, orderId, products, lines[..i])[start + i :=
      OrderItem(Some(start + i), Some(orderId), Some(lines[i].productId), Some(lines[i].quantity),
                products[lines[i].productId].price)]
  {
    assert lines[..i + 1][..i] == lines[..i];
  }

  lemma {:induction false} NewItemsAt(start: int, orderId: int, products: map<int, Product>, lines: seq<LineRequest>)
    requires Orderable(products, lines)
    ensures forall id :: id in NewItems(start, orderId, products, lines) <==> start <= id < start + |lines|
    ensures forall j | 0 <= j < |lines| :: (NewItems(start, orderId, products, lines)[start + j] ==
      OrderItem(Some(start + j), Some(orderId), Some(lines[j].productId), Some(lines[j].quantity),
                products[lines[j].productId].price))
  {
    if lines != [] {
      var n := |lines| - 1;
      NewItemsAt(start, orderId, products, lines[..n]);
    }
  }

  /** One orderable line inserts its row under the next item identity. */
  lemma AddLineAdds(t: Tables, orderId: int, line: LineRequest)
    requires line.productId in t.products && t.products[line.productId].price.Some?
    ensures AddLine(t, orderId, line) == Ok((
      t.(orderItems := t.orderItems[t.itemSeq := OrderItem(Some(t.itemSeq), Some(orderId), Some(line.productId),
                                                           Some(line.quantity), t.products[line.productId].price)],
         itemSeq := t.itemSeq + 1),
      t.products[line.productId].price.value * line.quantity))
  {
  }

  /** The rows and the total the item loop produces when every line is orderable. */
  predicate AddsLines(t: Tables, orderId: int, lines: seq<LineRequest>)
    requires Orderable(t.products, lines)
  {
    AddLines(t, orderId, lines) == Ok((
      t.(orderItems := t.orderItems + NewItems(t.itemSeq, orderId, t.products, lines), itemSeq := t.itemSeq + |lines|),
      LinesTotal(t.products, lines)))
  }

  /** If the loop over all lines but the last adds its rows, the loop over all of them does. */
  lemma AddsOneMoreLine(t: Tables, orderId: int, lines: seq<LineRequest>)
    requires Orderable(t.products, lines) && lines != []
    requires Orderable(t.products, lines[..|lines| - 1]) && AddsLines(t, orderId, lines[..|lines| - 1])
    ensures AddsLines(t, orderId, lines)
  {
    var n := |lines| - 1;
    var init, last := lines[..n], lines[n];
    var earlier := NewItems(t.itemSeq, orderId, t.products, init);
    var t1 := t.(orderItems := t.orderItems + earlier, itemSeq := t.itemSeq + n);
    AddLineAdds(t1, orderId, last);
    var item := OrderItem(Some(t.itemSeq + n), Some(orderId), Some(last.productId), Some(last.quantity),
                          t.products[last.productId].price);
    UpdateAfterUnion(t.orderItems, earlier, t.itemSeq + n, item);
  }

  /** With every product orderable, the item loop inserts one row per line and sums the amounts. */
  lemma {:induction false} AddLinesAdds(t: Tables, orderId: int, lines: seq<LineRequest>)
    requires Orderable(t.products, lines)
    ensures AddLines(t, orderId, lines) == Ok((
      t.(orderItems := t.orderItems + NewItems(t.itemSeq, orderId, t.products, lines), itemSeq := t.itemSeq + |lines|),
      LinesTotal(t.products, lines)))
  {
    if lines != [] {
      var init := lines[..|lines| - 1];
      assert Orderable(t.products, init);
      AddLinesAdds(t, orderId, init);
      AddsOneMoreLine(t, orderId, lines);
    } else {
      assert t.orderItems + map[] == t.orderItems;
    }
  }

  lemma UpdateAfterUnion(m: map<int, OrderItem>, added: map<int, OrderItem>, k: int, v: OrderItem)
    ensures (m + added)[k := v] == m + added[k := v]
  {
  }

  /** The order transaction commits exactly when every line is orderable. */
  lemma PlaceOrderSucceedsIff(t: Tables, customerId: int, lines: seq<LineRequest>)
    ensures PlaceOrder(t, customerId, lines).Ok? <==> Orderable(t.products, lines)
  {
    if FirstUnavailable(t.products, lines).None? {
      var (t1, orderId) := InsertOrder(t, NewOrder(customerId));
      if Orderable(t.products, lines) {
        AddLinesAdds(t1, orderId, lines);
      } else {
        var k :| 0 <= k < |lines| && t.products[lines[k].productId].price.None?;
        var m := FirstNullPrice(t.products, lines, k);
        AddLinesStopsAtNullPrice(t1, orderId, lines, m);
      }
    }
  }

  /** The first line whose product has a NULL price, when all products exist. */
  function FirstNullPrice(products: map<int, Product>, lines: seq<LineRequest>, k: nat): (m: nat)
    requires forall i | 0 <= i < |lines| :: lines[i].productId in products
    requires k < |lines| && products[lines[k].productId].price.None?
    ensures m <= k && products[lines[m].productId].price.None?
    ensures forall i | 0 <= i < m :: products[lines[i].productId].price.Some?
    decreases k
  {
    if forall i | 0 <= i < k :: products[lines[i].productId].price.Some? then k
    else
      var j :| 0 <= j < k && products[lines[j].productId].price.None?;
      FirstNullPrice(products, lines, j)
  }

  lemma AddLinesStopsAtNullPrice(t: Tables, orderId: int, lines: seq<LineRequest>, m: nat)
    requires forall i | 0 <= i < |lines| :: Available(t.products, lines[i].productId)
    requires m < |lines| && lines[m].productId in t.products && t.products[lines[m].productId].price.None?
    requires forall i | 0 <= i < m :: lines[i].productId in t.products && t.products[lines[i].productId].price.Some?
    ensures AddLines(t, orderId, lines) == Err(NullPriceError)
  {
    var prefix := lines[..m];
    assert Orderable(t.products, prefix);
    AddLinesAdds(t, orderId, prefix);
    assert lines[..m + 1][..m] == prefix;
    AddLinesStops(t, orderId, lines, m + 1, NullPriceError);
  }

  /** The tables a committed order leaves: the order row, its items, and its total. */
  function OrderPlaced(t: Tables, customerId: int, lines: seq<LineRequest>): Tables
    requires Orderable(t.products, lines)
  {
    var orderId := t.orderSeq;
    var withOrder := t.(orders := t.orders[orderId := NewOrder(customerId).(orderId := Some(orderId))], orderSeq := orderId + 1);
    var withItems := withOrder.(orderItems := t.orderItems + NewItems(t.itemSeq, orderId, t.products, lines),
                                itemSeq := t.itemSeq + |lines|);
    SetTotal(withItems, orderId, LinesTotal(t.products, lines))
  }

  lemma PlaceOrderCommits(t: Tables, customerId: int, lines: seq<LineRequest>)
    requires Orderable(t.products, lines)
    ensures PlaceOrder(t, customerId, lines) == Ok((OrderPlaced(t, customerId, lines), t.orderSeq))
  {
    assert FirstUnavailable(t.products, lines).None?;
    var orderId := t.orderSeq;
    var t1 := t.(orders := t.orders[orderId := NewOrder(customerId).(orderId := Some(orderId))], orderSeq := orderId + 1);
    assert InsertOrder(t, NewOrder(customerId)) == (t1, orderId);
    AddLinesAdds(t1, orderId, lines);
  }

  /**
   * A committed order: one new Orders row with status 'processing' and the
   * summed total, one OrderItems row per line, nothing else changed.
   */
  lemma PlaceOrderEffect(t: Tables, customerId: int, lines: seq<LineRequest>)
    requires Orderable(t.products, lines)
    ensures PlaceOrder(t, customerId, lines).Ok?
    ensures var after := PlaceOrder(t, customerId, lines).value.0;
      && PlaceOrder(t, customerId, lines).value.1 == t.orderSeq
      && after.orders == t.orders[t.orderSeq := Order(Some(t.orderSeq), Some(customerId), None,
           Some(LinesTotal(t.products, lines)), Some("processing"), false)]
      && after.orderItems == t.orderItems + NewItems(t.itemSeq, t.orderSeq, t.products, lines)
      && after.itemSeq == t.itemSeq + |lines| && after.orderSeq == t.orderSeq + 1
      && after.customers == t.customers && after.products == t.products
      && after.transactionLog == t.transactionLog && after.productSuppliers == t.productSuppliers
  {
    PlaceOrderCommits(t, customerId, lines);
    var orderId := t.orderSeq;
    var withItems := t.(orders := t.orders[orderId := NewOrder(customerId).(orderId := Some(orderId))],
                        orderSeq := orderId + 1,
                        orderItems := t.orderItems + NewItems(t.itemSeq, orderId, t.products, lines),
                        itemSeq := t.itemSeq + |lines|);
    assert OrderPlaced(t, customerId, lines) == SetTotal(withItems, orderId, LinesTotal(t.products, lines));
  }

  lemma PlaceOrderKeepsValid(t: Tables, customerId: int, lines: seq<LineRequest>)
    requires Valid(t) && PlaceOrder(t, customerId, lines).Ok?
    ensures Valid(PlaceOrder(t, customerId, lines).value.0)
  {
    PlaceOrderSucceedsIff(t, customerId, lines);
    PlaceOrderCommits(t, customerId, lines);
    OrderPlacedValid(t, customerId, lines);
  }

  lemma OrderPlacedValid(t: Tables, customerId: int, lines: seq<LineRequest>)
    requires Valid(t) && Orderable(t.products, lines)
    ensures Valid(OrderPlaced(t, customerId, lines))
  {
    var after := OrderPlaced(t, customerId, lines);
    var added := NewItems(t.itemSeq, t.orderSeq, t.products, lines);
    NewItemsAt(t.itemSeq, t.orderSeq, t.products, lines);
    assert after.orderItems == t.orderItems + added;
    forall id | id in after.orderItems
      ensures after.orderItems[id].orderItemId == Some(id) && 0 < id < after.itemSeq
    {
      if id in added {
        var j := id - t.itemSeq;
        assert 0 <= j < |lines|;
        var line := lines[j];
        assert added[t.itemSeq + j] == OrderItem(Some(t.itemSeq + j), Some(t.orderSeq), Some(line.productId),
          Some(line.quantity), t.products[line.productId].price);
      }
    }
    assert forall id | id in after.orders :: after.orders[id].orderId == Some(id) && 0 < id < after.orderSeq;
    assert after.customers == t.customers && after.transactionLog == t.transactionLog;
  }

  // ---------------------------------------------------------------------
  // cancel_order_with_refund
  // ---------------------------------------------------------------------

  /** The refund UPDATE, NULL read as zero on both sides; no row for a NULL or unknown customer. */
  function Refund(t: Tables, customerId: Option<int>, amount: Option<Cents>): Tables {
    match customerId
    case None => t
    case Some(c) =>
      if c in t.customers then SetCredit(t, c, Some(Balance(t.customers[c]) + amount.GetOr(0))) else t
  }

  /** The refund UPDATE as written: `CreditLimit + ?` is NULL when either side is NULL. */
  function RefundAsWritten(t: Tables, customerId: Option<int>, amount: Option<Cents>): Tables {
    match customerId
    case None => t
    case Some(c) =>
      if c in t.customers then
        SetCredit(t, c, if amount.Some? then SqlPlus(t.customers[c].creditLimit, amount.value) else None)
      else t
  }

  /** The products whose items are among `itemIds`. */
  function ProductsOf(items: map<int, OrderItem>, itemIds: set<int>): set<int>
    requires itemIds <= items.Keys
  {
    set id | id in itemIds && items[id].productId.Some? :: items[id].productId.value
  }

  /** UPDATE Products SET InStock = 1 for each listed product that exists. */
  function Restock(products: map<int, Product>, productIds: set<int>): (r: map<int, Product>)
    ensures r.Keys == products.Keys
  {
    map p | p in products :: if p in productIds then products[p].(inStock := true) else products[p]
  }

  function CancelledStatus(t: Tables, orderId: int): Tables
    requires orderId in t.orders
  {
    t.(orders := t.orders[orderId := t.orders[orderId].(orderStatus := Some("cancelled"))])
  }

  /** The tables after the cancellation commits, or the exception that rolled it back. */
  function CancelOrder(t: Tables, orderId: int): (r: Result<Tables, Error>)
    ensures r.Ok? <==> orderId in t.orders && t.orders[orderId].orderStatus != Some("cancelled")
    ensures orderId !in t.orders ==> r == Err(ValueError("Order with ID " + IntToString(orderId) + " does not exist"))
    ensures orderId in t.orders && t.orders[orderId].orderStatus == Some("cancelled") ==>
      r == Err(ValueError("Order is already cancelled"))
  {
    if orderId !in t.orders then Err(ValueError("Order with ID " + IntToString(orderId) + " does not exist"))
    else
      var order := t.orders[orderId];
      if order.orderStatus == Some("cancelled") then Err(ValueError("Order is already cancelled"))
      else
        var refunded := Refund(CancelledStatus(t, orderId), order.customerId, order.totalAmount);
        var restocked := ProductsOf(refunded.orderItems, ItemsOfOrder(refunded.orderItems, orderId));
        Ok(refunded.(products := Restock(refunded.products, restocked)))
  }

  lemma RestockOneMore(products: map<int, Product>, done: set<int>, p: int)
    ensures p in products ==>
      Restock(products, done + {p}) == Restock(products, done)[p := Restock(products, done)[p].(inStock := true)]
    ensures p !in products ==> Restock(products, done + {p}) == Restock(products, done)
  {
  }

  lemma ProductsOfOneMore(items: map<int, OrderItem>, done: set<int>, id: int)
    requires done <= items.Keys && id in items
    ensures ProductsOf(items, done + {id}) ==
      ProductsOf(items, done) + (if items[id].productId.Some? then {items[id].productId.value} else {})
  {
  }

  /** cancel_order_with_refund: True when the cancellation committed, False when it rolled back. */
  method CancelOrderWithRefund(db: Database, orderId: int) returns (ok: bool)
    modifies db
    ensures ok <==> CancelOrder(old(db.tables), orderId).Ok?
    ensures ok ==> CancelOrder(old(db.tables), orderId) == Ok(db.tables)
    ensures !ok ==> db.tables == old(db.tables)
    ensures db.open == old(db.open)
  {
    var conn := new Connection.Open(db);
    if orderId !in conn.working.orders {
      conn.Rollback();
      conn.Close();
      return false;
    }
    var order := conn.working.orders[orderId];
    if order.orderStatus == Some("cancelled") {
      conn.Rollback();
      conn.Close();
      return false;
    }
    conn.working := CancelledStatus(conn.working, orderId);
    conn.working := Refund(conn.working, order.customerId, order.totalAmount);
    var items := conn.working.orderItems;
    ghost var refunded := conn.working;
    ghost var all := ItemsOfOrder(items, orderId);
    var pending := ItemsOfOrder(items, orderId);
    while pending != {}
      invariant pending <= all && all <= items.Keys
      invariant conn.db == db && conn.isOpen && db.open == old(db.open) + {conn}
      invariant conn.working == refunded.(products := Restock(refunded.products, ProductsOf(items, all - pending)))
      decreases pending
    {
      NonEmptyHasElement(pending);
      var id :| id in pending;
      var productId := items[id].productId;
      ghost var done := all - pending;
      ProductsOfOneMore(items, done, id);
      assert all - (pending - {id}) == done + {id};
      if productId.Some? {
        RestockOneMore(refunded.products, ProductsOf(items, done), productId.value);
        if productId.value in conn.working.products {
          var p := conn.working.products[productId.value];
          conn.working := conn.working.(products := conn.working.products[productId.value := p.(inStock := true)]);
        }
      }
      pending := pending - {id};
    }
    assert all - pending == all;
    conn.Commit();
    conn.Close();
    ok := true;
  }

  /** The refund credits the amount to the customer, and to nobody else. */
  lemma RefundEffect(t: Tables, customerId: Option<int>, amount: Option<Cents>)
    ensures var after := Refund(t, customerId, amount).customers;
      && after.Keys == t.customers.Keys
      && (forall c | c in t.customers && Some(c) != customerId :: after[c] == t.customers[c])
      && (customerId.Some? && customerId.value in t.customers ==>
            Balance(after[customerId.value]) == Balance(t.customers[customerId.value]) + amount.GetOr(0))
      && TotalCredit(after) == TotalCredit(t.customers)
           + (if customerId.Some? && customerId.value in t.customers then amount.GetOr(0) else 0)
  {
    if customerId.Some? && customerId.value in t.customers {
      var c := t.customers[customerId.value];
      TotalCreditUpdate(t.customers, customerId.value, c.(creditLimit := Some(Balance(c) + amount.GetOr(0))));
    }
  }

  /** A committed cancellation credits the order's total to its customer, and to nobody else. */
  lemma CancelRefunds(t: Tables, orderId: int)
    requires CancelOrder(t, orderId).Ok?
    ensures var after := CancelOrder(t, orderId).value.customers;
      var order := t.orders[orderId];
      var owner := order.customerId;
      && after.Keys == t.customers.Keys
      && (forall c | c in t.customers && Some(c) != owner :: after[c] == t.customers[c])
      && (owner.Some? && owner.value in t.customers ==>
            Balance(after[owner.value]) == Balance(t.customers[owner.value]) + order.totalAmount.GetOr(0))
      && TotalCredit(after) == TotalCredit(t.customers)
           + (if owner.Some? && owner.value in t.customers then order.totalAmount.GetOr(0) else 0)
  {
    var order := t.orders[orderId];
    var cancelled := CancelledStatus(t, orderId);
    RefundEffect(cancelled, order.customerId, order.totalAmount);
    assert CancelOrder(t, orderId).value.customers == Refund(cancelled, order.customerId, order.totalAmount).customers;
  }

  /** A committed cancellation marks the order cancelled and changes no other order. */
  lemma CancelMarksOrder(t: Tables, orderId: int)
    requires CancelOrder(t, orderId).Ok?
    ensures var after := CancelOrder(t, orderId).value;
      && after.orders == t.orders[orderId := t.orders[orderId].(orderStatus := Some("cancelled"))]
      && after.orderItems == t.orderItems && after.transactionLog == t.transactionLog
  {
  }

  /** A committed cancellation puts every product of the order back in stock and nothing else. */
  lemma CancelRestocks(t: Tables, orderId: int)
    requires CancelOrder(t, orderId).Ok?
    ensures var after := CancelOrder(t, orderId).value;
      && after.products.Keys == t.products.Keys
      && forall p | p in t.products ::
           after.products[p] == (if exists id | id in t.orderItems :: t.orderItems[id].orderId == Some(orderId)
                                                                  && t.orderItems[id].productId == Some(p)
                                 then t.products[p].(inStock := true) else t.products[p])
  {
    var after := CancelOrder(t, orderId).value;
    var ids := ItemsOfOrder(t.orderItems, orderId);
    forall p | p in t.products
      ensures p in ProductsOf(t.orderItems, ids) <==>
        exists id | id in t.orderItems :: t.orderItems[id].orderId == Some(orderId) && t.orderItems[id].productId == Some(p)
    {
      if exists id | id in t.orderItems :: t.orderItems[id].orderId == Some(orderId) && t.orderItems[id].productId == Some(p) {
        var id :| id in t.orderItems && t.orderItems[id].orderId == Some(orderId) && t.orderItems[id].productId == Some(p);
        assert id in ids;
      }
    }
  }

  /** Cancelling an order a second time is refused. */
  lemma CancelTwiceFails(t: Tables, orderId: int)
    requires CancelOrder(t, orderId).Ok?
    ensures CancelOrder(CancelOrder(t, orderId).value, orderId) == Err(ValueError("Order is already cancelled"))
  {
    CancelMarksOrder(t, orderId);
  }

  /** Changing one customer's credit keeps the store invariant. */
  lemma SetCreditKeepsValid(t: Tables, id: int, credit: Option<Cents>)
    requires Valid(t) && id in t.customers
    ensures Valid(SetCredit(t, id, credit))
  {
    LogReferencesSameKeys(t.transactionLog, t.customers, SetCredit(t, id, credit).customers);
  }

  lemma RefundKeepsValid(t: Tables, customerId: Option<int>, amount: Option<Cents>)
    requires Valid(t)
    ensures Valid(Refund(t, customerId, amount))
  {
    if customerId.Some? && customerId.value in t.customers {
      var c := customerId.value;
      var credit := Some(Balance(t.customers[c]) + amount.GetOr(0));
      SetCreditKeepsValid(t, c, credit);
      assert Refund(t, customerId, amount) == SetCredit(t, c, credit);
    }
  }

  lemma CancelledStatusKeepsValid(t: Tables, orderId: int)
    requires Valid(t) && orderId in t.orders
    ensures Valid(CancelledStatus(t, orderId))
  {
  }

  lemma RestockKeepsValid(t: Tables, productIds: set<int>)
    requires Valid(t)
    ensures Valid(t.(products := Restock(t.products, productIds)))
  {
  }

  lemma CancelKeepsValid(t: Tables, orderId: int)
    requires Valid(t) && CancelOrder(t, orderId).Ok?
    ensures Valid(CancelOrder(t, orderId).value)
  {
    var order := t.orders[orderId];
    var marked := CancelledStatus(t, orderId);
    CancelledStatusKeepsValid(t, orderId);
    var refunded := Refund(marked, order.customerId, order.totalAmount);
    RefundKeepsValid(marked, order.customerId, order.totalAmount);
    var ids := ProductsOf(refunded.orderItems, ItemsOfOrder(refunded.orderItems, orderId));
    RestockKeepsValid(refunded, ids);
  }

  /**
   * Refunding an order whose TotalAmount is NULL wipes the customer's
   * credit, and refunding into a NULL credit limit refunds nothing.
   */
  lemma RefundAsWrittenLosesCredit()
    ensures Balance(RefundAsWritten(TwoCustomers, Some(1), None).customers[1]) == 0
    ensures Balance(RefundAsWritten(TwoCustomers, Some(2), Some(5000)).customers[2]) == 0
    ensures Balance(Refund(TwoCustomers, Some(1), None).customers[1]) == 10000
    ensures Balance(Refund(TwoCustomers, Some(2), Some(5000)).customers[2]) == 5000
  {
  }
}
