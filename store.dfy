/**
 * The SQL Server database the repositories, services and the transaction
 * manager work on: the Customers, Products, Orders, OrderItems,
 * ProductSuppliers and TransactionLog tables, each keyed by its IDENTITY
 * column, and the statements the core issues, as pure functions from the
 * tables before to the tables after. A `Database` holds the committed
 * tables; a `Connection` with autocommit off works on its own copy until it
 * commits or rolls back, as pyodbc does.
 */
module Store {
  import opened Wrappers
  import opened Errors
  import opened Entities

  /** A row of TransactionLog (transactions/transaction_manager.py:339-347); the date is server-filled. */
  datatype LogEntry = LogEntry(fromCustomerId: int, toCustomerId: int, amount: Cents)

  datatype Tables = Tables(
    customers: map<int, Customer>,
    products: map<int, Product>,
    orders: map<int, Order>,
    orderItems: map<int, OrderItem>,
    /** ProductSuppliers as (ProductID, SupplierID) pairs. */
    productSuppliers: set<(int, int)>,
    transactionLog: seq<LogEntry>,
    /** The next value of each table's IDENTITY(1,1) column. */
    customerSeq: int,
    productSeq: int,
    orderSeq: int,
    itemSeq: int)

  /**
   * Every row carries its own key as its id, keys are positive and were handed out by the
   * table's IDENTITY counter (which starts at 1), and both foreign keys of TransactionLog
   * (transactions/transaction_manager.py:345-346) point at a customer.
   */
  ghost predicate Valid(t: Tables) {
    && 1 <= t.customerSeq && 1 <= t.productSeq && 1 <= t.orderSeq && 1 <= t.itemSeq
    && (forall id | id in t.customers :: t.customers[id].customerId == Some(id) && 0 < id < t.customerSeq)
    && (forall id | id in t.products :: t.products[id].productId == Some(id) && 0 < id < t.productSeq)
    && (forall id | id in t.orders :: t.orders[id].orderId == Some(id) && 0 < id < t.orderSeq)
    && (forall id | id in t.orderItems :: t.orderItems[id].orderItemId == Some(id) && 0 < id < t.itemSeq)
    && LogReferencesCustomers(t.transactionLog, t.customers)
  }

  ghost predicate LogReferencesCustomers(log: seq<LogEntry>, customers: map<int, Customer>) {
    forall i | 0 <= i < |log| :: log[i].fromCustomerId in customers && log[i].toCustomerId in customers
  }

  /** The log's foreign keys depend only on which customers exist. */
  lemma LogReferencesSameKeys(log: seq<LogEntry>, a: map<int, Customer>, b: map<int, Customer>)
    requires a.Keys == b.Keys && LogReferencesCustomers(log, a)
    ensures LogReferencesCustomers(log, b)
  {
    forall i | 0 <= i < |log|
      ensures log[i].fromCustomerId in b && log[i].toCustomerId in b
    {
      assert log[i].fromCustomerId in a && log[i].toCustomerId in a;
    }
  }

  /** Appending a row whose two customers exist keeps the log's foreign keys. */
  lemma LogAppendReferences(log: seq<LogEntry>, e: LogEntry, customers: map<int, Customer>)
    requires LogReferencesCustomers(log, customers)
    requires e.fromCustomerId in customers && e.toCustomerId in customers
    ensures LogReferencesCustomers(log + [e], customers)
  {
    forall i | 0 <= i < |log + [e]|
      ensures (log + [e])[i].fromCustomerId in customers && (log + [e])[i].toCustomerId in customers
    {
      if i < |log| {
        assert (log + [e])[i] == log[i];
      }
    }
  }

  /** Whether some TransactionLog row refers to the customer. */
  predicate Referenced(log: seq<LogEntry>, customerId: int) {
    exists i | 0 <= i < |log| :: log[i].fromCustomerId == customerId || log[i].toCustomerId == customerId
  }

  const Empty := Tables(map[], map[], map[], map[], {}, [], 1, 1, 1, 1)

  lemma EmptyValid()
    ensures Valid(Empty)
  {
  }

  // ---------------------------------------------------------------------
  // INSERT: the row gets the next identity; server-filled dates stay NULL.
  // ---------------------------------------------------------------------

  function InsertCustomer(t: Tables, c: Customer): (r: (Tables, int))
    ensures r.1 == t.customerSeq && r.1 !in t.customers ==> r.0.customers.Keys == t.customers.Keys + {r.1}
  {
    var id := t.customerSeq;
    (t.(customers := t.customers[id := c.(customerId := Some(id), registrationDate := None)],
        customerSeq := id + 1), id)
  }

  function InsertProduct(t: Tables, p: Product): (r: (Tables, int))
    ensures r.1 == t.productSeq && r.1 !in t.products ==> r.0.products.Keys == t.products.Keys + {r.1}
  {
    var id := t.productSeq;
    (t.(products := t.products[id := p.(productId := Some(id), createdDate := None)], productSeq := id + 1), id)
  }

  function InsertOrder(t: Tables, o: Order): (r: (Tables, int))
    ensures r.1 == t.orderSeq && r.1 !in t.orders ==> r.0.orders.Keys == t.orders.Keys + {r.1}
  {
    var id := t.orderSeq;
    (t.(orders := t.orders[id := o.(orderId := Some(id), orderDate := None)], orderSeq := id + 1), id)
  }

  function InsertOrderItem(t: Tables, item: OrderItem): (r: (Tables, int))
    ensures r.1 == t.itemSeq && r.1 !in t.orderItems ==> r.0.orderItems.Keys == t.orderItems.Keys + {r.1}
  {
    var id := t.itemSeq;
    (t.(orderItems := t.orderItems[id := item.(orderItemId := Some(id))], itemSeq := id + 1), id)
  }

  /**
   * Each INSERT: the identity is the table's counter, which moves on by one;
   * exactly that key is written, with the identity and NULL server-filled
   * dates; every other row and every other table stays as it was.
   */
  lemma InsertCustomerEffect(t: Tables, c: Customer)
    ensures var (after, id) := InsertCustomer(t, c);
      && id == t.customerSeq && after.customerSeq == id + 1
      && after.customers.Keys == t.customers.Keys + {id} && after.customers[id] == c.(customerId := Some(id), registrationDate := None)
      && after.customers - {id} == t.customers - {id}
      && after == t.(customers := after.customers, customerSeq := after.customerSeq)
  {
  }

  lemma InsertProductEffect(t: Tables, p: Product)
    ensures var (after, id) := InsertProduct(t, p);
      && id == t.productSeq && after.productSeq == id + 1
      && after.products.Keys == t.products.Keys + {id} && after.products[id] == p.(productId := Some(id), createdDate := None)
      && after.products - {id} == t.products - {id}
      && after == t.(products := after.products, productSeq := after.productSeq)
  {
  }

  lemma InsertOrderEffect(t: Tables, o: Order)
    ensures var (after, id) := InsertOrder(t, o);
      && id == t.orderSeq && after.orderSeq == id + 1
      && after.orders.Keys == t.orders.Keys + {id} && after.orders[id] == o.(orderId := Some(id), orderDate := None)
      && after.orders - {id} == t.orders - {id}
      && after == t.(orders := after.orders, orderSeq := after.orderSeq)
  {
  }

  lemma InsertOrderItemEffect(t: Tables, item: OrderItem)
    ensures var (after, id) := InsertOrderItem(t, item);
      && id == t.itemSeq && after.itemSeq == id + 1
      && after.orderItems.Keys == t.orderItems.Keys + {id} && after.orderItems[id] == item.(orderItemId := Some(id))
      && after.orderItems - {id} == t.orderItems - {id}
      && after == t.(orderItems := after.orderItems, itemSeq := after.itemSeq)
  {
  }

  lemma InsertCustomerKeepsValid(t: Tables, c: Customer)
    requires Valid(t)
    ensures Valid(InsertCustomer(t, c).0)
  {
    var t1 := InsertCustomer(t, c).0;
    assert LogReferencesCustomers(t1.transactionLog, t1.customers) by {
      forall i | 0 <= i < |t1.transactionLog|
        ensures t1.transactionLog[i].fromCustomerId in t1.customers && t1.transactionLog[i].toCustomerId in t1.customers
      {
        assert t.transactionLog[i].fromCustomerId in t.customers;
        assert t.transactionLog[i].toCustomerId in t.customers;
      }
    }
  }

  lemma InsertProductKeepsValid(t: Tables, p: Product)
    requires Valid(t)
    ensures Valid(InsertProduct(t, p).0)
  {
  }

  lemma InsertOrderKeepsValid(t: Tables, o: Order)
    requires Valid(t)
    ensures Valid(InsertOrder(t, o).0)
  {
  }

  lemma InsertOrderItemKeepsValid(t: Tables, item: OrderItem)
    requires Valid(t)
    ensures Valid(InsertOrderItem(t, item).0)
  {
  }

  // ---------------------------------------------------------------------
  // UPDATE ... WHERE <id> = ?: no row is touched when the id is NULL or absent.
  // ---------------------------------------------------------------------

  /** The columns the repository's UPDATE sets, taken from `c`; RegistrationDate is kept. */
  function UpdateCustomer(t: Tables, c: Customer): Tables {
    match c.customerId
    case Some(id) =>
      if id in t.customers then
        t.(customers := t.customers[id := c.(registrationDate := t.customers[id].registrationDate)])
      else t
    case None => t
  }

  function UpdateProduct(t: Tables, p: Product): Tables {
    match p.productId
    case Some(id) =>
      if id in t.products then t.(products := t.products[id := p.(createdDate := t.products[id].createdDate)])
      else t
    case None => t
  }

  function UpdateOrder(t: Tables, o: Order): Tables {
    match o.orderId
    case Some(id) =>
      if id in t.orders then t.(orders := t.orders[id := o.(orderDate := t.orders[id].orderDate)]) else t
    case None => t
  }

  // ---------------------------------------------------------------------
  // DELETE
  // ---------------------------------------------------------------------

  /** DELETE FROM Customers: refused while TransactionLog still refers to the row. */
  function DeleteCustomerRow(t: Tables, id: int): (r: Result<(Tables, bool), Error>)
    ensures r.Err? <==> id in t.customers && Referenced(t.transactionLog, id)
    ensures r.Err? ==> r.error.IntegrityError?
    ensures r.Ok? ==> r.value.0.customers == t.customers - {id} && r.value.1 == (id in t.customers)
  {
    if id in t.customers && Referenced(t.transactionLog, id) then
      Err(IntegrityError("The DELETE statement conflicted with a FOREIGN KEY constraint on table TransactionLog"))
    else
      Ok((t.(customers := t.customers - {id}), id in t.customers))
  }

  function DeleteProductRow(t: Tables, id: int): (r: (Tables, bool))
    ensures r.0.products == t.products - {id} && r.1 == (id in t.products)
  {
    (t.(products := t.products - {id}), id in t.products)
  }

  function DeleteOrderRow(t: Tables, id: int): (r: (Tables, bool))
    ensures r.0.orders == t.orders - {id} && r.1 == (id in t.orders)
  {
    (t.(orders := t.orders - {id}), id in t.orders)
  }

  /** The OrderItems rows of one order. */
  function ItemsOfOrder(items: map<int, OrderItem>, orderId: int): (r: set<int>)
    ensures forall id :: id in r <==> id in items && items[id].orderId == Some(orderId)
  {
    set id | id in items && items[id].orderId == Some(orderId)
  }

  /** DELETE FROM OrderItems WHERE OrderID = ? */
  function DeleteItemsOfOrder(t: Tables, orderId: int): (r: Tables)
    ensures forall id :: id in r.orderItems <==> id in t.orderItems && t.orderItems[id].orderId != Some(orderId)
  {
    t.(orderItems := t.orderItems - ItemsOfOrder(t.orderItems, orderId))
  }

  /** DELETE FROM ProductSuppliers WHERE ProductID = ? */
  function DeleteSuppliersOf(t: Tables, productId: int): (r: Tables)
    ensures forall pair :: pair in r.productSuppliers <==> pair in t.productSuppliers && pair.0 != productId
  {
    t.(productSuppliers := set pair | pair in t.productSuppliers && pair.0 != productId)
  }

  /**
   * DELETE FROM Products WHERE ProductID = ?: that product is gone, every
   * other product keeps its row, no other table changes, and the rowcount
   * test reports whether the row was there.
   */
  lemma DeleteProductRowEffect(t: Tables, id: int)
    ensures var (after, existed) := DeleteProductRow(t, id);
      && id !in after.products
      && (forall k | k in t.products && k != id :: k in after.products && after.products[k] == t.products[k])
      && after.products.Keys <= t.products.Keys
      && after == t.(products := after.products)
      && (existed <==> id in t.products)
  {
  }

  /** DELETE FROM Orders WHERE OrderID = ?, likewise. */
  lemma DeleteOrderRowEffect(t: Tables, id: int)
    ensures var (after, existed) := DeleteOrderRow(t, id);
      && id !in after.orders
      && (forall k | k in t.orders && k != id :: k in after.orders && after.orders[k] == t.orders[k])
      && after.orders.Keys <= t.orders.Keys
      && after == t.(orders := after.orders)
      && (existed <==> id in t.orders)
  {
  }

  /**
   * DELETE FROM OrderItems WHERE OrderID = ?: no item of that order is
   * left (ItemsOfOrder of the result is empty), the items of every other
   * order stay as they were, and no other table changes.
   */
  lemma DeleteItemsOfOrderEffect(t: Tables, orderId: int)
    ensures var after := DeleteItemsOfOrder(t, orderId);
      && ItemsOfOrder(after.orderItems, orderId) == {}
      && (forall k | k in after.orderItems :: k in t.orderItems && after.orderItems[k] == t.orderItems[k])
      && (forall k | k in t.orderItems && k !in ItemsOfOrder(t.orderItems, orderId) :: k in after.orderItems)
      && after == t.(orderItems := after.orderItems)
  {
  }

  /**
   * DELETE FROM ProductSuppliers WHERE ProductID = ?: no pair of that
   * product is left, the pairs of other products stay, none is added, and
   * no other table changes.
   */
  lemma DeleteSuppliersOfEffect(t: Tables, productId: int)
    ensures var after := DeleteSuppliersOf(t, productId);
      && (forall pair | pair in after.productSuppliers :: pair.0 != productId)
      && (forall pair | pair in t.productSuppliers && pair.0 != productId :: pair in after.productSuppliers)
      && after.productSuppliers <= t.productSuppliers
      && after == t.(productSuppliers := after.productSuppliers)
  {
  }

  lemma DeleteCustomerKeepsValid(t: Tables, id: int)
    requires Valid(t) && DeleteCustomerRow(t, id).Ok?
    ensures Valid(DeleteCustomerRow(t, id).value.0)
  {
    var t1 := DeleteCustomerRow(t, id).value.0;
    forall i | 0 <= i < |t1.transactionLog|
      ensures t1.transactionLog[i].fromCustomerId in t1.customers && t1.transactionLog[i].toCustomerId in t1.customers
    {
      assert t.transactionLog[i].fromCustomerId in t.customers;
      assert t.transactionLog[i].toCustomerId in t.customers;
    }
  }

  lemma DeletesKeepValid(t: Tables, id: int)
    requires Valid(t)
    ensures Valid(DeleteProductRow(t, id).0) && Valid(DeleteOrderRow(t, id).0)
    ensures Valid(DeleteItemsOfOrder(t, id)) && Valid(DeleteSuppliersOf(t, id))
  {
  }

  // ---------------------------------------------------------------------
  // Credit balances
  // ---------------------------------------------------------------------

  /** A customer's credit as the transfer code reads it: `result[0] or 0`. */
  function Balance(c: Customer): Cents {
    c.creditLimit.GetOr(0)
  }

  /** The credit of all customers together, NULL counted as zero. */
  ghost function TotalCredit(m: map<int, Customer>): int
    decreases |m|
  {
    if |m| == 0 then 0
    else
      var k := AnyKey(m.Keys);
      Balance(m[k]) + TotalCredit(m - {k})
  }

  ghost function AnyKey(keys: set<int>): (k: int)
    requires keys != {}
    ensures k in keys
  {
    NonEmptyHasElement(keys);
    var k :| k in keys; k
  }

  lemma NonEmptyHasElement(s: set<int>)
    requires s != {}
    ensures exists x :: x in s
  {
    if forall x :: x !in s {
    }
  }

  lemma {:induction false} TotalCreditRemove(m: map<int, Customer>, k: int)
    requires k in m
    ensures TotalCredit(m) == Balance(m[k]) + TotalCredit(m - {k})
    decreases |m|
  {
    var j := AnyKey(m.Keys);
    if j != k {
      assert |m - {j}| == |m| - 1;
      assert |m - {k}| == |m| - 1;
      TotalCreditRemove(m - {j}, k);
      TotalCreditRemove(m - {k}, j);
      assert m - {j} - {k} == m - {k} - {j};
    }
  }

  /** Changing one customer changes the total by that customer's difference. */
  lemma TotalCreditUpdate(m: map<int, Customer>, k: int, c: Customer)
    requires k in m
    ensures TotalCredit(m[k := c]) == TotalCredit(m) - Balance(m[k]) + Balance(c)
  {
    TotalCreditRemove(m, k);
    TotalCreditRemove(m[k := c], k);
    assert m[k := c] - {k} == m - {k};
  }

  // ---------------------------------------------------------------------
  // Database and connections
  // ---------------------------------------------------------------------

  /** The committed state of the database, and the connections to it that are open. */
  class Database {
    var tables: Tables
    ghost var open: set<Connection>

    constructor (initial: Tables)
      ensures tables == initial && open == {}
    {
      tables := initial;
      open := {};
    }
  }

  /**
   * A pyodbc connection with autocommit off. Statements act on `working`;
   * `Commit` publishes it, `Rollback` discards it. Closing without a commit
   * discards the uncommitted work.
   */
  class Connection {
    const db: Database
    var working: Tables
    var isOpen: bool

    constructor Open(db: Database)
      modifies db
      ensures this.db == db && working == db.tables && isOpen
      ensures db.tables == old(db.tables) && db.open == old(db.open) + {this}
    {
      this.db := db;
      working := db.tables;
      isOpen := true;
      new;
      db.open := db.open + {this};
    }

    method Commit()
      requires isOpen
      modifies db
      ensures db.tables == working && db.open == old(db.open)
    {
      db.tables := working;
    }

    method Rollback()
      requires isOpen
      modifies this
      ensures working == db.tables && isOpen
    {
      working := db.tables;
    }

    method Close()
      modifies this, db
      ensures !isOpen && working == old(working)
      ensures db.tables == old(db.tables) && db.open == old(db.open) - {this}
    {
      isOpen := false;
      db.open := db.open - {this};
    }
  }
}
