/**
 * The repositories of DBPV/repositories/concrete_repositories.py over the
 * tables of `Store`. Every writing statement runs on a connection of its
 * own and commits at once, so each writing method changes `db.tables` in a
 * single step. The SELECTs are functions of the committed tables; a result
 * list whose order the query leaves to the server is a map from the row's
 * id to the record built from the row.
 */
module Repositories {
  import opened Wrappers
  import opened Errors
  import opened Entities
  import opened Store

  // ---------------------------------------------------------------------
  // Writers
  // ---------------------------------------------------------------------

  class CustomerRepository {
    const db: Database

    constructor (db: Database)
      ensures this.db == db
    {
      this.db := db;
    }

    /** INSERT the row, then write the identity it got into the caller's record. */
    method Add(customer: Customer) returns (added: Customer)
      modifies db
      ensures db.tables == InsertCustomer(old(db.tables), customer).0
      ensures added == customer.(customerId := Some(old(db.tables).customerSeq))
    {
      var (t, id) := InsertCustomer(db.tables, customer);
      db.tables := t;
      added := customer.(customerId := Some(id));
    }

    method Update(customer: Customer) returns (updated: Customer)
      modifies db
      ensures db.tables == UpdateCustomer(old(db.tables), customer) && updated == customer
    {
      db.tables := UpdateCustomer(db.tables, customer);
      updated := customer;
    }

    /** `rows_affected > 0`; the driver's IntegrityError propagates. */
    method Delete(customerId: int) returns (r: Result<bool, Error>)
      modifies db
      ensures DeleteCustomerRow(old(db.tables), customerId).Ok? ==>
        (var (t, existed) := DeleteCustomerRow(old(db.tables), customerId).value; db.tables == t && r == Ok(existed))
      ensures DeleteCustomerRow(old(db.tables), customerId).Err? ==>
        db.tables == old(db.tables) && r == Err(DeleteCustomerRow(old(db.tables), customerId).error)
    {
      match DeleteCustomerRow(db.tables, customerId)
      case Ok((t, existed)) =>
        db.tables := t;
        r := Ok(existed);
      case Err(e) =>
        r := Err(e);
    }
  }

  class ProductRepository {
    const db: Database

    constructor (db: Database)
      ensures this.db == db
    {
      this.db := db;
    }

    method Add(product: Product) returns (added: Product)
      modifies db
      ensures db.tables == InsertProduct(old(db.tables), product).0
      ensures added == product.(productId := Some(old(db.tables).productSeq))
    {
      var (t, id) := InsertProduct(db.tables, product);
      db.tables := t;
      added := product.(productId := Some(id));
    }

    method Update(product: Product) returns (updated: Product)
      modifies db
      ensures db.tables == UpdateProduct(old(db.tables), product) && updated == product
    {
      db.tables := UpdateProduct(db.tables, product);
      updated := product;
    }

    method Delete(productId: int) returns (existed: bool)
      modifies db
      ensures (db.tables, existed) == DeleteProductRow(old(db.tables), productId)
    {
      var t;
      t, existed := DeleteProductRow(db.tables, productId).0, DeleteProductRow(db.tables, productId).1;
      db.tables := t;
    }
  }

  class OrderRepository {
    const db: Database

    constructor (db: Database)
      ensures this.db == db
    {
      this.db := db;
    }

    method Add(order: Order) returns (added: Order)
      modifies db
      ensures db.tables == InsertOrder(old(db.tables), order).0
      ensures added == order.(orderId := Some(old(db.tables).orderSeq))
    {
      var (t, id) := InsertOrder(db.tables, order);
      db.tables := t;
      added := order.(orderId := Some(id));
    }

    method Update(order: Order) returns (updated: Order)
      modifies db
      ensures db.tables == UpdateOrder(old(db.tables), order) && updated == order
    {
      db.tables := UpdateOrder(db.tables, order);
      updated := order;
    }

    method Delete(orderId: int) returns (existed: bool)
      modifies db
      ensures (db.tables, existed) == DeleteOrderRow(old(db.tables), orderId)
    {
      var t;
      t, existed := DeleteOrderRow(db.tables, orderId).0, DeleteOrderRow(db.tables, orderId).1;
      db.tables := t;
    }
  }

  // ---------------------------------------------------------------------
  // Readers: `WHERE <id> = ?` matches nothing for NULL, hence the Option ids.
  // ---------------------------------------------------------------------

  function CustomerById(t: Tables, id: Option<int>): Option<Customer> {
    if id.Some? && id.value in t.customers then Some(t.customers[id.value]) else None
  }

  function ProductById(t: Tables, id: Option<int>): Option<Product> {
    if id.Some? && id.value in t.products then Some(t.products[id.value]) else None
  }

  function OrderById(t: Tables, id: Option<int>): Option<Order> {
    if id.Some? && id.value in t.orders then Some(t.orders[id.value]) else None
  }

  function AllCustomers(t: Tables): map<int, Customer> {
    t.customers
  }

  function AllProducts(t: Tables): map<int, Product> {
    t.products
  }

  function AllOrders(t: Tables): map<int, Order> {
    t.orders
  }

  /** SELECT DISTINCT over the inner join of Customers and Orders. */
  function CustomersWithOrders(t: Tables): map<int, Customer> {
    map id | id in t.customers && (exists o | o in t.orders :: t.orders[o].customerId == Some(id)) :: t.customers[id]
  }

  /** The rows `WHERE Email = ?` selects; get_customer_by_email returns one of them, or None when there are none. */
  function CustomersWithEmail(t: Tables, email: string): map<int, Customer> {
    map id | id in t.customers && t.customers[id].email == Some(email) :: t.customers[id]
  }

  function ProductsByCategory(t: Tables, categoryId: int): map<int, Product> {
    map id | id in t.products && t.products[id].categoryId == Some(categoryId) :: t.products[id]
  }

  /** `WHERE InStock = 1` */
  function ProductsInStock(t: Tables): map<int, Product> {
    map id | id in t.products && t.products[id].inStock :: t.products[id]
  }

  function OrdersByCustomer(t: Tables, customerId: int): map<int, Order> {
    map id | id in t.orders && t.orders[id].customerId == Some(customerId) :: t.orders[id]
  }

  function OrdersByStatus(t: Tables, status: string): map<int, Order> {
    map id | id in t.orders && t.orders[id].orderStatus == Some(status) :: t.orders[id]
  }

  // ---------------------------------------------------------------------
  // What the writers promise the readers
  // ---------------------------------------------------------------------

  /** A customer just added is found under its new id, fresh before the insert; no other row changes. */
  lemma AddedCustomerIsFound(t: Tables, c: Customer)
    requires Valid(t)
    ensures var (t1, id) := InsertCustomer(t, c);
      && CustomerById(t, Some(id)).None?
      && CustomerById(t1, Some(id)) == Some(c.(customerId := Some(id), registrationDate := None))
      && (forall k | k != id :: CustomerById(t1, Some(k)) == CustomerById(t, Some(k)))
  {
  }

  lemma AddedProductIsFound(t: Tables, p: Product)
    requires Valid(t)
    ensures var (t1, id) := InsertProduct(t, p);
      && ProductById(t, Some(id)).None?
      && ProductById(t1, Some(id)) == Some(p.(productId := Some(id), createdDate := None))
      && (forall k | k != id :: ProductById(t1, Some(k)) == ProductById(t, Some(k)))
  {
  }

  lemma AddedOrderIsFound(t: Tables, o: Order)
    requires Valid(t)
    ensures var (t1, id) := InsertOrder(t, o);
      && OrderById(t, Some(id)).None?
      && OrderById(t1, Some(id)) == Some(o.(orderId := Some(id), orderDate := None))
      && (forall k | k != id :: OrderById(t1, Some(k)) == OrderById(t, Some(k)))
  {
  }

  /**
   * After an update the row with the record's id holds the record, its
   * server-filled date kept; with no such row nothing changes.
   */
  lemma UpdatedCustomerIsFound(t: Tables, c: Customer)
    ensures CustomerById(t, c.customerId).Some? ==>
      CustomerById(UpdateCustomer(t, c), c.customerId) ==
        Some(c.(registrationDate := CustomerById(t, c.customerId).value.registrationDate))
    ensures CustomerById(t, c.customerId).None? ==> UpdateCustomer(t, c) == t
    ensures forall k | Some(k) != c.customerId :: CustomerById(UpdateCustomer(t, c), Some(k)) == CustomerById(t, Some(k))
  {
  }

  lemma UpdatedProductIsFound(t: Tables, p: Product)
    ensures ProductById(t, p.productId).Some? ==>
      ProductById(UpdateProduct(t, p), p.productId) ==
        Some(p.(createdDate := ProductById(t, p.productId).value.createdDate))
    ensures ProductById(t, p.productId).None? ==> UpdateProduct(t, p) == t
    ensures forall k | Some(k) != p.productId :: ProductById(UpdateProduct(t, p), Some(k)) == ProductById(t, Some(k))
  {
  }

  lemma UpdatedOrderIsFound(t: Tables, o: Order)
    ensures OrderById(t, o.orderId).Some? ==>
      OrderById(UpdateOrder(t, o), o.orderId) == Some(o.(orderDate := OrderById(t, o.orderId).value.orderDate))
    ensures OrderById(t, o.orderId).None? ==> UpdateOrder(t, o) == t
    ensures forall k | Some(k) != o.orderId :: OrderById(UpdateOrder(t, o), Some(k)) == OrderById(t, Some(k))
  {
  }

  /** Delete reports whether get_by_id found the row, and afterwards get_by_id finds nothing. */
  lemma DeletedIsGone(t: Tables, id: int)
    ensures DeleteCustomerRow(t, id).Ok? ==>
      DeleteCustomerRow(t, id).value.1 == CustomerById(t, Some(id)).Some?
      && CustomerById(DeleteCustomerRow(t, id).value.0, Some(id)).None?
    ensures DeleteProductRow(t, id).1 == ProductById(t, Some(id)).Some?
    ensures ProductById(DeleteProductRow(t, id).0, Some(id)).None?
    ensures DeleteOrderRow(t, id).1 == OrderById(t, Some(id)).Some?
    ensures OrderById(DeleteOrderRow(t, id).0, Some(id)).None?
  {
  }

  // ---------------------------------------------------------------------
  // What the filters return
  // ---------------------------------------------------------------------

  /** A customer is listed as having orders exactly when get_orders_by_customer finds some. */
  lemma CustomersWithOrdersExact(t: Tables)
    ensures forall id :: id in CustomersWithOrders(t) <==> (id in t.customers && OrdersByCustomer(t, id).Keys != {})
    ensures forall id | id in CustomersWithOrders(t) :: CustomersWithOrders(t)[id] == t.customers[id]
  {
    forall id
      ensures id in CustomersWithOrders(t) <==> (id in t.customers && OrdersByCustomer(t, id).Keys != {})
    {
      if id in t.customers && OrdersByCustomer(t, id).Keys != {} {
        NonEmptyHasElement(OrdersByCustomer(t, id).Keys);
        var o :| o in OrdersByCustomer(t, id);
        assert t.orders[o].customerId == Some(id);
      }
      if id in CustomersWithOrders(t) {
        var o :| o in t.orders && t.orders[o].customerId == Some(id);
        assert o in OrdersByCustomer(t, id);
      }
    }
  }

  /** Every order of every customer is found by exactly one get_orders_by_customer call. */
  lemma OrdersByCustomerPartition(t: Tables, a: int, b: int)
    ensures a != b ==> OrdersByCustomer(t, a).Keys !! OrdersByCustomer(t, b).Keys
    ensures forall id | id in t.orders && t.orders[id].customerId.Some? ::
      id in OrdersByCustomer(t, t.orders[id].customerId.value)
  {
  }

  /** Each order is found by the call with its own status and by no other. */
  lemma OrdersByStatusExact(t: Tables, status: string, other: string)
    ensures forall id :: id in OrdersByStatus(t, status) <==> OrderById(t, Some(id)).Some? && OrderById(t, Some(id)).value.orderStatus == Some(status)
    ensures status != other ==> OrdersByStatus(t, status).Keys !! OrdersByStatus(t, other).Keys
  {
  }

  /** The category filter returns exactly the rows get_by_id finds in that category, and categories do not overlap. */
  lemma ProductsByCategoryExact(t: Tables, categoryId: int, other: int)
    ensures forall id :: id in ProductsByCategory(t, categoryId) <==>
      (ProductById(t, Some(id)).Some? && ProductById(t, Some(id)).value.categoryId == Some(categoryId))
    ensures categoryId != other ==> ProductsByCategory(t, categoryId).Keys !! ProductsByCategory(t, other).Keys
  {
  }

  /** The in-stock listing and the rest of the products split the table. */
  lemma ProductsInStockExact(t: Tables)
    ensures forall id :: id in ProductsInStock(t) <==> (ProductById(t, Some(id)).Some? && ProductById(t, Some(id)).value.inStock)
    ensures ProductsInStock(t).Keys <= AllProducts(t).Keys
  {
  }
}
