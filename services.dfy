/**
 * The multi-table services of DBPV/services/multi_table_services.py. Unlike
 * the transaction manager they run every statement through a repository or
 * a helper that commits on its own, so a service that fails part-way leaves
 * the statements before the failure committed.
 */
module Services {
  import opened Wrappers
  import opened Text
  import opened Errors
  import opened Entities
  import opened Store
  import opened Repositories
  import opened Transactions

  // ---------------------------------------------------------------------
  // OrderService.create_order_with_items
  // ---------------------------------------------------------------------

  /** What the validation loop raises for one requested line, checking in its order; None when the line passes. */
  function LineProblem(products: map<int, Product>, line: LineRequest): Option<Error> {
    if line.productId !in products then
      Some(ValueError("Product with ID " + IntToString(line.productId) + " does not exist"))
    else
      var product := products[line.productId];
      if !product.inStock then Some(ValueError("Product " + NameText(product.productName) + " is out of stock"))
      else if product.price.None? then Some(NullPriceError)
      else None
  }

  /**
   * The validation loop: every product must exist, be in stock and have a
   * price; the running total is the sum of price times quantity.
   */
  method ValidateOrderLines(products: map<int, Product>, lines: seq<LineRequest>) returns (r: Result<Cents, Error>)
    ensures r.Ok? <==> Orderable(products, lines)
    ensures r.Ok? ==> r.value == LinesTotal(products, lines)
    ensures r.Err? ==> exists k :: (0 <= k < |lines| && LineProblem(products, lines[k]) == Some(r.error)
      && forall i | 0 <= i < k :: LineProblem(products, lines[i]).None?)
  {
    var total := 0;
    var i := 0;
    while i < |lines|
      invariant 0 <= i <= |lines|
      invariant forall j | 0 <= j < i :: LineProblem(products, lines[j]).None?
      invariant Orderable(products, lines[..i]) && total == LinesTotal(products, lines[..i])
    {
      var line := lines[i];
      if line.productId !in products {
        return Err(ValueError("Product with ID " + IntToString(line.productId) + " does not exist"));
      }
      var product := products[line.productId];
      if !product.inStock {
        return Err(ValueError("Product " + NameText(product.productName) + " is out of stock"));
      }
      if product.price.None? {
        return Err(NullPriceError);
      }
      total := total + product.price.value * line.quantity;
      assert lines[..i + 1][..i] == lines[..i];
      i := i + 1;
    }
    assert lines[..i] == lines;
    return Ok(total);
  }

  /** The order create_order_with_items returns, which is also the row it leaves in Orders. */
  function CreatedOrder(t: Tables, customerId: int, lines: seq<LineRequest>): Order
    requires Orderable(t.products, lines)
  {
    Order(orderId := Some(t.orderSeq), customerId := Some(customerId),
          totalAmount := Some(LinesTotal(t.products, lines)), orderStatus := Some("pending"))
  }

  /** The tables after create_order_with_items succeeds. */
  function OrderCreated(t: Tables, customerId: int, lines: seq<LineRequest>): Tables
    requires Orderable(t.products, lines)
  {
    t.(orders := t.orders[t.orderSeq := CreatedOrder(t, customerId, lines)], orderSeq := t.orderSeq + 1,
       orderItems := t.orderItems + NewItems(t.itemSeq, t.orderSeq, t.products, lines),
       itemSeq := t.itemSeq + |lines|)
  }

  /** One turn of the item loop: the INSERT adds the row NewItems keys t.itemSeq + i. */
  lemma InsertItemStep(t: Tables, orderId: int, lines: seq<LineRequest>, i: nat)
    requires Orderable(t.products, lines) && i < |lines|
    ensures Orderable(t.products, lines[..i]) && Orderable(t.products, lines[..i + 1])
    ensures var current := t.(orderItems := t.orderItems + NewItems(t.itemSeq, orderId, t.products, lines[..i]),
                              itemSeq := t.itemSeq + i);
      var item := OrderItem(orderId := Some(orderId), productId := Some(lines[i].productId),
                            quantity := Some(lines[i].quantity), unitPrice := t.products[lines[i].productId].price);
      InsertOrderItem(current, item).0
        == t.(orderItems := t.orderItems + NewItems(t.itemSeq, orderId, t.products, lines[..i + 1]),
              itemSeq := t.itemSeq + i + 1)
  {
    NewItemsSnoc(t.itemSeq, orderId, t.products, lines, i);
    var before := NewItems(t.itemSeq, orderId, t.products, lines[..i]);
    var row := OrderItem(Some(t.itemSeq + i), Some(orderId), Some(lines[i].productId), Some(lines[i].quantity),
                         t.products[lines[i].productId].price);
    UpdateAfterUnion(t.orderItems, before, t.itemSeq + i, row);
  }

  /** The join row get_order_with_details builds from an item and its product. */
  datatype ItemDetail = ItemDetail(
    orderItemId: Option<int>,
    orderId: Option<int>,
    productId: Option<int>,
    quantity: Option<int>,
    unitPrice: Option<Cents>,
    productName: Option<string>,
    productDescription: Option<string>)

  datatype OrderDetails = OrderDetails(order: Order, customer: Option<Customer>, orderItems: map<int, ItemDetail>)

  function Detail(item: OrderItem, product: Product): ItemDetail {
    ItemDetail(item.orderItemId, item.orderId, item.productId, item.quantity, item.unitPrice,
               product.productName, product.description)
  }

  /** The inner join of OrderItems with Products for one order: an item whose product is gone drops out. */
  function ItemDetails(t: Tables, orderId: int): map<int, ItemDetail> {
    map id | id in t.orderItems && t.orderItems[id].orderId == Some(orderId)
                && ProductById(t, t.orderItems[id].productId).Some?
      :: Detail(t.orderItems[id], ProductById(t, t.orderItems[id].productId).value)
  }

  function OrderDetailsOf(t: Tables, orderId: int): OrderDetails
    requires orderId in t.orders
  {
    var order := t.orders[orderId];
    OrderDetails(order, CustomerById(t, order.customerId), ItemDetails(t, orderId))
  }

  /** OrderService.get_order_with_details: None for an unknown order. */
  function GetOrderWithDetails(t: Tables, orderId: int): Option<OrderDetails> {
    if orderId in t.orders then Some(OrderDetailsOf(t, orderId)) else None
  }

  /** The tables after update_order_status: only the status of an existing order changes. */
  function StatusUpdated(t: Tables, orderId: int, status: string): Tables {
    if orderId in t.orders then t.(orders := t.orders[orderId := t.orders[orderId].(orderStatus := Some(status))])
    else t
  }

  /** The tables after delete_order: first the order's items, then the order. */
  function OrderDeleted(t: Tables, orderId: int): Tables {
    DeleteOrderRow(DeleteItemsOfOrder(t, orderId), orderId).0
  }

  class OrderService {
    const db: Database

    constructor (db: Database)
      ensures this.db == db
    {
      this.db := db;
    }

    /**
     * Check the customer, validate every line, INSERT the order with its
     * total, INSERT one item per line with the price read again, then
     * UPDATE the order with the same total. Each statement commits alone,
     * but nothing is written before every check has passed.
     */
    method CreateOrderWithItems(customerId: int, lines: seq<LineRequest>) returns (r: Result<Order, Error>)
      modifies db
      ensures customerId !in old(db.tables).customers ==>
        r == Err(ValueError("Customer with ID " + IntToString(customerId) + " does not exist"))
      ensures r.Ok? <==> customerId in old(db.tables).customers && Orderable(old(db.tables).products, lines)
      ensures customerId in old(db.tables).customers && r.Err? ==>
        exists k :: (0 <= k < |lines| && LineProblem(old(db.tables).products, lines[k]) == Some(r.error)
          && forall i | 0 <= i < k :: LineProblem(old(db.tables).products, lines[i]).None?)
      ensures r.Err? ==> db.tables == old(db.tables)
      ensures r.Ok? ==> (r.value == CreatedOrder(old(db.tables), customerId, lines)
        && db.tables == OrderCreated(old(db.tables), customerId, lines))
    {
      var t := db.tables;
      if CustomerById(t, Some(customerId)).None? {
        return Err(ValueError("Customer with ID " + IntToString(customerId) + " does not exist"));
      }
      var checked := ValidateOrderLines(t.products, lines);
      if checked.Err? {
        return Err(checked.error);
      }
      var total := checked.value;
      var orders := new OrderRepository(db);
      var order := orders.Add(Order(customerId := Some(customerId), totalAmount := Some(total),
                                    orderStatus := Some("pending")));
      var orderId := t.orderSeq;
      assert order == CreatedOrder(t, customerId, lines);
      InsertItems(orderId, lines);
      order := order.(totalAmount := Some(total));
      order := orders.Update(order);
      r := Ok(order);
    }

    /** The item loop: one INSERT per requested line, each reading the product's price again. */
    method InsertItems(orderId: int, lines: seq<LineRequest>)
      requires Orderable(db.tables.products, lines)
      modifies db
      ensures db.tables == old(db.tables).(
        orderItems := old(db.tables).orderItems + NewItems(old(db.tables).itemSeq, orderId, old(db.tables).products, lines),
        itemSeq := old(db.tables).itemSeq + |lines|)
    {
      ghost var t := db.tables;
      var i := 0;
      while i < |lines|
        invariant 0 <= i <= |lines| && Orderable(t.products, lines[..i])
        invariant db.tables == t.(orderItems := t.orderItems + NewItems(t.itemSeq, orderId, t.products, lines[..i]),
          itemSeq := t.itemSeq + i)
      {
        var line := lines[i];
        InsertItemStep(t, orderId, lines, i);
        var unitPrice := ProductById(db.tables, Some(line.productId)).value.price;
        var item := OrderItem(orderId := Some(orderId), productId := Some(line.productId),
                              quantity := Some(line.quantity), unitPrice := unitPrice);
        db.tables := InsertOrderItem(db.tables, item).0;
        i := i + 1;
      }
      assert lines[..i] == lines;
    }

    /** False for an unknown order; otherwise only that order's status changes, and the answer is True. */
    method UpdateOrderStatus(orderId: int, newStatus: string) returns (updated: bool)
      requires Valid(db.tables)
      modifies db
      ensures updated == (orderId in old(db.tables).orders)
      ensures db.tables == StatusUpdated(old(db.tables), orderId, newStatus)
    {
      var order := OrderById(db.tables, Some(orderId));
      if order.None? {
        return false;
      }
      var orders := new OrderRepository(db);
      var changed := orders.Update(order.value.(orderStatus := Some(newStatus)));
      return true;
    }

    /** Items first, then the order; the answer is whether an order row went. */
    method DeleteOrder(orderId: int) returns (removed: bool)
      modifies db
      ensures removed == (orderId in old(db.tables).orders)
      ensures db.tables == OrderDeleted(old(db.tables), orderId)
    {
      db.tables := DeleteItemsOfOrder(db.tables, orderId);
      var orders := new OrderRepository(db);
      removed := orders.Delete(orderId);
    }
  }

  // ---------------------------------------------------------------------
  // CustomerService
  // ---------------------------------------------------------------------

  datatype CustomerOrders = CustomerOrders(customer: Customer, orders: map<int, OrderDetails>)

  /** get_customer_with_orders: the customer and the details of each of their orders. */
  function GetCustomerWithOrders(t: Tables, customerId: int): Option<CustomerOrders> {
    if customerId !in t.customers then None
    else Some(CustomerOrders(t.customers[customerId],
                             map id | id in OrdersByCustomer(t, customerId) :: OrderDetailsOf(t, id)))
  }

  /** The OrderItems rows of any of the given orders. */
  function ItemsOfOrders(items: map<int, OrderItem>, orderIds: set<int>): set<int> {
    set id | id in items && items[id].orderId.Some? && items[id].orderId.value in orderIds
  }

  /** The tables once every order of the customer and every item of those orders is deleted. */
  function OrdersPurged(t: Tables, customerId: int): Tables {
    var gone := OrdersByCustomer(t, customerId).Keys;
    t.(orders := t.orders - gone, orderItems := t.orderItems - ItemsOfOrders(t.orderItems, gone))
  }

  /** Deleting one more order of the loop extends the purge by that order. */
  lemma PurgeOneMore(t: Tables, done: set<int>, orderId: int)
    ensures OrderDeleted(t.(orders := t.orders - done, orderItems := t.orderItems - ItemsOfOrders(t.orderItems, done)), orderId)
      == t.(orders := t.orders - (done + {orderId}),
            orderItems := t.orderItems - ItemsOfOrders(t.orderItems, done + {orderId}))
  {
    var items := t.orderItems - ItemsOfOrders(t.orderItems, done);
    var left := items - ItemsOfOrder(items, orderId);
    var expected := t.orderItems - ItemsOfOrders(t.orderItems, done + {orderId});
    assert left.Keys == expected.Keys;
    assert left == expected;
  }

  class CustomerService {
    const db: Database

    constructor (db: Database)
      ensures this.db == db
    {
      this.db := db;
    }

    /**
     * Delete every order of the customer through delete_order, then the
     * customer. The deletes commit one by one: when the last DELETE is
     * refused, the orders are already gone.
     */
    method DeleteCustomer(customerId: int) returns (r: Result<bool, Error>)
      modifies db
      ensures DeleteCustomerRow(OrdersPurged(old(db.tables), customerId), customerId).Ok? ==>
        (var (t, existed) := DeleteCustomerRow(OrdersPurged(old(db.tables), customerId), customerId).value;
         db.tables == t && r == Ok(existed))
      ensures DeleteCustomerRow(OrdersPurged(old(db.tables), customerId), customerId).Err? ==>
        (db.tables == OrdersPurged(old(db.tables), customerId)
         && r == Err(DeleteCustomerRow(OrdersPurged(old(db.tables), customerId), customerId).error))
    {
      PurgeOrders(customerId);
      var customers := new CustomerRepository(db);
      r := customers.Delete(customerId);
    }

    /** The loop over get_orders_by_customer: delete_order on each of the customer's orders. */
    method PurgeOrders(customerId: int)
      modifies db
      ensures db.tables == OrdersPurged(old(db.tables), customerId)
    {
      var t := db.tables;
      var gone := OrdersByCustomer(t, customerId).Keys;
      var pending, done := gone, {};
      assert ItemsOfOrders(t.orderItems, done) == {};
      assert t.orders - done == t.orders && t.orderItems - {} == t.orderItems;
      var orderService := new OrderService(db);
      while pending != {}
        invariant done + pending == gone && done !! pending && orderService.db == db
        invariant db.tables == t.(orders := t.orders - done, orderItems := t.orderItems - ItemsOfOrders(t.orderItems, done))
        decreases pending
      {
        NonEmptyHasElement(pending);
        var orderId :| orderId in pending;
        var _ := orderService.DeleteOrder(orderId);
        PurgeOneMore(t, done, orderId);
        done, pending := done + {orderId}, pending - {orderId};
      }
    }
  }

  // ---------------------------------------------------------------------
  // ProductService.delete_product
  // ---------------------------------------------------------------------

  /** The OrderItems rows `SELECT COUNT(*) ... WHERE ProductID = ?` counts. */
  function ItemsOfProduct(items: map<int, OrderItem>, productId: int): set<int> {
    set id | id in items && items[id].productId == Some(productId)
  }

  const ProductInUseError := ValueError("Cannot delete product that is part of existing orders")

  /** The tables after delete_product passes its guard: the supplier links, then the product. */
  function ProductDeleted(t: Tables, productId: int): Tables {
    DeleteProductRow(DeleteSuppliersOf(t, productId), productId).0
  }

  class ProductService {
    const db: Database

    constructor (db: Database)
      ensures this.db == db
    {
      this.db := db;
    }

    method DeleteProduct(productId: int) returns (r: Result<bool, Error>)
      modifies db
      ensures |ItemsOfProduct(old(db.tables).orderItems, productId)| > 0 ==>
        r == Err(ProductInUseError) && db.tables == old(db.tables)
      ensures |ItemsOfProduct(old(db.tables).orderItems, productId)| == 0 ==>
        r == Ok(productId in old(db.tables).products) && db.tables == ProductDeleted(old(db.tables), productId)
    {
      var count := |ItemsOfProduct(db.tables.orderItems, productId)|;
      if count > 0 {
        return Err(ProductInUseError);
      }
      db.tables := DeleteSuppliersOf(db.tables, productId);
      var products := new ProductRepository(db);
      var existed := products.Delete(productId);
      return Ok(existed);
    }
  }

  // ---------------------------------------------------------------------
  // What the services promise
  // ---------------------------------------------------------------------

  /**
   * create_order_with_items writes the same rows as the transactional
   * place_order_with_inventory_check: the same order total, the same items
   * with the same prices. Only the order's status differs.
   */
  lemma CreateMatchesPlaceOrder(t: Tables, customerId: int, lines: seq<LineRequest>)
    requires Orderable(t.products, lines)
    ensures PlaceOrder(t, customerId, lines).Ok?
    ensures var placed := PlaceOrder(t, customerId, lines).value.0;
      OrderCreated(t, customerId, lines) ==
        placed.(orders := placed.orders[t.orderSeq := placed.orders[t.orderSeq].(orderStatus := Some("pending"))])
  {
    PlaceOrderCommits(t, customerId, lines);
    var placed := OrderPlaced(t, customerId, lines);
    assert placed.orders[t.orderSeq := placed.orders[t.orderSeq].(orderStatus := Some("pending"))]
      == t.orders[t.orderSeq := CreatedOrder(t, customerId, lines)];
  }

  lemma OrderCreatedValid(t: Tables, customerId: int, lines: seq<LineRequest>)
    requires Valid(t) && Orderable(t.products, lines)
    ensures Valid(OrderCreated(t, customerId, lines))
  {
    CreateMatchesPlaceOrder(t, customerId, lines);
    PlaceOrderKeepsValid(t, customerId, lines);
  }

  /** A created order has the summed total, status 'pending' and one item per line carrying its product's price. */
  lemma OrderCreatedEffect(t: Tables, customerId: int, lines: seq<LineRequest>)
    requires Orderable(t.products, lines)
    ensures var after := OrderCreated(t, customerId, lines);
      && after.orders[t.orderSeq].totalAmount == Some(LinesTotal(t.products, lines))
      && after.orders[t.orderSeq].orderStatus == Some("pending")
      && after.orders[t.orderSeq].customerId == Some(customerId)
      && (forall id :: id in after.orderItems <==> id in t.orderItems || t.itemSeq <= id < t.itemSeq + |lines|)
      && (forall j | 0 <= j < |lines| ::
            after.orderItems[t.itemSeq + j] == OrderItem(Some(t.itemSeq + j), Some(t.orderSeq), Some(lines[j].productId),
                                                          Some(lines[j].quantity), t.products[lines[j].productId].price))
      && after.customers == t.customers && after.products == t.products && after.transactionLog == t.transactionLog
  {
    NewItemsAt(t.itemSeq, t.orderSeq, t.products, lines);
  }

  /** The join lists only the order's own items, and all of them when every item's product still exists. */
  lemma DetailsListItemsOfOrder(t: Tables, orderId: int)
    ensures ItemDetails(t, orderId).Keys <= ItemsOfOrder(t.orderItems, orderId)
    ensures (forall id | id in ItemsOfOrder(t.orderItems, orderId) :: ProductById(t, t.orderItems[id].productId).Some?)
      ==> ItemDetails(t, orderId).Keys == ItemsOfOrder(t.orderItems, orderId)
    ensures forall id | id in ItemDetails(t, orderId) ::
      var item := t.orderItems[id];
      var d := ItemDetails(t, orderId)[id];
      d.orderItemId == item.orderItemId && d.productId == item.productId
        && d.quantity == item.quantity && d.unitPrice == item.unitPrice
  {
    if forall id | id in ItemsOfOrder(t.orderItems, orderId) :: ProductById(t, t.orderItems[id].productId).Some? {
      forall id | id in ItemsOfOrder(t.orderItems, orderId)
        ensures id in ItemDetails(t, orderId)
      {
        assert ProductById(t, t.orderItems[id].productId).Some?;
      }
    }
  }

  /**
   * Reading back an order just created finds it, its customer, and exactly
   * the items created with it, each with the price of its product, provided
   * no older item already pointed at the new order's id.
   */
  lemma CreatedOrderDetails(t: Tables, customerId: int, lines: seq<LineRequest>)
    requires Valid(t) && customerId in t.customers && Orderable(t.products, lines)
    requires forall id | id in t.orderItems :: t.orderItems[id].orderId != Some(t.orderSeq)
    ensures var details := GetOrderWithDetails(OrderCreated(t, customerId, lines), t.orderSeq);
      && details.Some?
      && details.value.order == CreatedOrder(t, customerId, lines)
      && details.value.customer == Some(t.customers[customerId])
      && (forall id :: id in details.value.orderItems <==> t.itemSeq <= id < t.itemSeq + |lines|)
      && (forall j | 0 <= j < |lines| ::
            details.value.orderItems[t.itemSeq + j].productId == Some(lines[j].productId)
            && details.value.orderItems[t.itemSeq + j].quantity == Some(lines[j].quantity)
            && details.value.orderItems[t.itemSeq + j].unitPrice == t.products[lines[j].productId].price)
  {
    var after := OrderCreated(t, customerId, lines);
    var added := NewItems(t.itemSeq, t.orderSeq, t.products, lines);
    NewItemsAt(t.itemSeq, t.orderSeq, t.products, lines);
    var details := ItemDetails(after, t.orderSeq);
    forall id
      ensures id in details <==> t.itemSeq <= id < t.itemSeq + |lines|
    {
      if t.itemSeq <= id < t.itemSeq + |lines| {
        var j := id - t.itemSeq;
        assert after.orderItems[t.itemSeq + j] == added[t.itemSeq + j];
        assert Available(t.products, lines[j].productId);
      }
    }
    forall j | 0 <= j < |lines|
      ensures details[t.itemSeq + j].productId == Some(lines[j].productId)
        && details[t.itemSeq + j].quantity == Some(lines[j].quantity)
        && details[t.itemSeq + j].unitPrice == t.products[lines[j].productId].price
    {
      assert after.orderItems[t.itemSeq + j] == added[t.itemSeq + j];
      assert Available(t.products, lines[j].productId);
    }
  }

  /** After update_order_status the order reads back with the new status and every other field as before. */
  lemma StatusUpdatedEffect(t: Tables, orderId: int, status: string)
    ensures orderId in t.orders ==>
      OrderById(StatusUpdated(t, orderId, status), Some(orderId)) == Some(t.orders[orderId].(orderStatus := Some(status)))
    ensures orderId !in t.orders ==> StatusUpdated(t, orderId, status) == t
    ensures forall k | k != orderId :: OrderById(StatusUpdated(t, orderId, status), Some(k)) == OrderById(t, Some(k))
    ensures Valid(t) ==> Valid(StatusUpdated(t, orderId, status))
  {
  }

  /** After delete_order no item of the order is left, every other item and order stays. */
  lemma OrderDeletedEffect(t: Tables, orderId: int)
    ensures var after := OrderDeleted(t, orderId);
      && OrderById(after, Some(orderId)).None?
      && ItemsOfOrder(after.orderItems, orderId) == {}
      && (forall id | id in t.orderItems && t.orderItems[id].orderId != Some(orderId) ::
            id in after.orderItems && after.orderItems[id] == t.orderItems[id])
      && (forall k | k != orderId :: OrderById(after, Some(k)) == OrderById(t, Some(k)))
      && after.customers == t.customers && after.products == t.products
    ensures Valid(t) ==> Valid(OrderDeleted(t, orderId))
  {
    if Valid(t) {
      DeletesKeepValid(t, orderId);
      DeletesKeepValid(DeleteItemsOfOrder(t, orderId), orderId);
    }
  }

  /**
   * When delete_customer succeeds the customer, all of its orders and all
   * of their items are gone, and every other order and item is untouched.
   */
  lemma CustomerDeletedEffect(t: Tables, customerId: int)
    requires DeleteCustomerRow(OrdersPurged(t, customerId), customerId).Ok?
    ensures var after := DeleteCustomerRow(OrdersPurged(t, customerId), customerId).value.0;
      && CustomerById(after, Some(customerId)).None?
      && OrdersByCustomer(after, customerId) == map[]
      && (forall id | id in after.orderItems :: t.orderItems[id].orderId.None?
            || t.orderItems[id].orderId.value !in OrdersByCustomer(t, customerId))
      && (forall o | o in t.orders && t.orders[o].customerId != Some(customerId) ::
            o in after.orders && after.orders[o] == t.orders[o])
      && (forall id | id in t.orderItems && (t.orderItems[id].orderId.None?
            || t.orderItems[id].orderId.value !in OrdersByCustomer(t, customerId)) ::
            id in after.orderItems && after.orderItems[id] == t.orderItems[id])
      && after.products == t.products && after.transactionLog == t.transactionLog
  {
  }

  /**
   * delete_customer is not atomic: a customer still named in
   * TransactionLog makes the last DELETE fail, yet its orders and their
   * items have been deleted already.
   */
  lemma DeleteCustomerFailsAfterPurge(t: Tables, customerId: int)
    requires customerId in t.customers && Referenced(t.transactionLog, customerId)
    ensures DeleteCustomerRow(OrdersPurged(t, customerId), customerId).Err?
    ensures OrdersByCustomer(OrdersPurged(t, customerId), customerId) == map[]
    ensures OrdersByCustomer(t, customerId).Keys != {} ==> OrdersPurged(t, customerId) != t
  {
    var gone := OrdersByCustomer(t, customerId);
    if gone.Keys != {} {
      NonEmptyHasElement(gone.Keys);
      var o :| o in gone.Keys;
      assert o !in OrdersPurged(t, customerId).orders;
    }
  }

  lemma OrdersPurgedValid(t: Tables, customerId: int)
    requires Valid(t)
    ensures Valid(OrdersPurged(t, customerId))
  {
  }

  /** get_customer_with_orders lists exactly the customer's orders, each as get_order_with_details reports it. */
  lemma CustomerOrdersExact(t: Tables, customerId: int)
    ensures GetCustomerWithOrders(t, customerId).None? <==> CustomerById(t, Some(customerId)).None?
    ensures GetCustomerWithOrders(t, customerId).Some? ==>
      var found := GetCustomerWithOrders(t, customerId).value;
      && Some(found.customer) == CustomerById(t, Some(customerId))
      && found.orders.Keys == OrdersByCustomer(t, customerId).Keys
      && (forall id | id in found.orders :: Some(found.orders[id]) == GetOrderWithDetails(t, id))
  {
  }

  /** The guard of delete_product counts exactly the items that refer to the product. */
  lemma ProductGuardExact(items: map<int, OrderItem>, productId: int)
    ensures |ItemsOfProduct(items, productId)| > 0 <==> exists id | id in items :: items[id].productId == Some(productId)
  {
    if exists id | id in items :: items[id].productId == Some(productId) {
      var id :| id in items && items[id].productId == Some(productId);
      assert id in ItemsOfProduct(items, productId);
    }
  }

  /** After delete_product the product and its supplier links are gone; the order tables are untouched. */
  lemma ProductDeletedEffect(t: Tables, productId: int)
    ensures var after := ProductDeleted(t, productId);
      && ProductById(after, Some(productId)).None?
      && (forall pair | pair in after.productSuppliers :: pair.0 != productId)
      && (forall pair | pair in t.productSuppliers && pair.0 != productId :: pair in after.productSuppliers)
      && (forall k | k != productId :: ProductById(after, Some(k)) == ProductById(t, Some(k)))
      && after.orders == t.orders && after.orderItems == t.orderItems && after.customers == t.customers
    ensures Valid(t) ==> Valid(ProductDeleted(t, productId))
  {
    if Valid(t) {
      DeletesKeepValid(t, productId);
      DeletesKeepValid(DeleteSuppliersOf(t, productId), productId);
    }
  }
}
