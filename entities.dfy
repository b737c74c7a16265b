/**
 * The records of models/entities.py. Every keyword argument of the Python
 * constructors becomes a constructor parameter with the same default, so
 * `Customer()` and `Order(customerId := Some(7))` mean what they mean in
 * Python. Absent values (Python None, SQL NULL) are `None`; money is a
 * whole number of cents, as DECIMAL(10,2) stores it.
 */
module Entities {
  import opened Wrappers
  import opened Text

  /** An amount of money in hundredths, the unit of a DECIMAL(10,2) column. */
  type Cents = int

  datatype Customer = Customer(
    customerId: Option<int> := None,
    firstName: Option<string> := None,
    lastName: Option<string> := None,
    email: Option<string> := None,
    dateOfBirth: Option<string> := None,
    isActive: bool := true,
    registrationDate: Option<string> := None,
    creditLimit: Option<Cents> := None)

  datatype Product = Product(
    productId: Option<int> := None,
    productName: Option<string> := None,
    description: Option<string> := None,
    price: Option<Cents> := None,
    categoryId: Option<int> := None,
    inStock: bool := true,
    createdDate: Option<string> := None,
    productStatus: Option<string> := Some("active"))

  datatype Order = Order(
    orderId: Option<int> := None,
    customerId: Option<int> := None,
    orderDate: Option<string> := None,
    totalAmount: Option<Cents> := None,
    orderStatus: Option<string> := Some("pending"),
    isPriority: bool := false)

  datatype OrderItem = OrderItem(
    orderItemId: Option<int> := None,
    orderId: Option<int> := None,
    productId: Option<int> := None,
    quantity: Option<int> := None,
    unitPrice: Option<Cents> := None)

  /** The constructors called with no arguments give the documented defaults. */
  lemma Defaults()
    ensures var c := Customer();
      c.isActive && c.customerId.None? && c.firstName.None?
      && c.lastName.None? && c.email.None? && c.dateOfBirth.None? && c.registrationDate.None? && c.creditLimit.None?
    ensures var p := Product();
      p.inStock && p.productStatus == Some("active") && p.productId.None? && p.productName.None?
      && p.description.None? && p.price.None? && p.categoryId.None? && p.createdDate.None?
    ensures var o := Order();
      o.orderStatus == Some("pending") && !o.isPriority && o.orderId.None? && o.customerId.None?
      && o.orderDate.None? && o.totalAmount.None?
    ensures OrderItem() == OrderItem(None, None, None, None, None)
  {
  }

  // ---------------------------------------------------------------------
  // __str__
  // ---------------------------------------------------------------------

  /** f"{x}" for an optional int. */
  function IdText(id: Option<int>): (s: string)
    ensures ',' !in s
  {
    match id
    case None => "None"
    case Some(i) =>
      var printed := IntToString(i);
      assert forall k :: 0 <= k < |printed| ==> printed[k] == '-' || IsDigit(printed[k]);
      printed
  }

  /** f"{x}" for an optional string. */
  function NameText(s: Option<string>): string {
    match s
    case None => "None"
    case Some(t) => t
  }

  /** f"{x}" for an optional amount read from a DECIMAL(10,2) column. */
  function MoneyText(amount: Option<Cents>): string {
    match amount
    case None => "None"
    case Some(c) => MoneyToString(c)
  }

  /** The shape every `__str__` shares: "<Name>(ID: <id>, <fields>)". */
  function Printed(name: string, id: Option<int>, fields: string): string {
    name + "(ID: " + IdText(id) + ", " + fields + ")"
  }

  function CustomerToString(c: Customer): string {
    Printed("Customer", c.customerId,
      "Name: " + NameText(c.firstName) + " " + NameText(c.lastName) + ", Email: " + NameText(c.email))
  }

  function ProductToString(p: Product): string {
    Printed("Product", p.productId, "Name: " + NameText(p.productName) + ", Price: " + MoneyText(p.price))
  }

  function OrderToString(o: Order): string {
    Printed("Order", o.orderId, "CustomerID: " + IdText(o.customerId) + ", Total: " + MoneyText(o.totalAmount))
  }

  function OrderItemToString(i: OrderItem): string {
    Printed("OrderItem", i.orderItemId,
      "OrderID: " + IdText(i.orderId) + ", ProductID: " + IdText(i.productId) + ", Qty: " + IdText(i.quantity))
  }

  lemma IdTextInjective(a: Option<int>, b: Option<int>)
    requires IdText(a) == IdText(b)
    ensures a == b
  {
    if a.Some? && b.Some? {
      IntToStringInjective(a.value, b.value);
    }
  }

  /**
   * The printed form fixes the id: the text before its first comma is the
   * record name and the id, and no two ids print alike.
   */
  lemma PrintedFixesId(name: string, a: Option<int>, fieldsA: string, b: Option<int>, fieldsB: string)
    requires ',' !in name
    requires Printed(name, a, fieldsA) == Printed(name, b, fieldsB)
    ensures a == b
  {
    var head := name + "(ID: ";
    CommaFreeConcat(name, "(ID: ");
    CommaFreeConcat(head, IdText(a));
    CommaFreeConcat(head, IdText(b));
    PrintedSplitsAtComma(name, a, fieldsA);
    PrintedSplitsAtComma(name, b, fieldsB);
    SamePrefixBeforeComma(head + IdText(a), " " + fieldsA + ")", head + IdText(b), " " + fieldsB + ")");
    assert IdText(a) == (head + IdText(a))[|head|..];
    assert IdText(b) == (head + IdText(b))[|head|..];
    IdTextInjective(a, b);
  }

  /** The first comma of a printed record follows its id. */
  lemma PrintedSplitsAtComma(name: string, id: Option<int>, fields: string)
    ensures Printed(name, id, fields) == (name + "(ID: " + IdText(id)) + [','] + (" " + fields + ")")
  {
  }

  /** Two strings that agree and have a comma-free piece before their first comma share that piece. */
  lemma SamePrefixBeforeComma(p1: string, r1: string, p2: string, r2: string)
    requires ',' !in p1 && ',' !in p2
    requires p1 + [','] + r1 == p2 + [','] + r2
    ensures p1 == p2
  {
    IndexOfAfterPiece(p1, ',', r1);
    IndexOfAfterPiece(p2, ',', r2);
    assert p1 == (p1 + [','] + r1)[..|p1|];
    assert p2 == (p2 + [','] + r2)[..|p2|];
  }

  lemma CommaFreeConcat(x: string, y: string)
    requires ',' !in x && ',' !in y
    ensures ',' !in x + y
  {
    assert forall k :: 0 <= k < |x + y| ==> (x + y)[k] == (if k < |x| then x[k] else y[k - |x|]);
  }

  lemma CustomerStringFixesId(a: Customer, b: Customer)
    requires CustomerToString(a) == CustomerToString(b)
    ensures a.customerId == b.customerId
  {
    PrintedFixesId("Customer", a.customerId,
      "Name: " + NameText(a.firstName) + " " + NameText(a.lastName) + ", Email: " + NameText(a.email),
      b.customerId, "Name: " + NameText(b.firstName) + " " + NameText(b.lastName) + ", Email: " + NameText(b.email));
  }

  lemma ProductStringFixesId(a: Product, b: Product)
    requires ProductToString(a) == ProductToString(b)
    ensures a.productId == b.productId
  {
    PrintedFixesId("Product", a.productId, "Name: " + NameText(a.productName) + ", Price: " + MoneyText(a.price),
      b.productId, "Name: " + NameText(b.productName) + ", Price: " + MoneyText(b.price));
  }

  lemma OrderStringFixesId(a: Order, b: Order)
    requires OrderToString(a) == OrderToString(b)
    ensures a.orderId == b.orderId
  {
    PrintedFixesId("Order", a.orderId, "CustomerID: " + IdText(a.customerId) + ", Total: " + MoneyText(a.totalAmount),
      b.orderId, "CustomerID: " + IdText(b.customerId) + ", Total: " + MoneyText(b.totalAmount));
  }

  lemma OrderItemStringFixesId(a: OrderItem, b: OrderItem)
    requires OrderItemToString(a) == OrderItemToString(b)
    ensures a.orderItemId == b.orderItemId
  {
    PrintedFixesId("OrderItem", a.orderItemId,
      "OrderID: " + IdText(a.orderId) + ", ProductID: " + IdText(a.productId) + ", Qty: " + IdText(a.quantity),
      b.orderItemId, "OrderID: " + IdText(b.orderId) + ", ProductID: " + IdText(b.productId) + ", Qty: " + IdText(b.quantity));
  }
}
