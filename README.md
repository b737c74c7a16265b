# E-commerce database core, modelled in Dafny

This project models the business core of a small SQL Server e-commerce
application written in Python (PV-databaze-Cvic). The application keeps
customers, products, orders and order items. It offers:

- transactional workflows: credit transfer between customers, order placement
  with an inventory check, and order cancellation with a refund;
- non-transactional multi-table services: order creation, details, status
  updates and cascading deletes;
- single-table repositories;
- validators and error classification;
- dot-path configuration access;
- bulk CSV/JSON import.

The database is replaced by an in-memory store (`Store.Tables`). It has one map
from identity to row per table, the ProductSuppliers junction as a set of
pairs, the TransactionLog as a sequence, and one identity counter per table.
Every SQL statement the code issues becomes a function on that store.

The `Store.Database` object holds the committed state. A `Store.Connection`
works on a snapshot of it: `Commit` publishes the snapshot, and `Rollback` and
`Close` throw it away, as pyodbc does with `autocommit = False`. Money is whole
cents, because the columns are DECIMAL(10,2). Python values that reach the
validators and the JSON importer are `Values.Value`. Python exceptions are
`Errors.Error`, with the application's exception hierarchy.

Files and modules:

- `wrappers.dfy` (Wrappers): `Option` and `Result`.
- `text.dfy` (Text): the string primitives the code uses. These are `strip`,
  `lower`, `split`, `join`, `in`, integer and decimal parsing, and the
  printing of integers and money.
- `values.dfy` (Values): Python values and their truthiness, `float()` and
  `int()`.
- `errors.dfy` (Errors): exception classes, `isinstance` and `str(e)`.
- `entities.dfy` (Entities): the four entity records, their defaults and
  their `__str__` formats.
- `store.dfy` (Store): the tables, the SQL primitives, the database and the
  connection.
- `transactions.dfy` (Transactions): `TransactionManager` and
  `TransactionService`.
- `services.dfy` (Services): `OrderService`, `CustomerService` and
  `ProductService`.
- `repositories.dfy` (Repositories): the three concrete repositories and
  their queries.
- `error_handler.dfy` (ErrorHandling): `ErrorHandler`, `handle_exceptions`
  and the validators.
- `config.dfy` (Configuration): the `Config` class.
- `data_import.dfy` (DataImport): `DataImportService`.

Each state-changing method is proved against a pure function of the old
state. For example, `Transactions.TransferCustomerCredit` ends in exactly the
state that `Transactions.Transfer` computes. The properties the application
promises are then proved as lemmas about those functions: conservation of
credit, order totals, cascades and de-duplication.

## Model

| member | source | states |
|---|---|---|
| Entities.Defaults | models/entities.py:6-61 | A Customer defaults to active with every other field None; a Product defaults to in stock with status 'active'; an Order defaults to status 'pending' and not priority; an OrderItem defaults to all five fields None |
| Entities.IdTextInjective | models/entities.py:19 | The printed form of an id (`None` or a decimal integer) determines the id |
| Entities.PrintedFixesId | models/entities.py:18-61 | Two `Name(ID: …, …)` strings of the same entity kind that are equal carry equal ids |
| Entities.CustomerStringFixesId | models/entities.py:18-19 | Equal `Customer(...)` strings imply equal customer ids |
| Entities.ProductStringFixesId | models/entities.py:34-35 | Equal `Product(...)` strings imply equal product ids |
| Entities.OrderStringFixesId | models/entities.py:48-49 | Equal `Order(...)` strings imply equal order ids |
| Entities.OrderItemStringFixesId | models/entities.py:60-61 | Equal `OrderItem(...)` strings imply equal order item ids |
| Errors.HierarchyFacts | error_handling/error_handler.py:22-49 | Every error is an Exception and an instance of its own class; it is an AppError exactly when it is one of the five application error classes or AppError itself |
| Values.PyFloat | error_handling/error_handler.py:135 | `float(v)` fails exactly on None, lists, dicts and unparseable strings, and fails only with ValueError or TypeError; otherwise a bool gives 0 or 1, an int gives itself, a float gives itself and a string gives the decimal it spells |
| Values.PyInt | error_handling/error_handler.py:167 | `int(v)` fails exactly on None, lists, dicts and unparseable strings, and fails only with ValueError or TypeError; otherwise a bool gives 0 or 1, an int gives itself, a float is truncated toward zero and a string gives the integer it spells |
| Text.Strip | DBPV/data_import/data_import_service.py:33-35 | `strip()` returns a string that neither starts nor ends with white space and is no longer than its input |
| Text.StripCutsOnlySpace | DBPV/data_import/data_import_service.py:33-35 | `strip()` returns a slice of its input, and everything it cuts off on either side is white space |
| Text.StripKeepsTrimmed | DBPV/data_import/data_import_service.py:33-35 | Stripping a string that is already stripped changes nothing |
| Text.Lower | DBPV/data_import/data_import_service.py:400-414 | `lower()` keeps the length, leaves no ASCII capital, turns each capital into its small letter and keeps every other character |
| Text.Split | DBPV/config/config_manager.py:65 | `split('.')` returns at least one piece and no piece contains the separator |
| Text.JoinSplit | DBPV/config/config_manager.py:65 | Joining the pieces of `split` with the separator gives back the original key |
| Text.MoneyRoundTrip | models/entities.py:35 | The printed form of an amount in cents parses back to the same amount |
| Text.ParseIntOfIntToString | DBPV/data_import/data_import_service.py:107 | `int()` reads back exactly the integer that `str()` printed, negative numbers included |
| Text.IntToStringInjective | models/entities.py:19 | Two different integers never print the same |
| ErrorHandling.ValidateEmail | error_handling/error_handler.py:110-119 | An empty email gives "Email is required"; a failure is always a ValidationError; success returns True |
| ErrorHandling.ValidateEmailAccepts | error_handling/error_handler.py:110-119 | An email passes exactly when it is non-empty, contains '@' and has a '.' after its last '@' |
| ErrorHandling.FirstMissing | error_handling/error_handler.py:123-127 | Returns the first required field that is absent or falsy, or nothing when every field is present |
| ErrorHandling.RequireFields | error_handling/error_handler.py:123-127 | Passes exactly when every required field is present and truthy, and otherwise names a missing field |
| ErrorHandling.CheckEmailValue | error_handling/error_handler.py:110-119 | A field value passes the email check exactly when it is a string of email shape; every falsy value is "Email is required"; a truthy bool, int or float fails the `in` test with TypeError; a list or dict gets "Invalid email format" when "@" is not among its elements or keys and AttributeError from `split` when it is |
| ErrorHandling.ContainerEmailWithAtFailsOnSplit | error_handling/error_handler.py:116 | A list holding "@" and a dict keyed "@" both end in AttributeError |
| ErrorHandling.CheckNonNegative | error_handling/error_handler.py:133-139 | A number passes exactly when `float()` accepts it and it is not negative; a negative number and an unparseable one get different messages |
| ErrorHandling.ValidateCustomerData | error_handling/error_handler.py:121-139 | Passes exactly when the three names are present, the email has email shape, and any credit_limit is a non-negative number; otherwise reports the first missing field, else the email's error, else the credit limit's ("cannot be negative" or "must be a valid number") |
| ErrorHandling.ValidateProductData | error_handling/error_handler.py:141-155 | Passes exactly when product_name and price are present and truthy and price is a non-negative number |
| ErrorHandling.ZeroPriceIsMissing | error_handling/error_handler.py:145-147 | A price of 0 or "" is reported as a missing field, not as an invalid price |
| ErrorHandling.NegativeCreditLimitRefused | error_handling/error_handler.py:133-137 | Otherwise valid customer data whose credit_limit float() reads as negative (a float, an int or a numeric string) fails with "Credit limit cannot be negative" |
| ErrorHandling.UnreadableCreditLimitRefused | error_handling/error_handler.py:133-139 | Otherwise valid customer data whose credit_limit float() refuses fails with "Credit limit must be a valid number" |
| ErrorHandling.ItemError | error_handling/error_handler.py:178-194 | An order item is accepted exactly when it is a dict with product_id and quantity that `int()` turns into positive integers |
| ErrorHandling.FirstBadItem | error_handling/error_handler.py:178-194 | Finds the first rejected item from a given index, or none when all later items are accepted |
| ErrorHandling.ValidateOrderData | error_handling/error_handler.py:157-194 | Passes exactly when the fields are present, customer_id is a positive integer, and order_items is a non-empty list of accepted items; every failure is a ValidationError |
| ErrorHandling.OrderReportsFirstBadItem | error_handling/error_handler.py:178-194 | With a valid header, the error reported is that of the first bad item |
| ErrorHandling.HandleDatabaseError | error_handling/error_handler.py:86-98 | Always raises a DatabaseConnectionError whose message names the operation |
| ErrorHandling.MessagesDiffer | error_handling/error_handler.py:91-98 | The four database error messages are pairwise distinct |
| ErrorHandling.HandleDatabaseErrorClassifies | error_handling/error_handler.py:91-98 | Timeout text takes precedence over an authentication failure, which takes precedence over a missing object; anything else gets the generic message, case-insensitively |
| ErrorHandling.HandleValidationError | error_handling/error_handler.py:100-103 | Raises a ValidationError that names the field and ends with the original message |
| ErrorHandling.HandleConfigError | error_handling/error_handler.py:105-108 | Raises a ConfigurationError that names the key and ends with the original message |
| ErrorHandling.SafeExecute | error_handling/error_handler.py:200-215 | Success passes through unchanged; Validation, DatabaseConnection and Configuration errors are re-raised unchanged; any other error becomes an AppError naming the context |
| ErrorHandling.SafeExecuteWrapsAppError | error_handling/error_handler.py:213-215 | A plain error wrapped by one safe_execute is wrapped again by an outer one, because AppError is not among the passed-through classes |
| ErrorHandling.FirstMatch | error_handling/error_handler.py:69-71 | Finds the first error-map entry the error is an instance of, or none |
| ErrorHandling.HandleExceptions | error_handling/error_handler.py:52-76 | Success passes through; an error no entry matches is re-raised unchanged; any other error becomes some entry's mapped class built from str(e) |
| ErrorHandling.HandleExceptionsUsesFirstMatch | error_handling/error_handler.py:69-71 | When entry k is the first whose class the error is an instance of, the decorated call raises entry k's mapped class with str(e) |
| Store.EmptyValid | transactions/transaction_manager.py:339-347 | The empty store satisfies the store invariant |
| Store.InsertCustomer | DBPV/repositories/concrete_repositories.py:24-30 | When the identity counter is past every key, the INSERT adds exactly one key to Customers |
| Store.InsertCustomerEffect | DBPV/repositories/concrete_repositories.py:24-30 | The INSERT returns the table's next identity and moves the counter on by one; the stored row is the given one with that id and NULL server-filled columns; every other row and every other table is unchanged |
| Store.InsertProduct | DBPV/repositories/concrete_repositories.py:138-144 | When the identity counter is past every key, the INSERT adds exactly one key to Products |
| Store.InsertProductEffect | DBPV/repositories/concrete_repositories.py:138-144 | The INSERT returns the table's next identity and moves the counter on by one; the stored row is the given one with that id and NULL server-filled columns; every other row and every other table is unchanged |
| Store.InsertOrder | DBPV/repositories/concrete_repositories.py:247-253 | When the identity counter is past every key, the INSERT adds exactly one key to Orders |
| Store.InsertOrderEffect | DBPV/repositories/concrete_repositories.py:247-253 | The INSERT returns the table's next identity and moves the counter on by one; the stored row is the given one with that id and NULL server-filled columns; every other row and every other table is unchanged |
| Store.InsertOrderItem | transactions/transaction_manager.py:227-230 | When the identity counter is past every key, the INSERT adds exactly one key to OrderItems |
| Store.InsertOrderItemEffect | transactions/transaction_manager.py:227-230 | The INSERT returns the table's next identity and moves the counter on by one; the stored row is the given one with that id and NULL server-filled columns; every other row and every other table is unchanged |
| Store.InsertCustomerKeepsValid | DBPV/repositories/concrete_repositories.py:13-30 | Inserting a customer keeps the store invariant: every key positive and below its identity counter, and the log's foreign keys intact |
| Store.InsertProductKeepsValid | DBPV/repositories/concrete_repositories.py:127-144 | Inserting a product keeps the store invariant |
| Store.InsertOrderKeepsValid | DBPV/repositories/concrete_repositories.py:236-253 | Inserting an order keeps the store invariant |
| Store.InsertOrderItemKeepsValid | DBPV/services/multi_table_services.py:62-67 | Inserting an order item keeps the store invariant |
| Store.DeleteCustomerRow | DBPV/repositories/concrete_repositories.py:45-48 | Deleting a customer fails with an IntegrityError exactly when the transaction log refers to it; otherwise it removes that key and reports whether a row was removed |
| Store.DeleteProductRowEffect | DBPV/repositories/concrete_repositories.py:159-162 | DeleteProductRow: the product is gone, every other product keeps its row, no other table changes, and the result reports whether the row was there |
| Store.DeleteOrderRowEffect | DBPV/repositories/concrete_repositories.py:268-271 | DeleteOrderRow: the order is gone, every other order keeps its row, no other table changes, and the result reports whether the row was there |
| Store.DeleteItemsOfOrderEffect | DBPV/services/multi_table_services.py:141-144 | DeleteItemsOfOrder: ItemsOfOrder (the rows with that OrderID) is empty afterwards, the items of every other order stay unchanged, and no other table changes |
| Store.DeleteSuppliersOfEffect | DBPV/services/multi_table_services.py:312-313 | DeleteSuppliersOf: no pair of that product is left, the pairs of other products stay, none is added, and no other table changes |
| Store.DeleteCustomerKeepsValid | DBPV/repositories/concrete_repositories.py:45-48 | A customer delete that succeeds keeps the store invariant |
| Store.DeletesKeepValid | DBPV/services/multi_table_services.py:136-147 | Product, order, order-item and supplier deletes keep the store invariant |
| Store.TotalCreditRemove | transactions/transaction_manager.py:66 | Total credit, with NULL read as 0, is one customer's balance plus the total of the others |
| Store.TotalCreditUpdate | transactions/transaction_manager.py:71-81 | Replacing one customer changes total credit by the difference of its balances |
| Store.Connection.Open | transactions/transaction_manager.py:21-23 | A new connection works on a snapshot of the committed state and joins the database's open connections |
| Store.Connection.Commit | transactions/transaction_manager.py:32 | Commit makes the working state the committed state |
| Store.Connection.Rollback | transactions/transaction_manager.py:37 | Rollback restores the working state to the committed state |
| Store.Connection.Close | transactions/transaction_manager.py:40-42 | Close ends the connection and leaves the open connections; the committed tables are untouched, so work that was not committed never reaches the database |
| Transactions.RunSteps | transactions/transaction_manager.py:26-33 | A successful run returns one result per step |
| Transactions.FailureStops | transactions/transaction_manager.py:27-38 | Once a prefix of the steps fails, the whole run fails with that same error, so later steps never run |
| Transactions.RunSnoc | transactions/transaction_manager.py:27-29 | Running one more step runs it on the state the earlier steps left and appends its result |
| Transactions.FailureHasOneCause | transactions/transaction_manager.py:27-38 | A failed run has a step k whose predecessors all succeeded and which raised the reported error |
| Transactions.ExecuteInTransaction | transactions/transaction_manager.py:16-42 | Success commits exactly the state the steps produce and returns their results in order; failure re-raises the step's error and leaves the database as it was; on both paths the connection it opened is closed again |
| Transactions.TransferUnfolds | transactions/transaction_manager.py:56-104 | A transfer succeeds exactly when the source exists, has enough credit and the log insert is accepted, and its result is debit, then credit, then log |
| Transactions.TransferMovesCredit | transactions/transaction_manager.py:71-81 | After a transfer the source has lost the amount, the target has gained it, and every other customer is unchanged |
| Transactions.TransferConservesCredit | transactions/transaction_manager.py:52-107 | A successful transfer keeps the total credit of all customers |
| Transactions.DebitLowersTotal | transactions/transaction_manager.py:56-74 | A debit that passes its checks lowers the customers' total credit by exactly the amount |
| Transactions.CreditRaisesTotal | transactions/transaction_manager.py:76-81 | Crediting an existing customer succeeds and raises the total credit by exactly the amount |
| Transactions.TransferLogsOnce | transactions/transaction_manager.py:83-90 | A transfer appends exactly one (from, to, amount) entry to the log |
| Transactions.TransferKeepsValid | transactions/transaction_manager.py:52-107 | A successful transfer keeps the store invariant, including the log's foreign keys |
| Transactions.DebitKeepsValid | transactions/transaction_manager.py:56-74 | The debit step keeps the store invariant |
| Transactions.CreditKeepsValid | transactions/transaction_manager.py:76-81 | The credit step never raises and keeps the store invariant, also for a missing customer |
| Transactions.LogTransferKeepsValid | transactions/transaction_manager.py:83-90 | The log insert, accepted only when both customers exist, keeps the log's foreign keys |
| Transactions.TransferCustomerCredit | transactions/transaction_manager.py:52-107 | Returns True exactly when the source exists with enough credit and the target exists, and then commits the transfer; otherwise the database is unchanged; the connection it opened is closed on every path |
| Transactions.TransferAsWrittenLosesCredit | transactions/transaction_manager.py:76-81 | With the SQL as written, crediting a customer whose CreditLimit is NULL loses the amount: total credit drops by 50.00 |
| Transactions.TransferKeepsCreditOnNullReceiver | transactions/transaction_manager.py:76-81 | With NULL read as 0, the same transfer keeps total credit |
| Transactions.DebitAgreesWhenSet | transactions/transaction_manager.py:56-74 | The debit as written and the NULL-as-0 debit are the same when the sender's credit limit is set |
| Transactions.CreditAgreesWhenSet | transactions/transaction_manager.py:76-81 | The credit as written and the NULL-as-0 credit are the same when the receiver's credit limit is set |
| Transactions.TransferAgreesWhenSet | transactions/transaction_manager.py:52-107 | When both credit limits involved are set, the transfer as written and the NULL-as-0 transfer are the same transaction, so every property proved of the latter holds of the program there |
| Transactions.FirstUnavailable | transactions/transaction_manager.py:113-133 | Finds the first requested product that is missing or out of stock, or none when all are available |
| Transactions.CheckInventoryAndReserve | transactions/transaction_manager.py:113-133 | Reports no problem exactly when every requested product exists and is in stock; a problem names an unavailable product |
| Transactions.AddLine | transactions/transaction_manager.py:212-230 | Inserting one item leaves Products and Customers unchanged |
| Transactions.AddLines | transactions/transaction_manager.py:211-230 | The item loop leaves Products and Customers unchanged |
| Transactions.AddLinesStops | transactions/transaction_manager.py:211-230 | Once an item fails, the loop fails with that error |
| Transactions.NewItemsAt | transactions/transaction_manager.py:227-230 | The new items have consecutive ids, one per requested line in order, each with that line's product, quantity and price |
| Transactions.AddLinesAdds | transactions/transaction_manager.py:211-230 | The loop adds exactly the new items and returns the sum of quantity times price |
| Transactions.InsertOrderLines | transactions/transaction_manager.py:210-230 | The item loop on the open connection does what AddLines specifies: on success it leaves the inserted items and returns Σ price×quantity; a missing product or a NULL price raises the matching error |
| Transactions.PlaceOrderSucceedsIff | transactions/transaction_manager.py:195-247 | Order placement succeeds exactly when every product exists, is in stock and has a price |
| Transactions.FirstNullPrice | transactions/transaction_manager.py:221-223 | Finds the first line whose product price is NULL |
| Transactions.AddLinesStopsAtNullPrice | transactions/transaction_manager.py:221-223 | A NULL price fails the loop, as `None * quantity` raises a TypeError |
| Transactions.PlaceOrderCommits | transactions/transaction_manager.py:204-240 | A successful placement returns the new order's id and the state with the order, its items and its total |
| Transactions.PlaceOrderEffect | transactions/transaction_manager.py:204-240 | After placement there is one new order for the customer with status 'processing' and total Σ price×quantity, and its items are the requested lines in order with their prices; nothing else changes |
| Transactions.PlaceOrderKeepsValid | transactions/transaction_manager.py:195-247 | A successful placement keeps the store invariant |
| Transactions.OrderPlacedValid | transactions/transaction_manager.py:204-236 | The placed state keeps the store invariant, and every new item carries its own id below the counter |
| Transactions.PlaceOrderWithInventoryCheck | transactions/transaction_manager.py:195-247 | Success commits the placement and returns the new order id; failure re-raises and leaves the database unchanged; the connection is closed on every path |
| Transactions.CancelOrder | transactions/transaction_manager.py:253-313 | Cancellation succeeds exactly when the order exists and is not cancelled; a missing order and an already cancelled one fail with the source's two messages |
| Transactions.RestockOneMore | transactions/transaction_manager.py:289-295 | Restocking one more product sets in_stock on it alone |
| Transactions.ProductsOfOneMore | transactions/transaction_manager.py:284-290 | The products of one more item are the earlier ones plus its product |
| Transactions.CancelOrderWithRefund | transactions/transaction_manager.py:249-325 | Returns True exactly when the cancellation succeeds, and then commits it; otherwise the database is unchanged; the connection is closed on every path |
| Transactions.RefundEffect | transactions/transaction_manager.py:274-278 | A refund adds the amount, with NULL read as 0, to that customer only |
| Transactions.CancelRefunds | transactions/transaction_manager.py:304-310 | Cancelling refunds the order's total to its customer and changes no other customer |
| Transactions.CancelMarksOrder | transactions/transaction_manager.py:268-272 | Cancelling sets that order's status to 'cancelled' and changes no other order |
| Transactions.CancelRestocks | transactions/transaction_manager.py:280-295 | Cancelling sets in_stock on exactly the products of the order's items and changes no other product |
| Transactions.CancelTwiceFails | transactions/transaction_manager.py:263-264 | A second cancellation fails with "Order is already cancelled" |
| Transactions.CancelKeepsValid | transactions/transaction_manager.py:249-325 | A cancellation keeps the store invariant |
| Transactions.SetCreditKeepsValid | transactions/transaction_manager.py:274-278 | Changing one customer's credit keeps the store invariant |
| Transactions.RefundKeepsValid | transactions/transaction_manager.py:274-278 | The refund step keeps the store invariant |
| Transactions.CancelledStatusKeepsValid | transactions/transaction_manager.py:268-272 | Marking the order cancelled keeps the store invariant |
| Transactions.RestockKeepsValid | transactions/transaction_manager.py:280-295 | Restocking the order's products keeps the store invariant |
| Transactions.RefundAsWrittenLosesCredit | transactions/transaction_manager.py:274-278 | With the SQL as written, a NULL total or a NULL credit limit loses the refund, which the corrected refund keeps |
| Transactions.RefundAgreesWhenSet | transactions/transaction_manager.py:274-278 | When the order has a total and the customer a credit limit, the refund as written and the NULL-as-0 refund are the same |
| Repositories.CustomerRepository.Add | DBPV/repositories/concrete_repositories.py:13-30 | Inserts the customer under a fresh id and returns it with that id |
| Repositories.CustomerRepository.Update | DBPV/repositories/concrete_repositories.py:32-43 | Overwrites the row with that id and returns its argument |
| Repositories.CustomerRepository.Delete | DBPV/repositories/concrete_repositories.py:45-48 | Removes the row unless the log refers to it, and reports whether a row was removed |
| Repositories.ProductRepository.Add | DBPV/repositories/concrete_repositories.py:127-144 | Inserts the product under a fresh id and returns it with that id |
| Repositories.ProductRepository.Update | DBPV/repositories/concrete_repositories.py:146-157 | Overwrites the row with that id and returns its argument |
| Repositories.ProductRepository.Delete | DBPV/repositories/concrete_repositories.py:159-162 | Removes the row and reports whether it existed |
| Repositories.OrderRepository.Add | DBPV/repositories/concrete_repositories.py:236-253 | Inserts the order under a fresh id and returns it with that id |
| Repositories.OrderRepository.Update | DBPV/repositories/concrete_repositories.py:255-266 | Overwrites the row with that id and returns its argument |
| Repositories.OrderRepository.Delete | DBPV/repositories/concrete_repositories.py:268-271 | Removes the row and reports whether it existed |
| Repositories.AddedCustomerIsFound | DBPV/repositories/concrete_repositories.py:24-30 | After add, get_by_id of the new id returns the customer with that id, and no existing row changes |
| Repositories.AddedProductIsFound | DBPV/repositories/concrete_repositories.py:138-144 | After add, get_by_id of the new id returns the product with that id, and no existing row changes |
| Repositories.AddedOrderIsFound | DBPV/repositories/concrete_repositories.py:247-253 | After add, get_by_id of the new id returns the order with that id, and no existing row changes |
| Repositories.UpdatedCustomerIsFound | DBPV/repositories/concrete_repositories.py:32-43 | After update, get_by_id returns the new row; with no matching row nothing changes; other rows are untouched |
| Repositories.UpdatedProductIsFound | DBPV/repositories/concrete_repositories.py:146-157 | After update, get_by_id returns the new row; with no matching row nothing changes; other rows are untouched |
| Repositories.UpdatedOrderIsFound | DBPV/repositories/concrete_repositories.py:255-266 | After update, get_by_id returns the new row; with no matching row nothing changes; other rows are untouched |
| Repositories.DeletedIsGone | DBPV/repositories/concrete_repositories.py:45-48 | After any delete, get_by_id of that id finds nothing, and the result says whether a row existed |
| Repositories.CustomersWithOrdersExact | DBPV/repositories/concrete_repositories.py:84-104 | get_customers_with_orders returns exactly the customers that have at least one order, with their rows unchanged |
| Repositories.OrdersByCustomerPartition | DBPV/repositories/concrete_repositories.py:303-316 | Different customers' orders are disjoint, and every order with a customer is among that customer's orders |
| Repositories.OrdersByStatusExact | DBPV/repositories/concrete_repositories.py:318-331 | get_orders_by_status returns exactly the orders with that status, and different statuses give disjoint results |
| Repositories.ProductsByCategoryExact | DBPV/repositories/concrete_repositories.py:198-213 | get_products_by_category returns exactly the products of that category, and different categories give disjoint results |
| Repositories.ProductsInStockExact | DBPV/repositories/concrete_repositories.py:215-230 | get_products_in_stock returns exactly the in-stock products, a subset of get_all |
| Services.ValidateOrderLines | DBPV/services/multi_table_services.py:30-43 | The pre-validation loop succeeds exactly when every product exists, is in stock and has a price; it then returns Σ price×quantity, and otherwise the error of a failing line |
| Services.OrderService.CreateOrderWithItems | DBPV/services/multi_table_services.py:21-80 | A missing customer raises before any write; it succeeds exactly when the customer exists and every line is orderable; a failure writes nothing; success leaves the created order and returns it |
| Services.OrderService.InsertItems | DBPV/services/multi_table_services.py:53-76 | The item loop adds exactly one item per requested line, with consecutive ids and each product's current price, and changes nothing else |
| Services.OrderService.UpdateOrderStatus | DBPV/services/multi_table_services.py:124-134 | Returns whether the order exists and sets only its status |
| Services.OrderService.DeleteOrder | DBPV/services/multi_table_services.py:136-147 | Deletes the order's items and then the order, and returns whether an order row was removed |
| Services.CreateMatchesPlaceOrder | DBPV/services/multi_table_services.py:43-79 | Order creation leaves the same items and total as transactional placement; only the status differs ('pending' instead of 'processing') |
| Services.OrderCreatedValid | DBPV/services/multi_table_services.py:45-79 | Order creation keeps the store invariant |
| Services.OrderCreatedEffect | DBPV/services/multi_table_services.py:45-79 | Creation adds one 'pending' order for the customer with total Σ price×quantity and one item per line with the product's price; nothing else changes |
| Services.DetailsListItemsOfOrder | DBPV/services/multi_table_services.py:95-116 | Order details list exactly the order's items whose product exists, which is what the inner join returns, each joined with its product |
| Services.CreatedOrderDetails | DBPV/services/multi_table_services.py:82-122 | The details of a created order list exactly its new items, one per requested line |
| Services.StatusUpdatedEffect | DBPV/services/multi_table_services.py:128-134 | Setting a status changes only that order, does nothing for a missing order, and keeps the invariant |
| Services.OrderDeletedEffect | DBPV/services/multi_table_services.py:140-147 | Deleting an order removes it and exactly its items, and keeps the invariant |
| Services.PurgeOneMore | DBPV/services/multi_table_services.py:216-217 | Deleting one more order of the loop removes that order and its items on top of the earlier ones |
| Services.CustomerService.DeleteCustomer | DBPV/services/multi_table_services.py:208-220 | Deletes every order of the customer with its items, then the customer; reports whether a customer row was removed, or the log's integrity error |
| Services.CustomerService.PurgeOrders | DBPV/services/multi_table_services.py:212-217 | Running delete_order over the customer's orders removes exactly those orders and their items |
| Services.CustomerDeletedEffect | DBPV/services/multi_table_services.py:212-220 | After the delete, the customer, its orders and their items are gone, and all other rows are unchanged |
| Services.DeleteCustomerFailsAfterPurge | DBPV/services/multi_table_services.py:212-220 | A customer in the transfer log cannot be deleted, yet its orders have already been deleted, because each step commits separately |
| Services.OrdersPurgedValid | DBPV/services/multi_table_services.py:212-217 | Deleting a customer's orders keeps the store invariant |
| Services.CustomerOrdersExact | DBPV/services/multi_table_services.py:179-200 | Returns nothing exactly when the customer is missing, and otherwise the details of exactly its orders |
| Services.ProductService.DeleteProduct | DBPV/services/multi_table_services.py:297-316 | A product referenced by any order item raises and nothing is deleted; otherwise its supplier links and the row are removed, and it reports whether the row existed |
| Services.ProductGuardExact | DBPV/services/multi_table_services.py:303-309 | The COUNT guard is positive exactly when some order item references the product |
| Services.ProductDeletedEffect | DBPV/services/multi_table_services.py:311-316 | Deleting a product removes it and its supplier links, changes nothing else, and keeps the invariant |
| Configuration.Fields | DBPV/config/config_manager.py:54-61 | Reads every named sub-key, or fails with the error of a missing one |
| Configuration.Config.Default | DBPV/config/config_manager.py:23-44 | Without a file, the settings are the default configuration, and it is saved |
| Configuration.Config.Load | DBPV/config/config_manager.py:18-20 | With a file, the settings are its contents |
| Configuration.Config.Save | DBPV/config/config_manager.py:46-50 | Saving persists the current settings unchanged |
| Configuration.Config.Get | DBPV/config/config_manager.py:63-74 | Returns the value at the dot-separated path, or the default when any step is missing or not a dict |
| Configuration.Config.Set | DBPV/config/config_manager.py:76-87 | Sets the value at the path, creating missing levels, and saves; it fails, changing nothing, when a level on the path is not a dict |
| Configuration.Config.GetDatabaseConnectionString | DBPV/config/config_manager.py:52-61 | Returns the connection string built from the database section |
| Configuration.GetAfterSet | DBPV/config/config_manager.py:63-87 | After `set(key, x)`, `get(key)` returns x |
| Configuration.SetLeavesOtherPaths | DBPV/config/config_manager.py:76-87 | `set` leaves every path that branches off the key unchanged |
| Configuration.EmptyHasNothing | DBPV/config/config_manager.py:63-74 | An empty configuration has no value at any path |
| Configuration.SetSucceedsIff | DBPV/config/config_manager.py:79-86 | `set` succeeds exactly when every proper prefix of the path is absent or a dict |
| Configuration.SplitJoin | DBPV/config/config_manager.py:65 | Splitting joined pieces that contain no separator gives the pieces back |
| Configuration.ConnectionTextParts | DBPV/config/config_manager.py:55-61 | Split on ';', the connection string gives exactly the five DRIVER, SERVER, DATABASE, UID and PWD parts |
| Configuration.ConnectionStringErrors | DBPV/config/config_manager.py:54-61 | A missing database section gives KeyError('database'), and a missing sub-key gives a KeyError naming it |
| DataImport.Cell | DBPV/data_import/data_import_service.py:33-35 | `row.get`: a column the file has gives its cell (None only on a short line), a missing column gives the default |
| DataImport.FilledIsTrimmed | DBPV/data_import/data_import_service.py:33-39 | A non-empty stripped cell is trimmed |
| DataImport.CsvCustomer | DBPV/data_import/data_import_service.py:30-70 | A row yields a customer exactly when first name, last name and email are non-empty after strip, and then they are stored stripped |
| DataImport.CsvProduct | DBPV/data_import/data_import_service.py:79-143 | A row yields a product exactly when its name is non-empty after strip and its Description and InStock cells are not None; then the name is stored stripped and the status is the cell or 'active' |
| DataImport.CsvCustomers | DBPV/data_import/data_import_service.py:30-70 | One candidate per CSV row, in order; a row is a candidate exactly when FirstName, LastName and Email are filled, and every candidate is complete |
| DataImport.CsvProducts | DBPV/data_import/data_import_service.py:79-143 | One candidate per CSV row, in order; a row is a candidate exactly when ProductName is filled and Description and InStock are present, and every candidate is complete |
| DataImport.CsvDecimalCases | DBPV/data_import/data_import_service.py:52-56 | An absent, empty or unparseable amount reads as 0, and a parseable one as its value |
| DataImport.CsvCategoryCases | DBPV/data_import/data_import_service.py:79-143 | An absent, empty or unparseable category reads as 1, and a parseable one as its value |
| DataImport.CsvCreditDefaults | DBPV/data_import/data_import_service.py:50-56 | An imported customer's credit limit is 0 when the cell is absent, empty or unparseable, and the parsed value otherwise |
| DataImport.CsvPriceDefaults | DBPV/data_import/data_import_service.py:79-143 | An imported product's price is 0 when the cell is absent, empty or unparseable |
| DataImport.CsvCategoryDefaults | DBPV/data_import/data_import_service.py:79-143 | An imported product's category is 1 when the cell is absent or empty |
| DataImport.CsvCategoryParsed | DBPV/data_import/data_import_service.py:79-143 | A parseable category cell gives that category |
| DataImport.CsvInStock | DBPV/data_import/data_import_service.py:79-143 | A missing in-stock column reads as true; otherwise the product is in stock exactly when the word is 1, true, yes, t or y, in any case |
| DataImport.JsonRecords | DBPV/data_import/data_import_service.py:152-158 | A dict becomes a one-record list and a list is iterated; a string iterates its characters, and anything else raises TypeError |
| DataImport.BindDecimal | DBPV/data_import/data_import_service.py:145-201 | None binds as NULL; an integer, a float or a numeric string binds as its value rounded to cents; the INSERT fails exactly on a list, a dict or an unparseable string |
| DataImport.BindInt | DBPV/data_import/data_import_service.py:203-261 | None binds as NULL and an integer as itself |
| DataImport.BindBit | DBPV/data_import/data_import_service.py:203-261 | A boolean binds as itself; None, lists and dicts are refused |
| DataImport.BindText | DBPV/data_import/data_import_service.py:145-261 | Only strings and None bind to a text column; a string binds as itself and None as NULL |
| DataImport.JsonCustomer | DBPV/data_import/data_import_service.py:158-199 | A record is accepted exactly when it is a dict whose FirstName, LastName and Email are strings non-empty once stripped and whose DateOfBirth and CreditLimit bind; the customer then carries the stripped names and email and the bound values, the credit limit defaulting to 0 |
| DataImport.JsonProduct | DBPV/data_import/data_import_service.py:216-259 | A record is accepted exactly when it is a dict whose ProductName is a string non-empty once stripped, whose Description is a string, and whose Price, CategoryID, InStock and ProductStatus bind; the product then carries the stripped name and description and the bound price and category; in-stock defaults to true, category to 1 and status to 'active' |
| DataImport.JsonCustomers | DBPV/data_import/data_import_service.py:158-199 | One candidate per JSON record, in order; a record that is no object is never a candidate, and every candidate is complete |
| DataImport.JsonProducts | DBPV/data_import/data_import_service.py:216-259 | One candidate per JSON record, in order; a record that is no object is never a candidate, and every candidate is complete |
| DataImport.ImportCustomers | DBPV/data_import/data_import_service.py:25-77 | The count never exceeds the number of rows |
| DataImport.ImportProducts | DBPV/data_import/data_import_service.py:79-143 | The count never exceeds the number of rows |
| DataImport.ImportCustomersNext | DBPV/data_import/data_import_service.py:30-75 | Each row is processed against the store the earlier rows left |
| DataImport.ImportProductsNext | DBPV/data_import/data_import_service.py:79-143 | Each row is processed against the store the earlier rows left |
| DataImport.DataImportService.ImportCustomersFromCsv | DBPV/data_import/data_import_service.py:21-77 | Inserts the rows' customers one by one, skipping incomplete rows, known emails and refused inserts, and returns the count |
| DataImport.DataImportService.ImportProductsFromCsv | DBPV/data_import/data_import_service.py:79-143 | Inserts the rows' products one by one, skipping unnamed rows, known names and refused inserts, and returns the count |
| DataImport.DataImportService.ImportCustomersFromJson | DBPV/data_import/data_import_service.py:145-201 | Fails, changing nothing, exactly when the top-level value is not iterable; otherwise imports its records as above |
| DataImport.DataImportService.ImportProductsFromJson | DBPV/data_import/data_import_service.py:203-261 | Fails, changing nothing, exactly when the top-level value is not iterable; otherwise imports its records as above |
| DataImport.ImportCustomersKeepValid | DBPV/data_import/data_import_service.py:21-77 | A customer import keeps the store invariant |
| DataImport.ImportCustomersEffect | DBPV/data_import/data_import_service.py:58-72 | Exactly `count` customers are added under consecutive fresh ids, existing rows are untouched, and other tables are unchanged |
| DataImport.ImportProductsKeepValid | DBPV/data_import/data_import_service.py:79-143 | A product import keeps the store invariant |
| DataImport.ImportProductsEffect | DBPV/data_import/data_import_service.py:79-143 | Exactly `count` products are added under consecutive fresh ids, existing rows are untouched, and other tables are unchanged |
| DataImport.ImportKeepsEmailsUnique | DBPV/data_import/data_import_service.py:41-48 | If emails were unique before an import, they are unique after it, because later rows see earlier inserts |
| DataImport.ImportKeepsNamesUnique | DBPV/data_import/data_import_service.py:79-143 | If product names were unique before an import, they are unique after it |
| DataImport.ImportedCustomersComplete | DBPV/data_import/data_import_service.py:37-39 | Every imported customer has non-empty stripped names and email |
| DataImport.ImportedProductsNamed | DBPV/data_import/data_import_service.py:79-143 | Every imported product has a non-empty stripped name |
| DataImport.RepeatedCustomerImportedOnce | DBPV/data_import/data_import_service.py:41-48 | The same customer twice in one file is imported at most once |
| DataImport.RepeatedProductImportedOnce | DBPV/data_import/data_import_service.py:79-143 | The same product twice in one file is imported at most once |
| DataImport.FoundIdsTruthy | DBPV/data_import/data_import_service.py:41-47 | In a valid store every customer or product a duplicate check can find has a non-zero, hence truthy, id, so the skip test is the existence test |
| DataImport.TakenEmailSkipped | DBPV/data_import/data_import_service.py:41-48 | A row whose email is already stored changes neither the store nor the count |
| DataImport.RefusedRowSkipped | DBPV/data_import/data_import_service.py:73-75 | A row the database refuses changes neither the store nor the count |
| DataImport.Route | DBPV/data_import/data_import_service.py:396-416 | Dispatch succeeds exactly when the lowered path ends in .csv, .json or .xml and the lowered table is customers or products; .csv is checked first; otherwise it raises the source's ValueError naming both |
| DataImport.LowerTwice | DBPV/data_import/data_import_service.py:400-414 | Lowering is idempotent |
| DataImport.RouteIgnoresCase | DBPV/data_import/data_import_service.py:396-416 | Dispatch gives the same result for a lowered path and table name |

## Left out

- User interface, reports, connection set-up and printing: these are I/O. The UI alone checks amount > 0, quantity > 0 and the status whitelist, so the services here accept any amount, quantity and status.
- `_ensure_transaction_log_table` (DDL that swallows errors), and the unused helpers and `operations` list inside `place_order_with_inventory_check`: only `check_inventory_and_reserve` is on the live path.
- XML import: it depends on ElementTree element truthiness, which is library behaviour. `DataImport.Route` still routes `.xml` files, but the importers themselves are not part of this model.
- File I/O: CSV files arrive as parsed rows (`DataImport.CsvRow`), JSON files as one parsed `Values.Value`, and the configuration file as a parsed map. File existence is the choice between `Configuration.Config.Default` and `Configuration.Config.Load`.
- Logging (`log_error`, the logger calls, `logging.basicConfig`), the `print` of failures, and `SafeCustomerRepository`.
- Concurrency and isolation between connections, including the check-then-act race on a balance.
- Floating point: money is whole cents. Values are rounded half away from zero to two places, as DECIMAL(10,2) stores them. The DECIMAL(10,2) range and overflow are not modelled.
- Python `float()` spellings with exponents, `inf`, `nan` or underscores count as unparseable. Only ASCII case is folded by `lower()`.
- Dates: date of birth, registration, order and transaction dates, and `GETDATE()` are not modelled. Server defaults and identity gaps after rollback are not modelled either.
- Foreign keys other than TransactionLog's: the rest of the schema is not part of this model. So the store lets an order refer to a missing customer, and `Store.DeleteCustomerRow` fails only on log references.
- SQL Server collation: email and name comparisons are exact, not case-insensitive.
- Row order: query results are maps keyed by id, so the order of SELECT rows is not modelled.
- In-place mutation and aliasing of caller objects (`order.total_amount = …`, `add` writing the id back): the model returns the new value instead.
- Category and Supplier entities (models/entities.py:64-86): no core operation uses them beyond the ProductSuppliers links.
- `create_customer_with_first_order`, `update_customer_and_associated_data`, `get_product_with_category_and_orders` and `update_product_and_related_data` (DBPV/services/multi_table_services.py:159-177, 202-206, 231-295): these are compositions of modelled operations. `update_customer_and_associated_data` is exactly `Repositories.CustomerRepository.Update`.
- `get_customer_by_email` returns one row, and which row the database picks is not modelled; `Repositories.CustomersWithEmail` returns all of them.
- JSON binding is approximated. A non-string value for a text column is refused, where SQL Server would store its text. A null InStock is refused. SQL Server's string-to-decimal conversion is `Text.ParseDecimal`.
- Whether the database accepts an INSERT (a constraint we cannot see, a too-long string) is the `accepts` parameter of the importers.
- Configuration.Config.Set: a nested dict is replaced by value rather than mutated in place. A top-level configuration that is not an object is not modelled.
- Configuration.ConnectionString: requires a database section whose values are strings, ints, bools or None; formatting a float, a nested list or a dict with `str()` is not modelled.
- Configuration.Config.GetDatabaseConnectionString: has the same requirement as `Configuration.ConnectionString`.
- Services.OrderService.UpdateOrderStatus: requires the store invariant, so that the order's own id field matches its key when the update is issued by id.
- IsActive and InStock are never NULL in the model.
- A connection failure is not modelled: connecting always succeeds.
- Values.PyInt: refuses underscores between digits (`"1_000"`) and non-ASCII digits, which `int()` accepts, because `Text.ParseInt` reads only a sign and ASCII decimal digits; the validators, `ItemError` and the CSV category column inherit this.
- Order lines: `Transactions.LineRequest` is a typed (product id, quantity) pair, so the KeyError that `item['product_id']` or `item['quantity']` raises for a dict without that key, and a quantity that is no int, are not modelled in the transaction and service operations.
- ErrorHandling.CheckEmailValue: the text after "Invalid email format: " for a list or dict is `Values.Repr`, which quotes strings without Python's escaping, prints a float with all its stored fraction digits, and prints a dict as `{...}`, because a map keeps no insertion order.
- Transactions.TransferCustomerCredit: commits the corrected transfer, which reads a NULL CreditLimit as 0 on both sides (see Findings). As written, the SQL leaves a NULL receiver's credit NULL, and a NULL sender with a negative amount stays NULL. `Transactions.TransferAgreesWhenSet` proves both are the same transaction when both credit limits are set.
- Transactions.TransferMovesCredit: is stated about the corrected transfer; for a receiver whose CreditLimit is NULL the program as written credits nothing (`Transactions.TransferAsWrittenLosesCredit`).
- Transactions.DebitLowersTotal: is stated about the corrected debit; the debit as written agrees with it only when the sender's credit limit is set (`Transactions.DebitAgreesWhenSet`).
- Transactions.CreditRaisesTotal: is stated about the corrected credit; the credit as written agrees with it only when the receiver's credit limit is set (`Transactions.CreditAgreesWhenSet`).
- Transactions.CancelOrderWithRefund: commits the corrected refund, which reads a NULL TotalAmount and a NULL CreditLimit as 0 (see Findings). As written, either NULL leaves the customer's credit NULL. `Transactions.RefundAgreesWhenSet` proves both refunds are the same when both values are set.
- Transactions.CancelRefunds: is stated about the corrected refund; with a NULL total or a NULL credit limit the program as written sets the credit to NULL (`Transactions.RefundAsWrittenLosesCredit`).

## Findings

| source | as written | input that shows it | evidently intended | confidence | as-written member | corrected member |
|---|---|---|---|---|---|---|
| transactions/transaction_manager.py:76-81 | `CreditLimit = CreditLimit + ?` leaves a NULL credit limit NULL, so the target gains nothing, although the debit reads NULL as 0 (line 66) | customer 1 with credit 100.00 transfers 50.00 to customer 2 whose CreditLimit is NULL: total credit drops from 100.00 to 50.00 | the receiver's NULL counts as 0, so credit is conserved | not executed | Transactions.TransferAsWrittenLosesCredit | Transactions.TransferConservesCredit |
| transactions/transaction_manager.py:274-278 | the refund adds the order's total with SQL `+`, so a NULL TotalAmount sets the credit to NULL and a NULL CreditLimit stays NULL | cancel an order with NULL TotalAmount for a customer with credit 100.00, or an order of 50.00 for a customer with NULL credit | a NULL total refunds nothing and a NULL credit limit counts as 0 | not executed | Transactions.RefundAsWrittenLosesCredit | Transactions.RefundEffect |
