/**
 * The checks and error translations of error_handling/error_handler.py:
 * the field validators, the classification of database errors, the
 * `safe_execute` wrapper and the `handle_exceptions` mapping. Each one only
 * computes a verdict or the error it raises, so each is a function here.
 */
module ErrorHandling {
  import opened Wrappers
  import opened Text
  import opened Errors
  import opened Values

  // ---------------------------------------------------------------------
  // validate_email
  // ---------------------------------------------------------------------

  /** An '@' after which no other '@' follows and some '.' does. */
  predicate EmailShape(email: string) {
    exists i :: 0 <= i < |email| && email[i] == '@' && '@' !in email[i + 1..] && '.' in email[i + 1..]
  }

  /** ErrorHandler.validate_email: True, or the ValidationError it raises. */
  function ValidateEmail(email: string): (r: Result<bool, Error>)
    ensures r.Ok? ==> r.value
    ensures r.Err? ==> r.error.ValidationError?
    ensures r == Err(ValidationError("Email is required")) <==> email == []
  {
    if email == [] then Err(ValidationError("Email is required"))
    else if '@' !in email || '.' !in Last(Split(email, '@')) then
      Err(ValidationError("Invalid email format: " + email))
    else Ok(true)
  }

  /** The email is accepted exactly when it has the shape: something after its last '@' contains a '.'. */
  lemma ValidateEmailAccepts(email: string)
    ensures ValidateEmail(email).Ok? <==> EmailShape(email)
  {
    if '@' in email {
      var k := LastIndexOf(email, '@');
      SplitLastPiece(email, '@', k);
      if EmailShape(email) {
        var i :| 0 <= i < |email| && email[i] == '@' && '@' !in email[i + 1..] && '.' in email[i + 1..];
        assert i == k;
      }
    }
  }

  // ---------------------------------------------------------------------
  // Required fields
  // ---------------------------------------------------------------------

  /** `field not in data or not data[field]` */
  predicate Missing(data: map<string, Value>, field: string) {
    field !in data || !Truthy(data[field])
  }

  /** The field is there and truthy. */
  predicate Present(data: map<string, Value>, field: string) {
    field in data && Truthy(data[field])
  }

  /** The index of the first required field that is missing or empty, if any. */
  function FirstMissing(data: map<string, Value>, fields: seq<string>): (r: Option<nat>)
    ensures r.Some? ==> r.value < |fields| && Missing(data, fields[r.value])
    ensures r.Some? ==> forall j :: 0 <= j < r.value ==> !Missing(data, fields[j])
    ensures r.None? <==> forall j :: 0 <= j < |fields| ==> !Missing(data, fields[j])
    decreases |fields|
  {
    if fields == [] then None
    else if Missing(data, fields[0]) then Some(0)
    else match FirstMissing(data, fields[1..])
      case None => None
      case Some(k) => Some(k + 1)
  }

  function MissingFieldError(field: string): Error {
    ValidationError("Required field '" + field + "' is missing or empty")
  }

  function RequireFields(data: map<string, Value>, fields: seq<string>): (r: Result<(), Error>)
    ensures r.Ok? <==> forall j :: 0 <= j < |fields| ==> !Missing(data, fields[j])
    ensures r.Err? ==> exists k :: 0 <= k < |fields| && r.error == MissingFieldError(fields[k])
                          && Missing(data, fields[k]) && forall j :: 0 <= j < k ==> !Missing(data, fields[j])
  {
    match FirstMissing(data, fields)
    case None => Ok(())
    case Some(k) => Err(MissingFieldError(fields[k]))
  }

  // ---------------------------------------------------------------------
  // validate_customer_data, validate_product_data
  // ---------------------------------------------------------------------

  const CustomerFields: seq<string> := ["first_name", "last_name", "email"]
  const ProductFields: seq<string> := ["product_name", "price"]
  const OrderFields: seq<string> := ["customer_id", "order_items"]

  /**
   * validate_email applied to whatever value the dict holds under 'email':
   * `not email` refuses every falsy value, `"@" not in email` tests the
   * elements of a list and the keys of a dict, and `email.split` exists on
   * strings only.
   */
  function CheckEmailValue(v: Value): (r: Result<bool, Error>)
    ensures r.Ok? <==> v.VStr? && EmailShape(v.s)
    ensures r.Ok? ==> r.value
    ensures r == Err(ValidationError("Email is required")) <==> !Truthy(v)
    ensures Truthy(v) && r.Err? ==>
      (r.error.ValidationError? <==> v.VStr? || (v.VList? && VStr("@") !in v.items) || (v.VDict? && "@" !in v.fields))
    ensures Truthy(v) && r.Err? && r.error.ValidationError? ==>
      r.error.msg == "Invalid email format: " + (if v.VStr? then v.s else Repr(v))
    ensures Truthy(v) && (v.VBool? || v.VInt? || v.VFloat?) ==>
      r == Err(TypeError("argument of type '" + TypeName(v) + "' is not iterable"))
    ensures Truthy(v) && (v.VList? || v.VDict?) && r.Err? && !r.error.ValidationError? ==>
      r == Err(AttributeError("'" + TypeName(v) + "' object has no attribute 'split'"))
  {
    if !Truthy(v) then Err(ValidationError("Email is required"))
    else
      match v
      case VStr(s) => ValidateEmailAccepts(s); ValidateEmail(s)
      case VList(items) =>
        if VStr("@") !in items then Err(ValidationError("Invalid email format: " + Repr(v)))
        else Err(AttributeError("'" + TypeName(v) + "' object has no attribute 'split'"))
      case VDict(fields) =>
        if "@" !in fields then Err(ValidationError("Invalid email format: " + Repr(v)))
        else Err(AttributeError("'" + TypeName(v) + "' object has no attribute 'split'"))
      case _ => Err(TypeError("argument of type '" + TypeName(v) + "' is not iterable"))
  }

  /** A non-negative number as float() reads it. */
  predicate NonNegativeNumber(v: Value) {
    PyFloat(v).Ok? && PyFloat(v).value.mantissa >= 0
  }

  /** The check of an optional or required number field that float() must accept and that may not be negative. */
  function CheckNonNegative(v: Value, negative: string, invalid: string): (r: Result<(), Error>)
    ensures r.Ok? <==> NonNegativeNumber(v)
    ensures r.Err? ==> r.error == ValidationError(if PyFloat(v).Ok? then negative else invalid)
  {
    match PyFloat(v)
    case Err(_) => Err(ValidationError(invalid))
    case Ok(d) => if d.mantissa < 0 then Err(ValidationError(negative)) else Ok(())
  }

  /** ErrorHandler.validate_customer_data */
  function ValidateCustomerData(data: map<string, Value>): (r: Result<(), Error>)
    ensures r.Ok? <==>
      Present(data, "first_name") && Present(data, "last_name") && Present(data, "email")
      && data["email"].VStr? && EmailShape(data["email"].s)
      && ("credit_limit" in data ==> NonNegativeNumber(data["credit_limit"]))
    ensures RequireFields(data, CustomerFields).Err? ==> r == RequireFields(data, CustomerFields)
    ensures RequireFields(data, CustomerFields).Ok? && Present(data, "email") && CheckEmailValue(data["email"]).Err? ==>
      r == Err(CheckEmailValue(data["email"]).error)
    ensures (RequireFields(data, CustomerFields).Ok? && Present(data, "email") && CheckEmailValue(data["email"]).Ok?
             && "credit_limit" in data) ==>
      r == CheckNonNegative(data["credit_limit"], "Credit limit cannot be negative", "Credit limit must be a valid number")
  {
    var required := RequireFields(data, CustomerFields);
    assert required.Ok? ==> !Missing(data, CustomerFields[2]);
    assert required.Ok? <== Present(data, "first_name") && Present(data, "last_name") && Present(data, "email");
    if required.Err? then Err(required.error)
    else
      var email := CheckEmailValue(data["email"]);
      if email.Err? then Err(email.error)
      else if "credit_limit" in data then
        CheckNonNegative(data["credit_limit"], "Credit limit cannot be negative", "Credit limit must be a valid number")
      else Ok(())
  }

  /** ErrorHandler.validate_product_data */
  function ValidateProductData(data: map<string, Value>): (r: Result<(), Error>)
    ensures r.Ok? <==> Present(data, "product_name") && Present(data, "price") && NonNegativeNumber(data["price"])
  {
    var required := RequireFields(data, ProductFields);
    assert required.Ok? ==> !Missing(data, ProductFields[1]);
    assert required.Ok? <== Present(data, "product_name") && Present(data, "price");
    if required.Err? then Err(required.error)
    else CheckNonNegative(data["price"], "Price cannot be negative", "Price must be a valid number")
  }

  /** A price of zero is falsy, so it is refused as a missing field rather than accepted as free. */
  lemma ZeroPriceIsMissing(data: map<string, Value>)
    requires "product_name" in data && Truthy(data["product_name"])
    requires "price" in data && (data["price"] == VInt(0) || data["price"] == VStr(""))
    ensures ValidateProductData(data) == Err(MissingFieldError("price"))
  {
    assert Missing(data, ProductFields[1]);
    assert !Missing(data, ProductFields[0]);
  }

  /** The checks on credit limit and price are on the sign only: a negative number is refused with its own message. */
  lemma NegativeCreditLimitRefused(data: map<string, Value>)
    requires Present(data, "first_name") && Present(data, "last_name") && Present(data, "email")
    requires data["email"].VStr? && EmailShape(data["email"].s)
    requires "credit_limit" in data && PyFloat(data["credit_limit"]).Ok? && PyFloat(data["credit_limit"]).value.mantissa < 0
    ensures ValidateCustomerData(data) == Err(ValidationError("Credit limit cannot be negative"))
  {
    assert RequireFields(data, CustomerFields).Ok?;
  }

  /** A credit limit float() refuses (a word, a list, None) is reported as no valid number. */
  lemma UnreadableCreditLimitRefused(data: map<string, Value>)
    requires Present(data, "first_name") && Present(data, "last_name") && Present(data, "email")
    requires data["email"].VStr? && EmailShape(data["email"].s)
    requires "credit_limit" in data && PyFloat(data["credit_limit"]).Err?
    ensures ValidateCustomerData(data) == Err(ValidationError("Credit limit must be a valid number"))
  {
    assert RequireFields(data, CustomerFields).Ok?;
    assert CheckEmailValue(data["email"]).Ok?;
  }

  /** A list or dict email holding "@" passes the membership test and fails on `split`, which only strings have. */
  lemma ContainerEmailWithAtFailsOnSplit()
    ensures CheckEmailValue(VList([VStr("@")])).Err? && CheckEmailValue(VList([VStr("@")])).error.AttributeError?
    ensures CheckEmailValue(VDict(map["@" := VNone])).Err? && CheckEmailValue(VDict(map["@" := VNone])).error.AttributeError?
  {
    assert VList([VStr("@")]).items[0] == VStr("@");
    assert "@" in VDict(map["@" := VNone]).fields;
  }

  // ---------------------------------------------------------------------
  // validate_order_data
  // ---------------------------------------------------------------------

  /** What validate_order_data reports for the item at index i, if anything. */
  function ItemError(item: Value, i: nat): (r: Option<Error>)
    ensures r.None? <==>
      item.VDict? && "product_id" in item.fields && "quantity" in item.fields
      && PyInt(item.fields["product_id"]).Ok? && PyInt(item.fields["product_id"]).value > 0
      && PyInt(item.fields["quantity"]).Ok? && PyInt(item.fields["quantity"]).value > 0
  {
    var at := "at index " + IntToString(i);
    if !item.VDict? then Some(ValidationError("Order item " + at + " must be a dictionary"))
    else if "product_id" !in item.fields || "quantity" !in item.fields then
      Some(ValidationError("Order item " + at + " must have 'product_id' and 'quantity'"))
    else
      var productId := PyInt(item.fields["product_id"]);
      var quantity := PyInt(item.fields["quantity"]);
      if productId.Err? || quantity.Err? then
        Some(ValidationError("Product ID and quantity " + at + " must be valid integers"))
      else if productId.value <= 0 then Some(ValidationError("Product ID " + at + " must be a positive integer"))
      else if quantity.value <= 0 then Some(ValidationError("Quantity " + at + " must be a positive integer"))
      else None
  }

  /** The index of the first item that fails, if any. */
  function FirstBadItem(items: seq<Value>, from: nat): (r: Option<nat>)
    requires from <= |items|
    ensures r.Some? ==> from <= r.value < |items| && ItemError(items[r.value], r.value).Some?
    ensures r.Some? ==> forall j :: from <= j < r.value ==> ItemError(items[j], j).None?
    ensures r.None? <==> forall j :: from <= j < |items| ==> ItemError(items[j], j).None?
    decreases |items| - from
  {
    if from == |items| then None
    else if ItemError(items[from], from).Some? then Some(from)
    else FirstBadItem(items, from + 1)
  }

  /** All items of an order pass their checks. */
  predicate ItemsValid(items: seq<Value>) {
    forall j :: 0 <= j < |items| ==> ItemError(items[j], j).None?
  }

  /** ErrorHandler.validate_order_data */
  function ValidateOrderData(data: map<string, Value>): (r: Result<(), Error>)
    ensures r.Ok? <==>
      Present(data, "customer_id") && Present(data, "order_items")
      && PyInt(data["customer_id"]).Ok? && PyInt(data["customer_id"]).value > 0
      && data["order_items"].VList? && |data["order_items"].items| > 0
      && ItemsValid(data["order_items"].items)
    ensures r.Err? ==> r.error.ValidationError?
  {
    var required := RequireFields(data, OrderFields);
    assert required.Ok? ==> !Missing(data, OrderFields[0]) && !Missing(data, OrderFields[1]);
    assert required.Ok? <== Present(data, "customer_id") && Present(data, "order_items");
    if required.Err? then Err(required.error)
    else
      var customerId := PyInt(data["customer_id"]);
      if customerId.Err? then Err(ValidationError("Customer ID must be a valid integer"))
      else if customerId.value <= 0 then Err(ValidationError("Customer ID must be a positive integer"))
      else
        var items := data["order_items"];
        if !items.VList? || |items.items| == 0 then Err(ValidationError("Order items must be a non-empty list"))
        else match FirstBadItem(items.items, 0)
          case None => Ok(())
          case Some(k) => Err(ItemError(items.items[k], k).value)
  }

  /** When the fields and the customer id pass, the error reported is that of the first failing item. */
  lemma OrderReportsFirstBadItem(data: map<string, Value>, k: nat)
    requires Present(data, "customer_id") && Present(data, "order_items")
    requires PyInt(data["customer_id"]).Ok? && PyInt(data["customer_id"]).value > 0
    requires data["order_items"].VList? && k < |data["order_items"].items|
    requires ItemError(data["order_items"].items[k], k).Some?
    requires forall j :: 0 <= j < k ==> ItemError(data["order_items"].items[j], j).None?
    ensures ValidateOrderData(data) == Err(ItemError(data["order_items"].items[k], k).value)
  {
    var items := data["order_items"].items;
    assert FirstBadItem(items, 0) == Some(k);
  }

  // ---------------------------------------------------------------------
  // handle_database_error
  // ---------------------------------------------------------------------

  predicate IsTimeout(text: string) {
    Contains(Lower(text), "timeout")
  }

  predicate IsAuthenticationFailure(text: string) {
    Contains(Lower(text), "access denied") || Contains(Lower(text), "login failed")
  }

  predicate IsMissingObject(text: string) {
    Contains(Lower(text), "does not exist") || Contains(Lower(text), "invalid object name")
  }

  function TimeoutMessage(operation: string): string {
    "Database connection timeout during " + operation
  }

  function AuthenticationMessage(operation: string): string {
    "Database authentication failed during " + operation
  }

  function MissingObjectMessage(operation: string): string {
    "Database object does not exist during " + operation
  }

  function GenericMessage(operation: string, text: string): string {
    "Database error during " + operation + ": " + text
  }

  /** ErrorHandler.handle_database_error: the DatabaseConnectionError it always raises. */
  function HandleDatabaseError(error: Error, operation: string): (r: Error)
    ensures r.DatabaseConnectionError?
    ensures Contains(r.msg, operation)
  {
    var text := Message(error);
    if IsTimeout(text) then
      ContainsInfix("Database connection timeout during ", operation, "");
      assert "Database connection timeout during " + operation + "" == "Database connection timeout during " + operation;
      DatabaseConnectionError(TimeoutMessage(operation))
    else if IsAuthenticationFailure(text) then
      ContainsInfix("Database authentication failed during ", operation, "");
      assert "Database authentication failed during " + operation + "" == "Database authentication failed during " + operation;
      DatabaseConnectionError(AuthenticationMessage(operation))
    else if IsMissingObject(text) then
      ContainsInfix("Database object does not exist during ", operation, "");
      assert "Database object does not exist during " + operation + "" == "Database object does not exist during " + operation;
      DatabaseConnectionError(MissingObjectMessage(operation))
    else
      ContainsInfix("Database error during ", operation, ": " + text);
      assert GenericMessage(operation, text) == "Database error during " + operation + (": " + text);
      DatabaseConnectionError(GenericMessage(operation, text))
  }

  /** The four messages can be told apart by their tenth character. */
  lemma MessagesDiffer(operation: string, text: string)
    ensures TimeoutMessage(operation)[9] == 'c' && AuthenticationMessage(operation)[9] == 'a'
    ensures MissingObjectMessage(operation)[9] == 'o' && GenericMessage(operation, text)[9] == 'e'
  {
  }

  /**
   * The classification is by substrings of the lower-cased message, tried in
   * order: a timeout wins over an authentication failure, which wins over a
   * missing object; anything else gets the generic message quoting the error.
   */
  lemma HandleDatabaseErrorClassifies(error: Error, operation: string)
    ensures var r := HandleDatabaseError(error, operation); var text := Message(error);
      && (r.msg == TimeoutMessage(operation) <==> IsTimeout(text))
      && (r.msg == AuthenticationMessage(operation) <==> !IsTimeout(text) && IsAuthenticationFailure(text))
      && (r.msg == MissingObjectMessage(operation) <==>
            !IsTimeout(text) && !IsAuthenticationFailure(text) && IsMissingObject(text))
      && (r.msg == GenericMessage(operation, text) <==>
            !IsTimeout(text) && !IsAuthenticationFailure(text) && !IsMissingObject(text))
  {
    MessagesDiffer(operation, Message(error));
  }

  lemma EndsWithConcat(a: string, b: string)
    ensures EndsWith(a + b, b)
  {
    assert (a + b)[|a + b| - |b|..] == b;
  }

  /**
   * ErrorHandler.handle_validation_error: the ValidationError it always
   * raises names the field and ends with the original message; safe_execute
   * lets it through unchanged.
   */
  function HandleValidationError(error: Error, field: string): (r: Error)
    ensures r.ValidationError? && PassesThrough(r)
    ensures Contains(r.msg, field) && EndsWith(r.msg, Message(error))
  {
    var prefix := "Validation failed for ";
    ContainsInfix(prefix, field, ": " + Message(error));
    EndsWithConcat(prefix + field + ": ", Message(error));
    assert prefix + field + (": " + Message(error)) == prefix + field + ": " + Message(error);
    ValidationError(prefix + field + ": " + Message(error))
  }

  /** ErrorHandler.handle_config_error: the same for a configuration key, as a ConfigurationError. */
  function HandleConfigError(error: Error, configKey: string): (r: Error)
    ensures r.ConfigurationError? && PassesThrough(r)
    ensures Contains(r.msg, configKey) && EndsWith(r.msg, Message(error))
  {
    var prefix := "Configuration error for ";
    ContainsInfix(prefix, configKey, ": " + Message(error));
    EndsWithConcat(prefix + configKey + ": ", Message(error));
    assert prefix + configKey + (": " + Message(error)) == prefix + configKey + ": " + Message(error);
    ConfigurationError(prefix + configKey + ": " + Message(error))
  }

  // ---------------------------------------------------------------------
  // safe_execute, handle_exceptions
  // ---------------------------------------------------------------------

  /** The errors safe_execute lets through unchanged. */
  predicate PassesThrough(e: Error) {
    IsInstance(e, ValidationErrorClass) || IsInstance(e, DatabaseConnectionErrorClass)
    || IsInstance(e, ConfigurationErrorClass)
  }

  /**
   * ErrorHandler.safe_execute, given the outcome of the operation it runs.
   * Whatever escapes it is an application error.
   */
  function SafeExecute<T>(outcome: Result<T, Error>, context: string): (r: Result<T, Error>)
    ensures r.Ok? <==> outcome.Ok?
    ensures outcome.Ok? ==> r == outcome
    ensures r.Err? ==> IsInstance(r.error, AppErrorClass)
    ensures outcome.Err? && PassesThrough(outcome.error) ==> r == outcome
    ensures outcome.Err? && !PassesThrough(outcome.error) ==>
      r.error.AppError? && EndsWith(r.error.msg, Message(outcome.error))
      && Contains(r.error.msg, context)
  {
    match outcome
    case Ok(_) => outcome
    case Err(e) =>
      if PassesThrough(e) then outcome
      else
        var msg := "Unexpected error during " + context + ": " + Message(e);
        ContainsInfix("Unexpected error during ", context, ": " + Message(e));
        assert msg == "Unexpected error during " + context + (": " + Message(e));
        assert msg[|msg| - |Message(e)|..] == Message(e);
        Err(AppError(msg))
  }

  /** An application error that is not one of the three passed through is wrapped once more by every safe_execute it crosses. */
  lemma SafeExecuteWrapsAppError(msg: string, inner: string, outer: string)
    ensures SafeExecute<int>(SafeExecute<int>(Err(ValueError(msg)), inner), outer)
      == Err(AppError("Unexpected error during " + outer + ": " + ("Unexpected error during " + inner + ": " + msg)))
  {
  }

  /** One entry of an error map: the class it matches and the error class it raises, built from str(e). */
  datatype Mapping = Mapping(kind: ErrorClass, mapped: string -> Error)

  /** The first entry of the map whose class the error is an instance of. */
  function FirstMatch(errorMap: seq<Mapping>, e: Error): (r: Option<nat>)
    ensures r.Some? ==> r.value < |errorMap| && IsInstance(e, errorMap[r.value].kind)
    ensures r.Some? ==> forall j :: 0 <= j < r.value ==> !IsInstance(e, errorMap[j].kind)
    ensures r.None? <==> forall j :: 0 <= j < |errorMap| ==> !IsInstance(e, errorMap[j].kind)
    decreases |errorMap|
  {
    if errorMap == [] then None
    else if IsInstance(e, errorMap[0].kind) then Some(0)
    else match FirstMatch(errorMap[1..], e)
      case None => None
      case Some(k) => Some(k + 1)
  }

  /** What a function decorated by handle_exceptions(error_map) returns or raises, given what it would have done undecorated. */
  function HandleExceptions<T>(outcome: Result<T, Error>, errorMap: seq<Mapping>): (r: Result<T, Error>)
    ensures outcome.Ok? ==> r == outcome
    ensures outcome.Err? && (forall j :: 0 <= j < |errorMap| ==> !IsInstance(outcome.error, errorMap[j].kind))
      ==> r == outcome
    ensures outcome.Err? && r != outcome ==> r.Err? && exists k :: 0 <= k < |errorMap| && r.error == errorMap[k].mapped(Message(outcome.error))
  {
    match outcome
    case Ok(_) => outcome
    case Err(e) =>
      match FirstMatch(errorMap, e)
      case None => outcome
      case Some(k) => Err(errorMap[k].mapped(Message(e)))
  }

  /** The entry that decides is the first one whose class matches: its mapped class is raised with str(e). */
  lemma HandleExceptionsUsesFirstMatch<T>(outcome: Result<T, Error>, errorMap: seq<Mapping>, k: nat)
    requires outcome.Err? && k < |errorMap| && IsInstance(outcome.error, errorMap[k].kind)
    requires forall j :: 0 <= j < k ==> !IsInstance(outcome.error, errorMap[j].kind)
    ensures HandleExceptions(outcome, errorMap) == Err(errorMap[k].mapped(Message(outcome.error)))
  {
    var m := FirstMatch(errorMap, outcome.error);
    assert m.Some? && m.value == k;
  }
}
