/**
 * DataImportService (DBPV/data_import/data_import_service.py): the bulk
 * import of customers and products from CSV and JSON files. The files are
 * given already read: a CSV file as the rows csv.DictReader yields, a JSON
 * file as the value json.load returns. Each import walks its rows in
 * order, skips a row that is incomplete, already present or refused by the
 * database, inserts the others one committed statement at a time and
 * returns how many it inserted. Later rows therefore see the rows inserted
 * before them.
 *
 * Whether the database accepts an INSERT depends on column types, sizes
 * and constraints that the repository does not describe; the importers
 * take that decision as the parameter `accepts`.
 */
module DataImport {
  import opened Wrappers
  import opened Text
  import opened Errors
  import opened Values
  import opened Entities
  import opened Store

  // ---------------------------------------------------------------------
  // Reading a CSV row
  // ---------------------------------------------------------------------

  /** A csv.DictReader row: header to cell. The cells a short line lacks are None. */
  type CsvRow = map<string, Option<string>>

  /** row.get(key, default): the cell under a header the file has (None on a short line), the default otherwise. */
  function Cell(row: CsvRow, key: string, default: string): (r: Option<string>)
    ensures key in row ==> r == row[key]
    ensures key !in row ==> r == Some(default)
    ensures r.None? ==> key in row
  {
    if key in row then row[key] else Some(default)
  }

  /** row.get(key, '').strip(); None when the cell is None, where .strip() raises AttributeError. */
  function StrippedCell(row: CsvRow, key: string): Option<string> {
    match Cell(row, key, "")
    case None => None
    case Some(s) => Some(Strip(s))
  }

  const Zero := Decimal(0, 1)

  /** `float(s) if s else 0.0`, with a ValueError replaced by 0.0. */
  function CsvDecimal(cell: Option<string>): Decimal {
    match cell
    case None => Zero
    case Some(s) => if s == [] then Zero else ParseDecimal(s).GetOr(Zero)
  }

  /** `int(s) if s else 1`, with a ValueError replaced by 1. */
  function CsvCategory(cell: Option<string>): int {
    match cell
    case None => 1
    case Some(s) => if s == [] then 1 else ParseInt(s).GetOr(1)
  }

  /** `flag.lower() in ['1', 'true', 'yes', 't', 'y']` */
  predicate InStockWord(flag: string) {
    Lower(flag) in ["1", "true", "yes", "t", "y"]
  }

  /** A required text field as the importers leave it: present, not empty and stripped. */
  predicate Trimmed(s: Option<string>) {
    s.Some? && s.value != [] && !IsSpace(s.value[0]) && !IsSpace(s.value[|s.value| - 1])
  }

  /** The shape of every customer the importers insert. */
  predicate CompleteCustomer(c: Customer) {
    Trimmed(c.firstName) && Trimmed(c.lastName) && Trimmed(c.email) && c.customerId.None? && c.isActive
  }

  /** The shape of every product the importers insert. */
  predicate CompleteProduct(p: Product) {
    Trimmed(p.productName) && p.description.Some? && p.productId.None?
  }

  /**
   * The customer a CSV row describes, or None when the loop skips the row
   * before the database is asked: a required cell is None (AttributeError)
   * or empty once stripped.
   */
  /** A required cell that passes the check: not None and not empty once stripped. */
  predicate Filled(cell: Option<string>) {
    cell.Some? && cell.value != []
  }

  lemma FilledIsTrimmed(row: CsvRow, key: string)
    requires Filled(StrippedCell(row, key))
    ensures Trimmed(StrippedCell(row, key))
  {
  }

  /** `row.get('DateOfBirth', None)`, with an empty cell stored as NULL. */
  function CsvBirthDate(row: CsvRow): Option<string> {
    if "DateOfBirth" in row && Filled(row["DateOfBirth"]) then row["DateOfBirth"] else None
  }

  /**
   * The customer a CSV row describes, or None when the loop skips the row
   * before the database is asked: a required cell is None (AttributeError)
   * or empty once stripped.
   */
  function CsvCustomer(row: CsvRow): (r: Option<Customer>)
    ensures r.Some? <==>
      Filled(StrippedCell(row, "FirstName")) && Filled(StrippedCell(row, "LastName")) && Filled(StrippedCell(row, "Email"))
    ensures r.Some? ==> CompleteCustomer(r.value)
  {
    var first := StrippedCell(row, "FirstName");
    var last := StrippedCell(row, "LastName");
    var email := StrippedCell(row, "Email");
    if Filled(first) && Filled(last) && Filled(email) then
      FilledIsTrimmed(row, "FirstName");
      FilledIsTrimmed(row, "LastName");
      FilledIsTrimmed(row, "Email");
      Some(Customer(firstName := first, lastName := last, email := email, dateOfBirth := CsvBirthDate(row),
                    creditLimit := Some(ToCents(CsvDecimal(Cell(row, "CreditLimit", "0"))))))
    else None
  }

  /**
   * The product a CSV row describes, or None when the loop skips it first:
   * a ProductName, Description or InStock cell is None, or the stripped
   * name is empty.
   */
  function CsvProduct(row: CsvRow): (r: Option<Product>)
    ensures r.Some? <==>
      Filled(StrippedCell(row, "ProductName")) && StrippedCell(row, "Description").Some? && Cell(row, "InStock", "1").Some?
    ensures r.Some? ==> CompleteProduct(r.value)
    ensures r.Some? ==> r.value.productStatus == Cell(row, "ProductStatus", "active")
    ensures r.Some? ==> r.value.inStock == InStockWord(Cell(row, "InStock", "1").value)
  {
    var name := StrippedCell(row, "ProductName");
    var description := StrippedCell(row, "Description");
    var flag := Cell(row, "InStock", "1");
    if Filled(name) && description.Some? && flag.Some? then
      FilledIsTrimmed(row, "ProductName");
      Some(Product(productName := name, description := description,
                   price := Some(ToCents(CsvDecimal(Cell(row, "Price", "0")))),
                   categoryId := Some(CsvCategory(Cell(row, "CategoryID", "1"))),
                   inStock := InStockWord(flag.value),
                   productStatus := Cell(row, "ProductStatus", "active")))
    else None
  }

  /**
   * One candidate per row, in file order: a row is a candidate exactly when
   * its three required cells are filled, and every candidate is complete.
   */
  function CsvCustomers(rows: seq<CsvRow>): (r: seq<Option<Customer>>)
    ensures |r| == |rows| && forall i | 0 <= i < |rows| :: r[i] == CsvCustomer(rows[i])
    ensures forall i | 0 <= i < |rows| :: (r[i].Some? <==>
      Filled(StrippedCell(rows[i], "FirstName")) && Filled(StrippedCell(rows[i], "LastName"))
      && Filled(StrippedCell(rows[i], "Email")))
    ensures forall i | 0 <= i < |r| && r[i].Some? :: CompleteCustomer(r[i].value)
  {
    seq(|rows|, i requires 0 <= i < |rows| => CsvCustomer(rows[i]))
  }

  /**
   * One candidate per row, in file order: a row is a candidate exactly when
   * its name is filled and its Description and InStock cells are present,
   * and every candidate is complete.
   */
  function CsvProducts(rows: seq<CsvRow>): (r: seq<Option<Product>>)
    ensures |r| == |rows| && forall i | 0 <= i < |rows| :: r[i] == CsvProduct(rows[i])
    ensures forall i | 0 <= i < |rows| :: (r[i].Some? <==>
      Filled(StrippedCell(rows[i], "ProductName")) && StrippedCell(rows[i], "Description").Some?
      && Cell(rows[i], "InStock", "1").Some?)
    ensures forall i | 0 <= i < |r| && r[i].Some? :: CompleteProduct(r[i].value)
  {
    seq(|rows|, i requires 0 <= i < |rows| => CsvProduct(rows[i]))
  }

  /** The default cell '0' parses to zero. */
  lemma ParseZero()
    ensures ParseDecimal("0") == Some(Decimal(0, 0))
  {
    assert ParseUnsignedDecimal("0") == Some(Decimal(0, 0)) by {
      assert '.' !in "0";
      assert AllDigits("0") && DigitsValue("0") == 0;
    }
    ParseSignedBody("", "0", Decimal(0, 0));
    assert "" + "0" == "0";
  }

  /** The default cell '1' parses to one. */
  lemma ParseOne()
    ensures ParseInt("1") == Some(1)
  {
    assert AllDigits("1") && DigitsValue("1") == 1;
    ParseDigits("1");
  }

  /** What `float(s) if s else 0.0` gives, case by case: zero unless the cell holds a decimal numeral. */
  lemma CsvDecimalCases(cell: Option<string>)
    ensures cell.None? || cell == Some("") || ParseDecimal(cell.value).None? ==> ToCents(CsvDecimal(cell)) == 0
    ensures cell.Some? && cell.value != [] && ParseDecimal(cell.value).Some?
            ==> CsvDecimal(cell) == ParseDecimal(cell.value).value
  {
    if cell.Some? && cell.value == "0" {
      ParseZero();
    }
  }

  /** What `int(s) if s else 1` gives, case by case: one unless the cell holds an integer numeral. */
  lemma CsvCategoryCases(cell: Option<string>)
    ensures cell.None? || cell == Some("") || ParseInt(cell.value).None? ==> CsvCategory(cell) == 1
    ensures cell.Some? && cell.value != [] && ParseInt(cell.value).Some? ==> CsvCategory(cell) == ParseInt(cell.value).value
  {
  }

  /** A missing, empty or unparseable CreditLimit is stored as 0; a parseable one rounded to cents. */
  lemma CsvCreditDefaults(row: CsvRow)
    requires CsvCustomer(row).Some?
    ensures || "CreditLimit" !in row || row["CreditLimit"].None? || row["CreditLimit"] == Some("")
            || ParseDecimal(row["CreditLimit"].value).None?
            ==> CsvCustomer(row).value.creditLimit == Some(0)
    ensures "CreditLimit" in row && Filled(row["CreditLimit"]) && ParseDecimal(row["CreditLimit"].value).Some?
            ==> CsvCustomer(row).value.creditLimit == Some(ToCents(ParseDecimal(row["CreditLimit"].value).value))
  {
    var cell := Cell(row, "CreditLimit", "0");
    CsvDecimalCases(cell);
    if "CreditLimit" !in row {
      ParseZero();
    }
  }

  /** A missing, empty or unparseable Price is stored as 0. */
  lemma CsvPriceDefaults(row: CsvRow)
    requires CsvProduct(row).Some?
    ensures || "Price" !in row || row["Price"].None? || row["Price"] == Some("") || ParseDecimal(row["Price"].value).None?
            ==> CsvProduct(row).value.price == Some(0)
  {
    CsvDecimalCases(Cell(row, "Price", "0"));
    if "Price" !in row {
      ParseZero();
    }
  }

  /** A missing, empty or unparseable CategoryID becomes 1. */
  lemma CsvCategoryDefaults(row: CsvRow)
    requires CsvProduct(row).Some?
    ensures || "CategoryID" !in row || row["CategoryID"].None? || row["CategoryID"] == Some("")
            || ParseInt(row["CategoryID"].value).None?
            ==> CsvProduct(row).value.categoryId == Some(1)
  {
    CsvCategoryCases(Cell(row, "CategoryID", "1"));
    if "CategoryID" !in row {
      ParseOne();
    }
  }

  /** A CategoryID that int() accepts is kept. */
  lemma CsvCategoryParsed(row: CsvRow)
    requires CsvProduct(row).Some?
    requires "CategoryID" in row && row["CategoryID"].Some? && ParseInt(row["CategoryID"].value).Some?
    ensures CsvProduct(row).value.categoryId == ParseInt(row["CategoryID"].value)
  {
    var cell := row["CategoryID"];
    CsvCategoryCases(cell);
  }

  /** The cell the importer reads when the InStock column is absent counts as in stock. */
  lemma DefaultFlagInStock()
    ensures InStockWord("1")
  {
    assert Lower("1") == "1";
  }

  /** InStock holds iff the lower-cased cell is one of the true spellings; an absent cell counts as '1'. */
  lemma CsvInStock(row: CsvRow)
    requires CsvProduct(row).Some?
    ensures "InStock" !in row ==> CsvProduct(row).value.inStock
    ensures "InStock" in row ==>
      (CsvProduct(row).value.inStock <==> Lower(row["InStock"].value) in ["1", "true", "yes", "t", "y"])
  {
    var flag := Cell(row, "InStock", "1");
    assert CsvProduct(row).value.inStock == InStockWord(flag.value);
    if "InStock" !in row {
      assert flag == Some("1");
      DefaultFlagInStock();
    } else {
      assert flag == row["InStock"];
    }
  }

  // ---------------------------------------------------------------------
  // Reading a JSON record
  // ---------------------------------------------------------------------

  /**
   * What `for record in data` walks over: a single object stands for a
   * one-element list, a string yields its characters, and any other value
   * raises TypeError before the loop starts.
   */
  function JsonRecords(data: Value): (r: Result<seq<Value>, Error>)
    ensures data.VDict? ==> r == Ok([data])
    ensures data.VList? ==> r == Ok(data.items)
    ensures r.Err? <==> !(data.VDict? || data.VList? || data.VStr?)
    ensures r.Err? ==> r.error.TypeError?
    ensures data.VStr? ==> r.Ok? && |r.value| == |data.s| && forall k | 0 <= k < |r.value| :: !r.value[k].VDict?
  {
    match data
    case VDict(_) => Ok([data])
    case VList(items) => Ok(items)
    case VStr(s) => Ok(seq(|s|, i requires 0 <= i < |s| => VStr([s[i]])))
    case _ => Err(TypeError("'" + TypeName(data) + "' object is not iterable"))
  }

  /** record.get(key, default) once the record is known to be a dict. */
  function Field(fields: map<string, Value>, key: string, default: Value): Value {
    if key in fields then fields[key] else default
  }

  /** record.get(key, '').strip(); None when the value is no string and .strip() raises. */
  function StrippedField(fields: map<string, Value>, key: string): Option<string> {
    match Field(fields, key, VStr(""))
    case VStr(s) => Some(Strip(s))
    case _ => None
  }

  /** The field is a string that is not empty once stripped. */
  predicate FilledField(fields: map<string, Value>, key: string) {
    StrippedField(fields, key).Some? && StrippedField(fields, key).value != []
  }

  /**
   * A value bound to a DECIMAL(10,2) parameter: None is NULL, numbers and
   * numeric strings are rounded to cents, anything else makes the INSERT
   * raise (the outer None).
   */
  function BindDecimal(v: Value): (r: Option<Option<Cents>>)
    ensures v.VNone? ==> r == Some(None)
    ensures v.VInt? ==> r == Some(Some(100 * v.i))
    ensures v.VFloat? ==> r == Some(Some(ToCents(v.d)))
    ensures v.VStr? && ParseDecimal(v.s).Some? ==> r == Some(Some(ToCents(ParseDecimal(v.s).value)))
    ensures r.None? <==> v.VList? || v.VDict? || (v.VStr? && ParseDecimal(v.s).None?)
  {
    if v.VNone? then Some(None)
    else
      match PyFloat(v)
      case Ok(d) => Some(Some(ToCents(d)))
      case Err(_) => None
  }

  /** A value bound to an INT parameter, truncated toward zero as SQL Server converts it. */
  function BindInt(v: Value): (r: Option<Option<int>>)
    ensures v.VNone? ==> r == Some(None)
    ensures v.VInt? ==> r == Some(Some(v.i))
  {
    if v.VNone? then Some(None)
    else
      match PyInt(v)
      case Ok(i) => Some(Some(i))
      case Err(_) => None
  }

  /** A value bound to a BIT parameter: any non-zero number is 1, and so are the strings 'true' and '1'. */
  function BindBit(v: Value): (r: Option<bool>)
    ensures v.VBool? ==> r == Some(v.b)
    ensures v.VList? || v.VDict? || v.VNone? ==> r.None?
  {
    match v
    case VBool(b) => Some(b)
    case VInt(i) => Some(i != 0)
    case VFloat(d) => Some(d.mantissa != 0)
    case VStr(s) =>
      var word := Lower(Strip(s));
      if word == "true" then Some(true)
      else if word == "false" then Some(false)
      else
        (match ParseInt(s)
         case Some(i) => Some(i != 0)
         case None => None)
    case _ => None
  }

  /** A value bound to a text parameter: a string or NULL. */
  function BindText(v: Value): (r: Option<Option<string>>)
    ensures r.Some? <==> v.VStr? || v.VNone?
    ensures v.VStr? ==> r == Some(Some(v.s))
    ensures v.VNone? ==> r == Some(None)
  {
    match v
    case VStr(s) => Some(Some(s))
    case VNone => Some(None)
    case _ => None
  }

  /** The default CreditLimit 0.0 binds as zero cents. */
  lemma ZeroCreditBinds()
    ensures BindDecimal(VFloat(Zero)) == Some(Some(0))
  {
    assert PyFloat(VFloat(Zero)) == Ok(Zero);
  }

  lemma StrippedFieldTrimmed(fields: map<string, Value>, key: string)
    requires StrippedField(fields, key).Some? && StrippedField(fields, key).value != []
    ensures Trimmed(StrippedField(fields, key))
  {
  }

  /**
   * The customer a JSON record describes, or None when the loop skips it
   * without inserting: the record is no object, a required field is no
   * string or is empty once stripped, or DateOfBirth or CreditLimit cannot
   * be bound.
   */
  function JsonCustomer(record: Value): (r: Option<Customer>)
    ensures r.Some? ==> record.VDict? && CompleteCustomer(r.value)
    ensures r.Some? && "CreditLimit" !in record.fields ==> r.value.creditLimit == Some(0)
    ensures r.Some? <==> (record.VDict?
      && FilledField(record.fields, "FirstName") && FilledField(record.fields, "LastName")
      && FilledField(record.fields, "Email")
      && BindText(Field(record.fields, "DateOfBirth", VNone)).Some?
      && BindDecimal(Field(record.fields, "CreditLimit", VFloat(Zero))).Some?)
    ensures r.Some? ==> (r.value.firstName == StrippedField(record.fields, "FirstName")
      && r.value.lastName == StrippedField(record.fields, "LastName")
      && r.value.email == StrippedField(record.fields, "Email")
      && r.value.dateOfBirth == BindText(Field(record.fields, "DateOfBirth", VNone)).value
      && r.value.creditLimit == BindDecimal(Field(record.fields, "CreditLimit", VFloat(Zero))).value)
  {
    match record
    case VDict(fields) =>
      var first := StrippedField(fields, "FirstName");
      var last := StrippedField(fields, "LastName");
      var email := StrippedField(fields, "Email");
      if first.None? || last.None? || email.None? then None
      else if first.value == [] || last.value == [] || email.value == [] then None
      else
        StrippedFieldTrimmed(fields, "FirstName");
        StrippedFieldTrimmed(fields, "LastName");
        StrippedFieldTrimmed(fields, "Email");
        ZeroCreditBinds();
        (match (BindText(Field(fields, "DateOfBirth", VNone)), BindDecimal(Field(fields, "CreditLimit", VFloat(Zero))))
         case (Some(birth), Some(credit)) =>
           Some(Customer(firstName := first, lastName := last, email := email, dateOfBirth := birth,
                         creditLimit := credit))
         case _ => None)
    case _ => None
  }

  /**
   * The product a JSON record describes, or None when the loop skips it
   * without inserting: the record is no object, ProductName or Description
   * is no string, the name is empty once stripped, or a field cannot be
   * bound. Absent fields default to price 0, category 1, in stock, 'active'.
   */
  function JsonProduct(record: Value): (r: Option<Product>)
    ensures r.Some? ==> record.VDict? && CompleteProduct(r.value)
    ensures r.Some? && "InStock" !in record.fields ==> r.value.inStock
    ensures r.Some? && "CategoryID" !in record.fields ==> r.value.categoryId == Some(1)
    ensures r.Some? && "ProductStatus" !in record.fields ==> r.value.productStatus == Some("active")
    ensures r.Some? <==> (record.VDict?
      && FilledField(record.fields, "ProductName") && StrippedField(record.fields, "Description").Some?
      && BindDecimal(Field(record.fields, "Price", VFloat(Zero))).Some?
      && BindInt(Field(record.fields, "CategoryID", VInt(1))).Some?
      && BindBit(Field(record.fields, "InStock", VBool(true))).Some?
      && BindText(Field(record.fields, "ProductStatus", VStr("active"))).Some?)
    ensures r.Some? ==> (r.value.productName == StrippedField(record.fields, "ProductName")
      && r.value.description == StrippedField(record.fields, "Description")
      && r.value.price == BindDecimal(Field(record.fields, "Price", VFloat(Zero))).value
      && r.value.categoryId == BindInt(Field(record.fields, "CategoryID", VInt(1))).value)
  {
    match record
    case VDict(fields) =>
      var name := StrippedField(fields, "ProductName");
      var description := StrippedField(fields, "Description");
      if name.None? || description.None? || name.value == [] then None
      else
        (match (BindDecimal(Field(fields, "Price", VFloat(Zero))), BindInt(Field(fields, "CategoryID", VInt(1))),
                BindBit(Field(fields, "InStock", VBool(true))), BindText(Field(fields, "ProductStatus", VStr("active"))))
         case (Some(price), Some(category), Some(inStock), Some(status)) =>
           Some(Product(productName := name, description := description, price := price, categoryId := category,
                        inStock := inStock, productStatus := status))
         case _ => None)
    case _ => None
  }

  /**
   * One candidate per record, in file order: a record that is no object is
   * never a candidate, and every candidate is complete.
   */
  function JsonCustomers(records: seq<Value>): (r: seq<Option<Customer>>)
    ensures |r| == |records| && forall i | 0 <= i < |records| :: r[i] == JsonCustomer(records[i])
    ensures forall i | 0 <= i < |records| && !records[i].VDict? :: r[i].None?
    ensures forall i | 0 <= i < |r| && r[i].Some? :: CompleteCustomer(r[i].value)
  {
    seq(|records|, i requires 0 <= i < |records| => JsonCustomer(records[i]))
  }

  /**
   * One candidate per record, in file order: a record that is no object is
   * never a candidate, and every candidate is complete.
   */
  function JsonProducts(records: seq<Value>): (r: seq<Option<Product>>)
    ensures |r| == |records| && forall i | 0 <= i < |records| :: r[i] == JsonProduct(records[i])
    ensures forall i | 0 <= i < |records| && !records[i].VDict? :: r[i].None?
    ensures forall i | 0 <= i < |r| && r[i].Some? :: CompleteProduct(r[i].value)
  {
    seq(|records|, i requires 0 <= i < |records| => JsonProduct(records[i]))
  }

  // ---------------------------------------------------------------------
  // The import loops, as folds over the rows
  // ---------------------------------------------------------------------

  /** Whether SELECT CustomerID FROM Customers WHERE Email = ? finds a row (under Store.Valid every id is positive, so a found id is truthy). */
  predicate EmailTaken(t: Tables, email: Option<string>) {
    email.Some? && exists id | id in t.customers :: t.customers[id].email == email
  }

  /** Whether SELECT ProductID FROM Products WHERE ProductName = ? finds a row. */
  predicate NameTaken(t: Tables, name: Option<string>) {
    name.Some? && exists id | id in t.products :: t.products[id].productName == name
  }

  /**
   * `if existing_customer:` and `if existing_product:` test the id the
   * SELECT returned for truth. In a valid store every row a duplicate check
   * can find has a non-zero id, so EmailTaken and NameTaken are exactly that
   * test, whichever matching row the SELECT returns.
   */
  lemma FoundIdsTruthy(t: Tables, email: Option<string>, name: Option<string>)
    requires Valid(t)
    ensures forall id | id in t.customers && t.customers[id].email == email :: id != 0
    ensures forall id | id in t.products && t.products[id].productName == name :: id != 0
  {
  }

  /** One pass of the customer loop: the tables after it and whether the row was counted. */
  function ImportCustomer(t: Tables, candidate: Option<Customer>, accepts: (Tables, Customer) -> bool): (Tables, bool) {
    match candidate
    case None => (t, false)
    case Some(c) =>
      if EmailTaken(t, c.email) || !accepts(t, c) then (t, false)
      else (InsertCustomer(t, c).0, true)
  }

  /** The customer loop over all rows: the tables it leaves and the count it returns. */
  function ImportCustomers(t: Tables, candidates: seq<Option<Customer>>, accepts: (Tables, Customer) -> bool)
    : (r: (Tables, nat))
    ensures r.1 <= |candidates|
    decreases |candidates|
  {
    if candidates == [] then (t, 0)
    else
      var before := ImportCustomers(t, candidates[..|candidates| - 1], accepts);
      var step := ImportCustomer(before.0, candidates[|candidates| - 1], accepts);
      (step.0, if step.1 then before.1 + 1 else before.1)
  }

  function ImportProduct(t: Tables, candidate: Option<Product>, accepts: (Tables, Product) -> bool): (Tables, bool) {
    match candidate
    case None => (t, false)
    case Some(p) =>
      if NameTaken(t, p.productName) || !accepts(t, p) then (t, false)
      else (InsertProduct(t, p).0, true)
  }

  function ImportProducts(t: Tables, candidates: seq<Option<Product>>, accepts: (Tables, Product) -> bool)
    : (r: (Tables, nat))
    ensures r.1 <= |candidates|
    decreases |candidates|
  {
    if candidates == [] then (t, 0)
    else
      var before := ImportProducts(t, candidates[..|candidates| - 1], accepts);
      var step := ImportProduct(before.0, candidates[|candidates| - 1], accepts);
      (step.0, if step.1 then before.1 + 1 else before.1)
  }

  /** One more row: the fold over a longer prefix is one more pass of the loop body. */
  lemma ImportCustomersNext(t: Tables, candidates: seq<Option<Customer>>, i: int, accepts: (Tables, Customer) -> bool)
    requires 0 <= i < |candidates|
    ensures var before := ImportCustomers(t, candidates[..i], accepts);
      var step := ImportCustomer(before.0, candidates[i], accepts);
      ImportCustomers(t, candidates[..i + 1], accepts) == (step.0, if step.1 then before.1 + 1 else before.1)
  {
    assert candidates[..i + 1][..i] == candidates[..i];
  }

  lemma ImportProductsNext(t: Tables, candidates: seq<Option<Product>>, i: int, accepts: (Tables, Product) -> bool)
    requires 0 <= i < |candidates|
    ensures var before := ImportProducts(t, candidates[..i], accepts);
      var step := ImportProduct(before.0, candidates[i], accepts);
      ImportProducts(t, candidates[..i + 1], accepts) == (step.0, if step.1 then before.1 + 1 else before.1)
  {
    assert candidates[..i + 1][..i] == candidates[..i];
  }

  // ---------------------------------------------------------------------
  // The service
  // ---------------------------------------------------------------------

  class DataImportService {
    const db: Database

    constructor (db: Database)
      ensures this.db == db
    {
      this.db := db;
    }

    /** import_customers_from_csv */
    method ImportCustomersFromCsv(rows: seq<CsvRow>, accepts: (Tables, Customer) -> bool) returns (importedCount: nat)
      modifies db
      ensures (db.tables, importedCount) == ImportCustomers(old(db.tables), CsvCustomers(rows), accepts)
    {
      ghost var t := db.tables;
      ghost var candidates := CsvCustomers(rows);
      importedCount := 0;
      var i := 0;
      while i < |rows|
        invariant 0 <= i <= |rows|
        invariant (db.tables, importedCount) == ImportCustomers(t, candidates[..i], accepts)
      {
        ImportCustomersNext(t, candidates, i, accepts);
        var candidate := CsvCustomer(rows[i]);
        assert candidate == candidates[i];
        if candidate.Some? && !EmailTaken(db.tables, candidate.value.email) && accepts(db.tables, candidate.value) {
          db.tables := InsertCustomer(db.tables, candidate.value).0;
          importedCount := importedCount + 1;
        }
        i := i + 1;
      }
      assert candidates[..i] == candidates;
    }

    /** import_products_from_csv */
    method ImportProductsFromCsv(rows: seq<CsvRow>, accepts: (Tables, Product) -> bool) returns (importedCount: nat)
      modifies db
      ensures (db.tables, importedCount) == ImportProducts(old(db.tables), CsvProducts(rows), accepts)
    {
      ghost var t := db.tables;
      ghost var candidates := CsvProducts(rows);
      importedCount := 0;
      var i := 0;
      while i < |rows|
        invariant 0 <= i <= |rows|
        invariant (db.tables, importedCount) == ImportProducts(t, candidates[..i], accepts)
      {
        ImportProductsNext(t, candidates, i, accepts);
        var candidate := CsvProduct(rows[i]);
        assert candidate == candidates[i];
        if candidate.Some? && !NameTaken(db.tables, candidate.value.productName) && accepts(db.tables, candidate.value) {
          db.tables := InsertProduct(db.tables, candidate.value).0;
          importedCount := importedCount + 1;
        }
        i := i + 1;
      }
      assert candidates[..i] == candidates;
    }

    /** import_customers_from_json; a top level that cannot be iterated raises before any row. */
    method ImportCustomersFromJson(data: Value, accepts: (Tables, Customer) -> bool) returns (r: Result<nat, Error>)
      modifies db
      ensures r.Err? <==> JsonRecords(data).Err?
      ensures r.Err? ==> r.error == JsonRecords(data).error && db.tables == old(db.tables)
      ensures r.Ok? ==> (db.tables, r.value) == ImportCustomers(old(db.tables), JsonCustomers(JsonRecords(data).value), accepts)
    {
      var records := JsonRecords(data);
      if records.Err? {
        return Err(records.error);
      }
      ghost var t := db.tables;
      ghost var candidates := JsonCustomers(records.value);
      var importedCount := 0;
      var i := 0;
      while i < |records.value|
        invariant 0 <= i <= |records.value|
        invariant (db.tables, importedCount) == ImportCustomers(t, candidates[..i], accepts)
      {
        ImportCustomersNext(t, candidates, i, accepts);
        var candidate := JsonCustomer(records.value[i]);
        assert candidate == candidates[i];
        if candidate.Some? && !EmailTaken(db.tables, candidate.value.email) && accepts(db.tables, candidate.value) {
          db.tables := InsertCustomer(db.tables, candidate.value).0;
          importedCount := importedCount + 1;
        }
        i := i + 1;
      }
      assert candidates[..i] == candidates;
      return Ok(importedCount);
    }

    /** import_products_from_json */
    method ImportProductsFromJson(data: Value, accepts: (Tables, Product) -> bool) returns (r: Result<nat, Error>)
      modifies db
      ensures r.Err? <==> JsonRecords(data).Err?
      ensures r.Err? ==> r.error == JsonRecords(data).error && db.tables == old(db.tables)
      ensures r.Ok? ==> (db.tables, r.value) == ImportProducts(old(db.tables), JsonProducts(JsonRecords(data).value), accepts)
    {
      var records := JsonRecords(data);
      if records.Err? {
        return Err(records.error);
      }
      ghost var t := db.tables;
      ghost var candidates := JsonProducts(records.value);
      var importedCount := 0;
      var i := 0;
      while i < |records.value|
        invariant 0 <= i <= |records.value|
        invariant (db.tables, importedCount) == ImportProducts(t, candidates[..i], accepts)
      {
        ImportProductsNext(t, candidates, i, accepts);
        var candidate := JsonProduct(records.value[i]);
        assert candidate == candidates[i];
        if candidate.Some? && !NameTaken(db.tables, candidate.value.productName) && accepts(db.tables, candidate.value) {
          db.tables := InsertProduct(db.tables, candidate.value).0;
          importedCount := importedCount + 1;
        }
        i := i + 1;
      }
      assert candidates[..i] == candidates;
      return Ok(importedCount);
    }
  }

  // ---------------------------------------------------------------------
  // What the imports promise
  // ---------------------------------------------------------------------

  /**
   * The count is the number of rows added: the customer identities handed
   * out during the run are exactly the new keys, one per counted row, the
   * rows already there are untouched and no other table changes. The
   * tables stay valid.
   */
  lemma {:induction false} ImportCustomersKeepValid(t: Tables, candidates: seq<Option<Customer>>, accepts: (Tables, Customer) -> bool)
    requires Valid(t)
    ensures Valid(ImportCustomers(t, candidates, accepts).0)
    decreases |candidates|
  {
    if candidates != [] {
      var before := ImportCustomers(t, candidates[..|candidates| - 1], accepts);
      ImportCustomersKeepValid(t, candidates[..|candidates| - 1], accepts);
      if ImportCustomer(before.0, candidates[|candidates| - 1], accepts).1 {
        InsertCustomerKeepsValid(before.0, candidates[|candidates| - 1].value);
      }
    }
  }

  lemma {:induction false} ImportCustomersEffect(t: Tables, candidates: seq<Option<Customer>>, accepts: (Tables, Customer) -> bool)
    requires Valid(t)
    ensures var (u, count) := ImportCustomers(t, candidates, accepts);
      && u.customerSeq == t.customerSeq + count
      && (forall id :: id in u.customers <==> id in t.customers || t.customerSeq <= id < u.customerSeq)
      && (forall id | id in t.customers :: u.customers[id] == t.customers[id])
      && u == t.(customers := u.customers, customerSeq := u.customerSeq)
    decreases |candidates|
  {
    if candidates != [] {
      var before := ImportCustomers(t, candidates[..|candidates| - 1], accepts);
      ImportCustomersEffect(t, candidates[..|candidates| - 1], accepts);
      ImportCustomersKeepValid(t, candidates[..|candidates| - 1], accepts);
      assert before.0.customerSeq !in before.0.customers;
    }
  }


  lemma {:induction false} ImportProductsKeepValid(t: Tables, candidates: seq<Option<Product>>, accepts: (Tables, Product) -> bool)
    requires Valid(t)
    ensures Valid(ImportProducts(t, candidates, accepts).0)
    decreases |candidates|
  {
    if candidates != [] {
      var before := ImportProducts(t, candidates[..|candidates| - 1], accepts);
      ImportProductsKeepValid(t, candidates[..|candidates| - 1], accepts);
      if ImportProduct(before.0, candidates[|candidates| - 1], accepts).1 {
        InsertProductKeepsValid(before.0, candidates[|candidates| - 1].value);
      }
    }
  }

  lemma {:induction false} ImportProductsEffect(t: Tables, candidates: seq<Option<Product>>, accepts: (Tables, Product) -> bool)
    requires Valid(t)
    ensures var (u, count) := ImportProducts(t, candidates, accepts);
      && u.productSeq == t.productSeq + count
      && (forall id :: id in u.products <==> id in t.products || t.productSeq <= id < u.productSeq)
      && (forall id | id in t.products :: u.products[id] == t.products[id])
      && u == t.(products := u.products, productSeq := u.productSeq)
    decreases |candidates|
  {
    if candidates != [] {
      var before := ImportProducts(t, candidates[..|candidates| - 1], accepts);
      ImportProductsEffect(t, candidates[..|candidates| - 1], accepts);
      ImportProductsKeepValid(t, candidates[..|candidates| - 1], accepts);
      assert before.0.productSeq !in before.0.products;
    }
  }


  /** No two customers share an email. */
  ghost predicate EmailsUnique(customers: map<int, Customer>) {
    forall i, j | i in customers && j in customers && i != j :: customers[i].email.None? || customers[i].email != customers[j].email
  }

  /** No two products share a name. */
  ghost predicate NamesUnique(products: map<int, Product>) {
    forall i, j | i in products && j in products && i != j ::
      products[i].productName.None? || products[i].productName != products[j].productName
  }

  /**
   * An import never creates a second customer with an email already in the
   * table, including one inserted from an earlier row of the same file.
   */
  lemma {:induction false} ImportKeepsEmailsUnique(t: Tables, candidates: seq<Option<Customer>>, accepts: (Tables, Customer) -> bool)
    requires Valid(t) && EmailsUnique(t.customers)
    ensures EmailsUnique(ImportCustomers(t, candidates, accepts).0.customers)
    decreases |candidates|
  {
    if candidates != [] {
      var before := ImportCustomers(t, candidates[..|candidates| - 1], accepts).0;
      ImportKeepsEmailsUnique(t, candidates[..|candidates| - 1], accepts);
      ImportCustomersKeepValid(t, candidates[..|candidates| - 1], accepts);
      var step := ImportCustomer(before, candidates[|candidates| - 1], accepts);
      if step.1 {
        var c := candidates[|candidates| - 1].value;
        var id := before.customerSeq;
        assert id !in before.customers;
        var after := step.0.customers;
        assert after == before.customers[id := c.(customerId := Some(id), registrationDate := None)];
        forall i, j | i in after && j in after && i != j
          ensures after[i].email.None? || after[i].email != after[j].email
        {
          if i == id && after[i].email.Some? {
            assert after[j] == before.customers[j];
            assert !EmailTaken(before, c.email);
          } else if j == id && after[i].email.Some? {
            assert after[i] == before.customers[i];
            assert !EmailTaken(before, c.email);
          }
        }
      }
    }
  }

  lemma {:induction false} ImportKeepsNamesUnique(t: Tables, candidates: seq<Option<Product>>, accepts: (Tables, Product) -> bool)
    requires Valid(t) && NamesUnique(t.products)
    ensures NamesUnique(ImportProducts(t, candidates, accepts).0.products)
    decreases |candidates|
  {
    if candidates != [] {
      var before := ImportProducts(t, candidates[..|candidates| - 1], accepts).0;
      ImportKeepsNamesUnique(t, candidates[..|candidates| - 1], accepts);
      ImportProductsKeepValid(t, candidates[..|candidates| - 1], accepts);
      var step := ImportProduct(before, candidates[|candidates| - 1], accepts);
      if step.1 {
        var p := candidates[|candidates| - 1].value;
        var id := before.productSeq;
        assert id !in before.products;
        var after := step.0.products;
        assert after == before.products[id := p.(productId := Some(id), createdDate := None)];
        forall i, j | i in after && j in after && i != j
          ensures after[i].productName.None? || after[i].productName != after[j].productName
        {
          if i == id && after[i].productName.Some? {
            assert after[j] == before.products[j];
            assert !NameTaken(before, p.productName);
          } else if j == id && after[i].productName.Some? {
            assert after[i] == before.products[i];
            assert !NameTaken(before, p.productName);
          }
        }
      }
    }
  }

  /** Every customer an import adds came from a complete row: names and email present, trimmed and not empty. */
  lemma {:induction false} ImportedCustomersComplete(t: Tables, candidates: seq<Option<Customer>>, accepts: (Tables, Customer) -> bool)
    requires forall k | 0 <= k < |candidates| && candidates[k].Some? :: CompleteCustomer(candidates[k].value)
    ensures var u := ImportCustomers(t, candidates, accepts).0;
      forall id | id in u.customers && id !in t.customers :: Trimmed(u.customers[id].email)
        && Trimmed(u.customers[id].firstName) && Trimmed(u.customers[id].lastName)
    decreases |candidates|
  {
    if candidates != [] {
      ImportedCustomersComplete(t, candidates[..|candidates| - 1], accepts);
    }
  }

  /** Every product an import adds has a trimmed, non-empty name. */
  lemma {:induction false} ImportedProductsNamed(t: Tables, candidates: seq<Option<Product>>, accepts: (Tables, Product) -> bool)
    requires forall k | 0 <= k < |candidates| && candidates[k].Some? :: CompleteProduct(candidates[k].value)
    ensures var u := ImportProducts(t, candidates, accepts).0;
      forall id | id in u.products && id !in t.products :: Trimmed(u.products[id].productName)
    decreases |candidates|
  {
    if candidates != [] {
      ImportedProductsNamed(t, candidates[..|candidates| - 1], accepts);
    }
  }

  /** The same customer twice in one file is inserted at most once: the second row sees the first. */
  lemma RepeatedCustomerImportedOnce(t: Tables, c: Customer, accepts: (Tables, Customer) -> bool)
    requires c.email.Some?
    ensures ImportCustomers(t, [Some(c), Some(c)], accepts).1 <= 1
  {
    var rows := [Some(c), Some(c)];
    assert rows[..0] == [] && rows[..1] == [Some(c)] && rows[..2] == rows;
    ImportCustomersNext(t, rows, 0, accepts);
    ImportCustomersNext(t, rows, 1, accepts);
    var first := ImportCustomer(t, Some(c), accepts);
    if first.1 {
      var id := t.customerSeq;
      assert first.0.customers[id].email == c.email;
      assert EmailTaken(first.0, c.email);
    }
  }

  /** The same product name twice in one file is inserted at most once. */
  lemma RepeatedProductImportedOnce(t: Tables, p: Product, accepts: (Tables, Product) -> bool)
    requires p.productName.Some?
    ensures ImportProducts(t, [Some(p), Some(p)], accepts).1 <= 1
  {
    var rows := [Some(p), Some(p)];
    assert rows[..0] == [] && rows[..1] == [Some(p)] && rows[..2] == rows;
    ImportProductsNext(t, rows, 0, accepts);
    ImportProductsNext(t, rows, 1, accepts);
    var first := ImportProduct(t, Some(p), accepts);
    if first.1 {
      var id := t.productSeq;
      assert first.0.products[id].productName == p.productName;
      assert NameTaken(first.0, p.productName);
    }
  }

  /** A row whose email is already stored is skipped and leaves the count unchanged. */
  lemma TakenEmailSkipped(t: Tables, candidates: seq<Option<Customer>>, c: Customer, accepts: (Tables, Customer) -> bool)
    requires EmailTaken(ImportCustomers(t, candidates, accepts).0, c.email)
    ensures ImportCustomers(t, candidates + [Some(c)], accepts) == ImportCustomers(t, candidates, accepts)
  {
    assert (candidates + [Some(c)])[..|candidates|] == candidates;
  }

  /** A row the database refuses is skipped and not counted. */
  lemma RefusedRowSkipped(t: Tables, candidates: seq<Option<Customer>>, c: Customer, accepts: (Tables, Customer) -> bool)
    requires !accepts(ImportCustomers(t, candidates, accepts).0, c)
    ensures ImportCustomers(t, candidates + [Some(c)], accepts) == ImportCustomers(t, candidates, accepts)
  {
    assert (candidates + [Some(c)])[..|candidates|] == candidates;
  }

  // ---------------------------------------------------------------------
  // import_from_file
  // ---------------------------------------------------------------------

  datatype Format = Csv | Json | Xml
  datatype Target = CustomersTable | ProductsTable

  /** The importer import_from_file hands the file to: chosen by the lower-cased suffix and table name. */
  function Route(filePath: string, tableName: string): (r: Result<(Format, Target), Error>)
    ensures r.Err? ==> r.error == ValueError("Unsupported file format or table name: " + filePath + ", " + tableName)
    ensures r.Ok? <==>
      (EndsWith(Lower(filePath), ".csv") || EndsWith(Lower(filePath), ".json") || EndsWith(Lower(filePath), ".xml"))
      && Lower(tableName) in {"customers", "products"}
    ensures r.Ok? ==> (r.value.1 == CustomersTable <==> Lower(tableName) == "customers")
    ensures r.Ok? ==> (r.value.0 == Csv <==> EndsWith(Lower(filePath), ".csv"))
    ensures r.Ok? ==> (r.value.0 == Json <==> !EndsWith(Lower(filePath), ".csv") && EndsWith(Lower(filePath), ".json"))
  {
    var path := Lower(filePath);
    var table := Lower(tableName);
    var format := if EndsWith(path, ".csv") then Some(Csv)
                  else if EndsWith(path, ".json") then Some(Json)
                  else if EndsWith(path, ".xml") then Some(Xml)
                  else None;
    var target := if table == "customers" then Some(CustomersTable)
                  else if table == "products" then Some(ProductsTable)
                  else None;
    if format.Some? && target.Some? then Ok((format.value, target.value))
    else Err(ValueError("Unsupported file format or table name: " + filePath + ", " + tableName))
  }

  lemma {:induction false} LowerTwice(s: string)
    ensures Lower(Lower(s)) == Lower(s)
  {
    forall i | 0 <= i < |s|
      ensures Lower(Lower(s))[i] == Lower(s)[i]
    {
      var c := s[i];
      if 'A' <= c <= 'Z' {
        assert LowerChar(c) as int == c as int + 32;
      }
    }
  }

  /** The choice ignores letter case: any spelling of the same suffix and table picks the same importer. */
  lemma RouteIgnoresCase(filePath: string, tableName: string)
    ensures Route(Lower(filePath), Lower(tableName)).Ok? == Route(filePath, tableName).Ok?
    ensures Route(filePath, tableName).Ok? ==> Route(Lower(filePath), Lower(tableName)) == Route(filePath, tableName)
  {
    LowerTwice(filePath);
    LowerTwice(tableName);
  }
}
