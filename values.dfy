/**
 * The Python values that reach the validators, the importers and the
 * configuration: what json.load produces (and what the console front end
 * puts into its dicts), with Python's truthiness and its int()/float()
 * conversions.
 */
module Values {
  import opened Wrappers
  import opened Text
  import opened Errors

  datatype Value =
    | VNone
    | VBool(b: bool)
    | VInt(i: int)
    | VFloat(d: Decimal)
    | VStr(s: string)
    | VList(items: seq<Value>)
    | VDict(fields: map<string, Value>)

  /** Python's bool(v): what `if v:` and `not v` test. */
  predicate Truthy(v: Value) {
    match v
    case VNone => false
    case VBool(b) => b
    case VInt(i) => i != 0
    case VFloat(d) => d.mantissa != 0
    case VStr(s) => s != []
    case VList(items) => items != []
    case VDict(fields) => fields != map[]
  }

  /** type(v).__name__ */
  function TypeName(v: Value): string {
    match v
    case VNone => "NoneType"
    case VBool(_) => "bool"
    case VInt(_) => "int"
    case VFloat(_) => "float"
    case VStr(_) => "str"
    case VList(_) => "list"
    case VDict(_) => "dict"
  }

  /** str(v) for a list and its elements: repr() of each element, comma-separated in brackets. */
  function Repr(v: Value): string
    decreases v, 1
  {
    match v
    case VNone => "None"
    case VBool(b) => if b then "True" else "False"
    case VInt(i) => IntToString(i)
    case VFloat(d) => DecimalText(d)
    case VStr(s) => "'" + s + "'"
    case VList(items) => "[" + ReprItems(items) + "]"
    case VDict(_) => "{...}"
  }

  function ReprItems(items: seq<Value>): string
    decreases items, 0
  {
    if items == [] then ""
    else if |items| == 1 then Repr(items[0])
    else Repr(items[0]) + ", " + ReprItems(items[1..])
  }

  /** A decimal written out with all `scale` fraction digits, and ".0" when it has none. */
  function DecimalText(d: Decimal): string {
    var sign := if d.mantissa < 0 then "-" else "";
    var digits := PadZeros(NatToString(if d.mantissa < 0 then -d.mantissa else d.mantissa), d.scale + 1);
    var point := |digits| - d.scale;
    sign + digits[..point] + "." + (if d.scale == 0 then "0" else digits[point..])
  }

  /** The digits with '0's in front up to `width` characters. */
  function PadZeros(digits: string, width: nat): (r: string)
    ensures |r| >= width && |r| >= |digits|
    decreases width - |digits|
  {
    if |digits| < width then PadZeros("0" + digits, width) else digits
  }

  /** Python's float(v); a string must be a plain decimal numeral. */
  function PyFloat(v: Value): (r: Result<Decimal, Error>)
    ensures r.Err? ==> r.error.ValueError? || r.error.TypeError?
    ensures r.Err? <==> (v.VStr? && ParseDecimal(v.s).None?) || v.VNone? || v.VList? || v.VDict?
    ensures v.VBool? ==> r == Ok(Decimal(if v.b then 1 else 0, 0))
    ensures v.VInt? ==> r == Ok(Decimal(v.i, 0))
    ensures v.VFloat? ==> r == Ok(v.d)
    ensures v.VStr? && r.Ok? ==> ParseDecimal(v.s) == Some(r.value)
  {
    match v
    case VBool(b) => Ok(Decimal(if b then 1 else 0, 0))
    case VInt(i) => Ok(Decimal(i, 0))
    case VFloat(d) => Ok(d)
    case VStr(s) =>
      (match ParseDecimal(s)
       case Some(d) => Ok(d)
       case None => Err(ValueError("could not convert string to float: '" + s + "'")))
    case _ => Err(TypeError("float() argument must be a string or a real number, not '" + TypeName(v) + "'"))
  }

  /** Python's int(v): floats are truncated toward zero, strings must be decimal integers. */
  function PyInt(v: Value): (r: Result<int, Error>)
    ensures r.Err? ==> r.error.ValueError? || r.error.TypeError?
    ensures r.Err? <==> (v.VStr? && ParseInt(v.s).None?) || v.VNone? || v.VList? || v.VDict?
    ensures v.VBool? ==> r == Ok(if v.b then 1 else 0)
    ensures v.VInt? ==> r == Ok(v.i)
    ensures v.VFloat? ==> r == Ok(TruncToInt(v.d))
    ensures v.VStr? && r.Ok? ==> ParseInt(v.s) == Some(r.value)
  {
    match v
    case VBool(b) => Ok(if b then 1 else 0)
    case VInt(i) => Ok(i)
    case VFloat(d) => Ok(TruncToInt(d))
    case VStr(s) =>
      (match ParseInt(s)
       case Some(i) => Ok(i)
       case None => Err(IntLiteralError(s)))
    case _ => Err(IntArgumentError(v))
  }

  function IntLiteralError(s: string): (e: Error)
    ensures e.ValueError?
  {
    ValueError("invalid literal for int() with base 10: '" + s + "'")
  }

  function IntArgumentError(v: Value): (e: Error)
    ensures e.TypeError?
  {
    TypeError("int() argument must be a string, a bytes-like object or a real number, not '" + TypeName(v) + "'")
  }
}
