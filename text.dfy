/**
 * The few pieces of Python's string behaviour the e-commerce code relies on:
 * strip(), lower(), `in` on strings, endswith(), split(sep), str(int),
 * int(str), float(str) and the printing of DECIMAL(10,2) values.
 */
module Text {
  import opened Wrappers

  // ---------------------------------------------------------------------
  // Whitespace, case, substrings
  // ---------------------------------------------------------------------

  /** Python's str.isspace(), one character at a time. */
  predicate IsSpace(c: char) {
    c == ' ' || ('\t' <= c <= '\r') || ('\U{1c}' <= c <= '\U{1f}') || c == '\U{85}' || c == '\U{a0}'
    || c == '\U{1680}' || ('\U{2000}' <= c <= '\U{200a}') || c == '\U{2028}' || c == '\U{2029}'
    || c == '\U{202f}' || c == '\U{205f}' || c == '\U{3000}'
  }

  function TrimLeft(s: string): (r: string)
    ensures |r| <= |s| && r == s[|s| - |r|..]
    ensures forall i :: 0 <= i < |s| - |r| ==> IsSpace(s[i])
    ensures r == [] || !IsSpace(r[0])
  {
    if s != [] && IsSpace(s[0]) then TrimLeft(s[1..]) else s
  }

  function TrimRight(s: string): (r: string)
    ensures |r| <= |s| && r == s[..|r|]
    ensures forall i :: |r| <= i < |s| ==> IsSpace(s[i])
    ensures r == [] || !IsSpace(r[|r| - 1])
  {
    if s != [] && IsSpace(s[|s| - 1]) then TrimRight(s[..|s| - 1]) else s
  }

  /** Python's str.strip() with no argument. */
  function Strip(s: string): (r: string)
    ensures r == [] || (!IsSpace(r[0]) && !IsSpace(r[|r| - 1]))
    ensures |r| <= |s|
  {
    TrimRight(TrimLeft(s))
  }

  /** strip() only cuts white space from the two ends: the result is a slice of the input. */
  lemma StripCutsOnlySpace(s: string)
    ensures var r := Strip(s);
      exists i {:trigger s[i..]} :: 0 <= i <= |s| - |r| && r == s[i..][..|r|]
        && (forall k :: 0 <= k < i ==> IsSpace(s[k]))
        && (forall k :: i + |r| <= k < |s| ==> IsSpace(s[k]))
  {
    var l := TrimLeft(s);
    var r := Strip(s);
    var i := |s| - |l|;
    assert l == s[i..];
    assert r == l[..|r|];
    forall k | i + |r| <= k < |s|
      ensures IsSpace(s[k])
    {
      assert s[k] == l[k - i];
    }
  }

  lemma StripKeepsTrimmed(s: string)
    requires s == [] || (!IsSpace(s[0]) && !IsSpace(s[|s| - 1]))
    ensures Strip(s) == s
  {
  }

  /** Python's str.lower() on the ASCII letters. */
  function LowerChar(c: char): char {
    if 'A' <= c <= 'Z' then (c as int + 32) as char else c
  }

  /** No ASCII capital is left, each capital becomes its small letter, and every other character is kept. */
  function Lower(s: string): (r: string)
    ensures |r| == |s|
    ensures forall i :: 0 <= i < |r| ==> !('A' <= r[i] <= 'Z')
    ensures forall i :: 0 <= i < |s| && 'A' <= s[i] <= 'Z' ==> r[i] as int == s[i] as int + 32
    ensures forall i :: 0 <= i < |s| && !('A' <= s[i] <= 'Z') ==> r[i] == s[i]
  {
    seq(|s|, i requires 0 <= i < |s| => LowerChar(s[i]))
  }

  predicate StartsWith(s: string, prefix: string) {
    |prefix| <= |s| && s[..|prefix|] == prefix
  }

  /** Python's s.endswith(suffix). */
  predicate EndsWith(s: string, suffix: string) {
    |suffix| <= |s| && s[|s| - |suffix|..] == suffix
  }

  /** Python's `sub in s` for two strings. */
  predicate Contains(s: string, sub: string)
    decreases |s|
  {
    StartsWith(s, sub) || (s != [] && Contains(s[1..], sub))
  }

  // ---------------------------------------------------------------------
  // split / join on one separator character
  // ---------------------------------------------------------------------

  function IndexOf(s: string, c: char): (i: nat)
    requires c in s
    ensures i < |s| && s[i] == c && c !in s[..i]
  {
    if s[0] == c then 0 else 1 + IndexOf(s[1..], c)
  }

  function Join(parts: seq<string>, sep: char): string
  {
    if |parts| == 0 then ""
    else if |parts| == 1 then parts[0]
    else parts[0] + [sep] + Join(parts[1..], sep)
  }

  /** Python's s.split(sep) for a one-character separator: the pieces between separators. */
  function Split(s: string, sep: char): (parts: seq<string>)
    ensures |parts| >= 1
    ensures forall i :: 0 <= i < |parts| ==> sep !in parts[i]
    decreases |s|
  {
    if sep !in s then [s]
    else
      var i := IndexOf(s, sep);
      [s[..i]] + Split(s[i + 1..], sep)
  }

  /** Joining the pieces of a split with the separator gives the text back. */
  lemma {:induction false} JoinSplit(s: string, sep: char)
    ensures Join(Split(s, sep), sep) == s
    decreases |s|
  {
    if sep in s {
      var i := IndexOf(s, sep);
      var rest := Split(s[i + 1..], sep);
      JoinSplit(s[i + 1..], sep);
      assert ([s[..i]] + rest)[1..] == rest;
      assert s == s[..i] + [sep] + s[i + 1..];
    }
  }

  lemma IndexOfAfterPiece(a: string, c: char, b: string)
    requires c !in a
    ensures IndexOf(a + [c] + b, c) == |a|
  {
    var s := a + [c] + b;
    assert s[|a|] == c;
  }

  lemma SplitAfterPiece(a: string, sep: char, b: string)
    requires sep !in a
    ensures Split(a + [sep] + b, sep) == [a] + Split(b, sep)
  {
    var s := a + [sep] + b;
    IndexOfAfterPiece(a, sep, b);
    assert s[..|a|] == a;
    assert s[|a| + 1..] == b;
  }

  function LastIndexOf(s: string, c: char): (i: nat)
    requires c in s
    ensures i < |s| && s[i] == c && c !in s[i + 1..]
    decreases |s|
  {
    if s[|s| - 1] == c then |s| - 1
    else
      assert s == s[..|s| - 1] + [s[|s| - 1]];
      var i := LastIndexOf(s[..|s| - 1], c);
      assert s[i + 1..] == s[..|s| - 1][i + 1..] + [s[|s| - 1]];
      i
  }

  function Last<T>(s: seq<T>): T
    requires |s| > 0
  {
    s[|s| - 1]
  }

  lemma LastOfCons<T>(x: T, t: seq<T>)
    requires |t| > 0
    ensures Last([x] + t) == Last(t)
  {
  }

  /** The last piece of a split is the text after the last separator. */
  lemma {:induction false} SplitLastPiece(s: string, sep: char, i: nat)
    requires i < |s| && s[i] == sep && sep !in s[i + 1..]
    ensures Last(Split(s, sep)) == s[i + 1..]
    decreases |s|
  {
    var j := IndexOf(s, sep);
    var rest := s[j + 1..];
    var parts := Split(rest, sep);
    assert Split(s, sep) == [s[..j]] + parts;
    LastOfCons(s[..j], parts);
    if j == i {
      SplitWithoutSeparator(rest, sep);
    } else {
      assert rest[i - j - 1] == sep;
      assert rest[i - j..] == s[i + 1..];
      SplitLastPiece(rest, sep, i - j - 1);
    }
  }

  /** Without the separator, split gives the whole text back as its one piece. */
  lemma SplitWithoutSeparator(s: string, sep: char)
    requires sep !in s
    ensures Split(s, sep) == [s]
  {
  }

  lemma {:induction false} ContainsInfix(a: string, b: string, c: string)
    ensures Contains(a + b + c, b)
    decreases |a|
  {
    if a == [] {
      assert (a + b + c)[..|b|] == b;
    } else {
      assert (a + b + c)[1..] == a[1..] + b + c;
      ContainsInfix(a[1..], b, c);
    }
  }

  // ---------------------------------------------------------------------
  // Decimal digits, str(int) and int(str)
  // ---------------------------------------------------------------------

  predicate IsDigit(c: char) {
    '0' <= c <= '9'
  }

  predicate AllDigits(s: string) {
    forall i :: 0 <= i < |s| ==> IsDigit(s[i])
  }

  function DigitValue(c: char): nat
    requires IsDigit(c)
  {
    c as int - '0' as int
  }

  function DigitChar(d: nat): (c: char)
    requires d < 10
    ensures IsDigit(c) && DigitValue(c) == d
  {
    ('0' as int + d) as char
  }

  function DigitsValue(s: string): nat
    requires AllDigits(s)
    decreases |s|
  {
    if s == [] then 0 else DigitsValue(s[..|s| - 1]) * 10 + DigitValue(s[|s| - 1])
  }

  /** The decimal digits of n, most significant first, without leading zeros. */
  function NatToString(n: nat): (s: string)
    ensures |s| >= 1 && AllDigits(s)
    decreases n
  {
    if n < 10 then [DigitChar(n)] else NatToString(n / 10) + [DigitChar(n % 10)]
  }

  lemma {:induction false} NatToStringValue(n: nat)
    ensures DigitsValue(NatToString(n)) == n
  {
    if n >= 10 {
      NatToStringValue(n / 10);
      var s := NatToString(n);
      assert s[..|s| - 1] == NatToString(n / 10);
    }
  }

  /** Python's str() of an int. */
  function IntToString(i: int): (s: string)
    ensures |s| >= 1 && s[|s| - 1] != ','
  {
    if i < 0 then "-" + NatToString(-i) else NatToString(i)
  }

  /** A non-empty run of decimal digits, read as a number. */
  function ParseUnsignedInt(t: string): Option<nat> {
    if |t| >= 1 && AllDigits(t) then Some(DigitsValue(t)) else None
  }

  /** Python's int() of a string: optional surrounding whitespace and sign, then decimal digits. */
  function ParseInt(s: string): Option<int>
  {
    var t := Strip(s);
    if |t| >= 1 && (t[0] == '-' || t[0] == '+') then
      match ParseUnsignedInt(t[1..])
      case None => None
      case Some(magnitude) => Some(if t[0] == '-' then -(magnitude as int) else magnitude)
    else ParseUnsignedInt(t)
  }

  /** Reading back what str() printed gives the same int. */
  lemma ParseIntOfIntToString(i: int)
    ensures ParseInt(IntToString(i)) == Some(i)
  {
    var n: nat := if i < 0 then -i else i;
    NatToStringValue(n);
    ParseDigits(NatToString(n));
    if i < 0 {
      var s := IntToString(i);
      assert s[1..] == NatToString(n);
      ParseNegativeDigits(s);
    }
  }

  lemma DigitIsNoSpace(c: char)
    requires IsDigit(c)
    ensures !IsSpace(c)
  {
  }

  /** int() of a string of decimal digits is their value. */
  lemma ParseDigits(digits: string)
    requires |digits| >= 1 && AllDigits(digits)
    ensures ParseInt(digits) == Some(DigitsValue(digits) as int)
  {
    DigitIsNoSpace(digits[0]);
    DigitIsNoSpace(digits[|digits| - 1]);
    StripKeepsTrimmed(digits);
    assert ParseUnsignedInt(digits) == Some(DigitsValue(digits));
  }

  /** int() of '-' followed by decimal digits is minus their value. */
  lemma ParseNegativeDigits(s: string)
    requires |s| >= 2 && s[0] == '-' && AllDigits(s[1..])
    ensures ParseInt(s) == Some(-(DigitsValue(s[1..]) as int))
  {
    DigitIsNoSpace(s[|s| - 1]);
    assert !IsSpace(s[0]);
    StripKeepsTrimmed(s);
  }

  lemma IntToStringInjective(i: int, j: int)
    requires IntToString(i) == IntToString(j)
    ensures i == j
  {
    ParseIntOfIntToString(i);
    ParseIntOfIntToString(j);
  }

  // ---------------------------------------------------------------------
  // Decimal numbers: float(str), DECIMAL(10,2) storage and printing
  // ---------------------------------------------------------------------

  /** The exact number mantissa / 10^scale. */
  datatype Decimal = Decimal(mantissa: int, scale: nat)

  function Pow10(n: nat): (p: nat)
    ensures p >= 1
  {
    if n == 0 then 1 else 10 * Pow10(n - 1)
  }

  function ParseUnsignedDecimal(b: string): Option<Decimal>
  {
    if '.' in b then
      var i := IndexOf(b, '.');
      var whole := b[..i];
      var fraction := b[i + 1..];
      if AllDigits(whole) && AllDigits(fraction) && |whole| + |fraction| >= 1 then
        Some(Decimal(DigitsValue(whole) * Pow10(|fraction|) + DigitsValue(fraction), |fraction|))
      else None
    else if |b| >= 1 && AllDigits(b) then Some(Decimal(DigitsValue(b), 0))
    else None
  }

  function ParseSignedDecimal(t: string): Option<Decimal>
  {
    if |t| >= 1 && t[0] == '-' then
      match ParseUnsignedDecimal(t[1..])
      case None => None
      case Some(d) => Some(Decimal(-d.mantissa, d.scale))
    else if |t| >= 1 && t[0] == '+' then ParseUnsignedDecimal(t[1..])
    else ParseUnsignedDecimal(t)
  }

  /** Python's float() of a string written in plain decimal notation. */
  function ParseDecimal(s: string): Option<Decimal>
  {
    ParseSignedDecimal(Strip(s))
  }

  /** Storing a number in a DECIMAL(10,2) column: cents, rounded half away from zero. */
  function ToCents(d: Decimal): int
  {
    if d.scale <= 2 then d.mantissa * Pow10(2 - d.scale)
    else
      var q := Pow10(d.scale - 2);
      var magnitude := if d.mantissa < 0 then -d.mantissa else d.mantissa;
      var rounded := (2 * magnitude + q) / (2 * q);
      if d.mantissa < 0 then -rounded else rounded
  }

  /** Storing a number in an INT column: truncated toward zero. */
  function TruncToInt(d: Decimal): int
  {
    var magnitude := if d.mantissa < 0 then -d.mantissa else d.mantissa;
    if d.mantissa < 0 then -(magnitude / Pow10(d.scale)) else magnitude / Pow10(d.scale)
  }

  /** The printed form of a non-negative number of cents. */
  function MoneyDigits(magnitude: nat): string
  {
    NatToString(magnitude / 100) + "." + [DigitChar(magnitude % 100 / 10), DigitChar(magnitude % 10)]
  }

  /** Python's str() of a DECIMAL(10,2) value read from the store, given in cents. */
  function MoneyToString(cents: int): (s: string)
    ensures |s| >= 4 && s[|s| - 1] != ','
  {
    if cents < 0 then "-" + MoneyDigits(-cents) else MoneyDigits(cents)
  }

  lemma {:induction false} DigitsAppend(s: string, c: char)
    requires AllDigits(s) && IsDigit(c)
    ensures AllDigits(s + [c]) && DigitsValue(s + [c]) == DigitsValue(s) * 10 + DigitValue(c)
  {
    assert (s + [c])[..|s|] == s;
  }

  lemma TwoDigitsValue(n: nat)
    requires n < 100
    ensures AllDigits([DigitChar(n / 10), DigitChar(n % 10)])
    ensures DigitsValue([DigitChar(n / 10), DigitChar(n % 10)]) == n
  {
    DigitsAppend([DigitChar(n / 10)], DigitChar(n % 10));
    assert [DigitChar(n / 10)][..0] == [];
  }

  lemma DigitsHaveNoPoint(s: string)
    requires AllDigits(s)
    ensures '.' !in s
  {
    assert forall k :: 0 <= k < |s| ==> s[k] != '.';
  }

  lemma ParseUnsignedMoney(whole: string, fraction: string)
    requires AllDigits(whole) && |whole| >= 1
    requires AllDigits(fraction) && |fraction| == 2
    ensures ParseUnsignedDecimal(whole + "." + fraction)
      == Some(Decimal(DigitsValue(whole) * 100 + DigitsValue(fraction), 2))
  {
    var body := whole + "." + fraction;
    DigitsHaveNoPoint(whole);
    assert body == whole + ['.'] + fraction;
    IndexOfAfterPiece(whole, '.', fraction);
    assert body[..|whole|] == whole;
    assert body[|whole| + 1..] == fraction;
    assert Pow10(2) == 100;
  }

  lemma ParseMoneyDigits(magnitude: nat)
    ensures ParseUnsignedDecimal(MoneyDigits(magnitude)) == Some(Decimal(magnitude, 2))
  {
    var q := magnitude / 100;
    var r := magnitude % 100;
    assert magnitude == q * 100 + r;
    assert r / 10 == magnitude % 100 / 10 && r % 10 == magnitude % 10;
    NatToStringValue(q);
    TwoDigitsValue(r);
    ParseUnsignedMoney(NatToString(q), [DigitChar(r / 10), DigitChar(r % 10)]);
  }

  lemma ParseNegativeBody(body: string, d: Decimal)
    requires ParseUnsignedDecimal(body) == Some(d)
    ensures ParseSignedDecimal("-" + body) == Some(Decimal(-d.mantissa, d.scale))
  {
    assert ("-" + body)[1..] == body;
  }

  lemma ParseSignedBody(sign: string, body: string, d: Decimal)
    requires sign == "" || sign == "-"
    requires |body| >= 1 && IsDigit(body[0]) && IsDigit(body[|body| - 1])
    requires ParseUnsignedDecimal(body) == Some(d)
    ensures ParseDecimal(sign + body) == Some(if sign == "-" then Decimal(-d.mantissa, d.scale) else d)
  {
    var s := sign + body;
    assert s[|s| - 1] == body[|body| - 1];
    assert s[0] == (if sign == "-" then '-' else body[0]);
    StripKeepsTrimmed(s);
    if sign == "-" {
      ParseNegativeBody(body, d);
    } else {
      assert s == body;
    }
  }

  /** Reading back the printed form of an amount gives the same number of cents. */
  lemma MoneyRoundTrip(cents: int)
    ensures ParseDecimal(MoneyToString(cents)) == Some(Decimal(cents, 2))
    ensures ToCents(Decimal(cents, 2)) == cents
  {
    var magnitude: nat := if cents < 0 then -cents else cents;
    var body := MoneyDigits(magnitude);
    ParseMoneyDigits(magnitude);
    ParseSignedBody(if cents < 0 then "-" else "", body, Decimal(magnitude, 2));
    assert MoneyToString(cents) == (if cents < 0 then "-" else "") + body;
  }
}
