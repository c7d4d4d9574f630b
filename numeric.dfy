/** PHP's `is_numeric($v)` and `(float)$v` on decoded JSON values.

    Numbers are numeric. A string is numeric when it has the shape (PHP 8)
      spaces [+-] (digits [. digits*] | . digits) [(e|E) [+-] digits] spaces
    where the spaces are space, \t, \n, \r, \v and \f. Its value is computed
    exactly; the rounding of the conversion to a double is not modelled. */
module PhpNumeric {
  import opened PhpValues

  predicate IsNumericSpace(c: char) {
    c == ' ' || c == '\t' || c == '\n' || c == '\r' || c == 11 as char || c == 12 as char
  }

  predicate IsDigit(c: char) { '0' <= c <= '9' }

  function SkipSpaces(s: string, i: nat): (j: nat)
    requires i <= |s|
    ensures i <= j <= |s|
    ensures forall k :: i <= k < j ==> IsNumericSpace(s[k])
    ensures j == |s| || !IsNumericSpace(s[j])
    decreases |s| - i
  {
    if i < |s| && IsNumericSpace(s[i]) then SkipSpaces(s, i + 1) else i
  }

  function SkipDigits(s: string, i: nat): (j: nat)
    requires i <= |s|
    ensures i <= j <= |s|
    ensures forall k :: i <= k < j ==> IsDigit(s[k])
    ensures j == |s| || !IsDigit(s[j])
    decreases |s| - i
  {
    if i < |s| && IsDigit(s[i]) then SkipDigits(s, i + 1) else i
  }

  /** The decimal value of the digits `s[i..j]`. */
  function DigitsValue(s: string, i: nat, j: nat): nat
    requires i <= j <= |s|
    requires forall k :: i <= k < j ==> IsDigit(s[k])
    decreases j - i
  {
    if i == j then 0
    else
      assert IsDigit(s[j - 1]);
      10 * DigitsValue(s, i, j - 1) + (s[j - 1] as int - '0' as int)
  }

  function Pow10(n: nat): (p: nat)
    ensures p >= 1
  {
    if n == 0 then 1 else 10 * Pow10(n - 1)
  }

  /** A numeric string taken apart: its sign, all its mantissa digits read as
      one integer, how many of those digits follow the point, its exponent. */
  datatype Numeral = Numeral(negative: bool, mantissa: nat, decimals: nat, exponent: int)

  function Amount(n: Numeral): real {
    var scale := if n.exponent >= 0 then Pow10(n.exponent) as real else 1.0 / Pow10(-n.exponent) as real;
    var magnitude := n.mantissa as real / Pow10(n.decimals) as real * scale;
    if n.negative then -magnitude else magnitude
  }

  /** The optional exponent that starts at `d`: where it ends, and its value.
      An `e` that is not followed by digits is not part of the number. */
  function ScanExponent(s: string, d: nat): (r: (nat, int))
    requires d <= |s|
    ensures d <= r.0 <= |s|
    ensures r.0 == d ==> r.1 == 0
  {
    if d < |s| && (s[d] == 'e' || s[d] == 'E') then
      var p := d + 1;
      var q := if p < |s| && (s[p] == '+' || s[p] == '-') then p + 1 else p;
      var r := SkipDigits(s, q);
      if r > q then
        var e: int := DigitsValue(s, q, r);
        (r, if q > p && s[p] == '-' then -e else e)
      else (d, 0)
    else (d, 0)
  }

  /** Where the parts before an exponent end: the leading spaces at `a`, the
      sign at `b`, the integer digits at `c`, the point at `f` and the
      fraction digits at `d`. Each part is as long as it can be. */
  datatype Parts = Parts(a: nat, b: nat, c: nat, f: nat, d: nat)

  function Split(s: string): (p: Parts)
    ensures p.a <= p.b <= p.c <= p.f <= p.d <= |s|
    ensures forall k :: p.b <= k < p.c ==> IsDigit(s[k])
    ensures forall k :: p.f <= k < p.d ==> IsDigit(s[k])
  {
    var a := SkipSpaces(s, 0);
    var b := if a < |s| && (s[a] == '+' || s[a] == '-') then a + 1 else a;
    var c := SkipDigits(s, b);
    var f := if c < |s| && s[c] == '.' then c + 1 else c;
    Parts(a, b, c, f, SkipDigits(s, f))
  }

  /** Recognise a numeric string and take it apart. */
  function ScanNumeral(s: string): Option<Numeral> {
    var p := Split(s);
    if p.c == p.b && p.d == p.f then None
    else
      var (e, exponent) := ScanExponent(s, p.d);
      if SkipSpaces(s, e) != |s| then None
      else
        Some(Numeral(p.b > p.a && s[p.a] == '-',
                     DigitsValue(s, p.b, p.c) * Pow10(p.d - p.f) + DigitsValue(s, p.f, p.d),
                     p.d - p.f, exponent))
  }

  /** The value of a numeric string, or nothing when `is_numeric` is false. */
  function NumericString(s: string): Option<real> {
    match ScanNumeral(s)
    case Some(n) => Some(Amount(n))
    case None => None
  }

  /** `is_numeric($v) ? (float)$v : nothing`. Booleans, null and arrays are not numeric. */
  function NumericValue(v: Value): (r: Option<real>)
    ensures v.Num? ==> r == Some(v.n)
    ensures !v.Num? && !v.Str? ==> r == None
  {
    match v
    case Num(n) => Some(n)
    case Str(s) => NumericString(s)
    case _ => None
  }

  predicate IsNumeric(v: Value) { NumericValue(v).Some? }

  predicate IsSign(c: char) { c == '+' || c == '-' }

  /** `s[i..j]` is all spaces. */
  predicate Spaces(s: string, i: int, j: int) {
    0 <= i <= j <= |s| && forall k :: i <= k < j ==> IsNumericSpace(s[k])
  }

  /** `s[i..j]` is all digits. */
  predicate Digits(s: string, i: int, j: int) {
    0 <= i <= j <= |s| && forall k :: i <= k < j ==> IsDigit(s[k])
  }

  /** Where the digits of an exponent starting at `d` begin: after the `e`
      and its sign, if it has one. */
  function ExponentDigits(s: string, d: nat): nat {
    if d + 1 < |s| && IsSign(s[d + 1]) then d + 2 else d + 1
  }

  /** `s[d..e]` is an exponent: empty, or `e`/`E`, an optional sign, and the
      digits `s[q..e]`, at least one of them. */
  predicate ExponentPart(s: string, d: int, q: int, e: int) {
    0 <= d <= e <= |s| &&
    (e == d ||
     (d < q < e && (s[d] == 'e' || s[d] == 'E') &&
      (q == d + 1 || (q == d + 2 && IsSign(s[d + 1]))) && Digits(s, q, e)))
  }

  /** `s` is the spaces `s[..a]`, an optional sign `s[a..b]`, the integer
      digits `s[b..c]`, a point and the fraction digits `s[f..d]` (or neither),
      at least one digit in all, the exponent `s[d..e]` and the spaces `s[e..]`. */
  predicate NumeralShape(s: string, a: int, b: int, c: int, f: int, d: int, q: int, e: int) {
    0 <= a <= b <= c <= f <= d <= e <= |s| && Spaces(s, 0, a) &&
    (b == a || (b == a + 1 && IsSign(s[a]))) &&
    Digits(s, b, c) &&
    ((f == c && d == c) || (f == c + 1 && s[c] == '.')) &&
    Digits(s, f, d) &&
    (c > b || d > f) &&
    ExponentPart(s, d, q, e) &&
    Spaces(s, e, |s|)
  }

  lemma {:induction false} SkipSpacesTo(s: string, i: nat, j: nat)
    requires Spaces(s, i, j) && (j == |s| || !IsNumericSpace(s[j]))
    ensures SkipSpaces(s, i) == j
    decreases j - i
  {
    if i < j {
      SkipSpacesTo(s, i + 1, j);
    }
  }

  lemma {:induction false} SkipDigitsTo(s: string, i: nat, j: nat)
    requires Digits(s, i, j) && (j == |s| || !IsDigit(s[j]))
    ensures SkipDigits(s, i) == j
    decreases j - i
  {
    if i < j {
      SkipDigitsTo(s, i + 1, j);
    }
  }

  /** The scanner stops where an exponent of that shape ends. */
  lemma ScanExponentShape(s: string, d: nat)
    requires d <= |s|
    ensures ExponentPart(s, d, ExponentDigits(s, d), ScanExponent(s, d).0)
  {
  }

  /** In a string of the numeric shape, the character after each part
      cannot extend that part. */
  lemma ShapeStops(s: string, a: nat, b: nat, c: nat, f: nat, d: nat, q: int, e: nat)
    requires NumeralShape(s, a, b, c, f, d, q, e)
    ensures a < |s| && !IsNumericSpace(s[a]) && (IsSign(s[a]) <==> b == a + 1)
    ensures c == |s| || !IsDigit(s[c])
    ensures (c < |s| && s[c] == '.') <==> f == c + 1
    ensures d == |s| || !IsDigit(s[d])
    ensures ScanExponent(s, d).0 == e
  {
    if e > d {
      assert q == d + 1 ==> IsDigit(s[d + 1]);
      SkipDigitsTo(s, q, e);
    }
  }

  /** A string of the numeric shape is recognised. */
  lemma ShapeScans(s: string, a: nat, b: nat, c: nat, f: nat, d: nat, q: int, e: nat)
    requires NumeralShape(s, a, b, c, f, d, q, e)
    ensures ScanNumeral(s).Some?
  {
    ShapeStops(s, a, b, c, f, d, q, e);
    SkipSpacesTo(s, 0, a);
    SkipDigitsTo(s, b, c);
    SkipDigitsTo(s, f, d);
    SkipSpacesTo(s, e, |s|);
    ScansParts(s, a, b, c, f, d, e);
  }

  /** The scanner succeeds when the parts it finds hold a digit and are
      followed by nothing but spaces. */
  lemma ScansParts(s: string, a: nat, b: nat, c: nat, f: nat, d: nat, e: nat)
    requires b <= |s| && f <= |s|
    requires SkipSpaces(s, 0) == a && (b == if a < |s| && IsSign(s[a]) then a + 1 else a)
    requires SkipDigits(s, b) == c && (f == if c < |s| && s[c] == '.' then c + 1 else c)
    requires SkipDigits(s, f) == d && (c > b || d > f)
    requires ScanExponent(s, d).0 == e && SkipSpaces(s, e) == |s|
    ensures ScanNumeral(s).Some?
  {
  }

  /** The parts the scanner finds hold a digit, and only spaces follow them. */
  predicate PartsAccepted(s: string) {
    var p := Split(s);
    (p.c > p.b || p.d > p.f) && SkipSpaces(s, ScanExponent(s, p.d).0) == |s|
  }

  /** A recognised string is one whose parts are accepted. */
  lemma ScannedParts(s: string)
    requires ScanNumeral(s).Some?
    ensures PartsAccepted(s)
  {
  }

  /** The parts the scanner finds in a string it accepts. */
  lemma ScannedShape(s: string) returns (a: nat, b: nat, c: nat, f: nat, d: nat, q: nat, e: nat)
    requires PartsAccepted(s)
    ensures NumeralShape(s, a, b, c, f, d, q, e)
  {
    var p := Split(s);
    a, b, c, f, d := p.a, p.b, p.c, p.f, p.d;
    ScanExponentShape(s, d);
    q := ExponentDigits(s, d);
    e := ScanExponent(s, d).0;
    ShapeOfParts(s, p, q, e);
  }

  /** The parts the scanner finds make up the numeric shape when they hold a
      digit and only spaces follow them. */
  lemma ShapeOfParts(s: string, p: Parts, q: nat, e: nat)
    requires p == Split(s) && (p.c > p.b || p.d > p.f)
    requires ExponentPart(s, p.d, q, e) && SkipSpaces(s, e) == |s|
    ensures NumeralShape(s, p.a, p.b, p.c, p.f, p.d, q, e)
  {
    assert Spaces(s, e, |s|);
  }

  /** `is_numeric` on a string accepts exactly the strings of the numeric
      shape: spaces, an optional sign, digits with an optional point (at
      least one digit), an optional exponent, and spaces. */
  lemma NumericStringShape(s: string)
    ensures NumericString(s).Some? <==> exists a, b, c, f, d, q, e :: NumeralShape(s, a, b, c, f, d, q, e)
  {
    if NumericString(s).Some? {
      ScannedParts(s);
      var a, b, c, f, d, q, e := ScannedShape(s);
    }
    if exists a, b, c, f, d, q, e :: NumeralShape(s, a, b, c, f, d, q, e) {
      var a, b, c, f, d, q, e :| NumeralShape(s, a, b, c, f, d, q, e);
      ShapeScans(s, a, b, c, f, d, q, e);
    }
  }

  /** A plain run of decimal digits is numeric and means its decimal value. */
  lemma DigitStringIsNumeric(s: string)
    requires |s| > 0
    requires forall k :: 0 <= k < |s| ==> IsDigit(s[k])
    ensures NumericString(s) == Some(DigitsValue(s, 0, |s|) as real)
  {
    SkipDigitsTo(s, 0, |s|);
    assert !IsNumericSpace(s[0]);
    assert SkipSpaces(s, 0) == 0;
  }

  lemma ExampleDecimal() ensures NumericString("12.50") == Some(12.5) {
    var s := "12.50";
    assert SkipSpaces(s, 0) == 0;
    assert SkipDigits(s, 0) == 2;
    assert SkipDigits(s, 3) == 5;
    assert DigitsValue(s, 0, 2) == 12;
    assert DigitsValue(s, 3, 5) == 50;
    assert ScanExponent(s, 5) == (5, 0);
    assert Pow10(2) == 100;
    assert ScanNumeral(s) == Some(Numeral(false, 1250, 2, 0));
  }
  lemma ExampleSpaces() ensures NumericString(" 7 ") == Some(7.0) {
    var s := " 7 ";
    assert SkipSpaces(s, 0) == 1;
    assert SkipDigits(s, 1) == 2;
    assert SkipSpaces(s, 2) == 3;
    assert ScanNumeral(s) == Some(Numeral(false, 7, 0, 0));
  }
  lemma ExampleNegative() ensures NumericString("-3") == Some(-3.0) {}
  lemma ExampleExponent() ensures NumericString("1e3") == Some(1000.0) {
    var s := "1e3";
    assert SkipSpaces(s, 0) == 0;
    assert SkipDigits(s, 0) == 1;
    assert SkipDigits(s, 2) == 3;
    assert DigitsValue(s, 2, 3) == 3;
    assert ScanExponent(s, 1) == (3, 3);
    assert ScanNumeral(s) == Some(Numeral(false, 1, 0, 3));
    assert Pow10(3) == 1000;
  }
  lemma ExamplePoint() ensures NumericString(".5") == Some(0.5) {}
  lemma ExampleTrailingPoint() ensures NumericString("5.") == Some(5.0) {}
  lemma ExampleEmpty() ensures NumericString("") == None {}
  lemma ExampleDot() ensures NumericString(".") == None {}
  lemma ExampleBareE() ensures NumericString("1e") == None {}
  /** A thousands separator makes a price non-numeric. */
  lemma ExampleComma() ensures NumericString("1,234.50") == None {
    var s := "1,234.50";
    assert SkipSpaces(s, 0) == 0;
    assert SkipDigits(s, 0) == 1;
    assert SkipDigits(s, 1) == 1;
    assert ScanExponent(s, 1) == (1, 0);
    assert SkipSpaces(s, 1) == 1;
  }
}
