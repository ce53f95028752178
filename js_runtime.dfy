/** The JavaScript built-ins the replay code relies on: null, thrown errors,
    parseInt with radix 10, and the decimal text of a non-negative integer. */
module JsRuntime {

  /** A value that may be null, such as `string | null`. */
  datatype Option<T> = None | Some(value: T)

  /** Reading a `const` before its declaration throws a ReferenceError;
      reading a property of undefined throws a TypeError. */
  datatype JsError = ReferenceError | TypeError

  /** An expression either completes with a value or throws. */
  datatype Completion<T> = Normal(value: T) | Throw(error: JsError)

  /** A number as the replay helpers produce it: NaN or an integer. */
  datatype Number = NaN | Int(value: int)

  predicate IsDigit(c: char) {
    '0' <= c <= '9'
  }

  /** WhiteSpace and LineTerminator characters of ECMAScript, which
      parseInt skips before the number. */
  predicate IsWhiteSpace(c: char) {
    c == '\t' || c == '\U{000B}' || c == '\U{000C}' || c == ' ' || c == '\U{00A0}'
    || c == '\U{FEFF}' || c == '\U{1680}' || ('\U{2000}' <= c <= '\U{200A}')
    || c == '\U{202F}' || c == '\U{205F}' || c == '\U{3000}'
    || c == '\n' || c == '\r' || c == '\U{2028}' || c == '\U{2029}'
  }

  predicate AllDigits(s: string) {
    forall i :: 0 <= i < |s| ==> IsDigit(s[i])
  }

  /** Drop leading white space. */
  function TrimStart(s: string): string {
    if s != [] && IsWhiteSpace(s[0]) then TrimStart(s[1..]) else s
  }

  predicate AllWhiteSpace(s: string) {
    forall i :: 0 <= i < |s| ==> IsWhiteSpace(s[i])
  }

  /** TrimStart removes exactly a white-space prefix, and all of it. */
  lemma {:induction false} TrimStartRemovesPrefix(s: string)
    ensures var r := TrimStart(s);
            |r| <= |s| && r == s[|s| - |r|..] && (r == [] || !IsWhiteSpace(r[0]))
            && AllWhiteSpace(s[..|s| - |r|])
  {
    if s != [] && IsWhiteSpace(s[0]) {
      var tail := s[1..];
      var r := TrimStart(tail);
      TrimStartRemovesPrefix(tail);
      assert TrimStart(s) == r;
      assert tail[|tail| - |r|..] == s[|s| - |r|..];
      assert s[..|s| - |r|] == [s[0]] + tail[..|tail| - |r|];
    }
  }

  /** The longest prefix of `s` made of decimal digits. */
  function LeadingDigits(s: string): (r: string)
    ensures AllDigits(r)
  {
    if s != [] && IsDigit(s[0]) then [s[0]] + LeadingDigits(s[1..]) else []
  }

  /** LeadingDigits is a prefix and stops at the first non-digit. */
  lemma {:induction false} LeadingDigitsIsLongestPrefix(s: string)
    ensures var r := LeadingDigits(s);
            |r| <= |s| && r == s[..|r|] && (|r| < |s| ==> !IsDigit(s[|r|]))
  {
    if s != [] && IsDigit(s[0]) {
      LeadingDigitsIsLongestPrefix(s[1..]);
    }
  }

  /** The value of a string of decimal digits, most significant first. */
  function DigitsValue(d: string): nat
    requires AllDigits(d)
  {
    if d == [] then 0
    else DigitsValue(d[..|d| - 1]) * 10 + DigitValue(d[|d| - 1])
  }

  function DigitValue(c: char): nat
    requires IsDigit(c)
  {
    c as int - '0' as int
  }

  /** parseInt(s, 10): skip leading white space, take an optional sign, then
      the longest run of digits; no digits gives NaN. */
  function ParseInt(s: string): Number {
    var t := TrimStart(s);
    var negative := t != [] && t[0] == '-';
    var unsigned := if t != [] && (t[0] == '-' || t[0] == '+') then t[1..] else t;
    var digits := LeadingDigits(unsigned);
    if digits == [] then NaN
    else
      var magnitude: int := DigitsValue(digits);
      Int(if negative then -magnitude else magnitude)
  }

  function DigitChar(d: nat): (c: char)
    requires d < 10
    ensures IsDigit(c) && DigitValue(c) == d
  {
    ('0' as int + d) as char
  }

  /** The text a template literal gives a non-negative integer. */
  function Decimal(n: nat): (r: string)
    ensures r != [] && AllDigits(r)
  {
    if n < 10 then [DigitChar(n)] else Decimal(n / 10) + [DigitChar(n % 10)]
  }

  /** Reading back the decimal text gives the number. */
  lemma {:induction false} DecimalValue(n: nat)
    ensures DigitsValue(Decimal(n)) == n
  {
    if n >= 10 {
      DecimalValue(n / 10);
      var d := Decimal(n);
      assert d[..|d| - 1] == Decimal(n / 10);
    }
  }

  lemma {:induction false} LeadingDigitsOfPrefix(d: string, t: string)
    requires AllDigits(d)
    requires t == [] || !IsDigit(t[0])
    ensures LeadingDigits(d + t) == d
  {
    if d != [] {
      assert (d + t)[1..] == d[1..] + t;
      LeadingDigitsOfPrefix(d[1..], t);
    }
  }

  /** Text that starts with a digit is read as its leading digits. */
  lemma ParseIntStartingWithDigit(s: string)
    requires s != [] && IsDigit(s[0])
    ensures LeadingDigits(s) != []
    ensures ParseInt(s) == Int(DigitsValue(LeadingDigits(s)))
  {
    assert !IsWhiteSpace(s[0]);
    assert TrimStart(s) == s;
  }

  /** parseInt reads a rendered integer back, whatever non-digit text
      follows it. */
  lemma ParseIntOfDecimal(n: nat, t: string)
    requires t == [] || !IsDigit(t[0])
    ensures ParseInt(Decimal(n) + t) == Int(n)
  {
    var d := Decimal(n);
    assert (d + t)[0] == d[0];
    ParseIntStartingWithDigit(d + t);
    LeadingDigitsOfPrefix(d, t);
    DecimalValue(n);
  }
}
