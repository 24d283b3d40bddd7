/**
 * The few pieces of JavaScript semantics the form relies on: the conversion of a string to a
 * number used by loose equality (`==`), `parseInt` and the decimal rendering of an integral
 * number.
 */
module JsSemantics {
  import opened Wrappers

  /** A key or identifier as JavaScript sees it: a string or an integral number. */
  datatype JsValue = Str(s: string) | Num(n: int)

  // ---------------------------------------------------------------------------------------------
  // Digits

  /** The value of a digit character in radix up to 16 (`0`-`9`, `a`-`f`, `A`-`F`). */
  function CharDigit(c: char): Option<nat> {
    if '0' <= c <= '9' then Some(c as int - '0' as int)
    else if 'a' <= c <= 'f' then Some(c as int - 'a' as int + 10)
    else if 'A' <= c <= 'F' then Some(c as int - 'A' as int + 10)
    else None
  }

  predicate IsDigitIn(c: char, radix: nat) {
    CharDigit(c).Some? && CharDigit(c).value < radix
  }

  predicate AllDigitsIn(s: string, radix: nat) {
    forall i :: 0 <= i < |s| ==> IsDigitIn(s[i], radix)
  }

  /** The number that the digit string `s` denotes in `radix`, most significant digit first. */
  function ValueIn(s: string, radix: nat): nat
    requires AllDigitsIn(s, radix)
    decreases |s|
  {
    if s == [] then 0
    else ValueIn(s[..|s| - 1], radix) * radix + CharDigit(s[|s| - 1]).value
  }

  /** The longest prefix of `s` made of digits in `radix`. */
  function LeadingDigits(s: string, radix: nat): (r: string)
    ensures AllDigitsIn(r, radix) && r <= s
    ensures |r| < |s| ==> !IsDigitIn(s[|r|], radix)
  {
    if s != [] && IsDigitIn(s[0], radix) then [s[0]] + LeadingDigits(s[1..], radix) else []
  }

  /** The decimal digits of `n`, with no leading zero. */
  function NatToDigits(n: nat): (s: string)
    ensures |s| > 0 && AllDigitsIn(s, 10)
    ensures s[0] == '0' ==> n == 0 && |s| == 1
  {
    if n < 10 then ['0' + n as char] else NatToDigits(n / 10) + ['0' + (n % 10) as char]
  }

  /** `String(n)` for an integral number: optional minus sign, then decimal digits. */
  function NumberToString(n: int): string {
    if n < 0 then "-" + NatToDigits(-n) else NatToDigits(n)
  }

  /** The string JavaScript converts a key to (`String(v)`); the value of an `<option>` element. */
  function ToJsString(v: JsValue): string {
    match v
    case Str(s) => s
    case Num(n) => NumberToString(n)
  }

  // ---------------------------------------------------------------------------------------------
  // Whitespace, ToNumber and parseInt

  /** JavaScript's WhiteSpace and LineTerminator characters, which `Number()` and `parseInt` skip. */
  predicate IsJsSpace(c: char) {
    c == ' ' || c == '\t' || c == '\n' || c == '\r' || c == '\U{000B}' || c == '\U{000C}'
    || c == '\U{00A0}' || c == '\U{FEFF}' || c == '\U{1680}' || ('\U{2000}' <= c <= '\U{200A}')
    || c == '\U{2028}' || c == '\U{2029}' || c == '\U{202F}' || c == '\U{205F}' || c == '\U{3000}'
  }

  function TrimStart(s: string): (r: string)
    ensures |r| <= |s| && r == s[|s| - |r|..]
    ensures r != [] ==> !IsJsSpace(r[0])
  {
    if s != [] && IsJsSpace(s[0]) then TrimStart(s[1..]) else s
  }

  function TrimEnd(s: string): (r: string)
    ensures r <= s
    ensures r != [] ==> !IsJsSpace(r[|r| - 1])
  {
    if s != [] && IsJsSpace(s[|s| - 1]) then TrimEnd(s[..|s| - 1]) else s
  }

  /** The radix selected by a `0x`, `0o` or `0b` prefix (either case), or 0 when there is none. */
  function PrefixRadix(t: string): nat {
    if |t| < 2 || t[0] != '0' then 0
    else if t[1] == 'x' || t[1] == 'X' then 16
    else if t[1] == 'o' || t[1] == 'O' then 8
    else if t[1] == 'b' || t[1] == 'B' then 2
    else 0
  }

  /**
   * `Number(s)` restricted to integral results: `None` stands for NaN (and for the numeric
   * literals with a fraction or an exponent, which are not modelled). The blank string is 0.
   */
  function StringToNumber(s: string): Option<int> {
    var t := TrimEnd(TrimStart(s));
    var radix := PrefixRadix(t);
    if t == [] then Some(0)
    else if radix != 0 then
      (if |t| > 2 && AllDigitsIn(t[2..], radix) then Some(ValueIn(t[2..], radix)) else None)
    else if (t[0] == '-' || t[0] == '+') && |t| > 1 && AllDigitsIn(t[1..], 10) then
      Some(if t[0] == '-' then -(ValueIn(t[1..], 10) as int) else ValueIn(t[1..], 10))
    else if AllDigitsIn(t, 10) then Some(ValueIn(t, 10))
    else None
  }

  /**
   * `parseInt(s)` with no radix argument: skip leading whitespace, an optional sign, a `0x`
   * prefix selects radix 16; the longest run of digits is read and anything after it ignored.
   * `None` stands for NaN (no digit at all).
   */
  function ParseInt(s: string): Option<int> {
    var t := TrimStart(s);
    var negative := t != [] && t[0] == '-';
    var u := if t != [] && (t[0] == '-' || t[0] == '+') then t[1..] else t;
    var hex := PrefixRadix(u) == 16;
    var radix := if hex then 16 else 10;
    var digits := LeadingDigits(if hex then u[2..] else u, radix);
    if digits == [] then None
    else Some(if negative then -(ValueIn(digits, radix) as int) else ValueIn(digits, radix))
  }

  /** `parseInt(v)`: a number argument is first converted to its string. */
  function ParseIntValue(v: JsValue): Option<int> {
    ParseInt(ToJsString(v))
  }

  /** Loose equality `a == b` between strings and integral numbers. */
  function LooseEquals(a: JsValue, b: JsValue): bool {
    match (a, b)
    case (Str(x), Str(y)) => x == y
    case (Num(x), Num(y)) => x == y
    case (Str(x), Num(y)) => StringToNumber(x) == Some(y)
    case (Num(x), Str(y)) => StringToNumber(y) == Some(x)
  }

  // ---------------------------------------------------------------------------------------------
  // Lemmas

  /** Reading back the decimal digits of `n` gives `n`. */
  lemma {:induction false} DigitsRoundTrip(n: nat)
    ensures ValueIn(NatToDigits(n), 10) == n
  {
    var s := NatToDigits(n);
    if n >= 10 {
      DigitsRoundTrip(n / 10);
      assert s[..|s| - 1] == NatToDigits(n / 10);
    }
  }

  /** A non-empty run of decimal digits has no whitespace at its ends, no sign and no radix prefix. */
  lemma DigitsShape(d: string)
    requires d != [] && AllDigitsIn(d, 10)
    ensures !IsJsSpace(d[0]) && !IsJsSpace(d[|d| - 1])
    ensures d[0] != '-' && d[0] != '+' && PrefixRadix(d) == 0
  {
    assert IsDigitIn(d[0], 10) && IsDigitIn(d[|d| - 1], 10);
    if |d| >= 2 { assert IsDigitIn(d[1], 10); }
  }

  /** The rendering of `n` is its digits, after a minus sign when `n` is negative. */
  lemma NumberToStringShape(n: int) returns (d: string)
    ensures d == NatToDigits(if n < 0 then -n else n) && ValueIn(d, 10) == (if n < 0 then -n else n)
    ensures NumberToString(n) == if n < 0 then "-" + d else d
    ensures !IsJsSpace(NumberToString(n)[0]) && PrefixRadix(NumberToString(n)) == 0
    ensures TrimStart(NumberToString(n)) == NumberToString(n)
  {
    d := NatToDigits(if n < 0 then -n else n);
    DigitsRoundTrip(if n < 0 then -n else n);
    DigitsShape(d);
  }

  /** `Number(String(n)) === n`: the string an integral number renders to converts back to it. */
  lemma StringToNumberRoundTrip(n: int)
    ensures StringToNumber(NumberToString(n)) == Some(n)
  {
    var d := NumberToStringShape(n);
    var s := NumberToString(n);
    DigitsShape(d);
    assert s[|s| - 1] == d[|d| - 1];
    assert TrimEnd(s) == s;
    if n < 0 {
      assert s[1..] == d;
    }
  }

  /** `parseInt(String(n)) === n` for every integral number `n`. */
  lemma ParseIntRoundTrip(n: int)
    ensures ParseInt(NumberToString(n)) == Some(n)
  {
    var d := NumberToStringShape(n);
    var s := NumberToString(n);
    DigitsShape(d);
    if n < 0 {
      assert s[1..] == d;
    }
    AllDigitsArePrefix(d, 10);
  }

  /** A string made only of digits is its own longest digit prefix. */
  lemma AllDigitsArePrefix(s: string, radix: nat)
    requires AllDigitsIn(s, radix)
    ensures LeadingDigits(s, radix) == s
  {
  }

  /** `Number(s)` and `parseInt(s)` both read a non-empty string of decimal digits as its value. */
  lemma DecimalStringValue(s: string)
    requires s != [] && AllDigitsIn(s, 10)
    ensures StringToNumber(s) == Some(ValueIn(s, 10)) && ParseInt(s) == Some(ValueIn(s, 10))
  {
    DigitsShape(s);
    assert TrimStart(s) == s;
    assert TrimEnd(s) == s;
    AllDigitsArePrefix(s, 10);
  }

  /** The longest digit prefix of a digit string followed by a non-digit is that digit string. */
  lemma LeadingDigitsBeforeNonDigit(d: string, t: string, radix: nat)
    requires AllDigitsIn(d, radix)
    requires t == [] || !IsDigitIn(t[0], radix)
    ensures LeadingDigits(d + t, radix) == d
  {
    var s := d + t;
    assert s[..|d|] == d;
    assert forall i :: 0 <= i < |d| ==> IsDigitIn(s[i], radix);
    assert |s| > |d| ==> s[|d|] == t[0];
  }

  /**
   * `parseInt` reads the leading decimal digits and ignores what follows them, provided the text
   * after the digits does not start with a digit or turn a leading `0` into a `0x` prefix.
   */
  lemma ParseIntIgnoresTail(d: string, t: string)
    requires d != [] && AllDigitsIn(d, 10)
    requires t == [] || (!IsDigitIn(t[0], 10) && t[0] != 'x' && t[0] != 'X')
    ensures ParseInt(d + t) == Some(ValueIn(d, 10))
  {
    var s := d + t;
    DigitsShape(d);
    assert s[0] == d[0];
    assert TrimStart(s) == s;
    assert PrefixRadix(s) != 16 by {
      if |d| >= 2 {
        assert s[1] == d[1] && IsDigitIn(d[1], 10);
      } else if t != [] {
        assert s[1] == t[0];
      }
    }
    LeadingDigitsBeforeNonDigit(d, t, 10);
  }

  /** A key compares loosely equal to its own string form, the value a `<select>` reports. */
  lemma LooseEqualsRenderedKey(v: JsValue)
    ensures LooseEquals(v, Str(ToJsString(v)))
  {
    if v.Num? { StringToNumberRoundTrip(v.n); }
  }

  /** Loose equality between two numbers, or between two strings, is plain equality. */
  lemma LooseEqualsSameType(a: JsValue, b: JsValue)
    requires a.Num? == b.Num?
    ensures LooseEquals(a, b) <==> a == b
  {
  }

  /** A string starting and ending with a lower-case letter is NaN as a number. */
  lemma LetterBoundedIsNaN(s: string)
    requires s != [] && 'a' <= s[0] <= 'z' && 'a' <= s[|s| - 1] <= 'z'
    ensures StringToNumber(s) == None
  {
    assert !IsJsSpace(s[0]);
    assert TrimStart(s) == s;
    assert !IsJsSpace(s[|s| - 1]);
    assert TrimEnd(s) == s;
    var t := TrimEnd(TrimStart(s));
    assert t == s;
    assert PrefixRadix(t) == 0;
    assert t[0] != '-' && t[0] != '+';
    assert !AllDigitsIn(t, 10) by {
      assert !IsDigitIn(t[0], 10);
    }
  }

  /** The string "auto" converts to NaN, so it is loosely equal to no number. */
  lemma AutoIsNotANumber(n: int)
    ensures !LooseEquals(Str("auto"), Num(n)) && !LooseEquals(Num(n), Str("auto"))
  {
    LetterBoundedIsNaN("auto");
  }
}
