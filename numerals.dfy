/**
 * Number <-> text conversions the components rely on: decimal digits,
 * JavaScript's `Number.parseInt`, `toFixed(2)` and the default
 * number-to-string conversion. Money is held as whole cents, so these
 * conversions are exact.
 */
module Numerals {
  import opened Wrappers
  import opened Strings

  predicate IsDigit(c: char) { '0' <= c <= '9' }

  predicate AllDigits(s: string) {
    forall i :: 0 <= i < |s| ==> IsDigit(s[i])
  }

  function DigitChar(d: nat): (c: char)
    requires d < 10
    ensures IsDigit(c) && c as int - 48 == d
  {
    (48 + d) as char
  }

  function Abs(x: int): nat { if x < 0 then -x else x }

  function Pow10(k: nat): nat { if k == 0 then 1 else 10 * Pow10(k - 1) }

  /** The value of a string of decimal digits (0 for the empty string). */
  function DigitsValue(s: string): nat
    requires AllDigits(s)
  {
    if s == [] then 0 else 10 * DigitsValue(s[..|s| - 1]) + (s[|s| - 1] as int - 48)
  }

  /** The shortest decimal representation of `n`, as `String(n)` prints it. */
  function DecimalString(n: nat): (r: string)
    ensures |r| >= 1 && AllDigits(r)
    ensures |r| > 1 ==> r[0] != '0'
  {
    if n < 10 then [DigitChar(n)] else DecimalString(n / 10) + [DigitChar(n % 10)]
  }

  /** Reading back the decimal text of a number gives the number. */
  lemma {:induction false} DecimalRoundTrip(n: nat)
    ensures DigitsValue(DecimalString(n)) == n
  {
    if n >= 10 {
      DecimalRoundTrip(n / 10);
      var r := DecimalString(n);
      assert r[..|r| - 1] == DecimalString(n / 10);
    }
  }

  /** Different numbers have different decimal texts. */
  lemma {:induction false} DecimalInjective(m: nat, n: nat)
    requires DecimalString(m) == DecimalString(n)
    ensures m == n
  {
    DecimalRoundTrip(m);
    DecimalRoundTrip(n);
  }

  lemma {:induction false} DecimalLength(n: nat, k: nat)
    requires 1 <= k && n < Pow10(k)
    ensures |DecimalString(n)| <= k
  {
    if n >= 10 {
      assert k > 1;
      DecimalLength(n / 10, k - 1);
    }
  }

  /** One more digit `l` after `x * p + y`, kept apart so that the solver proves it without other facts in view. */
  lemma {:induction false} Horner(x: int, p: int, y: int, l: int)
    ensures 10 * (x * p + y) + l == x * (10 * p) + (10 * y + l)
  {
  }

  lemma {:induction false} DigitsValueAppend(a: string, b: string)
    requires AllDigits(a) && AllDigits(b)
    ensures AllDigits(a + b)
    ensures DigitsValue(a + b) == DigitsValue(a) * Pow10(|b|) + DigitsValue(b)
  {
    assert AllDigits(a + b) by {
      forall i | 0 <= i < |a + b| ensures IsDigit((a + b)[i]) {
        if i >= |a| { assert (a + b)[i] == b[i - |a|]; }
      }
    }
    if b == [] {
      assert a + b == a;
    } else {
      var b' := b[..|b| - 1];
      var last := b[|b| - 1] as int - 48;
      assert (a + b)[..|a + b| - 1] == a + b';
      assert (a + b)[|a + b| - 1] == b[|b| - 1];
      DigitsValueAppend(a, b');
      Horner(DigitsValue(a), Pow10(|b'|), DigitsValue(b'), last);
    }
  }

  function Zeros(k: nat): (r: string)
    ensures |r| == k && AllDigits(r) && DigitsValue(r) == 0
  {
    if k == 0 then [] else Zeros(k - 1) + ['0']
  }

  /** JavaScript's `padStart(width, "0")`. */
  function PadZeros(s: string, width: nat): string {
    if |s| >= width then s else Zeros(width - |s|) + s
  }

  /** Four-digit, zero-padded decimal text of a number below 10000. */
  lemma {:induction false} FourDigits(n: nat)
    requires n < 10000
    ensures |PadZeros(DecimalString(n), 4)| == 4
    ensures AllDigits(PadZeros(DecimalString(n), 4))
    ensures DigitsValue(PadZeros(DecimalString(n), 4)) == n
  {
    assert Pow10(4) == 10000;
    DecimalLength(n, 4);
    DecimalRoundTrip(n);
    var d := DecimalString(n);
    if |d| < 4 {
      DigitsValueAppend(Zeros(4 - |d|), d);
    }
  }

  // Number.parseInt(s) with no radix: leading white space skipped, an
  // optional sign, a "0x"/"0X" prefix switching to base 16, then the longest
  // run of digits of that base; no digit at all is NaN (None here).

  function HexDigitValue(c: char): nat {
    if '0' <= c <= '9' then c as int - 48
    else if 'a' <= c <= 'f' then c as int - 87
    else if 'A' <= c <= 'F' then c as int - 55
    else 16
  }

  function DigitValueIn(c: char, base: nat): nat {
    if base == 16 then HexDigitValue(c) else if IsDigit(c) then c as int - 48 else 10
  }

  /** Length of the longest prefix of `s` made of digits of `base` (10 or 16). */
  function DigitRun(s: string, base: nat): (k: nat)
    ensures k <= |s|
    ensures forall i :: 0 <= i < k ==> DigitValueIn(s[i], base) < base
    ensures k < |s| ==> DigitValueIn(s[k], base) >= base
  {
    if s == [] || DigitValueIn(s[0], base) >= base then 0 else 1 + DigitRun(s[1..], base)
  }

  function RadixValue(s: string, base: nat): nat {
    if s == [] then 0
    else
      var prefix := RadixValue(s[..|s| - 1], base);
      (if base == 16 then 16 * prefix else 10 * prefix) + DigitValueIn(s[|s| - 1], base)
  }

  /** The digits after the sign: a "0x" or "0X" prefix selects base 16. */
  function ParseUnsigned(u: string): Option<nat> {
    var hex := |u| >= 2 && u[0] == '0' && (u[1] == 'x' || u[1] == 'X');
    var base := if hex then 16 else 10;
    var v := if hex then u[2..] else u;
    var k := DigitRun(v, base);
    if k == 0 then None else Some(RadixValue(v[..k], base))
  }

  /** `Number.parseInt(s)`. */
  function ParseInt(s: string): Option<int> {
    var t := TrimStart(s);
    var neg := |t| > 0 && t[0] == '-';
    var u := if |t| > 0 && (t[0] == '-' || t[0] == '+') then t[1..] else t;
    match ParseUnsigned(u)
    case None => None
    case Some(m) => Some(if neg then -(m as int) else m)
  }

  lemma {:induction false} RadixValueDecimal(s: string)
    requires AllDigits(s)
    ensures RadixValue(s, 10) == DigitsValue(s)
  {
    if s != [] {
      RadixValueDecimal(s[..|s| - 1]);
    }
  }

  lemma {:induction false} DigitRunAll(s: string)
    requires AllDigits(s)
    ensures DigitRun(s, 10) == |s|
  {
    if s != [] {
      DigitRunAll(s[1..]);
    }
  }

  lemma {:induction false} TrimStartKeeps(t: string)
    requires t != [] && !IsSpace(t[0])
    ensures TrimStart(t) == t
  {
    TrimStartFacts(t);
  }

  /** `parseInt` reads back the decimal text of any number, with or without a minus sign. */
  lemma {:induction false} ParseIntDecimal(n: nat)
    ensures ParseInt(DecimalString(n)) == Some(n)
    ensures ParseInt("-" + DecimalString(n)) == Some(-(n as int))
  {
    DecimalRoundTrip(n);
    ParseIntOfValue(DecimalString(n), n);
    ParseIntOfNegatedValue(DecimalString(n), n);
  }

  lemma {:induction false} ParseIntOfValue(d: string, n: nat)
    requires |d| >= 1 && AllDigits(d) && DigitsValue(d) == n
    ensures ParseInt(d) == Some(n)
  {
    ParseIntDigits(d);
  }

  lemma {:induction false} ParseIntOfNegatedValue(d: string, n: nat)
    requires |d| >= 1 && AllDigits(d) && DigitsValue(d) == n
    ensures ParseInt("-" + d) == Some(-(n as int))
  {
    ParseIntNegativeDigits(d);
  }

  lemma {:induction false} ParseIntDigits(d: string)
    requires |d| >= 1 && AllDigits(d)
    ensures ParseInt(d) == Some(DigitsValue(d))
  {
    ParseIntUnsigned(d);
    ParseUnsignedDigits(d);
  }

  lemma {:induction false} ParseIntNegativeDigits(d: string)
    requires |d| >= 1 && AllDigits(d)
    ensures ParseInt("-" + d) == Some(-(DigitsValue(d) as int))
  {
    var m := "-" + d;
    assert m[1..] == d;
    ParseIntSigned(m, d);
  }

  lemma {:induction false} ParseIntSigned(m: string, d: string)
    requires |d| >= 1 && AllDigits(d)
    requires m != [] && m[0] == '-' && m[1..] == d
    ensures ParseInt(m) == Some(-(DigitsValue(d) as int))
  {
    ParseIntMinus(m);
    ParseUnsignedDigits(d);
  }

  /** A text starting with a digit parses as its unsigned reading. */
  lemma {:induction false} ParseIntUnsigned(t: string)
    requires t != [] && IsDigit(t[0])
    ensures ParseInt(t) == if ParseUnsigned(t).Some? then Some(ParseUnsigned(t).value as int) else None
  {
    TrimStartKeeps(t);
  }

  /** A text starting with `-` parses as the negated unsigned reading of the rest. */
  lemma {:induction false} ParseIntMinus(t: string)
    requires t != [] && t[0] == '-'
    ensures ParseInt(t) == if ParseUnsigned(t[1..]).Some? then Some(-(ParseUnsigned(t[1..]).value as int)) else None
  {
    TrimStartKeeps(t);
  }

  lemma {:induction false} ParseUnsignedDigits(d: string)
    requires |d| >= 1 && AllDigits(d)
    ensures ParseUnsigned(d) == Some(DigitsValue(d))
  {
    assert !(|d| >= 2 && d[0] == '0' && (d[1] == 'x' || d[1] == 'X')) by {
      if |d| >= 2 { assert IsDigit(d[1]); }
    }
    DigitRunAll(d);
    RadixValueDecimal(d);
    assert d[..|d|] == d;
  }

  /** Text whose first non-blank character is neither a sign nor a digit parses to NaN. */
  lemma {:induction false} ParseIntNaN(s: string)
    requires var t := TrimStart(s); t == [] || (!IsDigit(t[0]) && t[0] != '-' && t[0] != '+')
    ensures ParseInt(s) == None
  {
  }

  /** `String(n)` for an integer. */
  function IntText(n: int): string {
    if n < 0 then "-" + DecimalString(-n) else DecimalString(n)
  }

  /** Printing an integer and parsing it back gives the integer. */
  lemma {:induction false} IntTextRoundTrip(n: int)
    ensures ParseInt(IntText(n)) == Some(n)
  {
    if n < 0 {
      ParseIntDecimal(-n);
    } else {
      ParseIntDecimal(n);
    }
  }

  /** `value || fallback` for a parsed integer: NaN and 0 are falsy. */
  function OrElse(v: Option<int>, fallback: int): (r: int)
    ensures v.Some? && v.value != 0 ==> r == v.value
    ensures v.None? || v.value == 0 ==> r == fallback
  {
    if v.Some? && v.value != 0 then v.value else fallback
  }

  /** `Math.max(1, Number.parseInt(text) || 1)`: the quantity typed into a field. */
  function TypedQuantity(text: string): (q: int)
    ensures q >= 1
    ensures ParseInt(text).None? ==> q == 1
  {
    var r := OrElse(ParseInt(text), 1);
    if r >= 1 then r else 1
  }

  /** A typed positive number is stored as it is; a typed negative one becomes 1. */
  lemma {:induction false} TypedQuantityDecimal(n: nat)
    ensures TypedQuantity(DecimalString(n)) == if n >= 1 then n else 1
    ensures TypedQuantity("-" + DecimalString(n)) == 1
  {
    ParseIntDecimal(n);
  }

  // Money: a number of cents printed the way JavaScript prints cents / 100.

  /** `(cents / 100).toFixed(2)`. */
  function Fixed2(cents: int): string {
    var a := Abs(cents);
    (if cents < 0 then "-" else "") + DecimalString(a / 100) + "." + [DigitChar(a % 100 / 10), DigitChar(a % 10)]
  }

  /** Reads a `-?digits.dd` text back into cents: the inverse of `Fixed2`. */
  function ReadFixed2(s: string): Option<int> {
    var neg := |s| > 0 && s[0] == '-';
    var u := if neg then s[1..] else s;
    if |u| >= 4 && u[|u| - 3] == '.' && AllDigits(u[..|u| - 3]) && AllDigits(u[|u| - 2..]) then
      var v := DigitsValue(u[..|u| - 3]) * 100 + DigitsValue(u[|u| - 2..]);
      Some(if neg then -v else v)
    else None
  }

  lemma {:induction false} ModTens(a: nat)
    ensures a % 100 % 10 == a % 10
    ensures a % 100 == 10 * (a % 100 / 10) + a % 10
  {
    var q, r := a / 100, a % 100;
    assert a == 100 * q + r;
    var s, t := r / 10, r % 10;
    assert r == 10 * s + t;
    assert a == 10 * (10 * q + s) + t;
  }

  lemma {:induction false} Fixed2RoundTrip(cents: int)
    ensures ReadFixed2(Fixed2(cents)) == Some(cents)
  {
    var a := Abs(cents);
    var d, two := DecimalString(a / 100), [DigitChar(a % 100 / 10), DigitChar(a % 10)];
    var u := d + "." + two;
    ReadUnsignedCents(a);
    if cents < 0 {
      assert Fixed2(cents) == "-" + d + "." + two;
      assert "-" + d + "." + two == "-" + u;
      ReadNegativeFixed2(u);
    } else {
      assert Fixed2(cents) == "" + d + "." + two;
      assert "" + d == d;
    }
  }

  lemma {:induction false} ReadUnsignedCents(a: nat)
    ensures ReadFixed2(DecimalString(a / 100) + "." + [DigitChar(a % 100 / 10), DigitChar(a % 10)]) == Some(a)
  {
    var d := DecimalString(a / 100);
    var two := [DigitChar(a % 100 / 10), DigitChar(a % 10)];
    DecimalRoundTrip(a / 100);
    CentsDigits(a);
    ReadUnsignedFixed2(d, two);
  }

  lemma {:induction false} CentsDigits(a: nat)
    ensures DigitsValue([DigitChar(a % 100 / 10), DigitChar(a % 10)]) == a % 100
  {
    var two := [DigitChar(a % 100 / 10), DigitChar(a % 10)];
    assert two[..1] == [two[0]];
    assert [two[0]][..0] == [];
    assert DigitsValue([two[0]]) == a % 100 / 10;
    ModTens(a);
  }

  lemma {:induction false} ReadUnsignedFixed2(d: string, two: string)
    requires |d| >= 1 && AllDigits(d) && |two| == 2 && AllDigits(two)
    ensures ReadFixed2(d + "." + two) == Some(DigitsValue(d) * 100 + DigitsValue(two))
  {
    var u := d + "." + two;
    assert u[..|u| - 3] == d;
    assert u[|u| - 2..] == two;
  }

  lemma {:induction false} ReadNegativeFixed2(u: string)
    requires |u| > 0 && u[0] != '-'
    requires ReadFixed2(u).Some?
    ensures ReadFixed2("-" + u) == Some(-ReadFixed2(u).value)
  {
    assert ("-" + u)[1..] == u;
  }

  /** `String(cents / 100)`: JavaScript prints no trailing zeros and no bare point. */
  function NumberText(cents: int): string {
    var a := Abs(cents);
    var frac := a % 100;
    (if cents < 0 then "-" else "") + DecimalString(a / 100)
    + (if frac == 0 then ""
       else if frac % 10 == 0 then "." + [DigitChar(frac / 10)]
       else "." + [DigitChar(frac / 10), DigitChar(frac % 10)])
  }

  /** The default text of a cents value is its two-decimal text with trailing zeros (and a bare point) removed. */
  lemma {:induction false} NumberTextVsFixed2(cents: int)
    ensures cents % 10 != 0 ==> NumberText(cents) == Fixed2(cents)
    ensures cents % 100 != 0 && cents % 10 == 0 ==> NumberText(cents) + "0" == Fixed2(cents)
    ensures cents % 100 == 0 ==> NumberText(cents) + ".00" == Fixed2(cents)
  {
    AbsRemainders(cents);
    NumberTextByCents(cents);
  }

  /** The remainders that decide the cases, read on the absolute value. */
  lemma {:induction false} AbsRemainders(cents: int)
    ensures Abs(cents) % 100 % 10 == Abs(cents) % 10
    ensures Abs(cents) % 10 == 0 <==> cents % 10 == 0
    ensures Abs(cents) % 100 == 0 <==> cents % 100 == 0
  {
    ModTens(Abs(cents));
  }

  lemma {:induction false} NumberTextByCents(cents: int)
    ensures var frac := Abs(cents) % 100;
      && (frac % 10 != 0 ==> NumberText(cents) == Fixed2(cents))
      && (frac != 0 && frac % 10 == 0 ==> NumberText(cents) + "0" == Fixed2(cents))
      && (frac == 0 ==> NumberText(cents) + ".00" == Fixed2(cents))
  {
    var a := Abs(cents);
    var frac := a % 100;
    ModTens(a);
    var head := (if cents < 0 then "-" else "") + DecimalString(a / 100);
    var two := [DigitChar(frac / 10), DigitChar(a % 10)];
    assert Fixed2(cents) == head + "." + two;
    if frac == 0 {
      assert two == "00";
      assert NumberText(cents) == head;
    } else if frac % 10 == 0 {
      assert two == [DigitChar(frac / 10)] + "0";
      assert NumberText(cents) == head + "." + [DigitChar(frac / 10)];
    } else {
      assert NumberText(cents) == head + "." + [DigitChar(frac / 10), DigitChar(frac % 10)];
    }
  }

  /** JavaScript's `replace(from, to)` with a one-character string pattern: only the first occurrence. */
  function ReplaceFirst(s: string, from: char, to: char): (r: string)
    ensures |r| == |s|
  {
    if s == [] then []
    else if s[0] == from then [to] + s[1..]
    else [s[0]] + ReplaceFirst(s[1..], from, to)
  }

  lemma {:induction false} ReplaceFirstAt(p: string, from: char, to: char, q: string)
    requires NoneIn(p, {from})
    ensures ReplaceFirst(p + [from] + q, from, to) == p + [to] + q
  {
    if p == [] {
      assert p + [from] + q == [from] + q;
    } else {
      assert (p + [from] + q)[1..] == p[1..] + [from] + q;
      ReplaceFirstAt(p[1..], from, to, q);
    }
  }

  /** `R$ ` and the two-decimal text with a decimal comma: the fallback currency text. */
  function BrlText(cents: int): (r: string)
    ensures var a := Abs(cents);
      r == "R$ " + (if cents < 0 then "-" else "") + DecimalString(a / 100) + "," + [DigitChar(a % 100 / 10), DigitChar(a % 10)]
  {
    var a := Abs(cents);
    var p := (if cents < 0 then "-" else "") + DecimalString(a / 100);
    var two := [DigitChar(a % 100 / 10), DigitChar(a % 10)];
    assert NoneIn(p, {'.'});
    ReplaceFirstAt(p, '.', ',', two);
    assert Fixed2(cents) == p + ['.'] + two;
    "R$ " + ReplaceFirst(Fixed2(cents), '.', ',')
  }
}
