/** How PHP reads numbers out of strings: intval(), floatval() and the value a
    numeric string takes in arithmetic, plus the truthiness of a string.
    Both readers scan left to right: leading whitespace, an optional sign,
    the integer digits and, for floatval(), a fraction after a '.'.
    Amounts are exact reals rather than IEEE doubles. */
module PhpNumbers {

  predicate IsDigit(c: char) {
    '0' <= c <= '9'
  }

  predicate AllDigits(s: string) {
    forall i :: 0 <= i < |s| ==> IsDigit(s[i])
  }

  function DigitChar(n: nat): (c: char)
    requires n < 10
    ensures IsDigit(c)
  {
    ('0' as int + n) as char
  }

  function DigitOf(c: char): nat
    requires IsDigit(c)
  {
    c as int - '0' as int
  }

  /** The whitespace PHP skips in front of a number: " \t\n\r\v\f". */
  predicate IsNumberSpace(c: char) {
    c == ' ' || c == '\t' || c == '\n' || c == '\r' || c as int == 11 || c as int == 12
  }

  /** The string from its first character that is not number whitespace. */
  function SkipSpaces(s: string): string {
    if s != [] && IsNumberSpace(s[0]) then SkipSpaces(s[1..]) else s
  }

  /** The integer digits at the start of `u`, read onto `acc`. */
  function DigitsFrom(u: string, acc: nat): nat {
    if u != [] && IsDigit(u[0]) then DigitsFrom(u[1..], 10 * acc + DigitOf(u[0])) else acc
  }

  /** intval($s) on a string: leading whitespace, an optional sign, then the
      leading digits; a string without leading digits reads as 0. */
  function IntVal(s: string): (n: int)
    ensures !(SkipSpaces(s) != [] && SkipSpaces(s)[0] == '-') ==> n >= 0
    ensures SkipSpaces(s) != [] && SkipSpaces(s)[0] == '-' ==> n <= 0
  {
    if s != [] && IsNumberSpace(s[0]) then IntVal(s[1..])
    else if s != [] && s[0] == '-' then -(DigitsFrom(s[1..], 0) as int)
    else if s != [] && s[0] == '+' then DigitsFrom(s[1..], 0)
    else DigitsFrom(s, 0)
  }

  /** The value of the digits at the start of `f`, read as a decimal fraction. */
  function Fraction(f: string): (r: real)
    ensures 0.0 <= r < 1.0
  {
    if f != [] && IsDigit(f[0]) then (DigitOf(f[0]) as real + Fraction(f[1..])) / 10.0 else 0.0
  }

  /** The integer digits at the start of `u` read onto `acc`, plus the
      fraction when a '.' follows them. */
  function DecimalFrom(u: string, acc: nat): (x: real)
    ensures x >= acc as real
  {
    if u != [] && IsDigit(u[0]) then DecimalFrom(u[1..], 10 * acc + DigitOf(u[0]))
    else if u != [] && u[0] == '.' then acc as real + Fraction(u[1..])
    else acc as real
  }

  /** floatval($s), and the value a numeric string takes in arithmetic:
      leading whitespace, an optional sign, integer digits and an optional
      fraction, read exactly. */
  function FloatVal(s: string): real {
    if s != [] && IsNumberSpace(s[0]) then FloatVal(s[1..])
    else if s != [] && s[0] == '-' then -DecimalFrom(s[1..], 0)
    else if s != [] && s[0] == '+' then DecimalFrom(s[1..], 0)
    else DecimalFrom(s, 0)
  }

  /** PHP truthiness of a string: every string except "" and "0" is true. */
  predicate Truthy(s: string)
    ensures Truthy(s) ==> s != []
    ensures |s| >= 2 ==> Truthy(s)
  {
    s != "" && s != "0"
  }

  /** The decimal representation of `n`, as an HTML number input submits it. */
  function NatToString(n: nat): (s: string)
    ensures AllDigits(s) && |s| >= 1
  {
    if n < 10 then [DigitChar(n)] else NatToString(n / 10) + [DigitChar(n % 10)]
  }

  /** Reading one more digit shifts what was read one decimal place. */
  lemma {:induction false} DigitsFromSnoc(p: string, c: char, acc: nat)
    requires AllDigits(p) && IsDigit(c)
    ensures DigitsFrom(p + [c], acc) == 10 * DigitsFrom(p, acc) + DigitOf(c)
    decreases |p|
  {
    if p == [] {
      assert [c][1..] == [];
    } else {
      assert (p + [c])[1..] == p[1..] + [c];
      DigitsFromSnoc(p[1..], c, 10 * acc + DigitOf(p[0]));
    }
  }

  lemma {:induction false} DigitsFromNatToString(n: nat)
    ensures DigitsFrom(NatToString(n), 0) == n
  {
    if n < 10 {
      assert [DigitChar(n)][1..] == [];
    } else {
      DigitsFromNatToString(n / 10);
      DigitsFromSnoc(NatToString(n / 10), DigitChar(n % 10), 0);
    }
  }

  /** Without a '.', floatval reads the same digits intval does. */
  lemma {:induction false} DecimalFromOfDigits(s: string, acc: nat)
    requires AllDigits(s)
    ensures DecimalFrom(s, acc) == DigitsFrom(s, acc) as real
    decreases |s|
  {
    if s != [] {
      DecimalFromOfDigits(s[1..], 10 * acc + DigitOf(s[0]));
    }
  }

  /** floatval() is negative only after a leading '-', and never positive after one. */
  lemma {:induction false} FloatValSign(s: string)
    ensures !(SkipSpaces(s) != [] && SkipSpaces(s)[0] == '-') ==> FloatVal(s) >= 0.0
    ensures SkipSpaces(s) != [] && SkipSpaces(s)[0] == '-' ==> FloatVal(s) <= 0.0
  {
    if s != [] && IsNumberSpace(s[0]) {
      FloatValSign(s[1..]);
    }
  }

  /** On a string of digits, floatval and intval read the same whole number. */
  lemma FloatValOfDigits(s: string)
    requires s != [] && AllDigits(s)
    ensures IntVal(s) >= 0
    ensures FloatVal(s) == IntVal(s) as real
  {
    assert IsDigit(s[0]);
    DecimalFromOfDigits(s, 0);
  }

  /** intval() reads back a count of hours typed as a plain decimal number. */
  lemma IntValOfNatToString(n: nat)
    ensures IntVal(NatToString(n)) == n
  {
    var s := NatToString(n);
    assert IsDigit(s[0]);
    DigitsFromNatToString(n);
  }

  /** floatval() reads a plain decimal number as the same amount. */
  lemma FloatValOfNatToString(n: nat)
    ensures FloatVal(NatToString(n)) == n as real
  {
    var s := NatToString(n);
    assert IsDigit(s[0]);
    DigitsFromNatToString(n);
    DecimalFromOfDigits(s, 0);
  }

  /** What floatval reads lies within one unit above what intval reads. */
  lemma {:induction false} DecimalFromBounds(u: string, acc: nat)
    ensures DigitsFrom(u, acc) as real <= DecimalFrom(u, acc) < DigitsFrom(u, acc) as real + 1.0
    decreases |u|
  {
    if u != [] && IsDigit(u[0]) {
      DecimalFromBounds(u[1..], 10 * acc + DigitOf(u[0]));
    }
  }

  /** intval() truncates what floatval() reads: for any string, the integer
      reading lies within one unit of the exact one, toward zero. */
  lemma {:induction false} IntValTruncatesFloatVal(s: string)
    ensures !(SkipSpaces(s) != [] && SkipSpaces(s)[0] == '-') ==>
              IntVal(s) as real <= FloatVal(s) < IntVal(s) as real + 1.0
    ensures SkipSpaces(s) != [] && SkipSpaces(s)[0] == '-' ==>
              IntVal(s) as real - 1.0 < FloatVal(s) <= IntVal(s) as real
  {
    if s != [] && IsNumberSpace(s[0]) {
      IntValTruncatesFloatVal(s[1..]);
    } else if s != [] && (s[0] == '-' || s[0] == '+') {
      DecimalFromBounds(s[1..], 0);
    } else {
      DecimalFromBounds(s, 0);
    }
  }

  /** "0.00" is a true string, yet its numeric value is not above zero. */
  lemma ZeroWithDecimalsIsTruthy()
    ensures Truthy("0.00") && FloatVal("0.00") == 0.0
  {
    var s := "0.00";
    assert s[1..] == ".00" && s[2..] == "00" && s[3..] == "0" && s[4..] == "";
    assert Fraction("00") == 0.0;
    assert DecimalFrom(".00", 0) == 0.0;
    assert DecimalFrom(s, 0) == 0.0;
  }
}
