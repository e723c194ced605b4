/**
 The arithmetic behind formulas: truncating casts, bitwise operators on int,
 and decimal text in both directions (std::stod, std::stoi, std::to_string).
 A double is modelled by a real.
 */
module Arith {
  import opened Base

  // ---------------------------------------------------------------- bitwise

  /** static_cast<int>(x): truncation toward zero. */
  function Trunc(x: real): int {
    if x >= 0.0 then x.Floor else -((-x).Floor)
  }

  function Abs(n: int): nat {
    if n < 0 then -n else n
  }

  /** The i-th bit of n in two's complement. */
  function Bit(n: int, i: nat): int
    decreases i
  {
    if i == 0 then n % 2 else Bit(n / 2, i - 1)
  }

  predicate SignOnly(n: int) {
    n == 0 || n == -1
  }

  function BitOr(a: int, b: int): int
    decreases Abs(a) + Abs(b)
  {
    if SignOnly(a) && SignOnly(b) then (if a == 0 then b else -1)
    else (if a % 2 == 1 || b % 2 == 1 then 1 else 0) + 2 * BitOr(a / 2, b / 2)
  }

  function BitAnd(a: int, b: int): int
    decreases Abs(a) + Abs(b)
  {
    if SignOnly(a) && SignOnly(b) then (if a == 0 then 0 else b)
    else (if a % 2 == 1 && b % 2 == 1 then 1 else 0) + 2 * BitAnd(a / 2, b / 2)
  }

  lemma {:induction false} BitOfSign(n: int, i: nat)
    requires SignOnly(n)
    ensures Bit(n, i) == -n
  {
    if i > 0 {
      BitOfSign(n / 2, i - 1);
    }
  }

  /** BitOr is the bit-by-bit `|` of two's complement. */
  lemma {:induction false} BitOrBits(a: int, b: int, i: nat)
    ensures Bit(BitOr(a, b), i) == (if Bit(a, i) == 1 || Bit(b, i) == 1 then 1 else 0)
    decreases i
  {
    if SignOnly(a) && SignOnly(b) {
      BitOfSign(a, i);
      BitOfSign(b, i);
      BitOfSign(BitOr(a, b), i);
    } else if i > 0 {
      BitOrBits(a / 2, b / 2, i - 1);
    }
  }

  /** BitAnd is the bit-by-bit `&` of two's complement. */
  lemma {:induction false} BitAndBits(a: int, b: int, i: nat)
    ensures Bit(BitAnd(a, b), i) == (if Bit(a, i) == 1 && Bit(b, i) == 1 then 1 else 0)
    decreases i
  {
    if SignOnly(a) && SignOnly(b) {
      BitOfSign(a, i);
      BitOfSign(b, i);
      BitOfSign(BitAnd(a, b), i);
    } else if i > 0 {
      BitAndBits(a / 2, b / 2, i - 1);
    }
  }

  function Pow2(k: nat): (p: nat)
    ensures p > 0
  {
    if k == 0 then 1 else 2 * Pow2(k - 1)
  }

  predicate Fits(k: nat, n: int) {
    0 - Pow2(k) <= n < Pow2(k)
  }

  /** Operands of k+1 bits give a result of k+1 bits; k == 31 is C++ int. */
  lemma {:induction false} BitwiseFits(k: nat, a: int, b: int)
    requires Fits(k, a) && Fits(k, b)
    ensures Fits(k, BitOr(a, b)) && Fits(k, BitAnd(a, b))
  {
    if k > 0 && !(SignOnly(a) && SignOnly(b)) {
      BitwiseFits(k - 1, a / 2, b / 2);
    }
  }

  // ---------------------------------------------------------------- decimal

  predicate IsDigit(c: char) {
    '0' <= c <= '9'
  }

  predicate AllDigits(s: string) {
    forall i | 0 <= i < |s| :: IsDigit(s[i])
  }

  function Pow10(k: nat): (p: nat)
    ensures p > 0
  {
    if k == 0 then 1 else 10 * Pow10(k - 1)
  }

  function DigitValue(c: char): nat
    requires IsDigit(c)
  {
    c as int - '0' as int
  }

  function DigitChar(d: nat): char
    requires d < 10
  {
    ('0' as int + d) as char
  }

  /** The number a run of decimal digits denotes. */
  function DecValue(s: string): nat
    requires AllDigits(s)
  {
    if s == [] then 0 else 10 * DecValue(s[..|s| - 1]) + DigitValue(s[|s| - 1])
  }

  /** Length of the longest prefix of digits. */
  function LeadDigits(s: string): (n: nat)
    ensures n <= |s| && AllDigits(s[..n])
    ensures n < |s| ==> !IsDigit(s[n])
  {
    if s == [] || !IsDigit(s[0]) then 0
    else
      var n := LeadDigits(s[1..]);
      assert s[..n + 1] == [s[0]] + s[1..][..n];
      n + 1
  }

  lemma {:induction false} LeadDigitsIs(s: string, n: nat)
    requires n <= |s| && AllDigits(s[..n])
    requires n < |s| ==> !IsDigit(s[n])
    ensures LeadDigits(s) == n
  {
  }

  /**
   std::stod on text made of digits and dots: digits, at most one dot, digits;
   whatever follows is ignored, and no digit at all is invalid_argument.
   */
  function Stod(t: string): Option<real> {
    var whole := LeadDigits(t);
    if whole < |t| && t[whole] == '.' then
      var rest := t[whole + 1..];
      var frac := LeadDigits(rest);
      if whole + frac == 0 then None
      else Some(DecValue(t[..whole]) as real + DecValue(rest[..frac]) as real / Pow10(frac) as real)
    else if whole == 0 then None
    else Some(DecValue(t[..whole]) as real)
  }

  /** Exactly w decimal digits, the last w of n. */
  function Digits(w: nat, n: nat): (s: string)
    ensures |s| == w && AllDigits(s)
  {
    if w == 0 then "" else Digits(w - 1, n / 10) + [DigitChar(n % 10)]
  }

  lemma {:induction false} DigitsValue(w: nat, n: nat)
    requires n < Pow10(w)
    ensures DecValue(Digits(w, n)) == n
  {
    if w > 0 {
      DigitsValue(w - 1, n / 10);
      var s := Digits(w, n);
      assert s[..w - 1] == Digits(w - 1, n / 10);
    }
  }

  /** std::to_string of a natural number. */
  function IntText(n: nat): (s: string)
    ensures |s| > 0 && AllDigits(s)
  {
    if n < 10 then [DigitChar(n)] else IntText(n / 10) + [DigitChar(n % 10)]
  }

  lemma {:induction false} IntTextValue(n: nat)
    ensures DecValue(IntText(n)) == n
  {
    if n >= 10 {
      IntTextValue(n / 10);
      var s := IntText(n);
      assert s[..|s| - 1] == IntText(n / 10);
    } else {
      assert IntText(n)[..0] == [];
    }
  }

  /** Nearest integer, ties to the even one. */
  function Nearest(x: real): (n: nat)
    requires x >= 0.0
    ensures -0.5 <= n as real - x <= 0.5
    ensures n as real - x == 0.5 || n as real - x == -0.5 ==> n % 2 == 0
  {
    var f := x.Floor;
    var d := x - f as real;
    if d < 0.5 || (d == 0.5 && f % 2 == 0) then f else f + 1
  }

  /** n millionths, six digits after the dot. */
  function MicroText(n: nat): string {
    IntText(n / 1000000) + "." + Digits(6, n % 1000000)
  }

  /** What "%f" prints for a magnitude. */
  function MagnitudeText(x: real): string
    requires x >= 0.0
  {
    MicroText(Nearest(x * 1000000.0))
  }

  /** std::to_string(double). */
  function FixedText(x: real): string {
    if x < 0.0 then "-" + MagnitudeText(-x) else MagnitudeText(x)
  }

  lemma {:induction false} StodPoint(whole: string, frac: string)
    requires AllDigits(whole) && AllDigits(frac) && |whole| > 0
    ensures Stod(whole + "." + frac)
         == Some(DecValue(whole) as real + DecValue(frac) as real / Pow10(|frac|) as real)
  {
    var t := whole + "." + frac;
    assert t[..|whole|] == whole && t[|whole| + 1..] == frac && frac[..|frac|] == frac;
    LeadDigitsIs(t, |whole|);
    LeadDigitsIs(frac, |frac|);
  }

  lemma {:induction false} StodInteger(whole: string)
    requires AllDigits(whole) && |whole| > 0
    ensures Stod(whole) == Some(DecValue(whole) as real)
  {
    assert whole[..|whole|] == whole;
    LeadDigitsIs(whole, |whole|);
  }

  lemma {:induction false} SixDecimals(w: string, f: string)
    requires AllDigits(w) && AllDigits(f) && |w| > 0 && |f| == 6
    ensures Stod(w + "." + f) == Some(DecValue(w) as real + DecValue(f) as real / 1000000.0)
  {
    StodPoint(w, f);
    Pow10Six();
  }

  lemma {:induction false} MicroTextValue(n: nat)
    ensures Stod(MicroText(n)) == Some(n as real / 1000000.0)
  {
    var whole, frac := n / 1000000, n % 1000000;
    SixDecimals(IntText(whole), Digits(6, frac));
    IntTextValue(whole);
    Pow10Six();
    DigitsValue(6, frac);
    SplitMicro(n, whole, frac);
  }

  /** Reading back what "%f" printed gives the magnitude rounded to six decimals. */
  lemma {:induction false} MagnitudeTextValue(x: real)
    requires x >= 0.0
    ensures exists v :: Stod(MagnitudeText(x)) == Some(v) && -0.0000005 <= v - x <= 0.0000005
  {
    var n := Nearest(x * 1000000.0);
    MicroTextValue(n);
    NearMicro(n as real, x);
  }

  /** A whole number is printed and read back without loss. */
  lemma {:induction false} WholeTextValue(n: nat)
    ensures Stod(MagnitudeText(n as real)) == Some(n as real)
  {
    var m := n * 1000000;
    assert n as real * 1000000.0 == m as real;
    MicroTextValue(m);
    assert m as real / 1000000.0 == n as real;
  }

  /** No leading zero. */
  lemma {:induction false} IntTextLead(n: nat)
    ensures IntText(n)[0] == '0' ==> n == 0
    ensures n == 0 ==> IntText(n) == "0"
  {
    if n >= 10 {
      IntTextLead(n / 10);
      assert IntText(n)[0] == IntText(n / 10)[0];
    }
  }

  /** A sign for negative values only, a whole part without leading zeros, a dot and six digits. */
  lemma {:induction false} FixedTextShape(x: real)
    ensures exists n: nat, frac ::
              && |frac| == 6 && AllDigits(frac)
              && FixedText(x) == (if x < 0.0 then "-" else "") + (IntText(n) + "." + frac)
  {
    var m := Nearest((if x < 0.0 then -x else x) * 1000000.0);
    var n, frac := m / 1000000, Digits(6, m % 1000000);
    assert FixedText(x) == (if x < 0.0 then "-" else "") + (IntText(n) + "." + frac);
  }

  lemma Pow10Six()
    ensures Pow10(6) == 1000000
  {
    assert Pow10(3) == 1000;
  }

  lemma SplitMicro(n: nat, whole: nat, frac: nat)
    requires n == 1000000 * whole + frac
    ensures whole as real + frac as real / 1000000.0 == n as real / 1000000.0
  {
    var w, f := whole as real, frac as real;
    assert n as real == 1000000.0 * w + f;
    assert n as real / 1000000.0 == 1000000.0 * w / 1000000.0 + f / 1000000.0;
  }

  lemma NearMicro(n: real, x: real)
    requires -0.5 <= n - x * 1000000.0 <= 0.5
    ensures -0.0000005 <= n / 1000000.0 - x <= 0.0000005
  {
    var y := n / 1000000.0;
    assert n == y * 1000000.0;
  }

  /** Leading blanks std::stoi skips. */
  predicate IsSpace(c: char) {
    c == ' ' || '\U{0009}' <= c <= '\U{000D}'
  }

  function Spaces(s: string): (n: nat)
    ensures n <= |s|
  {
    if s == [] || !IsSpace(s[0]) then 0 else 1 + Spaces(s[1..])
  }

  const INT_LIMIT: nat := 0x8000_0000

  /** std::stoi: blanks, an optional sign, digits; None stands for its exceptions. */
  function Stoi(s: string): Option<int> {
    var t := s[Spaces(s)..];
    var signed := t != [] && (t[0] == '-' || t[0] == '+');
    var u := if signed then t[1..] else t;
    var n := LeadDigits(u);
    var v := DecValue(u[..n]);
    if n == 0 then None
    else
      var r := if signed && t[0] == '-' then 0 - v else v;
      if 0 - INT_LIMIT <= r < INT_LIMIT then Some(r) else None
  }

  lemma {:induction false} StoiText(n: nat)
    requires n < INT_LIMIT
    ensures Stoi(IntText(n)) == Some(n)
  {
    var s := IntText(n);
    IntTextValue(n);
    assert s[Spaces(s)..] == s;
    assert s[..|s|] == s;
    LeadDigitsIs(s, |s|);
  }
}
