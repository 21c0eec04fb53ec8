/**
 * Python's `decimal.Decimal` restricted to what the sales report uses: finite values with a
 * non-positive exponent, exact addition, multiplication by an integer quantity, `str()`,
 * and the fixed-point `:.2f` format with the default ROUND_HALF_EVEN rounding.
 */
module Decimals {
  import opened Wrappers

  /** `Decimal` with coefficient `coefficient` and exponent `-places`: value = coefficient / 10^places. */
  datatype Decimal = Decimal(coefficient: int, places: nat)

  function Pow10(n: nat): (r: nat)
    ensures r >= 1
  {
    if n == 0 then 1 else 10 * Pow10(n - 1)
  }

  lemma {:induction false} Pow10Add(a: nat, b: nat)
    ensures Pow10(a + b) == Pow10(a) * Pow10(b)
  {
    if a > 0 {
      Pow10Add(a - 1, b);
      assert Pow10(a + b) == 10 * Pow10(a - 1 + b);
    }
  }

  function Max(a: nat, b: nat): nat { if a < b then b else a }

  function Abs(x: int): nat { if x < 0 then -x else x }

  /** The mathematical value of a decimal. */
  ghost function Value(d: Decimal): real {
    d.coefficient as real / Pow10(d.places) as real
  }

  /** The coefficient of `d` rewritten with `p` fractional digits (no rounding: `p >= d.places`). */
  function Scaled(d: Decimal, p: nat): int
    requires d.places <= p
  {
    d.coefficient * Pow10(p - d.places)
  }

  lemma MulToReal(a: int, b: int)
    ensures (a * b) as real == a as real * b as real
  {
  }

  lemma CancelFactor(c: real, q: real, k: real)
    requires q > 0.0 && k > 0.0
    ensures (c * k) / (q * k) == c / q
  {
  }

  lemma ScaledValue(d: Decimal, p: nat)
    requires d.places <= p
    ensures Value(Decimal(Scaled(d, p), p)) == Value(d)
  {
    var k := Pow10(p - d.places);
    var q := Pow10(d.places);
    var c := d.coefficient;
    Pow10Add(d.places, p - d.places);
    MulToReal(q, k);
    MulToReal(c, k);
    CancelFactor(c as real, q as real, k as real);
    assert Value(Decimal(Scaled(d, p), p)) == (c as real * k as real) / (q as real * k as real);
  }

  lemma SplitSum(x: int, y: int, q: nat)
    requires q >= 1
    ensures (x + y) as real / q as real == x as real / q as real + y as real / q as real
  {
  }

  /** Exact `a + b`: Python aligns both operands to the smaller exponent, so no digit is lost. */
  function Add(a: Decimal, b: Decimal): (r: Decimal)
    ensures r.places == Max(a.places, b.places)
    ensures Value(r) == Value(a) + Value(b)
  {
    var p := Max(a.places, b.places);
    var sa, sb := Scaled(a, p), Scaled(b, p);
    ScaledValue(a, p);
    ScaledValue(b, p);
    SplitSum(sa, sb, Pow10(p));
    Decimal(sa + sb, p)
  }

  /** `d * Decimal(n)` for an integer `n`: exponent 0 on the right keeps the exponent of `d`. */
  function MulInt(d: Decimal, n: int): (r: Decimal)
    ensures r.places == d.places
    ensures Value(r) == Value(d) * n as real
  {
    var c, q := d.coefficient as real, Pow10(d.places) as real;
    assert (c * n as real) / q == (c / q) * n as real;
    Decimal(d.coefficient * n, d.places)
  }

  lemma Regroup(x: int, y: int, ka: int, kb: int, k: int)
    ensures (x * ka + y * kb) * k == x * (ka * k) + y * (kb * k)
  {
  }

  /** Three additions in either order share one normal form. */
  lemma AddNormal3(a: Decimal, b: Decimal, c: Decimal)
    ensures var p := Max(Max(a.places, b.places), c.places);
            Add(Add(a, b), c) == Decimal(Scaled(a, p) + Scaled(b, p) + Scaled(c, p), p)
  {
    var q := Max(a.places, b.places);
    var p := Max(q, c.places);
    Pow10Add(q - a.places, p - q);
    Pow10Add(q - b.places, p - q);
    var ka, kb, k := Pow10(q - a.places), Pow10(q - b.places), Pow10(p - q);
    var ab := Add(a, b);
    assert ab.coefficient == a.coefficient * ka + b.coefficient * kb;
    assert Add(ab, c).coefficient == ab.coefficient * k + Scaled(c, p);
    Regroup(a.coefficient, b.coefficient, ka, kb, k);
    assert Scaled(a, p) == a.coefficient * (ka * k);
    assert Scaled(b, p) == b.coefficient * (kb * k);
  }

  /** Adding `x` then `y` to a running total gives the same total as adding `y` then `x`. */
  lemma AddSwap(r: Decimal, x: Decimal, y: Decimal)
    ensures Add(Add(r, x), y) == Add(Add(r, y), x)
  {
    AddNormal3(r, x, y);
    AddNormal3(r, y, x);
  }

  // ---------------------------------------------------------------------------------------
  // Digits

  predicate IsDigit(c: char) { '0' <= c <= '9' }

  function DigitChar(n: nat): (c: char)
    requires n < 10
    ensures IsDigit(c)
  {
    ('0' as int + n) as char
  }

  function DigitValue(c: char): nat {
    if IsDigit(c) then c as int - '0' as int else 0
  }

  predicate AllDigits(s: string) { forall i :: 0 <= i < |s| ==> IsDigit(s[i]) }

  /** Decimal digits of `n` without leading zeros (`"0"` for zero). */
  function NatToDigits(n: nat): (s: string)
    ensures |s| >= 1 && AllDigits(s)
    decreases n
  {
    if n < 10 then [DigitChar(n)] else NatToDigits(n / 10) + [DigitChar(n % 10)]
  }

  /** The number a string of decimal digits denotes (Python's `int()` on such a string). */
  function DigitsToNat(s: string): nat {
    if s == [] then 0 else 10 * DigitsToNat(s[..|s| - 1]) + DigitValue(s[|s| - 1])
  }

  lemma {:induction false} NatToDigitsRoundTrip(n: nat)
    ensures DigitsToNat(NatToDigits(n)) == n
    decreases n
  {
    var s := NatToDigits(n);
    if n >= 10 {
      NatToDigitsRoundTrip(n / 10);
      assert s[..|s| - 1] == NatToDigits(n / 10);
    }
  }

  /** Exactly `width` digits: `n` zero-padded on the left (the low digits of `n`). */
  function FixedDigits(n: nat, width: nat): (s: string)
    ensures |s| == width && AllDigits(s)
  {
    if width == 0 then [] else FixedDigits(n / 10, width - 1) + [DigitChar(n % 10)]
  }

  lemma {:induction false} FixedDigitsRoundTrip(n: nat, width: nat)
    requires n < Pow10(width)
    ensures DigitsToNat(FixedDigits(n, width)) == n
  {
    if width > 0 {
      var s := FixedDigits(n, width);
      FixedDigitsRoundTrip(n / 10, width - 1);
      assert s[..|s| - 1] == FixedDigits(n / 10, width - 1);
    }
  }

  // ---------------------------------------------------------------------------------------
  // Rendering

  /** Plain notation: optional `-`, integer digits, and exactly `places` digits after a `.`. */
  function PlainString(negative: bool, magnitude: nat, places: nat): (r: string)
    ensures |r| > 0 && (r[0] == '-' <==> negative)
    ensures places > 0 ==> |r| > places && r[|r| - places - 1] == '.' && AllDigits(r[|r| - places..])
  {
    var (w, f) := SplitPoint(magnitude, places);
    var sign: string, whole := if negative then "-" else "", NatToDigits(w);
    var tail: string := if places == 0 then "" else "." + FixedDigits(f, places);
    assert whole[0] != '-';
    assert places > 0 ==> (sign + whole + tail)[|sign + whole|..] == tail;
    sign + whole + tail
  }

  /** The integer part and the fractional digits of `magnitude / 10^places`. */
  function SplitPoint(magnitude: nat, places: nat): (r: (nat, nat))
    ensures r.0 * Pow10(places) + r.1 == magnitude && r.1 < Pow10(places)
  {
    DivMod(magnitude, Pow10(places));
    (magnitude / Pow10(places), magnitude % Pow10(places))
  }

  lemma DivMod(a: nat, b: nat)
    requires b >= 1
    ensures a / b >= 0 && a == (a / b) * b + a % b && 0 <= a % b < b
  {
  }

  /** True when CPython's `Decimal.__str__` writes `d` in plain (not scientific) notation. */
  predicate IsPlain(d: Decimal) {
    d.places < |NatToDigits(Abs(d.coefficient))| + 6
  }

  /**
   * `str(d)`: plain notation while the leading digit sits less than six places right of the
   * point, otherwise `<digit>[.<digits>]E-<n>`.
   */
  function ToString(d: Decimal): (r: string)
    ensures |r| > 0 && (r[0] == '-' <==> d.coefficient < 0)
  {
    var digits := NatToDigits(Abs(d.coefficient));
    if IsPlain(d) then PlainString(d.coefficient < 0, Abs(d.coefficient), d.places)
    else
      (if d.coefficient < 0 then "-" else "") + digits[..1]
      + (if |digits| > 1 then "." + digits[1..] else "")
      + "E-" + NatToDigits(d.places + 1 - |digits|)
  }

  /** `c / m` rounded to the nearest integer, ties to the even one. */
  function RoundHalfEven(c: int, m: nat): int
    requires m >= 1
  {
    var lo, rem := c / m, c % m;
    if 2 * rem > m || (2 * rem == m && lo % 2 == 1) then lo + 1 else lo
  }

  lemma RoundHalfEvenNearest(c: int, m: nat)
    requires m >= 1
    ensures var r := RoundHalfEven(c, m);
      && 2 * Abs(r * m - c) <= m
      && (2 * Abs(r * m - c) == m ==> r % 2 == 0)
      && (c >= 0 ==> r >= 0)
      && (c < 0 ==> r <= 0)
  {
    var lo, rem := c / m, c % m;
    assert c == lo * m + rem;
    assert (lo + 1) * m == lo * m + m;
    assert c < 0 ==> lo < 0;
    assert c >= 0 ==> lo >= 0;
  }

  /**
   * The coefficient of `d` quantized to `q` fractional digits under ROUND_HALF_EVEN (the
   * default context rounding): the nearest multiple, ties going to the even neighbour.
   */
  function RoundedCoefficient(d: Decimal, q: nat): (r: int)
    ensures d.places <= q ==> Value(Decimal(r, q)) == Value(d)
    ensures d.places > q ==>
      2 * Abs(r * Pow10(d.places - q) - d.coefficient) <= Pow10(d.places - q)
    ensures d.places > q && 2 * Abs(r * Pow10(d.places - q) - d.coefficient) == Pow10(d.places - q)
      ==> r % 2 == 0
    ensures d.coefficient >= 0 ==> r >= 0
    ensures d.coefficient < 0 ==> r <= 0
  {
    if d.places <= q then
      ScaledValue(d, q);
      assert d.coefficient >= 0 ==> Scaled(d, q) >= 0;
      assert d.coefficient < 0 ==> Scaled(d, q) < 0;
      Scaled(d, q)
    else
      RoundHalfEvenNearest(d.coefficient, Pow10(d.places - q));
      RoundHalfEven(d.coefficient, Pow10(d.places - q))
  }

  /** `format(d, ".<q>f")`: rounded to `q` places; the sign is that of `d` itself. */
  function FormatFixed(d: Decimal, q: nat): (r: string)
    ensures |r| > 0 && (r[0] == '-' <==> d.coefficient < 0)
    ensures q > 0 ==> |r| > q && r[|r| - q - 1] == '.' && AllDigits(r[|r| - q..])
  {
    PlainString(d.coefficient < 0, Abs(RoundedCoefficient(d, q)), q)
  }

  /** A character `PlainString` can emit: a digit, the sign or the point. */
  predicate NumericChar(c: char) { IsDigit(c) || c == '-' || c == '.' }

  lemma FormatFixedIsNumeric(d: Decimal, q: nat)
    ensures forall i :: 0 <= i < |FormatFixed(d, q)| ==> NumericChar(FormatFixed(d, q)[i])
  {
    var (w, f) := SplitPoint(Abs(RoundedCoefficient(d, q)), q);
    var sign: string := if d.coefficient < 0 then "-" else "";
    var tail: string := if q == 0 then "" else "." + FixedDigits(f, q);
    var s := sign + NatToDigits(w) + tail;
    assert FormatFixed(d, q) == s;
    forall i | 0 <= i < |s| ensures NumericChar(s[i]) {
      if i < |sign| {
      } else if i < |sign| + |NatToDigits(w)| {
        assert s[i] == NatToDigits(w)[i - |sign|];
      } else {
        assert s[i] == tail[i - |sign| - |NatToDigits(w)|];
      }
    }
  }

  // ---------------------------------------------------------------------------------------
  // Reading back

  /** Index of the first `.` in `s`, or `|s|` when there is none. */
  function DotIndex(s: string): (k: nat)
    ensures k <= |s|
    ensures forall i :: 0 <= i < k ==> s[i] != '.'
    ensures k < |s| ==> s[k] == '.'
  {
    if s == [] then 0 else if s[0] == '.' then 0 else 1 + DotIndex(s[1..])
  }

  /** Reads an unsigned plain literal `<digits>[.<digits>]`, keeping its number of places. */
  function ParseUnsigned(s: string): Option<Decimal> {
    var k := DotIndex(s);
    var whole, frac := s[..k], if k < |s| then s[k + 1..] else "";
    if whole == [] || !AllDigits(whole) || !AllDigits(frac) || (k < |s| && frac == []) then None
    else Some(Assemble(whole, frac))
  }

  /** The decimal whose integer digits are `whole` and whose fractional digits are `frac`. */
  function Assemble(whole: string, frac: string): Decimal {
    Decimal(DigitsToNat(whole) * Pow10(|frac|) + DigitsToNat(frac), |frac|)
  }

  /** Reads a plain decimal literal `[-]<digits>[.<digits>]`, as `Decimal(s)` does for such text. */
  function ParsePlain(s: string): Option<Decimal> {
    if |s| > 0 && s[0] == '-' then
      match ParseUnsigned(s[1..])
      case Some(u) => Some(Decimal(-u.coefficient, u.places))
      case None => None
    else ParseUnsigned(s)
  }

  lemma {:induction false} DotIndexAfterDigits(a: string, b: string)
    requires AllDigits(a)
    ensures DotIndex(a + b) == |a| + DotIndex(b)
  {
    if a != [] {
      assert (a + b)[0] == a[0] && IsDigit(a[0]);
      assert (a + b)[1..] == a[1..] + b;
      DotIndexAfterDigits(a[1..], b);
      assert DotIndex(a + b) == 1 + DotIndex((a + b)[1..]);
    } else {
      assert a + b == b;
    }
  }

  /** The unsigned literal `<whole>[.<frac>]` reads back digit for digit. */
  lemma UnsignedParts(whole: string, frac: string, dotted: bool)
    requires whole != [] && AllDigits(whole) && AllDigits(frac)
    requires dotted <==> frac != []
    ensures var s := if dotted then whole + "." + frac else whole;
      ParseUnsigned(s) == Some(Assemble(whole, frac))
  {
    var s := if dotted then whole + "." + frac else whole;
    if dotted {
      var tail := "." + frac;
      assert s == whole + tail;
      DotIndexAfterDigits(whole, tail);
      assert DotIndex(s) == |whole|;
      assert s[..|whole|] == whole;
      assert s[|whole| + 1..] == frac;
    } else {
      assert s == whole + "";
      DotIndexAfterDigits(whole, "");
      assert s[..|s|] == whole;
    }
  }

  /** The unsigned plain text, as its integer digits and its fractional digits. */
  lemma PlainStringParts(magnitude: nat, places: nat)
    ensures var w, f := SplitPoint(magnitude, places).0, SplitPoint(magnitude, places).1;
      PlainString(false, magnitude, places)
        == if places > 0 then NatToDigits(w) + "." + FixedDigits(f, places) else NatToDigits(w)
  {
  }

  lemma AssembleParts(whole: string, frac: string, magnitude: nat)
    requires DigitsToNat(whole) * Pow10(|frac|) + DigitsToNat(frac) == magnitude
    ensures Assemble(whole, frac) == Decimal(magnitude, |frac|)
  {
  }

  lemma PlainUnsignedReadsBack(magnitude: nat, places: nat)
    ensures ParseUnsigned(PlainString(false, magnitude, places)) == Some(Decimal(magnitude, places))
  {
    var w, f := SplitPoint(magnitude, places).0, SplitPoint(magnitude, places).1;
    var whole, frac := NatToDigits(w), FixedDigits(f, places);
    NatToDigitsRoundTrip(w);
    FixedDigitsRoundTrip(f, places);
    UnsignedParts(whole, frac, places > 0);
    AssembleParts(whole, frac, magnitude);
    PlainStringParts(magnitude, places);
  }

  /** A leading `-` is read as the sign of the unsigned text after it. */
  lemma NegatedReadsBack(u: string, magnitude: nat, places: nat)
    requires ParseUnsigned(u) == Some(Decimal(magnitude, places))
    ensures ParsePlain("-" + u) == Some(Decimal(-(magnitude as int), places))
  {
    assert ("-" + u)[1..] == u;
  }

  /** Text that starts with a digit is read unsigned. */
  lemma UnsignedReadsAsIs(u: string)
    requires |u| > 0 && IsDigit(u[0])
    ensures ParsePlain(u) == ParseUnsigned(u)
  {
  }

  lemma PlainReadsBack(negative: bool, magnitude: nat, places: nat)
    requires negative ==> magnitude > 0
    ensures var c: int := if negative then -(magnitude as int) else magnitude;
      ParsePlain(PlainString(negative, magnitude, places)) == Some(Decimal(c, places))
  {
    PlainUnsignedReadsBack(magnitude, places);
    var u := PlainString(false, magnitude, places);
    if negative {
      assert PlainString(negative, magnitude, places) == "-" + u;
      NegatedReadsBack(u, magnitude, places);
    } else {
      PlainStringParts(magnitude, places);
      UnsignedReadsAsIs(u);
    }
  }

  /** `Decimal(str(d)) == d`, with the same exponent, whenever `str` uses plain notation. */
  lemma ToStringRoundTrip(d: Decimal)
    requires IsPlain(d)
    ensures ParsePlain(ToString(d)) == Some(d)
  {
    PlainReadsBack(d.coefficient < 0, Abs(d.coefficient), d.places);
  }

  /** A signed coefficient printed as sign and magnitude reads back, also as `-0`. */
  lemma SignedReadsBack(negative: bool, r: int, q: nat)
    requires negative ==> r <= 0
    requires !negative ==> r >= 0
    ensures ParsePlain(PlainString(negative, Abs(r), q)) == Some(Decimal(r, q))
  {
    if negative && r == 0 {
      var u := PlainString(false, 0, q);
      PlainUnsignedReadsBack(0, q);
      assert PlainString(negative, 0, q) == "-" + u;
      NegatedReadsBack(u, 0, q);
    } else {
      PlainReadsBack(negative, Abs(r), q);
    }
  }

  /**
   * The text of `format(d, ".<q>f")` reads back as the quantized value with exactly `q`
   * places (CPython prints a negative value that rounds to zero as `-0.00`; it reads back as 0).
   */
  lemma FormatFixedReadsBack(d: Decimal, q: nat)
    ensures ParsePlain(FormatFixed(d, q)) == Some(Decimal(RoundedCoefficient(d, q), q))
  {
    var r := RoundedCoefficient(d, q);
    SignedReadsBack(d.coefficient < 0, r, q);
  }
}
