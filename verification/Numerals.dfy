/** How JavaScript prints a non-negative integer (`Number::toString` of ECMA-262): decimal digits below
    1e21, an exponent from there on. An integer double is taken as the integer that its shortest decimal
    text denotes. */
module Numerals {
  import opened JsText

  const ZERO: CodeUnit := 0x30
  const DOT: CodeUnit := 0x2E
  const PLUS: CodeUnit := 0x2B
  const EXPONENT: CodeUnit := 0x65
  const FIRST_WITH_EXPONENT: nat := 1_000_000_000_000_000_000_000

  predicate IsDigit(u: CodeUnit) { 0x30 <= u < 0x3A }

  function Decimal(n: nat): (digits: Text)
    ensures digits != [] && forall i :: 0 <= i < |digits| ==> IsDigit(digits[i])
  {
    if n < 10 then [ZERO + n] else Decimal(n / 10) + [ZERO + n % 10]
  }

  /** The digits without the zeros at the end. */
  function Significant(digits: Text): (d: Text)
    requires digits != []
    ensures 0 < |d| <= |digits| && d == digits[..|d|]
  {
    if |digits| == 1 || digits[|digits| - 1] != ZERO then digits else Significant(digits[..|digits| - 1])
  }

  function Mantissa(d: Text): Text
    requires d != []
  {
    if |d| == 1 then d else [d[0], DOT] + d[1..]
  }

  function Exponential(digits: Text): Text
    requires digits != []
  {
    Mantissa(Significant(digits)) + ([EXPONENT] + ([PLUS] + Decimal(|digits| - 1)))
  }

  function Numeral(n: nat): Text {
    if n < FIRST_WITH_EXPONENT then Decimal(n) else Exponential(Decimal(n))
  }

  // ---------- reading back ----------

  function DecimalValue(digits: Text): int {
    if digits == [] then 0 else DecimalValue(digits[..|digits| - 1]) * 10 + (digits[|digits| - 1] as int - 0x30)
  }

  lemma {:induction false} DecimalReadsBack(n: nat)
    ensures DecimalValue(Decimal(n)) == n
  {
    var d := Decimal(n);
    if n < 10 {
      assert d[..|d| - 1] == [];
    } else {
      DecimalReadsBack(n / 10);
      assert d[..|d| - 1] == Decimal(n / 10);
    }
  }

  lemma DecimalIsInjective(m: nat, n: nat)
    requires Decimal(m) == Decimal(n)
    ensures m == n
  {
    DecimalReadsBack(m);
    DecimalReadsBack(n);
  }

  // ---------- separators ----------

  lemma Cancel(a: Text, b: Text, x: Text, y: Text)
    requires a + x == b + y && |a| == |b|
    ensures a == b && x == y
  {
    assert (a + x)[..|a|] == a && (b + y)[..|b|] == b;
    assert (a + x)[|a|..] == x && (b + y)[|b|..] == y;
  }

  lemma NotLonger(sep: CodeUnit, a: Text, b: Text, r: Text, s: Text)
    requires sep !in b && a + ([sep] + r) == b + s
    ensures |b| <= |a|
  {
    var t := a + ([sep] + r);
    assert t[|a|] == sep;
    assert forall i :: 0 <= i < |b| ==> t[i] == b[i];
  }

  /** A separator is where the part without it ends. */
  lemma SplitAt(sep: CodeUnit, a: Text, b: Text, r: Text, s: Text)
    requires sep !in a && sep !in b && a + ([sep] + r) == b + ([sep] + s)
    ensures a == b && r == s
  {
    NotLonger(sep, a, b, r, [sep] + s);
    NotLonger(sep, b, a, s, [sep] + r);
    Cancel(a, b, [sep] + r, [sep] + s);
    Cancel([sep], [sep], r, s);
  }

  // ---------- numerals are injective ----------

  lemma {:induction false} RestIsZeros(digits: Text, i: nat)
    requires digits != [] && |Significant(digits)| <= i < |digits|
    ensures digits[i] == ZERO
  {
    if i < |digits| - 1 { RestIsZeros(digits[..|digits| - 1], i); }
  }

  lemma SignificantFixesDigits(c: Text, d: Text)
    requires c != [] && d != [] && |c| == |d| && Significant(c) == Significant(d)
    ensures c == d
  {
    forall i | 0 <= i < |c| ensures c[i] == d[i] {
      if i < |Significant(c)| {
        assert c[i] == Significant(c)[i] == d[i];
      } else {
        RestIsZeros(c, i);
        RestIsZeros(d, i);
      }
    }
  }

  lemma MantissaIsInjective(c: Text, d: Text)
    requires c != [] && d != [] && Mantissa(c) == Mantissa(d)
    ensures c == d
  {
    var m, n := Mantissa(c), Mantissa(d);
    if |c| > 1 {
      assert m[2..] == c[1..] && n[2..] == d[1..];
      assert c == [m[0]] + m[2..] && d == [n[0]] + n[2..];
    }
  }

  lemma MantissaHasNoExponent(n: nat)
    ensures EXPONENT !in Mantissa(Significant(Decimal(n)))
  {
    var d := Significant(Decimal(n));
    assert forall i :: 0 <= i < |d| ==> d[i] == Decimal(n)[i] && IsDigit(d[i]);
  }

  lemma ExponentialParts(c: Text, d: Text, m: Text, n: Text, p: Text, q: Text)
    requires c == m + ([EXPONENT] + ([PLUS] + p)) && d == n + ([EXPONENT] + ([PLUS] + q)) && c == d
    requires EXPONENT !in m && EXPONENT !in n
    ensures m == n && p == q
  {
    SplitAt(EXPONENT, m, n, [PLUS] + p, [PLUS] + q);
    Cancel([PLUS], [PLUS], p, q);
  }

  lemma {:induction false} ExponentialIsInjective(m: nat, n: nat)
    requires Exponential(Decimal(m)) == Exponential(Decimal(n))
    ensures m == n
  {
    hide Decimal, Mantissa, Significant;
    var c, d := Decimal(m), Decimal(n);
    MantissaHasNoExponent(m);
    MantissaHasNoExponent(n);
    ExponentialParts(Exponential(c), Exponential(d), Mantissa(Significant(c)), Mantissa(Significant(d)),
                     Decimal(|c| - 1), Decimal(|d| - 1));
    DecimalIsInjective(|c| - 1, |d| - 1);
    MantissaIsInjective(Significant(c), Significant(d));
    SignificantFixesDigits(c, d);
    DecimalIsInjective(m, n);
  }

  lemma ExponentTells(n: nat)
    ensures EXPONENT in Exponential(Decimal(n)) && EXPONENT !in Decimal(n)
  {
    var m := Mantissa(Significant(Decimal(n)));
    assert Exponential(Decimal(n))[|m|] == EXPONENT;
  }

  /** Different integers are printed differently, however large they are. */
  lemma NumeralIsInjective(m: nat, n: nat)
    requires Numeral(m) == Numeral(n)
    ensures m == n
  {
    ExponentTells(m);
    ExponentTells(n);
    if m < FIRST_WITH_EXPONENT {
      DecimalIsInjective(m, n);
    } else {
      ExponentialIsInjective(m, n);
    }
  }

  predicate IsNumeralUnit(u: CodeUnit) {
    IsDigit(u) || u == DOT || u == PLUS || u == EXPONENT
  }

  lemma NumeralUnits(n: nat)
    ensures var t := Numeral(n);
      t != [] && IsDigit(t[0]) && forall i :: 0 <= i < |t| ==> IsNumeralUnit(t[i])
  {
    var d := Significant(Decimal(n));
    assert forall i :: 0 <= i < |d| ==> d[i] == Decimal(n)[i];
    assert forall i :: 0 <= i < |Mantissa(d)| ==> IsNumeralUnit(Mantissa(d)[i]);
    assert Mantissa(d)[0] == d[0];
  }

  /** An exponent is printed from 1e21 on, and below it the plain digits. */
  lemma ExponentFrom(n: nat)
    ensures EXPONENT in Numeral(n) <==> n >= 1_000_000_000_000_000_000_000
    ensures n < 1_000_000_000_000_000_000_000 ==>
              DecimalValue(Numeral(n)) == n && forall i :: 0 <= i < |Numeral(n)| ==> IsDigit(Numeral(n)[i])
  {
    ExponentTells(n);
    DecimalReadsBack(n);
  }
}
