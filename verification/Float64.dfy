/** What a decoder that stores numbers as float64 can tell about a literal: whether it overflows and whether it is zero.
    Rounding inside the range is not modelled. */
module Float64 {
  import opened Outcomes
  import opened JsonText

  function Power(base: int, n: nat): int {
    if n == 0 then 1 else base * Power(base, n - 1)
  }

  /** The magnitude of a literal, exactly. */
  function Magnitude(n: Number): real
    requires forall c | c in n.whole + n.frac :: IsDigit(c)
  {
    var digits := DigitsValue(n.whole + n.frac) as real;
    var e := n.exp - |n.frac|;
    PowerPositive(10, if e < 0 then -e else e);
    if e >= 0 then digits * Power(10, e) as real else digits / Power(10, -e) as real
  }

  /** From this magnitude on, rounding to nearest even gives an infinity (2^1024 - 2^970). */
  function OverflowEdge(): real { (Power(2, 1024) - Power(2, 970)) as real }

  /** Up to this magnitude, rounding to nearest even gives zero (2^-1075). */
  function UnderflowEdge(): real {
    PowerPositive(2, 1075);
    1.0 / Power(2, 1075) as real
  }

  /** The literal converts without an error. */
  predicate Fits(lit: string) {
    match ReadNumber(lit)
    case None => false
    case Some(n) => Magnitude(n) < OverflowEdge()
  }

  predicate IsZero(lit: string) {
    match ReadNumber(lit)
    case None => false
    case Some(n) => Magnitude(n) <= UnderflowEdge()
  }

  lemma {:induction false} PowerPositive(base: int, n: nat)
    requires base >= 1
    ensures Power(base, n) >= 1
  {
    if n > 0 {
      PowerPositive(base, n - 1);
    }
  }

  lemma {:induction false} PowerAdds(base: int, m: nat, n: nat)
    ensures Power(base, m + n) == Power(base, m) * Power(base, n)
  {
    if m > 0 {
      PowerAdds(base, m - 1, n);
      assert Power(base, m + n) == base * Power(base, m - 1 + n);
      Associates(base, Power(base, m - 1), Power(base, n));
    }
  }

  lemma Associates(a: int, b: int, c: int)
    ensures a * (b * c) == (a * b) * c
  {
  }

  lemma {:induction false} PowerMonotone(base: int, m: nat, n: nat)
    requires base >= 1 && m <= n
    ensures Power(base, m) <= Power(base, n)
  {
    if m < n {
      PowerMonotone(base, m, n - 1);
      PowerPositive(base, n - 1);
      Scales(base, Power(base, n - 1));
    }
  }

  lemma Scales(base: int, x: int)
    requires base >= 1 && x >= 0
    ensures base * x >= x
  {
  }

  lemma Power64()
    ensures Power(2, 64) == 0x1_0000_0000_0000_0000
  {
    assert Power(2, 4) == 16;
    PowerAdds(2, 4, 4);
    PowerAdds(2, 8, 8);
    PowerAdds(2, 16, 16);
    PowerAdds(2, 32, 32);
  }

  lemma EdgesApart()
    ensures OverflowEdge() >= 0x1_0000_0000_0000_0000 as real
    ensures 0.0 < UnderflowEdge() < 1.0
  {
    Power64();
    PowerMonotone(2, 64, 970);
    PowerMonotone(2, 971, 1024);
    assert Power(2, 971) == 2 * Power(2, 970);
    PowerMonotone(2, 64, 1075);
    Reciprocal(Power(2, 1075) as real);
  }

  lemma Reciprocal(x: real)
    requires x > 1.0
    ensures 0.0 < 1.0 / x < 1.0
  {
  }

  lemma IntMagnitude(n: int)
    ensures
      var lit := ReadNumber(IntLiteral(n));
      && lit.Some?
      && Magnitude(lit.value) == (if n < 0 then -n else n) as real
  {
    var size := if n < 0 then -n else n;
    IntLiteralReads(n);
    NatLiteralValue(size);
    assert NatLiteral(size) + "" == NatLiteral(size);
  }

  /** 64-bit integers convert, and only zero becomes zero. */
  lemma IntegersConvert(n: int)
    requires -0x8000_0000_0000_0000 <= n < 0x8000_0000_0000_0000
    ensures Fits(IntLiteral(n)) && (IsZero(IntLiteral(n)) <==> n == 0)
  {
    IntMagnitude(n);
    EdgesApart();
  }

  lemma {:induction false} TenBeatsEight(k: nat)
    ensures Power(2, 3 * k) <= Power(10, k)
  {
    if k > 0 {
      TenBeatsEight(k - 1);
      PowerAdds(2, 3, 3 * (k - 1));
      assert Power(2, 3) == 8;
      PowerPositive(10, k - 1);
    }
  }

  lemma Digits400()
    ensures DigitRun("400") == 3 && DigitsValue("400") == 400
    ensures ReadExponent("e400") == Some(400)
  {
    assert "400"[..2] == "40" && "40"[..1] == "4" && "4"[..0] == "";
    assert DigitsValue("4") == 4 && DigitsValue("40") == 40;
    assert "400"[1..] == "00" && "00"[1..] == "0" && "0"[1..] == "";
    assert DigitRun("0") == 1 && DigitRun("00") == 2;
    assert "e400"[1..] == "400";
  }

  lemma HugeLiteralReads()
    ensures ReadNumber("1e400") == Some(Number(false, "1", "", 400))
  {
    var lit := "1e400";
    Digits400();
    assert lit[1..] == "e400" && lit[..1] == "1";
    assert DigitRun("e400") == 0;
    assert DigitRun(lit) == 1;
  }

  /** 1e400 is a number of the grammar that float64 cannot hold. */
  lemma HugeLiteral()
    ensures IsNumber("1e400") && !Fits("1e400")
  {
    HugeLiteralReads();
    assert "1" + "" == "1" && "1"[..0] == "";
    assert DigitsValue("1") == 1;
    assert Magnitude(Number(false, "1", "", 400)) == Power(10, 400) as real;
    TenBeatsEight(400);
    PowerMonotone(2, 1024, 1200);
    PowerPositive(2, 970);
  }

  /** The edges, in terms of the format: from halfway between the largest finite number, of 53 significant bits, and
      the next power of two, rounding gives an infinity; up to half of the smallest positive number, 2^-1074, zero. */
  lemma Edges()
    ensures 2.0 * OverflowEdge() == ((Power(2, 53) - 1) * Power(2, 971) + Power(2, 1024)) as real
    ensures 2.0 * UnderflowEdge() * Power(2, 1074) as real == 1.0
  {
    UpperEdge(53, 971);
    LowerEdge(1074);
  }

  lemma UpperEdge(mantissa: nat, scale: nat)
    requires mantissa == 53 && scale == 971
    ensures 2.0 * OverflowEdge() == ((Power(2, mantissa) - 1) * Power(2, scale) + Power(2, mantissa + scale)) as real
  {
    PowerAdds(2, mantissa, scale);
    PowerAdds(2, 1, scale - 1);
    assert Power(2, 1) == 2 * Power(2, 0) == 2;
    Halves(Power(2, mantissa + scale), Power(2, scale), Power(2, scale - 1), Power(2, mantissa));
  }

  lemma LowerEdge(n: nat)
    requires n == 1074
    ensures 2.0 * UnderflowEdge() * Power(2, n) as real == 1.0
  {
    PowerAdds(2, 1, n);
    assert Power(2, 1) == 2 * Power(2, 0) == 2;
    PowerPositive(2, n);
    PowerPositive(2, n + 1);
    HalfOf(Power(2, n + 1) as real, Power(2, n) as real);
  }

  lemma Halves(top: int, step: int, half: int, mantissa: int)
    requires top == mantissa * step && step == 2 * half
    ensures 2 * (top - half) == (mantissa - 1) * step + top
  {
  }

  lemma HalfOf(x: real, y: real)
    requires x == 2.0 * y && y > 0.0
    ensures 2.0 * (1.0 / x) * y == 1.0
  {
    assert (1.0 / x) * x == 1.0;
  }

  lemma DivideBack(x: real, p: real)
    requires p > 0.0
    ensures x / p * p == x
  {
  }

  /** An exponent multiplies or divides by a power of ten, and moving the point over a digit does the same. */
  lemma {:induction false} MagnitudeUp(negative: bool, digits: string, e: int)
    requires e >= 0 && forall c | c in digits :: IsDigit(c)
    ensures forall c | c in digits + "" :: IsDigit(c)
    ensures Magnitude(Number(negative, digits, "", e)) == DigitsValue(digits) as real * Power(10, e) as real
  {
    assert digits + "" == digits;
    var n := Number(negative, digits, "", e);
    assert n.exp - |n.frac| == e && n.whole + n.frac == digits;
  }

  lemma MagnitudeDown(negative: bool, digits: string, e: int)
    requires e < 0 && forall c | c in digits :: IsDigit(c)
    ensures forall c | c in digits + "" :: IsDigit(c)
    ensures Magnitude(Number(negative, digits, "", e)) * Power(10, -e) as real == DigitsValue(digits) as real
  {
    assert digits + "" == digits;
    PowerPositive(10, -e);
    DivideBack(DigitsValue(digits) as real, Power(10, -e) as real);
  }

  lemma MagnitudePoint(negative: bool, whole: string, frac: string, e: int)
    requires forall c | c in whole + frac :: IsDigit(c)
    ensures forall c | c in (whole + frac) + "" :: IsDigit(c)
    ensures Magnitude(Number(negative, whole, frac, e)) == Magnitude(Number(negative, whole + frac, "", e - |frac|))
  {
    assert (whole + frac) + "" == whole + frac;
  }

  /** An integer converts if and only if it lies strictly inside the edges: at the edge itself rounding goes up. */
  lemma IntegersFit(n: int)
    ensures Fits(IntLiteral(n)) <==> -(Power(2, 1024) - Power(2, 970)) < n < Power(2, 1024) - Power(2, 970)
  {
    IntMagnitude(n);
  }

  lemma {:induction false} PowersMultiply(a: int, b: int, n: nat)
    ensures Power(a * b, n) == Power(a, n) * Power(b, n)
  {
    if n > 0 {
      PowersMultiply(a, b, n - 1);
      Rearranged(a, b, Power(a, n - 1), Power(b, n - 1));
    }
  }

  lemma Rearranged(a: int, b: int, x: int, y: int)
    ensures (a * b) * (x * y) == (a * x) * (b * y)
  {
  }

  lemma CastProduct(a: int, b: int)
    ensures (a * b) as real == a as real * b as real
  {
  }

  lemma SameQuotient(x: real, product: real, two: real, five: real)
    requires x * product == five && product == two * five && two > 0.0 && five > 0.0
    ensures x == 1.0 / two
  {
    assert (x * two) * five == five;
    assert x * two == 1.0;
  }

  lemma {:induction false} SolveForTwo(x: real, k: nat)
    requires x * Power(10, k) as real == Power(5, k) as real
    ensures Power(2, k) >= 1 && x == 1.0 / Power(2, k) as real
  {
    PowersMultiply(2, 5, k);
    PowerPositive(2, k);
    PowerPositive(5, k);
    CastProduct(Power(2, k), Power(5, k));
    SameQuotient(x, Power(10, k) as real, Power(2, k) as real, Power(5, k) as real);
  }

  /** A negative power of two in decimal: five to the same power, with as many places. */
  lemma {:induction false} PowerOfTwo(digits: string, k: nat, e: int)
    requires k >= 1 && e == -(k as int) && forall c | c in digits :: IsDigit(c)
    requires DigitsValue(digits) == Power(5, k)
    ensures forall c | c in digits + "" :: IsDigit(c)
    ensures Power(2, k) >= 1 && Magnitude(Number(false, digits, "", e)) == 1.0 / Power(2, k) as real
  {
    MagnitudeDown(false, digits, e);
    SolveForTwo(Magnitude(Number(false, digits, "", e)), k);
  }

  /** Half of the smallest positive number, exactly, still converts to zero: rounding goes to the even side. */
  lemma {:induction false} HalfSmallestIsZero(lit: string, digits: string, k: nat)
    requires k == 1075 && (forall c | c in digits :: IsDigit(c)) && DigitsValue(digits) == Power(5, k)
    requires ReadNumber(lit) == Some(Number(false, digits, "", -(k as int)))
    ensures IsZero(lit)
  {
    PowerOfTwo(digits, k, -(k as int));
  }
}
