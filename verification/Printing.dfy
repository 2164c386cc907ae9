/** The decimal digits the subscriber prints, obtained through floating-point operations that each
    carry a relative error. */
module Printing {
  import opened Numbers
  import opened ErrorBounds

  lemma DoubleErrorIsSmall(v: real)
    requires v <= 8589934592.0
    ensures v * (EPS_DOUBLE + 2.0 * EPS_POW) < 0.5
  {
    assert EPS_DOUBLE + 2.0 * EPS_POW <= 1.0 / 1000000000000000.0;
  }

  lemma DoublePrecisionDigits(v: nat, places: nat, offset: real, quotient: real, digits: int)
    requires v <= 0x2_0000_0000
    requires offset > 0.0 && Within(offset, Pow10(places), EPS_POW)
    requires Within(quotient, v as real / offset, EPS_DOUBLE) && Printed(quotient, places, digits)
    ensures digits == v
  {
    DoubleErrorIsSmall(v as real);
    NearDigits(v, Pow10(places), offset, quotient, EPS_POW, EPS_DOUBLE, digits);
  }

  /** A floating-point number: its sign bit, which zero has too, and its size. */
  datatype Double = Double(minus: bool, size: real)

  /** Unary minus. */
  function Negated(x: Double): Double {
    x.(minus := !x.minus)
  }

  /** What %.*f writes: a minus sign exactly when the sign bit is set, and the digits of the size. */
  predicate Written(x: Double, places: nat, minus: bool, digits: int) {
    minus == x.minus && Printed(x.size, places, digits)
  }

  /** FLOAT: with pow good to 2^-52 and a correctly rounded division, the digits printed for any 32-bit
      magnitude and any exponent are exactly those of the magnitude rounded to binary32, behind a minus
      sign exactly when the datagram says so, on zero as well. */
  lemma FloatDigits(negative: bool, magnitude: nat, exponent: nat, offset: real, quotient: real, minus: bool, digits: int)
    requires magnitude < 0x1_0000_0000
    requires offset > 0.0 && Within(offset, Pow10(exponent), EPS_POW)
    requires Within(quotient, ToBinary32(magnitude) as real / offset, EPS_DOUBLE)
    requires var result := Double(false, quotient);
             Written(if negative then Negated(result) else result, exponent, minus, digits)
    ensures minus == negative && digits == ToBinary32(magnitude)
    ensures digits == magnitude <==> magnitude % Ulp(magnitude) == 0
    ensures magnitude <= SIGNIFICAND ==> digits == magnitude
    ensures negative && magnitude == 0 ==> minus && digits == 0
  {
    ToBinary32AtMostDouble(magnitude);
    ToBinary32ExactlyWhen(magnitude);
    DoublePrecisionDigits(ToBinary32(magnitude), exponent, offset, quotient, digits);
  }

  /** SHORT_REAL: every 16-bit count of hundredths is printed exactly, although single precision
      cannot represent most of the quotients. */
  lemma ShortRealDigits(hundredths: nat, quotient: real, digits: int)
    requires hundredths < 0x1_0000
    requires Within(quotient, ToBinary32(hundredths) as real / 100.0, EPS_FLOAT)
    requires Printed(quotient, 2, digits)
    ensures digits == hundredths
  {
    var v := hundredths as real;
    ToBinary32ExactlyWhen(hundredths);
    assert Pow10(2) == 100.0 by { assert Pow10(1) == 10.0; }
    NearDigits(hundredths, 100.0, 100.0, quotient, 0.0, EPS_FLOAT, digits);
  }
}
