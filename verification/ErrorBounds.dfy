/** Real arithmetic with bounded relative errors. */
module ErrorBounds {
  function Abs(x: real): real {
    if x < 0.0 then -x else x
  }

  function Pow10(k: nat): (p: real)
    ensures p >= 1.0
  {
    if k == 0 then 1.0 else 10.0 * Pow10(k - 1)
  }

  /** `x` is `exact` up to the relative error `eps`. */
  predicate Within(x: real, exact: real, eps: real) {
    Abs(x - exact) <= eps * Abs(exact)
  }

  /** Printing with `places` decimals writes the nearest integer to the scaled value (either one on a tie). */
  predicate Printed(x: real, places: nat, digits: int) {
    Abs(x * Pow10(places) - digits as real) <= 0.5
  }

  const EPS_POW: real := 1.0 / 4503599627370496.0       // 2^-52
  const EPS_DOUBLE: real := 1.0 / 9007199254740992.0    // 2^-53
  const EPS_FLOAT: real := 1.0 / 16777216.0             // 2^-24

  lemma MulLe(a: real, b: real, c: real)
    requires a <= b && c >= 0.0
    ensures a * c <= b * c
  {}

  /** Scaling both sides of an error bound. */
  lemma ScaleBound(x: real, y: real, bound: real, c: real)
    requires Abs(x - y) <= bound && c >= 0.0
    ensures Abs(x * c - y * c) <= bound * c
  {
    assert x * c - y * c == (x - y) * c;
    MulLe(x - y, bound, c);
    MulLe(y - x, bound, c);
    assert (y - x) * c == -((x - y) * c);
  }

  /** The division error, scaled back by the divisor. */
  lemma DivisionError(v: real, offset: real, quotient: real, d: real)
    requires v >= 0.0 && offset > 0.0 && 0.0 <= d <= 0.25 && Within(quotient, v / offset, d)
    ensures quotient >= 0.0 && Abs(quotient * offset - v) <= d * v
  {
    var exact := v / offset;
    assert exact >= 0.0 && exact * offset == v;
    ScaleBound(quotient, exact, d * exact, offset);
    assert (d * exact) * offset == d * (exact * offset);
    MulLe(d, 0.25, exact);
  }

  lemma AddErrors(x: real, z: real, v: real, ex: real, dv: real)
    requires ex <= 0.25 * x && dv <= 0.25 * v && x >= 0.0 && v >= 0.0
    requires Abs(z - v) <= dv && Abs(z - x) <= ex
    ensures x <= 2.0 * v && Abs(x - v) <= dv + ex
  {}

  lemma QuarterOf(e: real, x: real, ex: real)
    requires e <= 0.25 && x >= 0.0 && ex == e * x
    ensures ex <= 0.25 * x
  {}

  lemma SumOfErrors(x: real, z: real, v: real, e: real, d: real, ex: real, dv: real)
    requires x >= 0.0 && v >= 0.0 && e <= 0.25 && d <= 0.25 && ex == e * x && dv == d * v
    requires Abs(z - v) <= dv && Abs(z - x) <= ex
    ensures x <= 2.0 * v && Abs(x - v) <= dv + ex
  {
    QuarterOf(e, x, ex);
    QuarterOf(d, v, dv);
    AddErrors(x, z, v, ex, dv);
  }

  lemma Distribute(x: real, v: real, e: real, d: real, ex: real, dv: real)
    requires x <= 2.0 * v && e >= 0.0 && ex == e * x && dv == d * v
    ensures dv + ex <= v * (d + 2.0 * e)
  {
    MulLe(x, 2.0 * v, e);
    assert v * (d + 2.0 * e) == d * v + (2.0 * v) * e;
  }

  /** Two error bounds around `z` combined into one around `v`. */
  lemma CombineErrors(x: real, z: real, v: real, e: real, d: real, ex: real, dv: real)
    requires x >= 0.0 && v >= 0.0 && 0.0 <= e <= 0.25 && 0.0 <= d <= 0.25 && ex == e * x && dv == d * v
    requires Abs(z - v) <= dv && Abs(z - x) <= ex
    ensures Abs(x - v) <= v * (d + 2.0 * e)
  {
    SumOfErrors(x, z, v, e, d, ex, dv);
    Distribute(x, v, e, d, ex, dv);
  }

  lemma Regroup(e: real, p: real, q: real)
    ensures (e * p) * q == e * (q * p)
  {}

  /** The divisor's error, scaled by the quotient. */
  lemma OffsetError(p: real, offset: real, quotient: real, e: real)
    requires p >= 1.0 && quotient >= 0.0 && Within(offset, p, e)
    ensures quotient * p >= 0.0 && Abs(quotient * offset - quotient * p) <= e * (quotient * p)
  {
    ScaleBound(offset, p, e * p, quotient);
    Regroup(e, p, quotient);
    MulLe(0.0, quotient, p);
  }

  /** Dividing `v` by an approximate power of ten and scaling back returns `v` up to the two errors. */
  lemma ScaledQuotient(v: real, p: real, offset: real, quotient: real, e: real, d: real)
    requires v >= 0.0 && p >= 1.0 && 0.0 <= e <= 0.25 && 0.0 <= d <= 0.25
    requires Within(offset, p, e) && offset > 0.0 && Within(quotient, v / offset, d)
    ensures Abs(quotient * p - v) <= v * (d + 2.0 * e)
  {
    DivisionError(v, offset, quotient, d);
    OffsetError(p, offset, quotient, e);
    var x, z := quotient * p, quotient * offset;
    CombineErrors(x, z, v, e, d, e * x, d * v);
  }

  lemma NearestIsUnique(x: real, v: int, digits: int)
    requires Abs(x - v as real) < 0.5 && Abs(x - digits as real) <= 0.5
    ensures digits == v
  {
    assert Abs((digits - v) as real) < 1.0;
  }

  /** Small enough errors do not change the nearest integer. */
  lemma NearDigits(v: nat, p: real, offset: real, quotient: real, e: real, d: real, digits: int)
    requires p >= 1.0 && 0.0 <= e <= 0.25 && 0.0 <= d <= 0.25
    requires Within(offset, p, e) && offset > 0.0 && Within(quotient, v as real / offset, d)
    requires v as real * (d + 2.0 * e) < 0.5 && Abs(quotient * p - digits as real) <= 0.5
    ensures digits == v
  {
    ScaledQuotient(v as real, p, offset, quotient, e, d);
    NearestIsUnique(quotient * p, v, digits);
  }
}
