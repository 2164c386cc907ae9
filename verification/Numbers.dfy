/** Integers as the subscriber holds them: 32-bit wrap-around and rounding to binary32. */
module Numbers {

  // ---------------------------------------------------------------------------
  // INT

  /** An unsigned 32-bit number printed with %d. */
  function AsInt32(u: int): int {
    var w := u % 0x1_0000_0000;
    if w < 0x8000_0000 then w else w - 0x1_0000_0000
  }

  /** The sign applied to the unsigned magnitude, then printed as signed. */
  function ShownInt(negative: bool, magnitude: nat): int {
    AsInt32(if negative then 0 - magnitude else magnitude)
  }

  lemma NegatedResidue(m: nat)
    requires m < 0x1_0000_0000
    ensures (0 - m) % 0x1_0000_0000 == if m == 0 then 0 else 0x1_0000_0000 - m
  {
    if m > 0 {
      assert 0 - m == 0x1_0000_0000 * (-1) + (0x1_0000_0000 - m);
    }
  }

  /** The printed integer is the one 32-bit value congruent to the signed magnitude, and so equals it
      exactly when it fits. */
  lemma IntShownExactly(negative: bool, magnitude: nat)
    requires magnitude < 0x1_0000_0000
    ensures var exact, shown := if negative then 0 - magnitude else magnitude, ShownInt(negative, magnitude);
            && -0x8000_0000 <= shown < 0x8000_0000
            && (shown == exact || shown == exact + 0x1_0000_0000 || shown == exact - 0x1_0000_0000)
            && (shown == exact <==> magnitude < 0x8000_0000 || (negative && magnitude == 0x8000_0000))
  {
    NegatedResidue(magnitude);
  }

  // ---------------------------------------------------------------------------
  // Rounding to binary32

  const SIGNIFICAND := 0x100_0000  // 2^24

  function Pow2(k: nat): (p: nat)
    ensures p >= 1
  {
    if k == 0 then 1 else 2 * Pow2(k - 1)
  }

  /** An integer with at most 24 significant bits. */
  ghost predicate Representable(m: nat) {
    exists k: nat :: m % Pow2(k) == 0 && m / Pow2(k) < SIGNIFICAND
  }

  /** Exponent of the spacing of binary32 numbers around `n`. */
  function UlpExponent(n: nat): nat {
    if n < SIGNIFICAND then 0 else 1 + UlpExponent(n / 2)
  }

  function Ulp(n: nat): (u: nat)
    ensures u >= 1
  {
    Pow2(UlpExponent(n))
  }

  /** Conversion of an integer to binary32: to the nearest multiple of the spacing, ties to even. */
  function ToBinary32(n: nat): nat {
    var u := Ulp(n);
    var q, r := n / u, n % u;
    if 2 * r < u || (2 * r == u && q % 2 == 0) then q * u else (q + 1) * u
  }

  lemma MulMonotone(a: nat, b: nat, d: nat)
    requires a <= b
    ensures a * d <= b * d
  {}

  lemma DivUnique(n: nat, d: nat, q: nat, r: nat)
    requires d >= 1 && n == q * d + r && r < d
    ensures n / d == q && n % d == r
  {
    var q', r' := n / d, n % d;
    assert n == q' * d + r';
    if q' < q {
      MulMonotone(q' + 1, q, d);
    } else if q < q' {
      MulMonotone(q + 1, q', d);
    }
  }

  lemma HalvedTwice(n: nat, u: nat)
    requires u >= 1
    ensures n / (2 * u) == n / 2 / u
  {
    var q, r := n / 2 / u, n / 2 % u;
    assert n / 2 == q * u + r;
    var s := 2 * r + n % 2;
    assert n == q * (2 * u) + s;
    DivUnique(n, 2 * u, q, s);
  }

  lemma {:induction false} UlpRange(n: nat)
    ensures n / Ulp(n) < SIGNIFICAND
    ensures Ulp(n) > 1 ==> 2 * (n / Ulp(n)) >= SIGNIFICAND
  {
    if n >= SIGNIFICAND {
      UlpRange(n / 2);
      var u := Ulp(n / 2);
      assert Ulp(n) == 2 * u;
      HalvedTwice(n, u);
    }
  }

  lemma MulBoth(a: nat, b: nat, c: nat, d: nat)
    requires a <= b && c <= d
    ensures a * c <= b * d
  {
    MulMonotone(a, b, c);
    MulMonotone(c, d, b);
  }

  lemma DoubleProduct(a: nat, b: nat)
    ensures (2 * a) * b == 2 * (a * b)
  {}

  lemma {:induction false} Pow2Splits(j: nat, k: nat)
    ensures Pow2(j + k) == Pow2(j) * Pow2(k)
  {
    if j > 0 {
      Pow2Splits(j - 1, k);
      DoubleProduct(Pow2(j - 1), Pow2(k));
    }
  }

  function Distance(a: nat, b: nat): nat {
    if a <= b then b - a else a - b
  }

  /** A multiple of `u` is at least as far from `n` as the nearer of the two around it. */
  lemma MultipleDistance(n: nat, u: nat, c: nat)
    requires u >= 1
    ensures n % u <= Distance(c * u, n) || u - n % u <= Distance(c * u, n)
  {
    var q := n / u;
    if c <= q {
      MulMonotone(c, q, u);
    } else {
      MulMonotone(q + 1, c, u);
      assert (q + 1) * u == q * u + u;
    }
  }

  lemma ToBinary32Distance(n: nat)
    ensures var r := n % Ulp(n);
            Distance(ToBinary32(n), n) == if 2 * r <= Ulp(n) then r else Ulp(n) - r
  {
    var u := Ulp(n);
    var q := n / u;
    assert n == q * u + n % u && (q + 1) * u == q * u + u;
  }

  lemma ToBinary32Representable(n: nat)
    ensures Representable(ToBinary32(n))
  {
    var e := UlpExponent(n);
    var u := Ulp(n);
    var q := n / u;
    UlpRange(n);
    DivUnique(q * u, u, q, 0);
    DivUnique((q + 1) * u, u, q + 1, 0);
    if q + 1 == SIGNIFICAND {
      var half := SIGNIFICAND / 2;
      assert Pow2(e + 1) == 2 * u;
      DivUnique((q + 1) * u, 2 * u, half, 0);
    }
  }

  /** A number with a wider spacing than `n` is a multiple of the spacing around `n`. */
  lemma CoarserIsMultiple(a: nat, k: nat, e: nat) returns (c: nat)
    requires k >= e
    ensures a * Pow2(k) == c * Pow2(e)
  {
    Pow2Splits(k - e, e);
    c := a * Pow2(k - e);
    assert a * (Pow2(k - e) * Pow2(e)) == c * Pow2(e);
  }

  lemma RegroupHalves(a: nat, q: nat, p: nat, half: nat)
    requires a <= 2 * q && p <= half
    ensures a * p <= q * (2 * half)
  {
    MulBoth(a, 2 * q, p, half);
    assert (2 * q) * half == q * (2 * half);
  }

  lemma {:induction false} Pow2Monotone(j: nat, k: nat)
    requires j <= k
    ensures Pow2(j) <= Pow2(k)
  {
    if j < k {
      Pow2Monotone(j, k - 1);
    }
  }

  /** A number with a finer spacing than `n` lies below the multiples around `n`. */
  lemma FinerIsBelow(a: nat, k: nat, n: nat)
    requires k < UlpExponent(n) && a < SIGNIFICAND
    ensures a * Pow2(k) <= n / Ulp(n) * Ulp(n)
  {
    var half := Pow2(UlpExponent(n) - 1);
    UlpRange(n);
    Pow2Monotone(k, UlpExponent(n) - 1);
    RegroupHalves(a, n / Ulp(n), Pow2(k), half);
  }

  lemma DistanceToMultiple(n: nat, a: nat, k: nat)
    requires a < SIGNIFICAND
    ensures n % Ulp(n) <= Distance(a * Pow2(k), n) || Ulp(n) - n % Ulp(n) <= Distance(a * Pow2(k), n)
  {
    if k >= UlpExponent(n) {
      var c := CoarserIsMultiple(a, k, UlpExponent(n));
      MultipleDistance(n, Ulp(n), c);
    } else {
      FinerIsBelow(a, k, n);
    }
  }

  /** No integer with 24 significant bits is nearer. */
  lemma ToBinary32IsNearest(n: nat, m: nat)
    requires Representable(m)
    ensures Distance(ToBinary32(n), n) <= Distance(m, n)
  {
    var k: nat :| m % Pow2(k) == 0 && m / Pow2(k) < SIGNIFICAND;
    assert m == m / Pow2(k) * Pow2(k);
    DistanceToMultiple(n, m / Pow2(k), k);
    ToBinary32Distance(n);
  }

  /** Halfway between two multiples of the spacing, the even one is taken. */
  lemma ToBinary32TiesToEven(n: nat)
    requires 2 * (n % Ulp(n)) == Ulp(n)
    ensures ToBinary32(n) % Ulp(n) == 0 && ToBinary32(n) / Ulp(n) % 2 == 0
  {
    var u := Ulp(n);
    var q := n / u;
    DivUnique(q * u, u, q, 0);
    DivUnique((q + 1) * u, u, q + 1, 0);
  }

  /** Conversion loses nothing exactly on multiples of the spacing, which all integers up to 2^24 are. */
  lemma ToBinary32ExactlyWhen(n: nat)
    ensures ToBinary32(n) == n <==> n % Ulp(n) == 0
    ensures n <= SIGNIFICAND ==> ToBinary32(n) == n
  {
    ToBinary32Distance(n);
    if n == SIGNIFICAND {
      assert UlpExponent(n) == 1 + UlpExponent(n / 2) == 1;
      assert Pow2(1) == 2;
    }
  }

  lemma ToBinary32AtMostDouble(n: nat)
    ensures ToBinary32(n) <= 2 * n
  {
    assert 0 % Pow2(0) == 0 && 0 / Pow2(0) < SIGNIFICAND;
    ToBinary32IsNearest(n, 0);
  }

  /** The smallest integer that does not survive. */
  lemma FirstInexact()
    ensures ToBinary32(0x100_0001) == 0x100_0000
  {
    var n := 0x100_0001;
    assert UlpExponent(n) == 1 + UlpExponent(n / 2) == 1;
    assert Pow2(1) == 2;
  }
}
