/** Powers of two and the integer logarithms the allocator uses.

    The source writes `(int)(log2(x) + 0.1)` for a logarithm that is meant to be
    exact. On a power of two it is `Log2`; on an arbitrary positive quotient it is
    `RoundedLog2`. */
module PowersOfTwo {

  function Pow2(k: nat): (p: nat)
    ensures 1 <= p
  {
    if k == 0 then 1 else 2 * Pow2(k - 1)
  }

  /** Floor of the base-two logarithm. */
  function Log2(n: nat): (k: nat)
    requires n > 0
    ensures Pow2(k) <= n < Pow2(k + 1)
  {
    if n == 1 then 0 else 1 + Log2(n / 2)
  }

  predicate IsPow2(n: int) {
    n > 0 && n == Pow2(Log2(n))
  }

  function Min(a: int, b: int): int {
    if a < b then a else b
  }

  lemma {:induction false} Pow2Add(a: nat, b: nat)
    ensures Pow2(a + b) == Pow2(a) * Pow2(b)
  {
    if a == 0 {
    } else {
      Pow2Add(a - 1, b);
      MulAssoc(2, Pow2(a - 1), Pow2(b));
    }
  }

  lemma {:induction false} Pow2Monotone(a: nat, b: nat)
    requires a <= b
    ensures Pow2(a) <= Pow2(b)
    decreases b - a
  {
    if a < b {
      Pow2Monotone(a, b - 1);
    }
  }

  lemma {:induction false} Log2OfPow2(k: nat)
    ensures Log2(Pow2(k)) == k && IsPow2(Pow2(k))
  {
    var l := Log2(Pow2(k));
    if l < k {
      Pow2Monotone(l + 1, k);
    } else if k < l {
      Pow2Monotone(k + 1, l);
    }
  }

  lemma MulAssoc(x: int, y: int, z: int)
    ensures (x * y) * z == x * (y * z)
  {
  }

  /** Dividing twice is dividing once by the product. */
  lemma DivDiv(n: nat, a: nat, b: nat)
    requires a > 0 && b > 0
    ensures a * b > 0
    ensures n / a / b == n / (a * b)
  {
    var q := n / a;
    var r := q / b;
    var s := n - r * (a * b);
    assert n == a * q + n % a;
    assert q == b * r + q % b;
    assert a * q == a * (b * r) + a * (q % b);
    assert a * (b * r) == r * (a * b) by { MulAssoc(a, b, r); }
    assert s == a * (q % b) + n % a;
    MulLe(a, q % b, b - 1);
    assert a * (b - 1) == a * b - a;
    assert 0 <= s < a * b by { MulLe(a, 0, q % b); }
    QuotientUnique(n, a * b, r, s);
  }

  lemma MulLe(a: int, x: int, y: int)
    requires a >= 0 && x <= y
    ensures a * x <= a * y
  {
  }

  lemma DivisionExact(n: int, d: int)
    requires d > 0 && n % d == 0
    ensures n == (n / d) * d
  {
  }

  lemma QuotientUnique(n: int, d: int, q: int, r: int)
    requires d > 0 && n == q * d + r && 0 <= r < d
    ensures n / d == q && n % d == r
  {
    var q' := n / d;
    assert n == q' * d + n % d;
    assert (q - q') * d == n % d - r;
    if q > q' {
      MulLe(d, 1, q - q');
    } else if q < q' {
      MulLe(d, q - q', -1);
    }
  }

  lemma ExactQuotient(q: int, d: int)
    requires d > 0
    ensures (q * d) / d == q && (q * d) % d == 0
  {
    QuotientUnique(q * d, d, q, 0);
  }

  /** A quotient of powers of two is exact as soon as it is not zero. */
  lemma Pow2Quotient(a: nat, b: nat)
    ensures a >= b ==> Pow2(a) / Pow2(b) == Pow2(a - b)
    ensures a < b ==> Pow2(a) / Pow2(b) == 0
  {
    if a >= b {
      Pow2Add(a - b, b);
      ExactQuotient(Pow2(a - b), Pow2(b));
    } else {
      Pow2Monotone(a + 1, b);
      QuotientUnique(Pow2(a), Pow2(b), 0, Pow2(a));
    }
  }

  lemma KnownPower(n: int, k: nat)
    requires n == Pow2(k)
    ensures IsPow2(n) && Log2(n) == k
  {
    Log2OfPow2(k);
  }

  lemma ProductOfExponents(a: int, b: int, x: nat, y: nat)
    requires a == Pow2(x) && b == Pow2(y)
    ensures IsPow2(a * b) && Log2(a * b) == x + y
  {
    Pow2Add(x, y);
    KnownPower(a * b, x + y);
  }

  lemma ProductOfPowers(a: int, b: int)
    requires IsPow2(a) && IsPow2(b)
    ensures IsPow2(a * b) && Log2(a * b) == Log2(a) + Log2(b)
  {
    ProductOfExponents(a, b, Log2(a), Log2(b));
  }

  lemma QuotientOfExponents(a: int, b: int, x: nat, y: nat)
    requires a == Pow2(x) && b == Pow2(y)
    ensures a >= b <==> x >= y
    ensures a >= b ==> IsPow2(a / b) && Log2(a / b) == x - y && a == (a / b) * b
    ensures a < b <==> a / b == 0
  {
    Pow2Quotient(x, y);
    if x >= y {
      Pow2Add(x - y, y);
      KnownPower(a / b, x - y);
      Pow2Monotone(y, x);
    } else {
      Pow2Monotone(x + 1, y);
    }
  }

  lemma QuotientOfPowers(a: int, b: int)
    requires IsPow2(a) && IsPow2(b)
    ensures a >= b <==> Log2(a) >= Log2(b)
    ensures a >= b ==> IsPow2(a / b) && Log2(a / b) == Log2(a) - Log2(b) && a == (a / b) * b
    ensures a < b <==> a / b == 0
  {
    QuotientOfExponents(a, b, Log2(a), Log2(b));
  }

  lemma PowersOrdered(a: int, b: int)
    requires IsPow2(a) && IsPow2(b)
    ensures a <= b <==> Log2(a) <= Log2(b)
  {
    QuotientOfPowers(b, a);
  }

  lemma MinOfPowers(a: int, b: int)
    requires IsPow2(a) && IsPow2(b)
    ensures IsPow2(Min(a, b))
  {
  }

  // ---- (int)(log2(n / d) + 0.1) for arbitrary positive n and d ----

  function Power(x: nat, e: nat): (p: nat)
    ensures x > 0 ==> p > 0
  {
    if e == 0 then 1 else x * Power(x, e - 1)
  }

  lemma {:induction false} PowerOfProduct(x: nat, y: nat, e: nat)
    ensures Power(x * y, e) == Power(x, e) * Power(y, e)
  {
    if e == 0 {
    } else {
      var p, q := Power(x, e - 1), Power(y, e - 1);
      PowerOfProduct(x, y, e - 1);
      assert (x * y) * (p * q) == (x * p) * (y * q) by { Regroup(x, y, p, q); }
    }
  }

  lemma Regroup(x: int, y: int, p: int, q: int)
    ensures (x * y) * (p * q) == (x * p) * (y * q)
  {
    MulAssoc(x, y, p * q);
    MulAssoc(x, p, y * q);
    MulAssoc(y, p, q);
    MulAssoc(p, y, q);
  }

  lemma {:induction false} PowerOfPow2(k: nat, e: nat)
    ensures Power(Pow2(k), e) == Pow2(e * k)
  {
    if e == 0 {
    } else {
      PowerOfPow2(k, e - 1);
      assert e * k == k + (e - 1) * k;
      Pow2Add(k, (e - 1) * k);
    }
  }

  lemma {:induction false} PowerMonotone(x: nat, y: nat, e: nat)
    requires x <= y
    ensures Power(x, e) <= Power(y, e)
  {
    if e == 0 {
    } else {
      PowerMonotone(x, y, e - 1);
      MulLe(x, Power(x, e - 1), Power(y, e - 1));
      MulLe(Power(y, e - 1), x, y);
    }
  }

  /** Greatest j with 1024^j * d <= n. */
  function FloorLog1024(n: nat, d: nat): (j: nat)
    requires 0 < d <= n
    decreases n - d
  {
    if n < 1024 * d then 0 else 1 + FloorLog1024(n, 1024 * d)
  }

  /** Base-1024 logarithm of x / y, truncated toward zero. */
  function TruncLog1024(x: nat, y: nat): int
    requires x > 0 && y > 0
  {
    if y <= x then FloorLog1024(x, y) else 0 - FloorLog1024(y, x)
  }

  /** (int)(log2(n / d) + 0.1): since 1024 is 2^10, log2(n / d) + 1/10 is the
      base-1024 logarithm of 2 n^10 / d^10, and the cast truncates toward zero. */
  function RoundedLog2(n: nat, d: nat): int
    requires n > 0 && d > 0
  {
    TruncLog1024(2 * Power(n, 10), Power(d, 10))
  }

  lemma Pow2Thousand(k: nat)
    requires k > 0
    ensures Pow2(10 * k) == Pow2(10 * (k - 1)) * 1024
  {
    Pow2Add(10 * (k - 1), 10);
    assert Pow2(10) == 1024;
  }

  lemma {:induction false} FloorLogOfPower(k: nat, rest: nat, d: nat)
    requires 0 < d <= rest < 1024 * d
    ensures d <= Pow2(10 * k) * rest
    ensures FloorLog1024(Pow2(10 * k) * rest, d) == k
    decreases k
  {
    if k == 0 {
      assert Pow2(0) * rest == rest;
    } else {
      var n := Pow2(10 * k) * rest;
      Pow2Thousand(k);
      MulAssoc(Pow2(10 * (k - 1)), 1024, rest);
      FloorLogOfPower(k - 1, 1024 * rest, 1024 * d);
      FloorLogStep(n, d, k - 1);
    }
  }

  lemma FloorLogStep(n: nat, d: nat, j: nat)
    requires 0 < d && 1024 * d <= n && FloorLog1024(n, 1024 * d) == j
    ensures FloorLog1024(n, d) == j + 1
  {
  }

  lemma TruncLogOfPower(j: nat, x: nat, y: nat)
    requires y > 0 && x == Pow2(10 * j) * (2 * y)
    ensures x > 0 && TruncLog1024(x, y) == j
  {
    FloorLogOfPower(j, 2 * y, y);
  }

  lemma TenthPowerScaled(j: nat, d: nat)
    ensures 2 * Power(Pow2(j) * d, 10) == Pow2(10 * j) * (2 * Power(d, 10))
  {
    var y := Power(d, 10);
    PowerOfProduct(Pow2(j), d, 10);
    PowerOfPow2(j, 10);
    Doubled(Pow2(10 * j), y);
  }

  lemma Doubled(x: int, y: int)
    ensures 2 * (x * y) == x * (2 * y)
  {
  }

  lemma PositiveProduct(x: int, y: int)
    requires x > 0 && y > 0
    ensures x * y > 0
  {
  }

  /** The source's rounding is exact on the powers of two it is meant for. */
  lemma RoundedLog2Exact(j: nat, n: nat, d: nat)
    requires d > 0 && n == Pow2(j) * d
    ensures n > 0 && RoundedLog2(n, d) == j
  {
    PositiveProduct(Pow2(j), d);
    TenthPowerScaled(j, d);
    TruncLogOfPower(j, 2 * Power(n, 10), Power(d, 10));
  }

  /** A quotient below one never gives a positive number of bits. */
  lemma RoundedLog2BelowOne(n: nat, d: nat)
    requires 0 < n < d
    ensures RoundedLog2(n, d) <= 0
  {
    PowerMonotone(n, d, 10);
  }

  /** 1024 to the floor logarithm does not exceed the quotient. */
  lemma {:induction false} FloorLogBelow(n: nat, d: nat)
    requires 0 < d <= n
    ensures Power(1024, FloorLog1024(n, d)) * d <= n
    decreases n - d
  {
    if n >= 1024 * d {
      FloorLogBelow(n, 1024 * d);
      var p := Power(1024, FloorLog1024(n, 1024 * d));
      MulAssoc(1024, p, d);
      MulAssoc(p, 1024, d);
    }
  }

  lemma FloorLogShort(j: nat, rest: nat, d: nat)
    requires 0 < rest < d <= Pow2(10 * j) * rest
    ensures FloorLog1024(Pow2(10 * j) * rest, d) != j
  {
    FloorLogBelow(Pow2(10 * j) * rest, d);
    PowerOf1024(j);
    Longer(Pow2(10 * j), rest, d);
  }

  lemma PowerOf1024(j: nat)
    ensures Power(1024, j) == Pow2(10 * j)
  {
    assert Pow2(10) == 1024;
    PowerOfPow2(10, j);
  }

  lemma Longer(p: int, x: int, y: int)
    requires p > 0 && x < y
    ensures p * x < p * y
  {
    MulLe(p, x + 1, y);
  }

  lemma TruncLogExactly(j: nat, rest: nat, d: nat)
    requires j > 0 && 0 < rest <= 2 * d
    ensures Pow2(10 * j) * rest > 0
    ensures TruncLog1024(Pow2(10 * j) * rest, d) == j <==> d <= rest
  {
    PositiveProduct(Pow2(10 * j), rest);
    var x := Pow2(10 * j) * rest;
    if d <= rest {
      FloorLogOfPower(j, rest, d);
    } else if d <= x {
      FloorLogShort(j, rest, d);
    }
  }

  /** The rounded logarithm of 2^j k / d, for 0 < k <= d, is j exactly when d exceeds k by
      a factor of at most the tenth root of two. */
  lemma RoundedDown(j: nat, k: nat, d: nat)
    requires j > 0 && 0 < k <= d && Pow2(j) * k > 0
    ensures RoundedLog2(Pow2(j) * k, d) == j <==> Power(d, 10) <= 2 * Power(k, 10)
  {
    TenthPowerScaled(j, k);
    PowerMonotone(k, d, 10);
    TruncLogExactly(j, 2 * Power(k, 10), Power(d, 10));
  }
}
