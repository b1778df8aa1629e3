/** Powers and remainders: what key agreement and factorization both rest on. */
module ModularArithmetic {
  function Pow(n: int, e: nat): int {
    if e == 0 then 1 else n * Pow(n, e - 1)
  }

  lemma MultipleIsFar(d: int, m: int)
    requires m > 0
    ensures d >= 1 ==> d * m >= m
    ensures d <= -1 ==> d * m <= -m
  {
    if d >= 1 {
      assert (d - 1) * m >= 0;
    } else if d <= -1 {
      assert (-1 - d) * m >= 0;
    }
  }

  /** The remainder is the only one in range. */
  lemma RemainderIsUnique(a: int, q: int, r: int, m: int)
    requires m > 0 && a == q * m + r && 0 <= r < m
    ensures a % m == r
  {
    var d := q - a / m;
    assert a == (a / m) * m + a % m;
    assert d * m == a % m - r;
    MultipleIsFar(d, m);
  }

  /** Equal up to a multiple of the modulus. */
  lemma SameRemainder(a: int, b: int, k: int, m: int)
    requires m > 0 && a == b + k * m
    ensures a % m == b % m
  {
    assert b == (b / m) * m + b % m;
    assert a == (b / m + k) * m + b % m;
    RemainderIsUnique(a, b / m + k, b % m, m);
  }

  /** A difference of remainders, brought back into range. */
  lemma DifferenceMod(a: int, b: int, m: int)
    requires m > 0
    ensures (a % m - b % m) % m == (a - b) % m
  {
    assert a == (a / m) * m + a % m;
    assert b == (b / m) * m + b % m;
    SameRemainder(a - b, a % m - b % m, a / m - b / m, m);
  }

  lemma MulMod(a: int, b: int, m: int)
    requires m > 0
    ensures ((a % m) * b) % m == (a * b) % m
  {
    var q := a / m;
    assert a == q * m + a % m;
    assert a * b == (a % m) * b + (q * b) * m;
    SameRemainder(a * b, (a % m) * b, q * b, m);
  }

  lemma MulModBoth(a: int, b: int, m: int)
    requires m > 0
    ensures ((a % m) * (b % m)) % m == (a * b) % m
  {
    MulMod(a, b % m, m);
    MulMod(b, a, m);
    assert a * (b % m) == (b % m) * a && a * b == b * a;
  }

  lemma MulSame(a: int, b: int, c: int, d: int, m: int)
    requires m > 0 && a % m == c % m && b % m == d % m
    ensures (a * b) % m == (c * d) % m
  {
    MulModBoth(a, b, m);
    MulModBoth(c, d, m);
  }

  lemma RemainderOfRemainder(n: int, m: int)
    requires m > 0
    ensures (n % m) % m == n % m
  {
  }

  lemma {:induction false} PowMod(n: int, e: nat, m: int)
    requires m > 0
    ensures Pow(n % m, e) % m == Pow(n, e) % m
    decreases e
  {
    if e > 0 {
      var r := n % m;
      RemainderOfRemainder(n, m);
      PowMod(n, e - 1, m);
      MulSame(r, Pow(r, e - 1), n, Pow(n, e - 1), m);
    }
  }

  lemma {:induction false} PowAdd(n: int, d: nat, e: nat)
    ensures Pow(n, d + e) == Pow(n, d) * Pow(n, e)
    decreases d
  {
    if d > 0 {
      PowAdd(n, d - 1, e);
      assert n * (Pow(n, d - 1) * Pow(n, e)) == (n * Pow(n, d - 1)) * Pow(n, e);
    }
  }

  lemma {:induction false} PowMul(n: int, d: nat, e: nat)
    ensures 0 <= d * e && Pow(n, d * e) == Pow(Pow(n, d), e)
    decreases e
  {
    if e > 0 {
      PowMul(n, d, e - 1);
      assert d * e == d + d * (e - 1);
      PowAdd(n, d, d * (e - 1));
    }
  }

  lemma SamePowers(a: int, b: int, e: nat, m: int)
    requires m > 0 && a % m == b % m
    ensures Pow(a, e) % m == Pow(b, e) % m
  {
    PowMod(a, e, m);
    PowMod(b, e, m);
  }

  /** Remainders may be taken at any step of a product of powers. */
  lemma ProductPowers(y: int, x: int, u: nat, e: nat, m: int)
    requires m > 0
    ensures Pow((y % m) * Pow(x % m, u), e) % m == Pow(y * Pow(x, u), e) % m
  {
    PowMod(x, u, m);
    MulMod(y, Pow(x % m, u), m);
    MulModBoth(y, Pow(x % m, u), m);
    MulModBoth(y, Pow(x, u), m);
    SamePowers((y % m) * Pow(x % m, u), y * Pow(x, u), e, m);
  }
}
