/** Brent's variant of Pollard's rho (ferogram-crypto's factorize.rs): whatever it
    answers is a factorization, and no product or sum on the way leaves 128 bits. */
module Factorize {
  import opened Wrappers
  import opened ModularArithmetic

  const U64 := 0x1_0000_0000_0000_0000
  const U128 := 0x1_0000_0000_0000_0000_0000_0000_0000_0000

  ghost predicate Divides(d: int, n: int) {
    exists k :: n == d * k
  }

  lemma DividesSum(d: int, a: int, b: int, k: int)
    requires Divides(d, a) && Divides(d, b)
    ensures Divides(d, a + k * b)
  {
    var i :| a == d * i;
    var j :| b == d * j;
    assert a + k * b == d * (i + k * j);
  }

  /** A step of the algorithm keeps the common divisors. */
  lemma SameCommonDivisors(d: int, a: int, b: int)
    requires b > 0 && Divides(d, b)
    ensures Divides(d, a) <==> Divides(d, a % b)
  {
    assert a == a % b + (a / b) * b;
    if Divides(d, a) {
      DividesSum(d, a, b, -(a / b));
    }
    if Divides(d, a % b) {
      DividesSum(d, a % b, b, a / b);
    }
  }

  ghost predicate Common(d: int, a: int, b: int) {
    Divides(d, a) && Divides(d, b)
  }

  lemma CommonStep(a: int, b: int)
    requires b > 0
    ensures forall d :: Common(d, a, b) <==> Common(d, b, a % b)
  {
    forall d
      ensures Common(d, a, b) <==> Common(d, b, a % b)
    {
      if Divides(d, b) {
        SameCommonDivisors(d, a, b);
      }
    }
  }

  /** The greatest common divisor: the common divisors are exactly its divisors. */
  method Gcd(a0: nat, b0: nat) returns (a: nat)
    ensures forall d :: Common(d, a0, b0) <==> Divides(d, a)
    ensures a0 > 0 || b0 > 0 ==> a > 0
  {
    a := a0;
    var b: nat := b0;
    while b != 0
      invariant forall d :: Common(d, a, b) <==> Common(d, a0, b0)
      invariant a0 > 0 || b0 > 0 ==> a > 0 || b > 0
      decreases b
    {
      CommonStep(a, b);
      a, b := b, a % b;
    }
    forall d
      ensures Divides(d, 0)
    {
      assert 0 == d * 0;
    }
  }

  lemma GcdDivides(g: int, a: int, b: int)
    requires forall d :: Common(d, a, b) <==> Divides(d, g)
    ensures Divides(g, b)
  {
    assert g == g * 1;
    assert Common(g, a, b);
  }

  // Modular powers

  lemma SquareStep(n: int, e: nat, m: int)
    requires m > 0
    ensures Pow(n * n % m, e / 2) % m == Pow(n, 2 * (e / 2)) % m
  {
    PowMod(n * n, e / 2, m);
    PowMul(n, 2, e / 2);
    assert Pow(n, 2) == n * n by {
      assert Pow(n, 1) == n * Pow(n, 0);
    }
  }

  /** Two factors of the same remainder make products of the same remainder. */
  lemma SameProducts(r: int, a: int, b: int, m: int)
    requires m > 0 && a % m == b % m
    ensures (r * a) % m == (r * b) % m
  {
    MulModBoth(r, a, m);
    MulModBoth(r, b, m);
  }

  lemma StepKeepsPower(r: int, n: int, e: nat, m: int)
    requires m > 0 && e > 0
    ensures var next := if e % 2 == 1 then r * n % m else r;
            (next * Pow(n * n % m, e / 2)) % m == (r * Pow(n, e)) % m
  {
    var half := Pow(n, 2 * (e / 2));
    SquareStep(n, e, m);
    if e % 2 == 1 {
      SameProducts(r * n % m, Pow(n * n % m, e / 2), half, m);
      MulMod(r * n, half, m);
      assert Pow(n, e) == n * half;
      assert (r * n) * half == r * (n * half);
    } else {
      SameProducts(r, Pow(n * n % m, e / 2), half, m);
    }
  }

  lemma MulMonotone(a: nat, c: nat, b: nat)
    requires a <= c
    ensures a * b <= c * b
  {
    assert (c - a) * b >= 0;
  }

  lemma ProductFits(a: nat, b: nat)
    requires a < U64 && b < U64
    ensures a * b < U128
  {
    MulMonotone(a, U64 - 1, b);
  }

  /** A product of 64-bit numbers in 128 bits, reduced. */
  method MulMod128(a: nat, b: nat, m: nat) returns (r: nat)
    requires a < U64 && b < U64 && 0 < m < U64
    ensures r == a * b % m && r < m
  {
    ProductFits(a, b);
    assert a * b < U128;
    r := a * b % m;
  }

  /** What is left to compute: `result` times the `e`th power of `n`. */
  ghost predicate Computes(result: nat, n: nat, e: nat, m: nat, power: int)
    requires m > 0
  {
    n < m && result < m && (result * Pow(n, e)) % m == power
  }

  /** One binary digit of the exponent. */
  method PowStep(result: nat, n: nat, e: nat, m: nat, ghost power: int) returns (next: nat, square: nat)
    requires 0 < e && 0 < m < U64 && Computes(result, n, e, m, power)
    ensures Computes(next, square, e / 2, m, power)
  {
    StepKeepsPower(result, n, e, m);
    next := result;
    if e % 2 == 1 {
      next := MulMod128(result, n, m);
    }
    square := MulMod128(n, n, m);
  }

  lemma PowStart(n: nat, e: nat, m: nat)
    requires m > 1
    ensures Computes(1, n % m, e, m, Pow(n, e) % m)
  {
    PowMod(n, e, m);
    assert 1 * Pow(n % m, e) == Pow(n % m, e);
  }

  lemma PowEnd(result: nat, n: nat, m: nat, power: int)
    requires m > 0 && Computes(result, n, 0, m, power)
    ensures result == power && result < m
  {
    assert result * Pow(n, 0) == result;
  }

  method ModPow(n0: nat, e0: nat, m: nat) returns (result: nat)
    requires 0 < m < U64
    ensures result == Pow(n0, e0) % m && result < m
  {
    if m == 1 {
      return 0;
    }
    PowStart(n0, e0, m);
    ghost var power := Pow(n0, e0) % m;
    result := 1;
    var n: nat, e: nat := n0 % m, e0;
    while e > 0
      invariant Computes(result, n, e, m, power)
      decreases e
    {
      result, n := PowStep(result, n, e, m, power);
      e := e / 2;
    }
    PowEnd(result, n, m, power);
  }

  method AbsSub(a: nat, b: nat) returns (d: nat)
    ensures d == if a >= b then a - b else b - a
  {
    d := (if a >= b then a else b) - (if a <= b then a else b);
  }

  // The search

  /** One step of the pseudo-random walk: y^2 + c mod pq. */
  method Walk(y: nat, pq: nat, c: nat) returns (next: nat)
    requires 0 < pq < U64 && y < pq && c < U64
    ensures next == (y * y + c) % pq
  {
    var square := ModPow(y, 2, pq);
    assert Pow(y, 2) == y * y by {
      assert Pow(y, 1) == y * Pow(y, 0);
    }
    assert square + c < U128;
    WalkMod(y, c, pq);
    next := (square + c) % pq;
  }

  lemma WalkMod(y: int, c: int, m: int)
    requires m > 0
    ensures ((y * y) % m + c) % m == (y * y + c) % m
  {
    var k := (y * y) / m;
    assert y * y + c == ((y * y) % m + c) + k * m;
    SameRemainder(y * y + c, (y * y) % m + c, k, m);
  }

  method WalkFor(y0: nat, pq: nat, c: nat, steps: nat) returns (y: nat)
    requires 0 < pq < U64 && y0 < pq && c < U64
    ensures y < pq
  {
    y := y0;
    for i := 0 to steps
      invariant y < pq
    {
      y := Walk(y, pq, c);
    }
  }

  /** Walks on and multiplies up the distances from `x`. */
  method Gather(x: nat, y0: nat, q0: nat, pq: nat, c: nat, steps: nat) returns (y: nat, q: nat)
    requires 0 < pq < U64 && x < pq && y0 < pq && q0 < U64 && c < U64
    ensures y < pq && q < U64
  {
    y, q := y0, q0;
    for i := 0 to steps
      invariant y < pq && q < U64
    {
      y := Walk(y, pq, c);
      var d := AbsSub(x, y);
      q := MulMod128(q, d, pq);
    }
  }

  lemma PositiveFactor(g: int, k: int)
    requires g > 0
    ensures g * k > 0 <==> k > 0
    ensures k > 0 ==> g <= g * k
  {
    assert g * k == k * g;
    if k > 0 {
      MulMonotone(1, k, g);
    } else {
      MulMonotone(0, -k, g);
      assert (-k) * g == -(k * g);
    }
  }

  /** A divisor and its cofactor. */
  lemma Cofactor(g: int, pq: int)
    requires 0 < g && 0 < pq && Divides(g, pq)
    ensures g <= pq && pq / g >= 1 && g * (pq / g) == pq
  {
    var k :| pq == g * k;
    RemainderIsUnique(pq, k, 0, g);
    assert pq == (pq / g) * g + pq % g;
    PositiveFactor(g, pq / g);
  }

  /** Brent's loop: batches of products of distances, until a divisor shows. `fuel` bounds
      the batches; the search need not end. */
  method Brent(pq: nat, c: nat, fuel: nat) returns (found: bool, g: nat, x: nat, ys: nat)
    requires 0 < pq < U64 && c < U64
    ensures found ==> g > 1 && Divides(g, pq)
    ensures x < pq && ys < pq
  {
    var y: nat, m: nat := 3 * (pq / 7), 7 * (pq / 13);
    var q: nat, r: nat, left: nat := 1, 1, fuel;
    found, g, x, ys := false, 1, 0, 0;
    while g == 1
      invariant y < pq && x < pq && ys < pq && q < U64 && r >= 1
      invariant g >= 1 && (g > 1 ==> Divides(g, pq))
      decreases left
    {
      x := y;
      y := WalkFor(y, pq, c, r);
      var k: nat := 0;
      while k < r && g == 1
        invariant y < pq && x < pq && ys < pq && q < U64
        invariant g >= 1 && (g > 1 ==> Divides(g, pq))
        decreases left
      {
        if left == 0 {
          return;
        }
        left := left - 1;
        ys := y;
        y, q := Gather(x, y, q, pq, c, if m <= r - k then m else r - k);
        g := Gcd(q, pq);
        GcdDivides(g, q, pq);
        k := k + m;
      }
      if left == 0 {
        return;
      }
      left := left - 1;
      r := r * 2;
    }
    found := true;
  }

  /** One by one from the last batch on, when a whole batch multiplied up to nothing. */
  method Retrace(pq: nat, c: nat, x: nat, ys0: nat, fuel: nat) returns (found: bool, g: nat)
    requires 0 < pq < U64 && c < U64 && x < pq && ys0 < pq
    ensures found ==> g > 1 && Divides(g, pq)
  {
    var ys: nat, left := ys0, fuel;
    while left > 0
      invariant ys < pq
    {
      left := left - 1;
      ys := Walk(ys, pq, c);
      var d := AbsSub(x, ys);
      g := Gcd(d, pq);
      GcdDivides(g, d, pq);
      if g > 1 {
        return true, g;
      }
    }
    found, g := false, 1;
  }

  datatype Factors = Factors(p: nat, q: nat)

  /** Some pair of factors of `pq`, perhaps 1 and `pq`, the smaller first from 3 on. */
  method FactorizeWith(pq: nat, c: nat, fuel: nat) returns (r: Option<Factors>)
    requires pq < U64 && c < U64
    ensures r.Some? ==> r.value.p * r.value.q == pq
    ensures r.Some? && pq > 2 ==> 1 <= r.value.p <= r.value.q <= pq
    ensures pq % 2 == 0 ==> r == Some(Factors(2, pq / 2))
  {
    if pq % 2 == 0 {
      return Some(Factors(2, pq / 2));
    }
    var found, g, x, ys := Brent(pq, c, fuel);
    if found && g == pq {
      found, g := Retrace(pq, c, x, ys, fuel);
    }
    if !found {
      return None;
    }
    Cofactor(g, pq);
    var p, q := g, pq / g;
    PositiveFactor(q, p);
    assert p * q == q * p;
    r := Some(if p <= q then Factors(p, q) else Factors(q, p));
  }

  const ATTEMPTS: seq<nat> := [43, 47, 53, 59, 61]

  /** Every answer is a factorization, and from 3 on a proper one: 1 < p <= q. For 0 and 2
      the answer is the pair (2, 0) or (2, 1). */
  method FactorizeNumber(pq: nat, fuel: nat) returns (r: Option<Factors>)
    requires pq < U64
    ensures r.Some? ==> r.value.p * r.value.q == pq
    ensures r.Some? && pq > 2 ==> 1 < r.value.p <= r.value.q < pq
    ensures pq % 2 == 0 ==> r == Some(Factors(2, pq / 2))
  {
    for i := 0 to |ATTEMPTS|
      invariant i > 0 ==> pq % 2 == 1
    {
      assert ATTEMPTS[i] <= 61;
      var c := ATTEMPTS[i] * (pq / 103);
      var f := FactorizeWith(pq, c, fuel);
      if f.None? {
        return None;
      }
      if f.value.p != 1 {
        if pq > 2 {
          SmallerThanProduct(f.value.p, f.value.q);
        }
        return f;
      }
    }
    r := None;
  }

  lemma SmallerThanProduct(p: nat, q: nat)
    requires 1 < p <= q
    ensures q < p * q
  {
    assert (p - 1) * q > 0;
  }
}
