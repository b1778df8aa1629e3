/** Bytes and 32-bit words as numbers, their exclusive or, and their byte order. */
module Bytes {
  const U16 := 0x1_0000
  const U32 := 0x1_0000_0000

  type byte = x: int | 0 <= x < 256

  type u32 = x: int | 0 <= x < U32

  // Exclusive or, bit by bit

  function XorNat(a: nat, b: nat): nat
    decreases a + b
  {
    if a == 0 && b == 0 then 0
    else (if a % 2 == b % 2 then 0 else 1) + 2 * XorNat(a / 2, b / 2)
  }

  function Pow2(n: nat): (p: nat)
    ensures p > 0
  {
    if n == 0 then 1 else 2 * Pow2(n - 1)
  }

  lemma XorStep(a: nat, b: nat)
    ensures XorNat(a, b) / 2 == XorNat(a / 2, b / 2)
    ensures XorNat(a, b) % 2 == if a % 2 == b % 2 then 0 else 1
  {
  }

  lemma {:induction false} XorZero(a: nat)
    ensures XorNat(a, 0) == a
    decreases a
  {
    if a != 0 {
      XorZero(a / 2);
    }
  }

  lemma {:induction false} XorCommutes(a: nat, b: nat)
    ensures XorNat(a, b) == XorNat(b, a)
    decreases a + b
  {
    if a != 0 || b != 0 {
      XorCommutes(a / 2, b / 2);
    }
  }

  /** Numbers with the same halves and the same parity are the same. */
  lemma Halves(x: nat, y: nat)
    requires x / 2 == y / 2 && x % 2 == y % 2
    ensures x == y
  {
  }

  lemma {:induction false} XorAssociates(a: nat, b: nat, c: nat)
    ensures XorNat(XorNat(a, b), c) == XorNat(a, XorNat(b, c))
    decreases a + b + c
  {
    if a == 0 && b == 0 && c == 0 {
      return;
    }
    XorAssociates(a / 2, b / 2, c / 2);
    XorStep(a, b);
    XorStep(b, c);
    XorStep(XorNat(a, b), c);
    XorStep(a, XorNat(b, c));
    Halves(XorNat(XorNat(a, b), c), XorNat(a, XorNat(b, c)));
  }

  lemma {:induction false} XorSelf(a: nat)
    ensures XorNat(a, a) == 0
    decreases a
  {
    if a != 0 {
      XorSelf(a / 2);
    }
  }

  lemma XorCancels(a: nat, b: nat)
    ensures XorNat(XorNat(a, b), b) == a
  {
    XorAssociates(a, b, b);
    XorSelf(b);
    XorZero(a);
  }

  lemma {:induction false} XorStaysBelow(a: nat, b: nat, bits: nat)
    requires a < Pow2(bits) && b < Pow2(bits)
    ensures XorNat(a, b) < Pow2(bits)
    decreases bits
  {
    if bits > 0 {
      XorStaysBelow(a / 2, b / 2, bits - 1);
    }
  }

  /** A bit above both numbers is kept. */
  lemma {:induction false} XorKeepsTopBit(a: nat, b: nat, bits: nat)
    requires a < Pow2(bits) && b < Pow2(bits)
    ensures XorNat(a, Pow2(bits) + b) == Pow2(bits) + XorNat(a, b)
    decreases bits
  {
    if bits > 0 {
      XorKeepsTopBit(a / 2, b / 2, bits - 1);
      assert (Pow2(bits) + b) / 2 == Pow2(bits - 1) + b / 2;
    } else {
      assert XorNat(0, 1) == 1 + 2 * XorNat(0, 0);
    }
  }

  /** Exclusive or with all ones is the complement. */
  lemma {:induction false} XorOnes(a: nat, bits: nat)
    requires a < Pow2(bits)
    ensures XorNat(a, Pow2(bits) - 1) == Pow2(bits) - 1 - a
    decreases bits
  {
    if bits > 0 {
      XorOnes(a / 2, bits - 1);
      assert (Pow2(bits) - 1) / 2 == Pow2(bits - 1) - 1;
    }
  }

  lemma PowersOfTwo()
    ensures Pow2(8) == 256 && Pow2(31) == U32 / 2 && Pow2(32) == U32
  {
    assert Pow2(8) == 256;
    assert Pow2(16) == 0x1_0000;
    assert Pow2(24) == 0x100_0000;
    assert Pow2(31) == 0x8000_0000;
  }

  function Xor8(a: byte, b: byte): byte {
    PowersOfTwo();
    XorStaysBelow(a, b, 8);
    XorNat(a, b)
  }

  function Xor32(a: u32, b: u32): u32 {
    PowersOfTwo();
    XorStaysBelow(a, b, 32);
    XorNat(a, b)
  }

  function XorBytes(s: seq<byte>, t: seq<byte>): (r: seq<byte>)
    requires |s| == |t|
    ensures |r| == |s|
  {
    seq(|s|, i requires 0 <= i < |s| => Xor8(s[i], t[i]))
  }

  lemma XorBytesCancels(s: seq<byte>, t: seq<byte>)
    requires |s| == |t|
    ensures XorBytes(XorBytes(s, t), t) == s
  {
    forall i | 0 <= i < |s|
      ensures XorBytes(XorBytes(s, t), t)[i] == s[i]
    {
      XorCancels(s[i], t[i]);
    }
  }

  // Byte order

  function ToLe32(n: nat): (s: seq<byte>)
    requires n < U32
    ensures |s| == 4 && FromLe32(s) == n
  {
    DigitsRead(n);
    Digits(n, 4)
  }

  /** The `k` lowest digits to base 256, least first. */
  function Digits(n: nat, k: nat): (s: seq<byte>)
    ensures |s| == k
    decreases k, n
  {
    if k == 0 then [] else [n % 256] + Digits(n / 256, k - 1)
  }

  lemma DigitsAt(n: nat)
    ensures Digits(n, 4) == [n % 256, n / 256 % 256, n / 256 / 256 % 256, n / 256 / 256 / 256 % 256]
  {
    assert Digits(n / 256 / 256 / 256, 1) == [n / 256 / 256 / 256 % 256];
    assert Digits(n / 256 / 256, 2) == [n / 256 / 256 % 256] + Digits(n / 256 / 256 / 256, 1);
    assert Digits(n / 256, 3) == [n / 256 % 256] + Digits(n / 256 / 256, 2);
  }

  lemma DigitsRead(n: nat)
    requires n < U32
    ensures FromLe32(Digits(n, 4)) == n
  {
    DigitsAt(n);
    LeDigits(n);
  }

  lemma LeDigits(n: nat)
    requires n < U32
    ensures n / 256 / 256 / 256 < 256
    ensures n == n % 256 + 256 * (n / 256 % 256) + 65536 * (n / 256 / 256 % 256) + 16777216 * (n / 256 / 256 / 256)
  {
    var a, b, c := n / 256, n / 256 / 256, n / 256 / 256 / 256;
    assert n == 256 * a + n % 256;
    assert a == 256 * b + a % 256;
    assert b == 256 * c + b % 256;
  }

  function FromLe32(s: seq<byte>): (n: nat)
    requires |s| == 4
    ensures n < U32
  {
    s[0] as int + 256 * (s[1] as int) + 65536 * (s[2] as int) + 16777216 * (s[3] as int)
  }

  lemma LastDigit(a: byte, b: byte, x: int, y: int)
    requires a + 256 * x == b + 256 * y
    ensures a == b && x == y
  {
  }

  lemma Le32Injective(s: seq<byte>, t: seq<byte>)
    requires |s| == |t| == 4 && FromLe32(s) == FromLe32(t)
    ensures s == t
  {
    var x: int, y: int := (s[2] as int) + 256 * (s[3] as int), (t[2] as int) + 256 * (t[3] as int);
    LastDigit(s[0], t[0], (s[1] as int) + 256 * x, (t[1] as int) + 256 * y);
    LastDigit(s[1], t[1], x, y);
    LastDigit(s[2], t[2], s[3], t[3]);
  }

  /** The two's complement reading of a 32-bit word. */
  function AsI32(n: nat): int
    requires n < U32
  {
    if n < U32 / 2 then n else n - U32
  }

  function ToBe16(n: nat): (s: seq<byte>)
    requires n < U16
    ensures |s| == 2 && FromBe16(s) == n
  {
    [n / 256, n % 256]
  }

  function FromBe16(s: seq<byte>): (n: nat)
    requires |s| == 2
    ensures n < U16
  {
    256 * (s[0] as int) + s[1] as int
  }
}
