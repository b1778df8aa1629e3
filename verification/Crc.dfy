/** The two CRC-32 programs of the repository: the transport's (ferogram-connect's
    util.rs) consumes the data bit by bit beside the register, the schema parser's
    (ferogram-tl-parser's utils.rs) folds a whole byte in first. */
module Crc {
  import opened Bytes

  const POLY: u32 := 0xedb88320
  const ONES: u32 := 0xffffffff

  /** The polynomial x^32 + x^26 + x^23 + x^22 + x^16 + x^12 + x^11 + x^10 + x^8 + x^7 + x^5
      + x^4 + x^2 + x + 1 with its highest power left out and its bits turned round. */
  lemma PolynomialOfIeee()
    ensures POLY == Pow2(31 - 26) + Pow2(31 - 23) + Pow2(31 - 22) + Pow2(31 - 16) + Pow2(31 - 12) + Pow2(31 - 11)
        + Pow2(31 - 10)
                    + Pow2(31 - 8) + Pow2(31 - 7) + Pow2(31 - 5) + Pow2(31 - 4) + Pow2(31 - 2) + Pow2(31 - 1) + Pow2(31)
  {
    assert Pow2(5) == 32;
    assert Pow2(9) == 0x200;
    assert Pow2(15) == 0x8000;
    assert Pow2(21) == 0x20_0000;
    assert Pow2(27) == 0x800_0000;
    assert Pow2(31) == 0x8000_0000;
  }

  /** One shift of the register. */
  function Shift(c: u32): u32 {
    if c % 2 == 1 then Xor32(c / 2, POLY) else c / 2
  }

  function ShiftN(c: u32, n: nat): u32
    decreases n
  {
    if n == 0 then c else ShiftN(Shift(c), n - 1)
  }

  /** The register after `data`, from `c`, with `n` shifts a byte. */
  function Register(c: u32, data: seq<byte>, n: nat): u32
    decreases |data|
  {
    if data == [] then c else Register(ShiftN(Xor32(c, data[0]), n), data[1..], n)
  }

  function Crc32(data: seq<byte>): u32 {
    Xor32(Register(ONES, data, 8), ONES)
  }

  // The two programs

  lemma FeedIsShift(c: u32, b: u32)
    ensures Xor32(c, b) % 2 == 1 ==> Xor32(Xor32(c / 2, POLY), b / 2) == Shift(Xor32(c, b))
    ensures Xor32(c, b) % 2 == 0 ==> Xor32(c / 2, b / 2) == Shift(Xor32(c, b))
  {
    XorStep(c, b);
    XorAssociates(c / 2, POLY, b / 2);
    XorCommutes(POLY, b / 2);
    XorAssociates(c / 2, b / 2, POLY);
  }

  function Halve(b: nat, n: nat): nat {
    if n == 0 then b else Halve(b / 2, n - 1)
  }

  lemma {:induction false} HalvedAway(b: nat, n: nat)
    requires b < Pow2(n)
    ensures Halve(b, n) == 0
    decreases n
  {
    if n > 0 {
      HalvedAway(b / 2, n - 1);
    }
  }

  /** The inner loop of the transport's program. */
  method FeedBits(start: u32, data: u32, n: nat) returns (crc: u32)
    requires data < Pow2(n)
    ensures crc == ShiftN(Xor32(start, data), n)
  {
    HalvedAway(data, n);
    crc := start;
    var b := data;
    for j := 0 to n
      invariant Halve(b, n - j) == 0 && ShiftN(Xor32(crc, b), n - j) == ShiftN(Xor32(start, data), n)
    {
      FeedIsShift(crc, b);
      var mix := Xor32(crc, b) % 2;
      crc := crc / 2;
      if mix != 0 {
        crc := Xor32(crc, POLY);
      }
      b := b / 2;
    }
    XorZero(crc);
  }

  method Crc32Ieee(data: seq<byte>) returns (n: u32)
    ensures n == Crc32(data)
  {
    var crc: u32 := ONES;
    for i := 0 to |data|
      invariant Register(crc, data[i..], 8) == Register(ONES, data, 8)
    {
      PowersOfTwo();
      crc := FeedBits(crc, data[i], 8);
    }
    n := Xor32(crc, ONES);
  }

  method Crc32Tl(data: seq<byte>) returns (n: u32)
    ensures n == Crc32(data)
  {
    var crc: u32 := ONES;
    for i := 0 to |data|
      invariant Register(crc, data[i..], 8) == Register(ONES, data, 8)
    {
      crc := Xor32(crc, data[i]);
      ghost var start := crc;
      for j := 0 to 8
        invariant ShiftN(crc, 8 - j) == ShiftN(start, 8)
      {
        if crc % 2 != 0 {
          crc := Xor32(crc / 2, POLY);
        } else {
          crc := crc / 2;
        }
      }
    }
    PowersOfTwo();
    XorOnes(crc, 32);
    n := ONES - crc;
  }

  // Error detection

  lemma Xor32Injective(c: u32, d: u32, m: u32)
    requires Xor32(c, m) == Xor32(d, m)
    ensures c == d
  {
    XorCancels(c, m);
    XorCancels(d, m);
  }

  /** The top bit tells whether the polynomial was mixed in. */
  lemma ShiftTopBit(c: u32)
    ensures Shift(c) >= U32 / 2 <==> c % 2 == 1
  {
    PowersOfTwo();
    if c % 2 == 1 {
      XorKeepsTopBit(c / 2, POLY - U32 / 2, 31);
    }
  }

  lemma ShiftInjective(c: u32, d: u32)
    requires Shift(c) == Shift(d)
    ensures c == d
  {
    ShiftTopBit(c);
    ShiftTopBit(d);
    if c % 2 == 1 {
      Xor32Injective(c / 2, d / 2, POLY);
    }
  }

  lemma {:induction false} ShiftNInjective(c: u32, d: u32, n: nat)
    requires ShiftN(c, n) == ShiftN(d, n)
    ensures c == d
    decreases n
  {
    if n > 0 {
      ShiftNInjective(Shift(c), Shift(d), n - 1);
      ShiftInjective(c, d);
    }
  }

  /** The register update is injective in the register and in the data. */
  lemma StepInjective(c: u32, d: u32, x: u32, y: u32, n: nat)
    requires ShiftN(Xor32(c, x), n) == ShiftN(Xor32(d, y), n)
    ensures c == d <==> x == y
  {
    ShiftNInjective(Xor32(c, x), Xor32(d, y), n);
    if x == y {
      Xor32Injective(c, d, x);
    }
    if c == d {
      XorCommutes(c, x);
      XorCommutes(d, y);
      Xor32Injective(x, y, c);
    }
  }

  lemma {:induction false} RegisterInjective(c: u32, d: u32, data: seq<byte>, n: nat)
    requires Register(c, data, n) == Register(d, data, n)
    ensures c == d
    decreases |data|
  {
    if data != [] {
      RegisterInjective(ShiftN(Xor32(c, data[0]), n), ShiftN(Xor32(d, data[0]), n), data[1..], n);
      StepInjective(c, d, data[0], data[0], n);
    }
  }

  lemma {:induction false} OneByteChangesRegister(c: u32, data: seq<byte>, i: nat, b: byte, n: nat)
    requires i < |data| && Register(c, data[i := b], n) == Register(c, data, n)
    ensures data[i] == b
    decreases |data|
  {
    if i == 0 {
      assert data[i := b][1..] == data[1..];
      RegisterInjective(ShiftN(Xor32(c, b), n), ShiftN(Xor32(c, data[0]), n), data[1..], n);
      StepInjective(c, c, b, data[0], n);
    } else {
      assert data[i := b][1..] == data[1..][i - 1 := b];
      OneByteChangesRegister(ShiftN(Xor32(c, data[0]), n), data[1..], i - 1, b, n);
    }
  }

  /** Changing any one byte of a string of any length changes its CRC. */
  lemma OneByteChangesCrc(data: seq<byte>, i: nat, b: byte)
    requires i < |data| && data[i] != b
    ensures Crc32(data[i := b]) != Crc32(data)
  {
    if Crc32(data[i := b]) == Crc32(data) {
      Xor32Injective(Register(ONES, data[i := b], 8), Register(ONES, data, 8), ONES);
      OneByteChangesRegister(ONES, data, i, b, 8);
    }
  }
}
