/** Telegram's SRP two-factor check (ferogram-crypto's srp.rs): the proof the client
    computes is the one the server expects (section 2.6 of RFC 5054). */
module Srp {
  import opened Wrappers
  import opened Bytes
  import opened Seal
  import opened ModularArithmetic

  // Big-endian numbers

  function BeValue(s: seq<byte>): nat {
    if s == [] then 0 else 256 * BeValue(s[..|s| - 1]) + s[|s| - 1]
  }

  /** The shortest form; zero is one byte. */
  function ToBytesBe(n: nat): (s: seq<byte>)
    ensures s != []
  {
    if n < 256 then [n] else ToBytesBe(n / 256) + [n % 256]
  }

  lemma {:induction false} ToBytesRoundTrip(n: nat)
    ensures BeValue(ToBytesBe(n)) == n
  {
    if n < 256 {
      assert [n as byte][..0] == [];
    } else {
      ToBytesRoundTrip(n / 256);
      var s := ToBytesBe(n);
      assert s[..|s| - 1] == ToBytesBe(n / 256);
    }
  }

  lemma {:induction false} BeValueBound(s: seq<byte>)
    ensures BeValue(s) < Pow(256, |s|)
  {
    if s != [] {
      BeValueBound(s[..|s| - 1]);
    }
  }

  lemma {:induction false} ToBytesLength(n: nat, k: nat)
    requires 1 <= k && n < Pow(256, k)
    ensures |ToBytesBe(n)| <= k
    decreases k
  {
    if n >= 256 {
      assert k > 1 by {
        assert Pow(256, 1) == 256 * Pow(256, 0);
      }
      assert n / 256 < Pow(256, k - 1);
      ToBytesLength(n / 256, k - 1);
    }
  }

  const PADDED := 256

  function Zeros(n: nat): (s: seq<byte>)
    ensures |s| == n
  {
    seq(n, _ => 0)
  }

  /** The last 256 bytes, with zeros in front. */
  function Pad256(data: seq<byte>): (s: seq<byte>)
    ensures |s| == PADDED
  {
    if |data| <= PADDED then Zeros(PADDED - |data|) + data else data[|data| - PADDED..]
  }

  method PadTo256(data: seq<byte>) returns (out: array<byte>)
    ensures fresh(out) && out[..] == Pad256(data)
  {
    out := new byte[PADDED](_ => 0);
    var start := if |data| <= PADDED then PADDED - |data| else 0;
    var from := if |data| <= PADDED then 0 else |data| - PADDED;
    forall i | start <= i < PADDED {
      out[i] := data[from + i - start];
    }
    assert out[..start] == Zeros(start);
    assert out[start..] == data[from..];
  }

  lemma {:induction false} ZerosAddNothing(n: nat, s: seq<byte>)
    ensures BeValue(Zeros(n) + s) == BeValue(s)
    decreases |s|, n
  {
    var z := Zeros(n) + s;
    if s != [] {
      ZerosAddNothing(n, s[..|s| - 1]);
      assert z[..|z| - 1] == Zeros(n) + s[..|s| - 1];
    } else if n > 0 {
      ZerosAddNothing(n - 1, []);
      assert z[..|z| - 1] == Zeros(n - 1) + [];
    }
  }

  /** Padding keeps the value of up to 256 bytes. */
  lemma PaddingKeepsTheValue(data: seq<byte>)
    requires |data| <= PADDED
    ensures BeValue(Pad256(data)) == BeValue(data)
  {
    ZerosAddNothing(PADDED - |data|, data);
  }

  method Xor32(a: seq<byte>, b: seq<byte>) returns (out: array<byte>)
    requires |a| == |b| == 32
    ensures fresh(out) && out[..] == XorBytes(a, b)
  {
    out := new byte[32](_ => 0);
    for i := 0 to 32
      invariant forall j :: 0 <= j < i ==> out[j] == Xor8(a[j], b[j])
    {
      out[i] := Xor8(a[i], b[i]);
    }
  }

  // The client's computation

  datatype Hashes = Hashes(sha256: seq<byte> -> Digest, pbkdf2: (seq<byte>, seq<byte>) -> seq<byte>)

  function SaltedHash(h: Hashes, data: seq<byte>, salt: seq<byte>): Digest {
    h.sha256(salt + data + salt)
  }

  function PasswordHash1(h: Hashes, password: seq<byte>, salt1: seq<byte>, salt2: seq<byte>): Digest {
    SaltedHash(h, SaltedHash(h, password, salt1), salt2)
  }

  function PasswordHash2(h: Hashes, password: seq<byte>, salt1: seq<byte>, salt2: seq<byte>): Digest {
    SaltedHash(h, h.pbkdf2(PasswordHash1(h, password, salt1, salt2), salt1), salt2)
  }

  /** What client and server both know: the group, the salts, and the hashes. */
  datatype Params = Params(salt1: seq<byte>, salt2: seq<byte>, p: seq<byte>, g: int)

  function Modulus(c: Params): nat {
    BeValue(c.p)
  }

  /** The generator is cast to 32 bits as a number and to 8 bits in hashes. */
  function Generator(c: Params): nat {
    c.g % U32
  }

  function GeneratorBytes(c: Params): seq<byte> {
    Pad256([c.g % 256])
  }

  function Multiplier(h: Hashes, c: Params): nat {
    BeValue(h.sha256(c.p + GeneratorBytes(c)))
  }

  function Scrambler(h: Hashes, gA: seq<byte>, gB: seq<byte>): nat {
    BeValue(h.sha256(gA + gB))
  }

  /** Strictly between 1 and p - 1. */
  predicate InRange(value: nat, p: nat) {
    1 < value < p - 1
  }

  function SharedHash(h: Hashes, secret: nat): Digest {
    h.sha256(Pad256(ToBytesBe(secret)))
  }

  function Proof(h: Hashes, c: Params, gA: seq<byte>, gB: seq<byte>, shared: Digest): Digest {
    h.sha256(XorBytes(h.sha256(c.p), h.sha256(GeneratorBytes(c)))
             + h.sha256(c.salt1) + h.sha256(c.salt2) + gA + gB + shared)
  }

  datatype SrpError = GbOutOfRange | GaOutOfRange

  datatype Answer = Answer(m1: Digest, gA: seq<byte>)

  function PublicA(c: Params, a: nat): seq<byte>
    requires Modulus(c) > 0
  {
    PowIsNat(Generator(c), a);
    Pad256(ToBytesBe(Pow(Generator(c), a) % Modulus(c)))
  }

  lemma {:induction false} PowIsNat(n: nat, e: nat)
    ensures Pow(n, e) >= 0
  {
    if e > 0 {
      PowIsNat(n, e - 1);
    }
  }

  /** The secret as the client computes it: (B - k v)^(a + u x) mod p. */
  function ClientSecret(p: nat, k: nat, g: nat, gB: nat, a: nat, u: nat, x: nat): nat
    requires p > 0
  {
    var v := Pow(g, x) % p;
    var kv := (k * v) % p;
    var t := (gB - kv) % p;
    PowIsNat(t, a + u * x);
    Pow(t, a + u * x) % p
  }

  function Calculate2fa(h: Hashes, c: Params, gbBytes: seq<byte>, aBytes: seq<byte>, password: seq<byte>)
    : Result<Answer, SrpError>
  {
    var p := Modulus(c);
    var gB := Pad256(gbBytes);
    var a := BeValue(Pad256(aBytes));
    if !InRange(BeValue(gB), p) then Err(GbOutOfRange)
    else
      var gA := PublicA(c, a);
      if !InRange(BeValue(gA), p) then Err(GaOutOfRange)
      else
        var x := BeValue(PasswordHash2(h, password, c.salt1, c.salt2));
        var secret := ClientSecret(p, Multiplier(h, c), Generator(c), BeValue(gB), a, Scrambler(h, gA, gB), x);
        Ok(Answer(Proof(h, c, gA, gB, SharedHash(h, secret)), gA))
  }

  // The server's side, from the protocol

  /** The generator's low byte behind 255 zeros. */
  function GeneratorBlock(c: Params): seq<byte> {
    seq(PADDED, i => if i == PADDED - 1 then c.g % 256 else 0)
  }

  /** What the server keeps of a password: g^x mod p, where x comes out of two salted
      hashes, the key stretching, and one more salted hash. */
  function Verifier(h: Hashes, c: Params, password: seq<byte>): nat
    requires Modulus(c) > 0
  {
    var once := h.sha256(c.salt1 + password + c.salt1);
    var twice := h.sha256(c.salt2 + once + c.salt2);
    var x := BeValue(h.sha256(c.salt2 + h.pbkdf2(twice, c.salt1) + c.salt2));
    PowIsNat(Generator(c), x);
    Pow(Generator(c), x) % Modulus(c)
  }

  /** The proof the server expects, from a secret of 256 bytes. */
  function ExpectedProof(h: Hashes, c: Params, gA: seq<byte>, gB: seq<byte>, secret: seq<byte>): Digest {
    var hp, hg := h.sha256(c.p), h.sha256(GeneratorBlock(c));
    var mixed := seq(32, i requires 0 <= i < 32 => Xor8(hp[i], hg[i]));
    h.sha256(mixed + h.sha256(c.salt1) + h.sha256(c.salt2) + gA + gB + h.sha256(secret))
  }

  /** B = k v + g^b mod p. */
  function ServerPublic(p: nat, k: nat, g: nat, v: nat, b: nat): nat
    requires p > 0
  {
    PowIsNat(g, b);
    (k * v + Pow(g, b)) % p
  }

  /** The secret as the server computes it: (A v^u)^b mod p. */
  function ServerSecret(p: nat, v: nat, gA: nat, u: nat, b: nat): int
    requires p > 0
  {
    Pow(gA * Pow(v, u), b) % p
  }

  /** What is left of B after the client takes k v off: g^b, also when the difference is
      negative. */
  lemma ClientRecoversPower(p: nat, k: nat, g: nat, v: nat, b: nat)
    requires p > 0
    ensures (ServerPublic(p, k, g, v, b) - (k * v) % p) % p == Pow(g, b) % p
  {
    PowIsNat(g, b);
    DifferenceMod(k * v + Pow(g, b), k * v, p);
  }

  lemma ClientPower(p: nat, k: nat, g: nat, a: nat, b: nat, u: nat, x: nat)
    requires p > 0
    ensures var v := Pow(g, x) % p;
            ClientSecret(p, k, g, ServerPublic(p, k, g, v, b), a, u, x) == Pow(Pow(g, b), a + u * x) % p
  {
    PowIsNat(g, x);
    ClientRecoversPower(p, k, g, Pow(g, x) % p, b);
    PowMod(Pow(g, b), a + u * x, p);
  }

  lemma ServerPower(p: nat, g: nat, a: nat, b: nat, u: nat, x: nat)
    requires p > 0
    ensures ServerSecret(p, Pow(g, x) % p, Pow(g, a) % p, u, b) == Pow(Pow(g, a) * Pow(Pow(g, x), u), b) % p
  {
    ProductPowers(Pow(g, a), Pow(g, x), u, b, p);
  }

  lemma SamePower(g: int, a: nat, b: nat, u: nat, x: nat)
    ensures Pow(Pow(g, b), a + u * x) == Pow(Pow(g, a) * Pow(Pow(g, x), u), b)
  {
    var e := a + u * x;
    PowMul(g, x, u);
    assert x * u == u * x;
    PowAdd(g, a, u * x);
    PowMul(g, e, b);
    PowMul(g, b, e);
    assert e * b == b * e;
  }

  /** Client and server arrive at the same secret, for all exponents and moduli. */
  lemma SecretsAgree(p: nat, k: nat, g: nat, a: nat, b: nat, u: nat, x: nat)
    requires p > 0
    ensures var v := Pow(g, x) % p;
            ClientSecret(p, k, g, ServerPublic(p, k, g, v, b), a, u, x) == ServerSecret(p, v, Pow(g, a) % p, u, b)
  {
    ClientPower(p, k, g, a, b, u, x);
    ServerPower(p, g, a, b, u, x);
    SamePower(g, a, b, u, x);
  }

  /** The padded public value is the value, for a modulus of up to 256 bytes. */
  lemma PublicAValue(c: Params, a: nat)
    requires 0 < |c.p| <= PADDED && Modulus(c) > 0
    ensures BeValue(PublicA(c, a)) == Pow(Generator(c), a) % Modulus(c)
  {
    PowIsNat(Generator(c), a);
    var n: nat := Pow(Generator(c), a) % Modulus(c);
    BeValueBound(c.p);
    ToBytesLength(n, |c.p|);
    PaddingKeepsTheValue(ToBytesBe(n));
    ToBytesRoundTrip(n);
  }

  lemma GeneratorIsPadded(c: Params)
    ensures GeneratorBytes(c) == GeneratorBlock(c)
  {
    assert [c.g % 256][0] == c.g % 256;
  }

  lemma LastByte(x: nat, y: nat, a: byte, b: byte)
    requires 256 * x + a == 256 * y + b
    ensures x == y && a == b
  {
  }

  /** Bytes of one length with one value are the same. */
  lemma {:induction false} SameValue(s: seq<byte>, t: seq<byte>)
    requires |s| == |t| && BeValue(s) == BeValue(t)
    ensures s == t
  {
    if s != [] {
      var n := |s| - 1;
      LastByte(BeValue(s[..n]), BeValue(t[..n]), s[n], t[n]);
      SameValue(s[..n], t[..n]);
      assert s == s[..n] + [s[n]] && t == t[..n] + [t[n]];
    }
  }

  lemma ProofIsExpected(h: Hashes, c: Params, gA: seq<byte>, gB: seq<byte>, value: nat, secret: seq<byte>)
    requires value < Pow(256, PADDED) && |secret| == PADDED && BeValue(secret) == value
    ensures Proof(h, c, gA, gB, SharedHash(h, value)) == ExpectedProof(h, c, gA, gB, secret)
  {
    GeneratorIsPadded(c);
    ToBytesLength(value, PADDED);
    ToBytesRoundTrip(value);
    PaddingKeepsTheValue(ToBytesBe(value));
    SameValue(secret, Pad256(ToBytesBe(value)));
  }

  lemma VerifierIsPower(h: Hashes, c: Params, password: seq<byte>)
    requires Modulus(c) > 0
    ensures Verifier(h, c, password)
        == Pow(Generator(c), BeValue(PasswordHash2(h, password, c.salt1, c.salt2))) % Modulus(c)
  {
  }

  lemma {:induction false} PowGrows(m: nat, n: nat)
    requires m <= n
    ensures Pow(256, m) <= Pow(256, n)
    decreases n
  {
    if m < n {
      PowGrows(m, n - 1);
      PowIsNat(256, n - 1);
    }
  }

  /** The proof the client sends is the one the server expects, for every password, salt,
      and choice of exponents: the server knows the verifier it kept, its own exponent
      and what was sent, and writes its secret in 256 bytes. */
  lemma ServerAcceptsTheProof(h: Hashes, c: Params, gbBytes: seq<byte>, aBytes: seq<byte>, password: seq<byte>, b: nat,
                              secret: seq<byte>)
    requires 0 < |c.p| <= PADDED && Modulus(c) > 0
    requires BeValue(Pad256(gbBytes))
             == ServerPublic(Modulus(c), BeValue(h.sha256(c.p + GeneratorBlock(c))), Generator(c), Verifier(h, c,
                 password), b)
    requires Calculate2fa(h, c, gbBytes, aBytes, password).Ok?
    requires var gA := Calculate2fa(h, c, gbBytes, aBytes, password).value.gA;
             |secret| == PADDED && BeValue(secret)
             == ServerSecret(Modulus(c), Verifier(h, c, password), BeValue(gA),
                 BeValue(h.sha256(gA + Pad256(gbBytes))), b)
    ensures var r := Calculate2fa(h, c, gbBytes, aBytes, password).value;
            r.m1 == ExpectedProof(h, c, r.gA, Pad256(gbBytes), secret)
  {
    var a := BeValue(Pad256(aBytes));
    var gA, gB := PublicA(c, a), Pad256(gbBytes);
    var x := BeValue(PasswordHash2(h, password, c.salt1, c.salt2));
    GeneratorIsPadded(c);
    VerifierIsPower(h, c, password);
    PublicAValue(c, a);
    SecretsAgree(Modulus(c), Multiplier(h, c), Generator(c), a, b, Scrambler(h, gA, gB), x);
    BeValueBound(c.p);
    PowGrows(|c.p|, PADDED);
    ProofIsExpected(h, c, gA, gB, BeValue(secret), secret);
  }
}
