/** A stream cipher indexed by position: decrypting each piece once, in order, is
    decrypting the whole. */
module Keystream {
  import opened Bytes

  type Keys = nat -> byte

  function Apply(ks: Keys, pos: nat, s: seq<byte>): (r: seq<byte>)
    ensures |r| == |s|
  {
    seq(|s|, i requires 0 <= i < |s| => Xor8(s[i], ks(pos + i)))
  }

  lemma ApplyTwice(ks: Keys, pos: nat, s: seq<byte>)
    ensures Apply(ks, pos, Apply(ks, pos, s)) == s
  {
    forall i | 0 <= i < |s|
      ensures Apply(ks, pos, Apply(ks, pos, s))[i] == s[i]
    {
      XorCancels(s[i], ks(pos + i));
    }
  }

  lemma ApplyConcat(ks: Keys, pos: nat, a: seq<byte>, b: seq<byte>)
    ensures Apply(ks, pos, a + b) == Apply(ks, pos, a) + Apply(ks, pos + |a|, b)
  {
  }

  lemma ApplyPrefix(ks: Keys, pos: nat, a: seq<byte>, b: seq<byte>)
    requires a <= b
    ensures Apply(ks, pos, a) <= Apply(ks, pos, b)
  {
    assert b == a + b[|a|..];
    ApplyConcat(ks, pos, a, b[|a|..]);
  }
}
