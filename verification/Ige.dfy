/** Infinite garble extension over an abstract block permutation, in place
    (ferogram-crypto's aes.rs). */
module Ige {
  import opened Bytes

  const BLOCK := 16

  predicate IsBlock(s: seq<byte>) {
    |s| == BLOCK
  }

  type Block = s: seq<byte> | IsBlock(s) witness seq(BLOCK, _ => 0)

  type Permutation = Block -> Block

  /** `inverse` undoes `forward` on every block. */
  ghost predicate Undoes(inverse: Permutation, forward: Permutation) {
    forall b: Block :: inverse(forward(b)) == b
  }

  predicate Whole(s: seq<byte>) {
    |s| % BLOCK == 0
  }

  function Encrypted(e: Permutation, iv1: Block, iv2: Block, s: seq<byte>): (r: seq<byte>)
    requires Whole(s)
    ensures |r| == |s|
    decreases |s|
  {
    if s == [] then []
    else
      var c := XorBytes(e(XorBytes(s[..BLOCK], iv1)), iv2);
      c + Encrypted(e, c, s[..BLOCK], s[BLOCK..])
  }

  function Decrypted(d: Permutation, iv1: Block, iv2: Block, s: seq<byte>): (r: seq<byte>)
    requires Whole(s)
    ensures |r| == |s|
    decreases |s|
  {
    if s == [] then []
    else
      var p := XorBytes(d(XorBytes(s[..BLOCK], iv2)), iv1);
      p + Decrypted(d, s[..BLOCK], p, s[BLOCK..])
  }

  /** One block there and back. */
  lemma BlockUndone(f: Permutation, g: Permutation, a: Block, b: Block, s: Block)
    requires Undoes(g, f)
    ensures XorBytes(g(XorBytes(XorBytes(f(XorBytes(s, a)), b), b)), a) == s
  {
    XorBytesCancels(f(XorBytes(s, a)), b);
    XorBytesCancels(s, a);
  }

  lemma {:induction false} DecryptUndoesEncrypt(e: Permutation, d: Permutation, iv1: Block, iv2: Block, s: seq<byte>)
    requires Undoes(d, e) && Whole(s)
    ensures Decrypted(d, iv1, iv2, Encrypted(e, iv1, iv2, s)) == s
    decreases |s|
  {
    if s != [] {
      var p := s[..BLOCK];
      var c := XorBytes(e(XorBytes(p, iv1)), iv2);
      var rest := Encrypted(e, c, p, s[BLOCK..]);
      assert (c + rest)[..BLOCK] == c && (c + rest)[BLOCK..] == rest;
      BlockUndone(e, d, iv1, iv2, p);
      DecryptUndoesEncrypt(e, d, c, p, s[BLOCK..]);
    }
  }

  lemma {:induction false} EncryptUndoesDecrypt(e: Permutation, d: Permutation, iv1: Block, iv2: Block, s: seq<byte>)
    requires Undoes(e, d) && Whole(s)
    ensures Encrypted(e, iv1, iv2, Decrypted(d, iv1, iv2, s)) == s
    decreases |s|
  {
    if s != [] {
      var c := s[..BLOCK];
      var p := XorBytes(d(XorBytes(c, iv2)), iv1);
      var rest := Decrypted(d, c, p, s[BLOCK..]);
      assert (p + rest)[..BLOCK] == p && (p + rest)[BLOCK..] == rest;
      BlockUndone(d, e, iv2, iv1, c);
      EncryptUndoesDecrypt(e, d, c, p, s[BLOCK..]);
    }
  }

  // In place

  /** Everything outside [lo, hi) is as in `was`. */
  ghost predicate OnlyWithin(now: seq<byte>, was: seq<byte>, lo: nat, hi: nat)
    requires lo <= hi <= |was|
  {
    |now| == |was| && now[..lo] == was[..lo] && now[hi..] == was[hi..]
  }

  method XorInto(a: array<byte>, at: nat, v: Block)
    requires at + BLOCK <= a.Length
    modifies a
    ensures a[at..at + BLOCK] == XorBytes(old(a[at..at + BLOCK]), v)
    ensures OnlyWithin(a[..], old(a[..]), at, at + BLOCK)
  {
    for i := 0 to BLOCK
      invariant forall k :: 0 <= k < a.Length && !(at <= k < at + i) ==> a[k] == old(a[k])
      invariant forall k :: 0 <= k < i ==> a[at + k] == Xor8(old(a[at + k]), v[k])
    {
      a[at + i] := Xor8(a[at + i], v[i]);
    }
    assert a[at..at + BLOCK] == XorBytes(old(a[at..at + BLOCK]), v);
  }

  method Store(a: array<byte>, at: nat, b: Block)
    requires at + BLOCK <= a.Length
    modifies a
    ensures a[at..at + BLOCK] == b && OnlyWithin(a[..], old(a[..]), at, at + BLOCK)
  {
    forall i | 0 <= i < BLOCK {
      a[at + i] := b[i];
    }
  }

  /** One block of the loop: mix, permute, mix. */
  method PermuteBlock(a: array<byte>, at: nat, f: Permutation, before: Block, after: Block)
    requires at + BLOCK <= a.Length
    modifies a
    ensures a[at..at + BLOCK] == XorBytes(f(XorBytes(old(a[at..at + BLOCK]), before)), after)
    ensures OnlyWithin(a[..], old(a[..]), at, at + BLOCK)
  {
    XorInto(a, at, before);
    var b := a[at..at + BLOCK];
    Store(a, at, f(b));
    XorInto(a, at, after);
  }

  /** The part of `a` up to `i` is done: it and the rest make the whole. */
  ghost predicate DoneUpTo(a: seq<byte>, was: seq<byte>, lo: nat, i: nat, hi: nat, done: seq<byte>, rest: seq<byte>)
    requires lo <= i <= hi <= |was| && |a| == |was|
  {
    && a[..lo] == was[..lo] && a[i..] == was[i..]
    && a[lo..i] + rest == done
  }

  lemma OneMoreBlock(a: seq<byte>, next: seq<byte>, was: seq<byte>, lo: nat, i: nat, hi: nat, done: seq<byte>, rest: seq<byte>)
    requires lo <= i && i + BLOCK <= hi <= |was| && |a| == |next| == |was|
    requires OnlyWithin(next, a, i, i + BLOCK)
    requires DoneUpTo(a, was, lo, i, hi, done, next[i..i + BLOCK] + rest)
    ensures DoneUpTo(next, was, lo, i + BLOCK, hi, done, rest)
  {
    assert next[lo..i + BLOCK] == a[lo..i] + next[i..i + BLOCK] by {
      assert next[lo..i] == next[..i][lo..] == a[..i][lo..];
    }
    assert (a[lo..i] + next[i..i + BLOCK]) + rest == a[lo..i] + (next[i..i + BLOCK] + rest);
    assert next[..lo] == next[..i][..lo];
    assert next[i + BLOCK..] == a[i..][BLOCK..];
  }

  lemma NothingDone(was: seq<byte>, lo: nat, hi: nat, done: seq<byte>)
    requires lo <= hi <= |was|
    ensures DoneUpTo(was, was, lo, lo, hi, done, done)
  {
  }

  lemma AllDone(a: seq<byte>, was: seq<byte>, lo: nat, hi: nat, done: seq<byte>)
    requires lo <= hi <= |was| && |a| == |was| && DoneUpTo(a, was, lo, hi, hi, done, [])
    ensures a[lo..hi] == done && OnlyWithin(a, was, lo, hi)
  {
    assert a[lo..hi] + [] == a[lo..hi];
  }

  lemma FirstBlock(a: seq<byte>, was: seq<byte>, i: nat, hi: nat)
    requires i + BLOCK <= hi <= |was| && |a| == |was| && a[i..] == was[i..]
    ensures was[i..hi][..BLOCK] == a[i..i + BLOCK] && was[i..hi][BLOCK..] == was[i + BLOCK..hi]
  {
    assert a[i..i + BLOCK] == a[i..][..BLOCK] == was[i..i + BLOCK];
  }

  /** One round of the loop: the block at `i` is replaced, the initialization vectors move on. */
  method EncryptStep(a: array<byte>, lo: nat, i: nat, hi: nat, e: Permutation, iv1: Block, iv2: Block,
                     ghost was: seq<byte>, ghost todo: seq<byte>, ghost done: seq<byte>)
    returns (next1: Block, next2: Block)
    requires lo <= i && i + BLOCK <= hi <= a.Length == |was| && todo == was[i..hi] && Whole(todo)
    requires DoneUpTo(a[..], was, lo, i, hi, done, Encrypted(e, iv1, iv2, todo))
    modifies a
    ensures DoneUpTo(a[..], was, lo, i + BLOCK, hi, done, Encrypted(e, next1, next2, todo[BLOCK..]))
  {
    FirstBlock(a[..], was, i, hi);
    ghost var before := a[..];
    next2 := a[i..i + BLOCK];
    PermuteBlock(a, i, e, iv1, iv2);
    next1 := a[i..i + BLOCK];
    assert a[..][i..i + BLOCK] == next1;
    OneMoreBlock(before, a[..], was, lo, i, hi, done, Encrypted(e, next1, next2, todo[BLOCK..]));
  }

  lemma NoBlockLeft(s: seq<byte>, e: Permutation, iv1: Block, iv2: Block)
    requires |s| == 0
    ensures Encrypted(e, iv1, iv2, s) == Decrypted(e, iv1, iv2, s) == []
  {
  }

  lemma OneBlockLess(was: seq<byte>, i: nat, hi: nat, todo: seq<byte>)
    requires i < hi <= |was| && todo == was[i..hi] && Whole(todo)
    ensures i + BLOCK <= hi && |todo| >= BLOCK && todo[BLOCK..] == was[i + BLOCK..hi] && Whole(todo[BLOCK..])
  {
  }

  method EncryptBlocks(a: array<byte>, lo: nat, hi: nat, e: Permutation, start1: Block, start2: Block,
                       ghost was: seq<byte>, ghost done: seq<byte>)
    requires lo <= hi <= a.Length == |was| && Whole(was[lo..hi])
    requires DoneUpTo(a[..], was, lo, lo, hi, done, Encrypted(e, start1, start2, was[lo..hi]))
    modifies a
    ensures DoneUpTo(a[..], was, lo, hi, hi, done, [])
  {
    var iv1, iv2, i := start1, start2, lo;
    ghost var todo := was[lo..hi];
    while i < hi
      invariant lo <= i <= hi && todo == was[i..hi] && Whole(todo)
      invariant DoneUpTo(a[..], was, lo, i, hi, done, Encrypted(e, iv1, iv2, todo))
    {
      OneBlockLess(was, i, hi, todo);
      iv1, iv2 := EncryptStep(a, lo, i, hi, e, iv1, iv2, was, todo, done);
      i, todo := i + BLOCK, todo[BLOCK..];
    }
    NoBlockLeft(todo, e, iv1, iv2);
  }

  method IgeEncrypt(a: array<byte>, lo: nat, hi: nat, e: Permutation, iv: seq<byte>)
    requires lo <= hi <= a.Length && (hi - lo) % BLOCK == 0 && |iv| == 2 * BLOCK
    modifies a
    ensures a[lo..hi] == Encrypted(e, iv[..BLOCK], iv[BLOCK..], old(a[lo..hi]))
    ensures OnlyWithin(a[..], old(a[..]), lo, hi)
  {
    ghost var was := a[..];
    ghost var done := Encrypted(e, iv[..BLOCK], iv[BLOCK..], was[lo..hi]);
    NothingDone(was, lo, hi, done);
    EncryptBlocks(a, lo, hi, e, iv[..BLOCK], iv[BLOCK..], was, done);
    AllDone(a[..], was, lo, hi, done);
    assert a[..][lo..hi] == a[lo..hi] && was[lo..hi] == old(a[lo..hi]);
  }

  /** One round of the loop: the block at `i` is replaced, the initialization vectors move on. */
  method DecryptStep(a: array<byte>, lo: nat, i: nat, hi: nat, d: Permutation, iv1: Block, iv2: Block,
                     ghost was: seq<byte>, ghost todo: seq<byte>, ghost done: seq<byte>)
    returns (next1: Block, next2: Block)
    requires lo <= i && i + BLOCK <= hi <= a.Length == |was| && todo == was[i..hi] && Whole(todo)
    requires DoneUpTo(a[..], was, lo, i, hi, done, Decrypted(d, iv1, iv2, todo))
    modifies a
    ensures DoneUpTo(a[..], was, lo, i + BLOCK, hi, done, Decrypted(d, next1, next2, todo[BLOCK..]))
  {
    FirstBlock(a[..], was, i, hi);
    ghost var before := a[..];
    next1 := a[i..i + BLOCK];
    PermuteBlock(a, i, d, iv2, iv1);
    next2 := a[i..i + BLOCK];
    assert a[..][i..i + BLOCK] == next2;
    OneMoreBlock(before, a[..], was, lo, i, hi, done, Decrypted(d, next1, next2, todo[BLOCK..]));
  }

  method DecryptBlocks(a: array<byte>, lo: nat, hi: nat, d: Permutation, start1: Block, start2: Block,
                       ghost was: seq<byte>, ghost done: seq<byte>)
    requires lo <= hi <= a.Length == |was| && Whole(was[lo..hi])
    requires DoneUpTo(a[..], was, lo, lo, hi, done, Decrypted(d, start1, start2, was[lo..hi]))
    modifies a
    ensures DoneUpTo(a[..], was, lo, hi, hi, done, [])
  {
    var iv1, iv2, i := start1, start2, lo;
    ghost var todo := was[lo..hi];
    while i < hi
      invariant lo <= i <= hi && todo == was[i..hi] && Whole(todo)
      invariant DoneUpTo(a[..], was, lo, i, hi, done, Decrypted(d, iv1, iv2, todo))
    {
      OneBlockLess(was, i, hi, todo);
      iv1, iv2 := DecryptStep(a, lo, i, hi, d, iv1, iv2, was, todo, done);
      i, todo := i + BLOCK, todo[BLOCK..];
    }
    NoBlockLeft(todo, d, iv1, iv2);
  }

  method IgeDecrypt(a: array<byte>, lo: nat, hi: nat, d: Permutation, iv: seq<byte>)
    requires lo <= hi <= a.Length && (hi - lo) % BLOCK == 0 && |iv| == 2 * BLOCK
    modifies a
    ensures a[lo..hi] == Decrypted(d, iv[..BLOCK], iv[BLOCK..], old(a[lo..hi]))
    ensures OnlyWithin(a[..], old(a[..]), lo, hi)
  {
    ghost var was := a[..];
    ghost var done := Decrypted(d, iv[..BLOCK], iv[BLOCK..], was[lo..hi]);
    NothingDone(was, lo, hi, done);
    DecryptBlocks(a, lo, hi, d, iv[..BLOCK], iv[BLOCK..], was, done);
    AllDone(a[..], was, lo, hi, done);
    assert a[..][lo..hi] == a[lo..hi] && was[lo..hi] == old(a[lo..hi]);
  }
}
