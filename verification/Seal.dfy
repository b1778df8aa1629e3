/** Sealing and opening messages (ferogram-crypto's lib.rs) over an abstract hash and an
    abstract block cipher. */
module Seal {
  import opened Wrappers
  import opened Bytes
  import opened DequeBuffers
  import opened Ige

  type Digest = s: seq<byte> | |s| == 32 witness seq(32, _ => 0)

  type KeyData = s: seq<byte> | |s| == 256 witness seq(256, _ => 0)

  type KeyId = s: seq<byte> | |s| == 8 witness seq(8, _ => 0)

  datatype AuthKey = AuthKey(data: KeyData, keyId: KeyId)

  datatype Primitives = Primitives(sha256: seq<byte> -> Digest,
                                   enc: (Digest, Block) -> Block, dec: (Digest, Block) -> Block)

  /** Under every key, each of the two directions of the block cipher undoes the other. */
  ghost predicate Sound(c: Primitives) {
    forall k: Digest, b: Block :: c.dec(k, c.enc(k, b)) == b && c.enc(k, c.dec(k, b)) == b
  }

  function EncWith(c: Primitives, key: Digest): Permutation {
    (b: Block) => c.enc(key, b)
  }

  function DecWith(c: Primitives, key: Digest): Permutation {
    (b: Block) => c.dec(key, b)
  }

  lemma DirectionsUndo(c: Primitives, key: Digest)
    requires Sound(c)
    ensures Undoes(DecWith(c, key), EncWith(c, key)) && Undoes(EncWith(c, key), DecWith(c, key))
  {
    forall b: Block
      ensures DecWith(c, key)(EncWith(c, key)(b)) == b && EncWith(c, key)(DecWith(c, key)(b)) == b
    {
      assert c.dec(key, c.enc(key, b)) == b;
    }
  }

  datatype Side = Client | Server

  function Offset(side: Side): nat {
    if side == Client then 0 else 8
  }

  datatype KeyIv = KeyIv(key: Digest, iv: Digest)

  function CalcKey(c: Primitives, auth: AuthKey, msgKey: Block, side: Side): KeyIv {
    var x := Offset(side);
    var a := c.sha256(msgKey + auth.data[x..x + 36]);
    var b := c.sha256(auth.data[40 + x..76 + x] + msgKey);
    KeyIv(a[..8] + b[8..24] + a[24..], b[..8] + a[8..24] + b[24..])
  }

  function MsgKey(c: Primitives, auth: AuthKey, padded: seq<byte>, side: Side): Block {
    var x := Offset(side);
    c.sha256(auth.data[88 + x..120 + x] + padded)[8..24]
  }

  function PaddingLen(len: nat): nat {
    var rem := (len + 12) % 16;
    if rem == 0 then 12 else 12 + (16 - rem)
  }

  lemma PaddingBounds(len: nat)
    ensures 12 <= PaddingLen(len) <= 27
  {
  }

  /** The least padding of at least 12 bytes that fills the last block. */
  lemma PaddingIsLeast(len: nat, pad: nat)
    requires 12 <= pad && (len + pad) % BLOCK == 0
    ensures 12 <= PaddingLen(len) <= 27 && (len + PaddingLen(len)) % BLOCK == 0 && PaddingLen(len) <= pad
  {
    var rem := (len + 12) % 16;
    assert len + pad == (len + 12) + (pad - 12);
  }

  function Padded(plain: seq<byte>, rnd: Digest): (p: seq<byte>)
    ensures Whole(p) && |p| >= BLOCK
  {
    PaddingIsLeast(|plain|, 12 + 15 * (|plain| + 12));
    plain + rnd[..PaddingLen(|plain|)]
  }

  const HEADER := 24

  /** The key's id, the message key and the ciphertext. */
  function Sealed(c: Primitives, auth: AuthKey, side: Side, padded: seq<byte>): seq<byte>
    requires Whole(padded)
  {
    var msgKey := MsgKey(c, auth, padded, side);
    var k := CalcKey(c, auth, msgKey, side);
    auth.keyId + (msgKey + Encrypted(EncWith(c, k.key), k.iv[..BLOCK], k.iv[BLOCK..], padded))
  }

  datatype DecryptError = InvalidBuffer | AuthKeyMismatch | MessageKeyMismatch

  /** The whole blocks behind the header; what goes past them is transport padding. */
  function CipherLen(len: nat): (n: nat)
    ensures n % BLOCK == 0 && (len >= HEADER ==> HEADER + n <= len < HEADER + n + BLOCK)
  {
    if len < HEADER then 0 else (len - HEADER) / BLOCK * BLOCK
  }

  function OpenedBody(c: Primitives, auth: AuthKey, side: Side, msgKey: Block, cipher: seq<byte>): (p: seq<byte>)
    requires Whole(cipher)
    ensures |p| == |cipher|
  {
    var k := CalcKey(c, auth, msgKey, side);
    Decrypted(DecWith(c, k.key), k.iv[..BLOCK], k.iv[BLOCK..], cipher)
  }

  function Opened(c: Primitives, auth: AuthKey, side: Side, frame: seq<byte>): Result<seq<byte>, DecryptError> {
    if |frame| < HEADER || CipherLen(|frame|) == 0 then Err(InvalidBuffer)
    else if auth.keyId != frame[..8] then Err(AuthKeyMismatch)
    else
      var msgKey: Block := frame[8..HEADER];
      var plain := OpenedBody(c, auth, side, msgKey, frame[HEADER..HEADER + CipherLen(|frame|)]);
      if msgKey != MsgKey(c, auth, plain, side) then Err(MessageKeyMismatch) else Ok(plain)
  }

  /** The parts of a frame. */
  lemma Layout(id: KeyId, msgKey: Block, cipher: seq<byte>, tail: seq<byte>)
    requires Whole(cipher) && cipher != [] && |tail| < BLOCK
    ensures var f := (id + (msgKey + cipher)) + tail;
            && CipherLen(|f|) == |cipher| && f[..8] == id && f[8..HEADER] == msgKey
            && f[HEADER..HEADER + |cipher|] == cipher
  {
    var f := (id + (msgKey + cipher)) + tail;
    assert f == id + (msgKey + (cipher + tail));
    assert f[8..HEADER] == (msgKey + (cipher + tail))[..BLOCK];
    assert f[HEADER..] == cipher + tail;
    assert f[HEADER..HEADER + |cipher|] == f[HEADER..][..|cipher|];
  }

  /** A sealed message opens to itself, whatever 0 to 15 bytes the transport added. */
  lemma OpenUndoesSeal(c: Primitives, auth: AuthKey, side: Side, padded: seq<byte>, tail: seq<byte>)
    requires Sound(c) && Whole(padded) && padded != [] && |tail| < BLOCK
    ensures Opened(c, auth, side, Sealed(c, auth, side, padded) + tail) == Ok(padded)
  {
    var msgKey := MsgKey(c, auth, padded, side);
    var k := CalcKey(c, auth, msgKey, side);
    var cipher := Encrypted(EncWith(c, k.key), k.iv[..BLOCK], k.iv[BLOCK..], padded);
    Layout(auth.keyId, msgKey, cipher, tail);
    DirectionsUndo(c, k.key);
    DecryptUndoesEncrypt(EncWith(c, k.key), DecWith(c, k.key), k.iv[..BLOCK], k.iv[BLOCK..], padded);
  }

  lemma OpenedIsSealed(c: Primitives, auth: AuthKey, side: Side, frame: seq<byte>)
    requires Sound(c) && Opened(c, auth, side, frame).Ok?
    ensures var n := CipherLen(|frame|);
            var plain := OpenedBody(c, auth, side, frame[8..HEADER], frame[HEADER..HEADER + n]);
            Sealed(c, auth, side, plain) == frame[..HEADER + n]
  {
    var n := CipherLen(|frame|);
    var msgKey: Block := frame[8..HEADER];
    var cipher := frame[HEADER..HEADER + n];
    var k := CalcKey(c, auth, msgKey, side);
    DirectionsUndo(c, k.key);
    EncryptUndoesDecrypt(EncWith(c, k.key), DecWith(c, k.key), k.iv[..BLOCK], k.iv[BLOCK..], cipher);
    assert frame[..HEADER + n] == frame[..8] + (msgKey + cipher);
  }

  ghost predicate SealsTo(c: Primitives, auth: AuthKey, side: Side, frame: seq<byte>, plain: seq<byte>) {
    && Whole(plain) && plain != [] && |frame| < HEADER + |plain| + BLOCK
    && Sealed(c, auth, side, plain) <= frame
  }

  /** Nothing else opens: an accepted frame is what sealing its plaintext gives, and at
      most 15 bytes behind it. */
  lemma OnlySealedFramesOpen(c: Primitives, auth: AuthKey, side: Side, frame: seq<byte>, plain: seq<byte>)
    requires Sound(c)
    ensures Opened(c, auth, side, frame) == Ok(plain) <==> SealsTo(c, auth, side, frame, plain)
  {
    if SealsTo(c, auth, side, frame, plain) {
      var sealed := Sealed(c, auth, side, plain);
      OpenUndoesSeal(c, auth, side, plain, frame[|sealed|..]);
      assert sealed + frame[|sealed|..] == frame;
    }
    if Opened(c, auth, side, frame).Ok? {
      OpenedIsSealed(c, auth, side, frame);
    }
  }

  // The frames of MTProto 2.0, as the protocol describes them

  /** `len` bytes of `s` from `at` on. */
  function Substr(s: seq<byte>, at: nat, len: nat): seq<byte>
    requires at + len <= |s|
  {
    s[at..at + len]
  }

  /** The middle 16 bytes of the digest of 32 bytes of the key and the padded text. */
  predicate IsMessageKey(c: Primitives, auth: AuthKey, x: nat, padded: seq<byte>, msgKey: seq<byte>)
    requires x <= 8
  {
    var large := c.sha256(Substr(auth.data, 88 + x, 32) + padded);
    |msgKey| == 16 && forall i :: 0 <= i < 16 ==> msgKey[i] == large[8 + i]
  }

  /** Bytes 8 to 23 from the one digest, the others from the other. */
  function Interleaved(outer: Digest, middle: Digest): Digest {
    seq(32, i requires 0 <= i < 32 => if 8 <= i < 24 then middle[i] else outer[i])
  }

  /** The `i`th block; in front of the first one stands `first`. */
  function BlockOr(first: Block, s: seq<byte>, i: int): Block
    requires -1 <= i && BLOCK * (i + 1) <= |s|
  {
    if i < 0 then first else Substr(s, BLOCK * i, BLOCK)
  }

  /** The block of the ciphertext at `i`, from the one before it and two of the text. */
  predicate ChainsAt(e: Permutation, iv1: Block, iv2: Block, text: seq<byte>, cipher: seq<byte>, i: nat)
    requires |cipher| == |text| && BLOCK * (i + 1) <= |text|
  {
    BlockOr(iv1, cipher, i)
    == XorBytes(e(XorBytes(BlockOr(iv2, text, i), BlockOr(iv1, cipher, i - 1))), BlockOr(iv2, text, i - 1))
  }

  ghost predicate Chains(e: Permutation, iv1: Block, iv2: Block, text: seq<byte>, cipher: seq<byte>) {
    && Whole(text) && |cipher| == |text|
    && forall i: nat :: BLOCK * (i + 1) <= |text| ==> ChainsAt(e, iv1, iv2, text, cipher, i)
  }

  /** The digests of the message key with the first and the second stretch of the key. */
  function DigestA(c: Primitives, auth: AuthKey, x: nat, msgKey: Block): Digest
    requires x <= 8
  {
    c.sha256(msgKey + Substr(auth.data, x, 36))
  }

  function DigestB(c: Primitives, auth: AuthKey, x: nat, msgKey: Block): Digest
    requires x <= 8
  {
    c.sha256(Substr(auth.data, 40 + x, 36) + msgKey)
  }

  /** The text enciphered under the key and vector interleaved from the two digests. */
  ghost predicate IsCipher(c: Primitives, auth: AuthKey, x: nat, msgKey: Block, padded: seq<byte>, cipher: seq<byte>)
    requires x <= 8
  {
    var key := Interleaved(DigestA(c, auth, x, msgKey), DigestB(c, auth, x, msgKey));
    var iv := Interleaved(DigestB(c, auth, x, msgKey), DigestA(c, auth, x, msgKey));
    Chains(EncWith(c, key), Substr(iv, 0, 16), Substr(iv, 16, 16), padded, cipher)
  }

  /** A frame for `padded`: the key's id, the message key and the ciphertext; `x` is 0 from
      the client and 8 from the server. */
  ghost predicate IsFrame(c: Primitives, auth: AuthKey, x: nat, padded: seq<byte>, frame: seq<byte>)
    requires x <= 8
  {
    && |frame| == 24 + |padded| && Substr(frame, 0, 8) == auth.keyId
    && IsMessageKey(c, auth, x, padded, Substr(frame, 8, 16))
    && IsCipher(c, auth, x, Substr(frame, 8, 16), padded, Substr(frame, 24, |padded|))
  }

  lemma FirstChains(e: Permutation, iv1: Block, iv2: Block, text: seq<byte>, cipher: seq<byte>)
    requires Whole(text) && |cipher| == |text| >= BLOCK
    ensures ChainsAt(e, iv1, iv2, text, cipher, 0)
            <==> cipher[..BLOCK] == XorBytes(e(XorBytes(text[..BLOCK], iv1)), iv2)
  {
  }

  lemma LaterChains(e: Permutation, iv1: Block, iv2: Block, text: seq<byte>, cipher: seq<byte>, i: nat)
    requires Whole(text) && |cipher| == |text| && BLOCK * (i + 2) <= |text|
    ensures ChainsAt(e, iv1, iv2, text, cipher, i + 1)
            <==> ChainsAt(e, cipher[..BLOCK], text[..BLOCK], text[BLOCK..], cipher[BLOCK..], i)
  {
    LaterBlock(iv1, cipher[..BLOCK], cipher, i);
    LaterBlock(iv2, text[..BLOCK], text, i);
  }

  lemma LaterBlock(first: Block, next: Block, s: seq<byte>, i: nat)
    requires BLOCK * (i + 2) <= |s| && next == s[..BLOCK]
    ensures BlockOr(next, s[BLOCK..], i) == BlockOr(first, s, i + 1)
    ensures BlockOr(next, s[BLOCK..], i - 1) == BlockOr(first, s, i)
  {
    assert s[BLOCK..][BLOCK * i..BLOCK * i + BLOCK] == s[BLOCK * (i + 1)..BLOCK * (i + 1) + BLOCK];
    if i > 0 {
      assert s[BLOCK..][BLOCK * (i - 1)..BLOCK * (i - 1) + BLOCK] == s[BLOCK * i..BLOCK * i + BLOCK];
    }
  }

  lemma ChainsStep(e: Permutation, iv1: Block, iv2: Block, text: seq<byte>, cipher: seq<byte>)
    requires Whole(text) && |cipher| == |text| >= BLOCK
    ensures Chains(e, iv1, iv2, text, cipher)
            <==> cipher[..BLOCK] == XorBytes(e(XorBytes(text[..BLOCK], iv1)), iv2)
                 && Chains(e, cipher[..BLOCK], text[..BLOCK], text[BLOCK..], cipher[BLOCK..])
  {
    FirstChains(e, iv1, iv2, text, cipher);
    forall i: nat | BLOCK * (i + 2) <= |text|
      ensures ChainsAt(e, iv1, iv2, text, cipher, i + 1)
              <==> ChainsAt(e, cipher[..BLOCK], text[..BLOCK], text[BLOCK..], cipher[BLOCK..], i)
    {
      LaterChains(e, iv1, iv2, text, cipher, i);
    }
    if Chains(e, cipher[..BLOCK], text[..BLOCK], text[BLOCK..], cipher[BLOCK..])
        && ChainsAt(e, iv1, iv2, text, cipher, 0) {
      forall i: nat | BLOCK * (i + 1) <= |text|
        ensures ChainsAt(e, iv1, iv2, text, cipher, i)
      {
        if i > 0 {
          assert ChainsAt(e, cipher[..BLOCK], text[..BLOCK], text[BLOCK..], cipher[BLOCK..], i - 1);
        }
      }
    }
  }

  /** The chained encryption gives the blocks the protocol asks for, and no others. */
  lemma {:induction false} EncryptedExactlyWhen(e: Permutation, iv1: Block, iv2: Block, text: seq<byte>,
          cipher: seq<byte>)
    requires Whole(text) && |cipher| == |text|
    ensures Chains(e, iv1, iv2, text, cipher) <==> cipher == Encrypted(e, iv1, iv2, text)
    decreases |text|
  {
    if text != [] {
      ChainsStep(e, iv1, iv2, text, cipher);
      EncryptedExactlyWhen(e, cipher[..BLOCK], text[..BLOCK], text[BLOCK..], cipher[BLOCK..]);
      assert cipher == cipher[..BLOCK] + cipher[BLOCK..];
    }
  }

  lemma InterleavedParts(outer: Digest, middle: Digest)
    ensures Interleaved(outer, middle) == outer[..8] + middle[8..24] + outer[24..]
  {
  }

  lemma MessageKeyIsMiddle(c: Primitives, auth: AuthKey, side: Side, padded: seq<byte>, msgKey: seq<byte>)
    ensures IsMessageKey(c, auth, Offset(side), padded, msgKey) <==> msgKey == MsgKey(c, auth, padded, side)
  {
  }

  lemma KeysAreInterleaved(c: Primitives, auth: AuthKey, side: Side, msgKey: Block)
    ensures var a, b := DigestA(c, auth, Offset(side), msgKey), DigestB(c, auth, Offset(side), msgKey);
            CalcKey(c, auth, msgKey, side) == KeyIv(Interleaved(a, b), Interleaved(b, a))
  {
    InterleavedParts(DigestA(c, auth, Offset(side), msgKey), DigestB(c, auth, Offset(side), msgKey));
    InterleavedParts(DigestB(c, auth, Offset(side), msgKey), DigestA(c, auth, Offset(side), msgKey));
  }

  lemma FrameParts(id: KeyId, msgKey: Block, cipher: seq<byte>, frame: seq<byte>)
    requires |frame| == HEADER + |cipher|
    ensures frame == id + (msgKey + cipher)
            <==> Substr(frame, 0, 8) == id && Substr(frame, 8, 16) == msgKey && Substr(frame, 24, |cipher|) == cipher
  {
    assert frame == frame[0..8] + (frame[8..24] + frame[24..]);
    if frame == id + (msgKey + cipher) {
      assert frame[8..24] == (msgKey + cipher)[..16];
      assert frame[24..] == (msgKey + cipher)[16..];
    }
  }

  lemma CipherExactlyWhen(c: Primitives, auth: AuthKey, side: Side, msgKey: Block, padded: seq<byte>, cipher: seq<byte>)
    requires Whole(padded) && |cipher| == |padded|
    ensures var k := CalcKey(c, auth, msgKey, side);
            IsCipher(c, auth, Offset(side), msgKey, padded, cipher)
            <==> cipher == Encrypted(EncWith(c, k.key), k.iv[..BLOCK], k.iv[BLOCK..], padded)
  {
    var k := CalcKey(c, auth, msgKey, side);
    KeysAreInterleaved(c, auth, side, msgKey);
    assert Substr(k.iv, 0, 16) == k.iv[..BLOCK] && Substr(k.iv, 16, 16) == k.iv[BLOCK..];
    EncryptedExactlyWhen(EncWith(c, k.key), Substr(k.iv, 0, 16), Substr(k.iv, 16, 16), padded, cipher);
  }

  /** Sealing makes the frame the protocol asks for, and no other frame meets it. */
  lemma SealedExactlyWhen(c: Primitives, auth: AuthKey, side: Side, padded: seq<byte>, frame: seq<byte>)
    requires Whole(padded)
    ensures IsFrame(c, auth, Offset(side), padded, frame) <==> frame == Sealed(c, auth, side, padded)
  {
    var msgKey := MsgKey(c, auth, padded, side);
    var k := CalcKey(c, auth, msgKey, side);
    var cipher := Encrypted(EncWith(c, k.key), k.iv[..BLOCK], k.iv[BLOCK..], padded);
    if |frame| == HEADER + |padded| {
      FrameParts(auth.keyId, msgKey, cipher, frame);
      MessageKeyIsMiddle(c, auth, side, padded, Substr(frame, 8, 16));
      CipherExactlyWhen(c, auth, side, msgKey, padded, Substr(frame, 24, |padded|));
    }
  }

  /** A frame for `plain` and at most 15 bytes behind it. */
  ghost predicate IsFrameWithTail(c: Primitives, auth: AuthKey, x: nat, plain: seq<byte>, frame: seq<byte>)
    requires x <= 8
  {
    && plain != [] && 24 + |plain| <= |frame| <= 24 + |plain| + 15
    && Whole(plain) && IsFrame(c, auth, x, plain, Substr(frame, 0, 24 + |plain|))
  }

  /** What opens is exactly what the protocol calls a frame. */
  lemma OpensExactlyWhen(c: Primitives, auth: AuthKey, side: Side, frame: seq<byte>, plain: seq<byte>)
    requires Sound(c)
    ensures Opened(c, auth, side, frame) == Ok(plain) <==> IsFrameWithTail(c, auth, Offset(side), plain, frame)
  {
    OnlySealedFramesOpen(c, auth, side, frame, plain);
    if Whole(plain) && HEADER + |plain| <= |frame| {
      SealedExactlyWhen(c, auth, side, plain, Substr(frame, 0, HEADER + |plain|));
    }
  }

  lemma AllFramesOpen(c: Primitives, auth: AuthKey, frame: seq<byte>)
    ensures Sound(c) ==> forall plain ::
              IsFrameWithTail(c, auth, 8, plain, frame) <==> Opened(c, auth, Server, frame) == Ok(plain)
  {
    if Sound(c) {
      forall plain
        ensures IsFrameWithTail(c, auth, 8, plain, frame) <==> Opened(c, auth, Server, frame) == Ok(plain)
      {
        OpensExactlyWhen(c, auth, Server, frame, plain);
      }
    }
  }

  // The operations, in place

  method EncryptContents(buffer: DequeBuffer, e: Permutation, iv: Digest)
    requires buffer.Valid() && Whole(buffer.Contents())
    modifies buffer.buf
    ensures buffer.Valid() && buffer.Contents() == Encrypted(e, iv[..BLOCK], iv[BLOCK..], old(buffer.Contents()))
  {
    assert buffer.buf[buffer.head..buffer.buf.Length] == buffer.Contents();
    IgeEncrypt(buffer.buf, buffer.head, buffer.buf.Length, e, iv);
    assert buffer.buf[buffer.head..buffer.buf.Length] == buffer.Contents();
  }

  method EncryptDataV2(buffer: DequeBuffer, c: Primitives, auth: AuthKey, rnd: Digest)
    requires buffer.Valid()
    modifies buffer, buffer.buf
    ensures buffer.Valid()
    ensures buffer.Contents() == Sealed(c, auth, Client, Padded(old(buffer.Contents()), rnd))
    ensures IsFrame(c, auth, 0, Padded(old(buffer.Contents()), rnd), buffer.Contents())
  {
    var len := buffer.Len();
    ghost var padded := Padded(buffer.Contents(), rnd);
    buffer.Extend(rnd[..PaddingLen(len)]);
    var msgKey := MsgKey(c, auth, buffer.Contents(), Client);
    var k := CalcKey(c, auth, msgKey, Client);
    EncryptContents(buffer, EncWith(c, k.key), k.iv);
    buffer.ExtendFront(msgKey);
    buffer.ExtendFront(auth.keyId);
    SealedExactlyWhen(c, auth, Client, padded, buffer.Contents());
  }

  /** On success the plaintext stands in the buffer from `HEADER` to `end`. */
  method DecryptDataV2(a: array<byte>, c: Primitives, auth: AuthKey) returns (r: Result<nat, DecryptError>)
    modifies a
    ensures match Opened(c, auth, Server, old(a[..]))
            case Ok(plain) => r.Ok? && HEADER <= r.value <= a.Length && a[HEADER..r.value] == plain
            case Err(e) => r == Err(e)
    ensures r.Err? && r.error != MessageKeyMismatch ==> a[..] == old(a[..])
    ensures Sound(c) ==> forall plain ::
              IsFrameWithTail(c, auth, 8, plain, old(a[..])) <==> r.Ok? && a[HEADER..r.value] == plain
  {
    AllFramesOpen(c, auth, a[..]);
    var n := CipherLen(a.Length);
    if a.Length < HEADER || n == 0 {
      return Err(InvalidBuffer);
    }
    if auth.keyId != a[..8] {
      return Err(AuthKeyMismatch);
    }
    var msgKey: Block := a[8..HEADER];
    var k := CalcKey(c, auth, msgKey, Server);
    var end := HEADER + n;
    IgeDecrypt(a, HEADER, end, DecWith(c, k.key), k.iv);
    if msgKey != MsgKey(c, auth, a[HEADER..end], Server) {
      return Err(MessageKeyMismatch);
    }
    r := Ok(end);
  }
}
