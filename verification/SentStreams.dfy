/** From one end to the other: the frames sent come out of the read buffer in order, and
    survive every cut into reads exactly when a test on their sizes says so. */
module SentStreams {
  import opened Bytes
  import opened FrameStreams
  import opened Framing
  import opened FrameSizes
  import opened Keystream
  import opened TlsRecords
  import opened Pipeline

  // Sizes

  function Sizes(c: Codec, bodies: seq<seq<byte>>, seqno: u32): (s: seq<nat>)
    ensures |s| == |bodies|
    decreases |bodies|
  {
    if bodies == [] then [] else [|c.encode(bodies[0], seqno)|] + Sizes(c, bodies[1..], c.next(seqno))
  }

  function Lengths(xs: seq<seq<byte>>): (s: seq<nat>)
    ensures |s| == |xs| && forall i :: 0 <= i < |xs| ==> s[i] == |xs[i]|
  {
    seq(|xs|, i requires 0 <= i < |xs| => |xs[i]|)
  }

  lemma LengthsConcat(a: seq<seq<byte>>, b: seq<seq<byte>>)
    ensures Lengths(a + b) == Lengths(a) + Lengths(b)
  {
  }

  lemma {:induction false} FlattenLength(xs: seq<seq<byte>>)
    ensures |Flatten(xs)| == Sum(Lengths(xs))
  {
    if xs != [] {
      FlattenLength(xs[1..]);
      assert Lengths(xs)[1..] == Lengths(xs[1..]);
    }
  }

  lemma {:induction false} EncodedLength(c: Codec, bodies: seq<seq<byte>>, seqno: u32, k: nat)
    requires k <= |bodies|
    ensures |EncodeAll(c, bodies[..k], seqno)| == Sum(Sizes(c, bodies, seqno)[..k])
    decreases |bodies|
  {
    if k > 0 {
      EncodedLength(c, bodies[1..], c.next(seqno), k - 1);
      assert bodies[..k][1..] == bodies[1..][..k - 1];
      assert Sizes(c, bodies, seqno)[..k][1..] == Sizes(c, bodies[1..], c.next(seqno))[..k - 1];
    }
  }

  lemma {:induction false} SizeAt(c: Codec, bodies: seq<seq<byte>>, seqno: u32, k: nat)
    requires k < |bodies|
    ensures Sizes(c, bodies, seqno)[k] == |c.encode(bodies[k], SeqnoAfter(c, seqno, k))|
    decreases k
  {
    if k > 0 {
      SizeAt(c, bodies[1..], c.next(seqno), k - 1);
    }
  }

  lemma {:induction false} RecordLengths(data: seq<byte>)
    ensures Lengths(Records(data)) == FrameSizes.Cut(|data|, RECORD_MAX_CHUNK)
    decreases |data|
  {
    if |data| > RECORD_MAX_CHUNK {
      RecordLengths(data[RECORD_MAX_CHUNK..]);
      LengthsConcat([data[..RECORD_MAX_CHUNK]], Records(data[RECORD_MAX_CHUNK..]));
    }
  }

  // What is sent

  lemma {:induction false} SentPlain(t: Stack, ks: Keys, pos: nat, bodies: seq<seq<byte>>, seqno: u32)
    requires !t.wrapped
    ensures var plain := EncodeAll(t.inner, bodies, seqno);
            SendAll(t, ks, pos, bodies, seqno) == if t.ciphered then Apply(ks, pos, plain) else plain
    decreases |bodies|
  {
    if bodies != [] {
      var first, next := t.inner.encode(bodies[0], seqno), t.inner.next(seqno);
      SentPlain(t, ks, pos + |first|, bodies[1..], next);
      ApplyConcat(ks, pos, first, EncodeAll(t.inner, bodies[1..], next));
    }
  }

  lemma {:induction false} SentRecords(t: Stack, ks: Keys, pos: nat, bodies: seq<seq<byte>>, seqno: u32)
    returns (recs: seq<seq<byte>>)
    requires SoundStack(t) && t.wrapped
    ensures SendAll(t, ks, pos, bodies, seqno) == EncodeAll(t.records, recs, 0)
    ensures AllFit(t.records, recs)
    ensures Flatten(recs) == Apply(ks, pos, EncodeAll(t.inner, bodies, seqno))
    ensures Lengths(recs) == Pieces(Sizes(t.inner, bodies, seqno), RECORD_MAX_CHUNK)
    decreases |bodies|
  {
    if bodies == [] {
      recs := [];
      assert Apply(ks, pos, []) == [];
    } else {
      var first, next := t.inner.encode(bodies[0], seqno), t.inner.next(seqno);
      var later := EncodeAll(t.inner, bodies[1..], next);
      var rest := SentRecords(t, ks, pos + |first|, bodies[1..], next);
      recs := OneMoreFrame(t, ks, pos, first, later, rest);
      SentUnfolds(t, ks, pos, bodies, seqno, first, next);
    }
  }

  lemma SentUnfolds(t: Stack, ks: Keys, pos: nat, bodies: seq<seq<byte>>, seqno: u32, first: seq<byte>, next: u32)
    requires bodies != [] && t.wrapped && t.ciphered
    requires first == t.inner.encode(bodies[0], seqno) && next == t.inner.next(seqno)
    ensures SendAll(t, ks, pos, bodies, seqno)
            == EncodeAll(t.records, Records(Apply(ks, pos, first)), 0) + SendAll(t, ks, pos + |first|, bodies[1..], next)
    ensures EncodeAll(t.inner, bodies, seqno) == first + EncodeAll(t.inner, bodies[1..], next)
  {
    var sealed := Apply(ks, pos, first);
    assert FrameEncode(t, ks, pos, bodies[0], seqno) == EncodeAll(t.records, Records(sealed), 0);
  }

  /** The records of one frame, in front of those of the later ones. */
  lemma OneMoreFrame(t: Stack, ks: Keys, pos: nat, first: seq<byte>, later: seq<byte>, rest: seq<seq<byte>>)
    returns (recs: seq<seq<byte>>)
    requires SoundStack(t) && AllFit(t.records, rest) && Flatten(rest) == Apply(ks, pos + |first|, later)
    ensures AllFit(t.records, recs) && Flatten(recs) == Apply(ks, pos, first + later)
    ensures Lengths(recs) == FrameSizes.Cut(|first|, RECORD_MAX_CHUNK) + Lengths(rest)
    ensures EncodeAll(t.records, recs, 0)
            == EncodeAll(t.records, Records(Apply(ks, pos, first)), 0) + EncodeAll(t.records, rest, 0)
  {
    var mine := Records(Apply(ks, pos, first));
    recs := mine + rest;
    RecordsRejoin(Apply(ks, pos, first));
    SeqnoSame(t.records, 0, |mine|);
    EncodeAllConcat(t.records, mine, rest, 0);
    FlattenConcat(mine, rest);
    LengthsConcat(mine, rest);
    RecordLengths(Apply(ks, pos, first));
    ApplyConcat(ks, pos, first, later);
  }

  /** Any part of what was sent decodes to a part of the frames, all of it to all. */
  ghost predicate Faithful(t: Stack, ks: Keys, pos: nat, got: seq<byte>, wire: seq<byte>, plain: seq<byte>)
    requires SoundStack(t)
  {
    && Readable(t, got) && Decoded(t, ks, pos, got) <= plain
    && (got == wire ==> Decoded(t, ks, pos, got) == plain && RawAfter(t, got) == [])
  }

  lemma PartOfRecords(t: Stack, ks: Keys, pos: nat, recs: seq<seq<byte>>, plain: seq<byte>, got: seq<byte>)
    requires SoundStack(t) && t.wrapped && AllFit(t.records, recs)
    requires Flatten(recs) == Apply(ks, pos, plain) && got <= EncodeAll(t.records, recs, 0)
    ensures Faithful(t, ks, pos, got, EncodeAll(t.records, recs, 0), plain)
  {
    ApplyTwice(ks, pos, plain);
    var k := PrefixOfStream(t.records, recs, 0, got);
    FlattenPrefix(recs, k);
    ApplyPrefix(ks, pos, Flatten(recs[..k]), Flatten(recs));
    WholeStreamDrains(t.records, recs, 0);
  }

  lemma PartDecodes(t: Stack, ks: Keys, pos: nat, bodies: seq<seq<byte>>, seqno: u32, got: seq<byte>)
    requires SoundStack(t) && got <= SendAll(t, ks, pos, bodies, seqno)
    ensures Faithful(t, ks, pos, got, SendAll(t, ks, pos, bodies, seqno), EncodeAll(t.inner, bodies, seqno))
  {
    var plain := EncodeAll(t.inner, bodies, seqno);
    if t.wrapped {
      var recs := SentRecords(t, ks, pos, bodies, seqno);
      PartOfRecords(t, ks, pos, recs, plain, got);
    } else {
      SentPlain(t, ks, pos, bodies, seqno);
      if t.ciphered {
        ApplyTwice(ks, pos, plain);
        ApplyPrefix(ks, pos, got, Apply(ks, pos, plain));
      }
    }
  }
  // Streams in pieces

  /** A piece of a frame becomes readable as a whole: a record, or a single byte. */
  function PieceSize(t: Stack): (n: nat)
    ensures n > 0
  {
    if t.wrapped then RECORD_MAX_CHUNK else 1
  }

  function Overhead(t: Stack): nat {
    if t.wrapped then RECORD_HEADER_LEN else 0
  }

  /** The first `x` bytes decode to their complete pieces. */
  ghost predicate InPieces(t: Stack, ks: Keys, pos: nat, wire: seq<byte>, pieces: seq<nat>, x: nat)
    requires SoundStack(t) && x <= |wire|
  {
    var k := PieceIndex(pieces, Overhead(t), x);
    && |Decoded(t, ks, pos, wire[..x])| == Sum(pieces[..k])
    && (t.wrapped ==> |RawAfter(t, wire[..x])| == x - FrameSizes.Wire(pieces[..k], Overhead(t)))
  }

  /** What is held and what comes on the wire, in pieces, are the frames `later`. */
  ghost predicate Carries(t: Stack, ks: Keys, o: Origin, wire: seq<byte>, later: seq<seq<byte>>, pieces: seq<nat>)
    requires SoundStack(t)
  {
    && Readable(t, wire) && RawAfter(t, wire) == []
    && o.held + Decoded(t, ks, o.pos, wire) == EncodeAll(t.inner, later, o.seqno)
    && Positive(pieces) && |wire| == FrameSizes.Wire(pieces, Overhead(t))
    && (forall x: nat :: x <= |wire| ==> InPieces(t, ks, o.pos, wire, pieces, x))
  }

  lemma BytesInPieces(t: Stack, ks: Keys, pos: nat, wire: seq<byte>, pieces: seq<nat>, x: nat)
    requires SoundStack(t) && !t.wrapped && Ones(pieces) && |pieces| == |wire| && x <= |wire|
    ensures InPieces(t, ks, pos, wire, pieces, x)
  {
    OnesSum(pieces[..x]);
    if x < |pieces| {
      OnesSum(pieces[..x + 1]);
    }
    IndexIs(pieces, 0, x, x);
  }

  lemma {:induction false} RecordsLength(t: Stack, recs: seq<seq<byte>>, k: nat)
    requires SoundStack(t) && k <= |recs| && forall i :: 0 <= i < |recs| ==> |recs[i]| <= RECORD_MAX_CHUNK
    ensures |EncodeAll(t.records, recs[..k], 0)| == FrameSizes.Wire(Lengths(recs)[..k], RECORD_HEADER_LEN)
    decreases |recs|
  {
    if k > 0 {
      RecordsLength(t, recs[1..], k - 1);
      assert recs[..k][1..] == recs[1..][..k - 1];
      assert Lengths(recs)[..k][1..] == Lengths(recs[1..])[..k - 1];
    }
  }

  lemma RecordsInPieces(t: Stack, ks: Keys, pos: nat, recs: seq<seq<byte>>, x: nat)
    requires SoundStack(t) && t.wrapped && AllFit(t.records, recs)
    requires forall i :: 0 <= i < |recs| ==> |recs[i]| <= RECORD_MAX_CHUNK
    requires x <= |EncodeAll(t.records, recs, 0)|
    ensures InPieces(t, ks, pos, EncodeAll(t.records, recs, 0), Lengths(recs), x)
  {
    var wire := EncodeAll(t.records, recs, 0);
    var k := PrefixOfStream(t.records, recs, 0, wire[..x]);
    RecordsLength(t, recs, k);
    if k < |recs| {
      NextRecordEnds(t, recs, k);
    }
    IndexIs(Lengths(recs), RECORD_HEADER_LEN, x, k);
    FlattenLength(recs[..k]);
    assert Lengths(recs[..k]) == Lengths(recs)[..k];
  }

  lemma NextRecordEnds(t: Stack, recs: seq<seq<byte>>, k: nat)
    requires SoundStack(t) && k < |recs| && forall i :: 0 <= i < |recs| ==> |recs[i]| <= RECORD_MAX_CHUNK
    ensures SeqnoAfter(t.records, 0, k) == 0
    ensures FrameSizes.Wire(Lengths(recs)[..k + 1], RECORD_HEADER_LEN)
            == FrameSizes.Wire(Lengths(recs)[..k], RECORD_HEADER_LEN) + |t.records.encode(recs[k], 0)|
  {
    assert Lengths(recs)[..k + 1] == Lengths(recs)[..k] + [|recs[k]|];
    WireConcat(Lengths(recs)[..k], [|recs[k]|], RECORD_HEADER_LEN);
    SeqnoSame(t.records, 0, k);
  }

  lemma {:induction false} CutsAreShort(size: nat, piece: nat)
    requires piece > 0
    ensures forall i :: 0 <= i < |FrameSizes.Cut(size, piece)| ==> FrameSizes.Cut(size, piece)[i] <= piece
    decreases size
  {
    if size > piece {
      CutsAreShort(size - piece, piece);
    }
  }

  lemma {:induction false} PiecesAreShort(sizes: seq<nat>, piece: nat)
    requires piece > 0
    ensures forall i :: 0 <= i < |Pieces(sizes, piece)| ==> Pieces(sizes, piece)[i] <= piece
  {
    if sizes != [] {
      CutsAreShort(sizes[0], piece);
      PiecesAreShort(sizes[1..], piece);
    }
  }

  /** The pieces all frames together travel in. */
  function AllPieces(t: Stack, bodies: seq<seq<byte>>, seqno: u32): seq<nat> {
    Pieces(Sizes(t.inner, bodies, seqno), PieceSize(t))
  }

  lemma SentCarries(t: Stack, ks: Keys, bodies: seq<seq<byte>>, seqno: u32)
    requires SoundStack(t)
    ensures Carries(t, ks, Origin(0, [], seqno), SendAll(t, ks, 0, bodies, seqno), bodies, AllPieces(t, bodies, seqno))
  {
    var wire, plain := SendAll(t, ks, 0, bodies, seqno), EncodeAll(t.inner, bodies, seqno);
    PartDecodes(t, ks, 0, bodies, seqno, wire);
    assert [] + Decoded(t, ks, 0, wire) == Decoded(t, ks, 0, wire);
    if t.wrapped {
      SentInRecords(t, ks, bodies, seqno);
    } else {
      SentInBytes(t, ks, bodies, seqno);
    }
  }

  lemma SentInBytes(t: Stack, ks: Keys, bodies: seq<seq<byte>>, seqno: u32)
    requires SoundStack(t) && !t.wrapped
    ensures var wire, pieces := SendAll(t, ks, 0, bodies, seqno), AllPieces(t, bodies, seqno);
            && Positive(pieces) && |wire| == FrameSizes.Wire(pieces, Overhead(t))
            && forall x: nat :: x <= |wire| ==> InPieces(t, ks, 0, wire, pieces, x)
  {
    var wire, pieces := SendAll(t, ks, 0, bodies, seqno), AllPieces(t, bodies, seqno);
    SentPlain(t, ks, 0, bodies, seqno);
    EncodedLength(t.inner, bodies, seqno, |bodies|);
    assert bodies[..|bodies|] == bodies;
    assert Sizes(t.inner, bodies, seqno)[..|bodies|] == Sizes(t.inner, bodies, seqno);
    PiecesAreBytes(Sizes(t.inner, bodies, seqno));
    OnesSum(pieces);
    forall x: nat | x <= |wire|
      ensures InPieces(t, ks, 0, wire, pieces, x)
    {
      BytesInPieces(t, ks, 0, wire, pieces, x);
    }
  }

  lemma SentInRecords(t: Stack, ks: Keys, bodies: seq<seq<byte>>, seqno: u32)
    requires SoundStack(t) && t.wrapped
    ensures var wire, pieces := SendAll(t, ks, 0, bodies, seqno), AllPieces(t, bodies, seqno);
            && Positive(pieces) && |wire| == FrameSizes.Wire(pieces, Overhead(t))
            && forall x: nat :: x <= |wire| ==> InPieces(t, ks, 0, wire, pieces, x)
  {
    var wire, pieces := SendAll(t, ks, 0, bodies, seqno), AllPieces(t, bodies, seqno);
    var recs := SentRecords(t, ks, 0, bodies, seqno);
    PiecesAreShort(Sizes(t.inner, bodies, seqno), RECORD_MAX_CHUNK);
    assert forall i :: 0 <= i < |recs| ==> |recs[i]| == pieces[i];
    RecordsLength(t, recs, |recs|);
    assert recs[..|recs|] == recs && Lengths(recs)[..|recs|] == Lengths(recs);
    forall x: nat | x <= |wire|
      ensures InPieces(t, ks, 0, wire, pieces, x)
    {
      RecordsInPieces(t, ks, 0, recs, x);
    }
  }
}
