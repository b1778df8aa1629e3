/** Whether the read buffer is large enough: frames survive every cut into reads exactly
    when a test on their sizes passes; with it, they arrive as sent; and a frame larger
    than the buffer never arrives. */
module Capacity {
  import opened Bytes
  import opened FrameStreams
  import opened FrameSizes
  import opened Keystream
  import opened Pipeline
  import opened ReadCuts
  import opened SentStreams

  // What stands in the buffer

  lemma DecodedPrefix(t: Stack, ks: Keys, pos: nat, wire: seq<byte>, x: nat)
    requires SoundStack(t) && x <= |wire| && Readable(t, wire)
    ensures Decoded(t, ks, pos, wire[..x]) <= Decoded(t, ks, pos, wire)
  {
    assert wire == wire[..x] + wire[x..];
    DecodedGrows(t, ks, pos, wire[..x], wire[x..]);
  }

  /** After any bytes the frames complete so far were handed on, and the begun part of the
      next one stands in the buffer. */
  ghost predicate HandedOn(t: Stack, ks: Keys, o: Origin, later: seq<seq<byte>>, got: seq<byte>, k: nat)
    requires SoundStack(t)
  {
    && k <= |later| && Received(t.inner, later, o.seqno, Whole(t, ks, o, got), k)
    && |o.held + Decoded(t, ks, o.pos, got)| == Sum(Sizes(t.inner, later, o.seqno)[..k]) + |Whole(t, ks, o, got).rest|
  }

  lemma PartHandedOn(t: Stack, ks: Keys, o: Origin, wire: seq<byte>, later: seq<seq<byte>>, pieces: seq<nat>, x: nat)
    returns (k: nat)
    requires SoundStack(t) && AllFit(t.inner, later) && Carries(t, ks, o, wire, later, pieces) && x <= |wire|
    ensures HandedOn(t, ks, o, later, wire[..x], k)
    ensures |Whole(t, ks, o, wire[..x]).rest|
            == Offset(Sizes(t.inner, later, o.seqno), |o.held| + |Decoded(t, ks, o.pos, wire[..x])|)
  {
    DecodedPrefix(t, ks, o.pos, wire, x);
    k := PartDrained(t.inner, later, o.seqno, o.held + Decoded(t, ks, o.pos, wire[..x]));
  }

  /** A part of the encoded frames: so many complete, and so much of the next. */
  lemma PartDrained(c: Codec, later: seq<seq<byte>>, seqno: u32, got: seq<byte>) returns (k: nat)
    requires Sound(c) && AllFit(c, later) && got <= EncodeAll(c, later, seqno)
    ensures var d, sizes := Drain(c, got, seqno), Sizes(c, later, seqno);
            && k <= |later| && Received(c, later, seqno, d, k)
            && |got| == Sum(sizes[..k]) + |d.rest| && |d.rest| == Offset(sizes, |got|)
  {
    k := PrefixOfStream(c, later, seqno, got);
    EncodedLength(c, later, seqno, k);
    if k < |later| {
      SizeAt(c, later, seqno, k);
    }
    OffsetIs(Sizes(c, later, seqno), k, |Drain(c, got, seqno).rest|);
  }

  /** Where the buffer stands before a read from `x`. */
  function Standing(sizes: seq<nat>, held: nat, pieces: seq<nat>, overhead: nat, x: nat): nat {
    if x == 0 then held else Offset(sizes, held + Sum(pieces[..PieceIndex(pieces, overhead, x)]))
  }

  lemma DecodedIs(t: Stack, ks: Keys, o: Origin, wire: seq<byte>, later: seq<seq<byte>>, pieces: seq<nat>, x: nat)
    requires SoundStack(t) && Carries(t, ks, o, wire, later, pieces) && x <= |wire|
    ensures |Decoded(t, ks, o.pos, wire[..x])| == Sum(pieces[..PieceIndex(pieces, Overhead(t), x)])
  {
    assert InPieces(t, ks, o.pos, wire, pieces, x);
  }

  lemma StandingIs(t: Stack, ks: Keys, o: Origin, wire: seq<byte>, later: seq<seq<byte>>, pieces: seq<nat>, x: nat)
    requires SoundStack(t) && AllFit(t.inner, later) && Carries(t, ks, o, wire, later, pieces) && x <= |wire|
    ensures !FailedBy(t, ks, o, wire[..x])
    ensures |Buffered(t, ks, o, wire[..x])|
            == Standing(Sizes(t.inner, later, o.seqno), |o.held|, pieces, Overhead(t), x)
  {
    var k := PartHandedOn(t, ks, o, wire, later, pieces, x);
    DecodedIs(t, ks, o, wire, later, pieces, x);
  }

  lemma RoomIs(t: Stack, ks: Keys, o: Origin, wire: seq<byte>, later: seq<seq<byte>>, pieces: seq<nat>, x: nat, y: nat)
    requires SoundStack(t) && AllFit(t.inner, later) && Carries(t, ks, o, wire, later, pieces)
    requires x < y <= |wire|
    ensures PossibleRead(t, ks, o, wire, x, y) <==> y - x <= t.readLimit
    ensures RoomAt(t, ks, o, wire, x, y)
            <==> Standing(Sizes(t.inner, later, o.seqno), |o.held|, pieces, Overhead(t), x)
                 + Sum(pieces[..PieceIndex(pieces, Overhead(t), y)])
                 - Sum(pieces[..PieceIndex(pieces, Overhead(t), x)]) <= t.capacity
  {
    StandingIs(t, ks, o, wire, later, pieces, x);
    ReadableBefore(t, wire, y);
    DecodedIs(t, ks, o, wire, later, pieces, x);
    DecodedIs(t, ks, o, wire, later, pieces, y);
  }

  // The test on positions is the test on pieces

  lemma IndexGrows(pieces: seq<nat>, overhead: nat, x: nat, y: nat)
    requires x <= y
    ensures PieceIndex(pieces, overhead, x) <= PieceIndex(pieces, overhead, y)
  {
    IndexBounds(pieces, overhead, x);
    IndexBounds(pieces, overhead, y);
    var j, k := PieceIndex(pieces, overhead, x), PieceIndex(pieces, overhead, y);
    if k < j {
      Stretch(pieces, overhead, k + 1, j);
    }
  }

  lemma SameIndexFits(sizes: seq<nat>, held: nat, pieces: seq<nat>, overhead: nat, limit: nat, capacity: nat, x: nat)
    requires PiecesFit(sizes, held, pieces, overhead, limit, capacity) && limit >= 1
    ensures Standing(sizes, held, pieces, overhead, x) <= capacity
  {
    var k := PieceIndex(pieces, overhead, x);
    OffsetBound(sizes, held + Sum(pieces[..k]));
    if k > 0 {
      Stretch(pieces, overhead, k - 1, k);
      OneOf(pieces, overhead, k - 1);
      assert OneReadBrings(pieces, overhead, limit, k - 1, k - 1);
      OffsetGrows(sizes, held + Sum(pieces[..k - 1]), pieces[k - 1]);
    }
  }

  lemma ReadFits(sizes: seq<nat>, held: nat, pieces: seq<nat>, overhead: nat, limit: nat, capacity: nat, x: nat, y: nat)
    requires PiecesFit(sizes, held, pieces, overhead, limit, capacity) && x < y && y - x <= limit
    ensures Standing(sizes, held, pieces, overhead, x)
            + Sum(pieces[..PieceIndex(pieces, overhead, y)]) - Sum(pieces[..PieceIndex(pieces, overhead, x)]) <= capacity
  {
    var j, k := PieceIndex(pieces, overhead, x), PieceIndex(pieces, overhead, y);
    IndexGrows(pieces, overhead, x, y);
    if j == k {
      SameIndexFits(sizes, held, pieces, overhead, limit, capacity, x);
    } else {
      IndexBounds(pieces, overhead, x);
      IndexBounds(pieces, overhead, y);
      Stretch(pieces, overhead, j, k);
      Stretch(pieces, overhead, j + 1, k);
      if x > 0 {
        assert OneReadBrings(pieces, overhead, limit, j, k - 1);
      } else {
        NothingBefore(pieces, overhead, j);
        assert FirstReadBrings(pieces, overhead, limit, k - 1);
      }
    }
  }

  lemma NothingBefore(pieces: seq<nat>, overhead: nat, j: nat)
    requires j <= |pieces| && FrameSizes.Wire(pieces[..j], overhead) <= 0
    ensures Sum(pieces[..j]) == 0
  {
    SumBelowWire(pieces[..j], overhead);
  }

  /** A read that brings the pieces `b` to `m`. */
  lemma ReadOf(pieces: seq<nat>, overhead: nat, limit: nat, b: nat, m: nat) returns (x: nat, y: nat)
    requires Positive(pieces) && OneReadBrings(pieces, overhead, limit, b, m)
    ensures x < y <= FrameSizes.Wire(pieces, overhead) && y - x <= limit
    ensures PieceIndex(pieces, overhead, x) == b && PieceIndex(pieces, overhead, y) == m + 1
  {
    Stretch(pieces, overhead, b, b + 1);
    OneOf(pieces, overhead, b);
    Stretch(pieces, overhead, b + 1, m + 1);
    x, y := FrameSizes.Wire(pieces[..b + 1], overhead) - 1, FrameSizes.Wire(pieces[..m + 1], overhead);
    IndexIs(pieces, overhead, x, b);
    EndsPiece(pieces, overhead, m + 1);
  }

  lemma EndsPiece(pieces: seq<nat>, overhead: nat, k: nat)
    requires Positive(pieces) && k <= |pieces|
    ensures PieceIndex(pieces, overhead, FrameSizes.Wire(pieces[..k], overhead)) == k
    ensures FrameSizes.Wire(pieces[..k], overhead) <= FrameSizes.Wire(pieces, overhead)
  {
    if k < |pieces| {
      Stretch(pieces, overhead, k, k + 1);
      OneOf(pieces, overhead, k);
    }
    IndexIs(pieces, overhead, FrameSizes.Wire(pieces[..k], overhead), k);
    Stretch(pieces, overhead, k, |pieces|);
    assert pieces[..|pieces|] == pieces;
  }

  lemma FirstReadOf(pieces: seq<nat>, overhead: nat, limit: nat, m: nat) returns (y: nat)
    requires Positive(pieces) && FirstReadBrings(pieces, overhead, limit, m)
    ensures 0 < y <= FrameSizes.Wire(pieces, overhead) && y <= limit
    ensures PieceIndex(pieces, overhead, 0) == 0 && PieceIndex(pieces, overhead, y) == m + 1
  {
    y := FrameSizes.Wire(pieces[..m + 1], overhead);
    EndsPiece(pieces, overhead, m + 1);
    Stretch(pieces, overhead, 0, m + 1);
  }

  /** `o` and `wire` carry `later` in `pieces`, and there is room to start with. */
  ghost predicate Stream(t: Stack, ks: Keys, o: Origin, wire: seq<byte>, later: seq<seq<byte>>, pieces: seq<nat>) {
    && SoundStack(t) && AllFit(t.inner, later) && Carries(t, ks, o, wire, later, pieces) && |o.held| <= t.capacity
  }

  ghost predicate SizesFit(t: Stack, o: Origin, later: seq<seq<byte>>, pieces: seq<nat>) {
    PiecesFit(Sizes(t.inner, later, o.seqno), |o.held|, pieces, Overhead(t), t.readLimit, t.capacity)
  }

  lemma FitMakesRoom(t: Stack, ks: Keys, o: Origin, wire: seq<byte>, later: seq<seq<byte>>, pieces: seq<nat>)
    requires Stream(t, ks, o, wire, later, pieces) && SizesFit(t, o, later, pieces)
    ensures Room(t, ks, o, wire)
  {
    forall x: nat, y: nat | x <= y <= |wire| && PossibleRead(t, ks, o, wire, x, y)
      ensures RoomAt(t, ks, o, wire, x, y)
    {
      RoomIs(t, ks, o, wire, later, pieces, x, y);
      ReadFits(Sizes(t.inner, later, o.seqno), |o.held|, pieces, Overhead(t), t.readLimit, t.capacity, x, y);
    }
  }

  lemma RoomBringsPieces(t: Stack, ks: Keys, o: Origin, wire: seq<byte>, later: seq<seq<byte>>, pieces: seq<nat>, b: nat, m: nat)
    requires Stream(t, ks, o, wire, later, pieces) && Room(t, ks, o, wire)
    requires OneReadBrings(pieces, Overhead(t), t.readLimit, b, m)
    ensures Offset(Sizes(t.inner, later, o.seqno), |o.held| + Sum(pieces[..b])) + Sum(pieces[b..m + 1]) <= t.capacity
  {
    var x, y := ReadOf(pieces, Overhead(t), t.readLimit, b, m);
    RoomIs(t, ks, o, wire, later, pieces, x, y);
    assert RoomAt(t, ks, o, wire, x, y);
    Stretch(pieces, Overhead(t), b, m + 1);
    if x == 0 {
      IndexBounds(pieces, Overhead(t), 0);
      NothingBefore(pieces, Overhead(t), b);
      OffsetBound(Sizes(t.inner, later, o.seqno), |o.held|);
    }
  }

  lemma RoomBringsFirst(t: Stack, ks: Keys, o: Origin, wire: seq<byte>, later: seq<seq<byte>>, pieces: seq<nat>, m: nat)
    requires Stream(t, ks, o, wire, later, pieces) && Room(t, ks, o, wire)
    requires FirstReadBrings(pieces, Overhead(t), t.readLimit, m)
    ensures |o.held| + Sum(pieces[..m + 1]) <= t.capacity
  {
    var y := FirstReadOf(pieces, Overhead(t), t.readLimit, m);
    RoomIs(t, ks, o, wire, later, pieces, 0, y);
    assert RoomAt(t, ks, o, wire, 0, y);
  }

  lemma RoomExactlyWhenSizesFit(t: Stack, ks: Keys, o: Origin, wire: seq<byte>, later: seq<seq<byte>>, pieces: seq<nat>)
    requires Stream(t, ks, o, wire, later, pieces)
    ensures Room(t, ks, o, wire) <==> SizesFit(t, o, later, pieces)
  {
    if SizesFit(t, o, later, pieces) {
      FitMakesRoom(t, ks, o, wire, later, pieces);
    }
    if Room(t, ks, o, wire) {
      forall b: nat, m: nat | OneReadBrings(pieces, Overhead(t), t.readLimit, b, m)
        ensures Offset(Sizes(t.inner, later, o.seqno), |o.held| + Sum(pieces[..b])) + Sum(pieces[b..m + 1]) <= t.capacity
      {
        RoomBringsPieces(t, ks, o, wire, later, pieces, b, m);
      }
      forall m: nat | FirstReadBrings(pieces, Overhead(t), t.readLimit, m)
        ensures |o.held| + Sum(pieces[..m + 1]) <= t.capacity
      {
        RoomBringsFirst(t, ks, o, wire, later, pieces, m);
      }
    }
  }
}
