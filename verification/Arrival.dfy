/** What arrives: with a buffer large enough for the sizes, every frame, in any reads; a
    frame larger than the buffer, and what comes behind it, never. */
module Arrival {
  import opened Bytes
  import opened FrameStreams
  import opened FrameSizes
  import opened Keystream
  import opened Pipeline
  import opened ReadCuts
  import opened SentStreams
  import opened Capacity

  lemma RoomBefore(t: Stack, ks: Keys, o: Origin, wire: seq<byte>, n: nat)
    requires SoundStack(t) && Room(t, ks, o, wire) && n <= |wire|
    ensures Room(t, ks, o, wire[..n])
  {
    forall x: nat, y: nat | x <= y <= n && PossibleRead(t, ks, o, wire[..n], x, y)
      ensures RoomAt(t, ks, o, wire[..n], x, y)
    {
      assert wire[..n][..x] == wire[..x] && wire[..n][..y] == wire[..y];
      assert PossibleRead(t, ks, o, wire, x, y);
    }
  }

  /** Everything that was sent stands decoded behind what was held. */
  lemma WholeStreamHandedOn(t: Stack, ks: Keys, o: Origin, wire: seq<byte>, later: seq<seq<byte>>, pieces: seq<nat>)
    requires Stream(t, ks, o, wire, later, pieces)
    ensures var d := Whole(t, ks, o, wire);
            !d.failed && d.frames == later && d.rest == []
  {
    WholeStreamDrains(t.inner, later, o.seqno);
  }

  /** Whatever part of the bytes has arrived, in any reads: the frames that are complete
      come out as they were sent, in order; all the bytes give all the frames. */
  lemma CarriedArrives(t: Stack, ks: Keys, o: Origin, wire: seq<byte>, later: seq<seq<byte>>, pieces: seq<nat>,
                       chunks: seq<seq<byte>>)
    returns (k: nat)
    requires Stream(t, ks, o, wire, later, pieces) && SizesFit(t, o, later, pieces)
    requires AreReads(t, chunks) && chunks != [] && Flatten(chunks) <= wire
    ensures k <= |later|
    ensures var p := ReceiveAll(t, ks, Handoff(o), chunks);
            && p.status.Running? && p.frames == later[..k]
            && (Flatten(chunks) == wire ==> p.frames == later && p.buf == [] && p.raw == [])
  {
    var got := Flatten(chunks);
    assert got == wire[..|got|];
    FitMakesRoom(t, ks, o, wire, later, pieces);
    RoomBefore(t, ks, o, wire, |got|);
    ReadableBefore(t, wire, |got|);
    k := PartHandedOn(t, ks, o, wire, later, pieces, |got|);
    ReadsDoNotMatter(t, ks, o, chunks);
    WholeStreamHandedOn(t, ks, o, wire, later, pieces);
  }

  /** The frames survive every cut into reads exactly when their sizes pass the test. */
  lemma EveryCutArrivesExactlyWhenSizesFit(t: Stack, ks: Keys, o: Origin, wire: seq<byte>, later: seq<seq<byte>>, pieces: seq<nat>)
    requires Stream(t, ks, o, wire, later, pieces) && wire != []
    ensures (forall chunks :: IsCut(t, chunks, wire) ==>
               var p := ReceiveAll(t, ks, Handoff(o), chunks); p.status.Running? && p.frames == later)
            <==> SizesFit(t, o, later, pieces)
  {
    WholeStreamHandedOn(t, ks, o, wire, later, pieces);
    RoomExactlyWhenSizesFit(t, ks, o, wire, later, pieces);
    EveryCutSurvivesExactlyWithRoom(t, ks, o, wire);
    forall chunks | IsCut(t, chunks, wire) && SizesFit(t, o, later, pieces)
      ensures ReceiveAll(t, ks, Handoff(o), chunks).frames == later
    {
      var k := CarriedArrives(t, ks, o, wire, later, pieces, chunks);
    }
  }

  // From the start of the stream

  /** The test for frames sent from the start. */
  ghost predicate BodiesFit(t: Stack, bodies: seq<seq<byte>>, seqno: u32) {
    SizesFit(t, Origin(0, [], seqno), bodies, AllPieces(t, bodies, seqno))
  }

  lemma SentIsStream(t: Stack, ks: Keys, bodies: seq<seq<byte>>, seqno: u32)
    requires SoundStack(t) && AllFit(t.inner, bodies)
    ensures Stream(t, ks, Origin(0, [], seqno), SendAll(t, ks, 0, bodies, seqno), bodies, AllPieces(t, bodies, seqno))
  {
    SentCarries(t, ks, bodies, seqno);
  }

  lemma StackEndToEnd(t: Stack, ks: Keys, bodies: seq<seq<byte>>, seqno: u32, chunks: seq<seq<byte>>) returns (k: nat)
    requires SoundStack(t) && AllFit(t.inner, bodies) && BodiesFit(t, bodies, seqno)
    requires AreReads(t, chunks) && chunks != [] && Flatten(chunks) <= SendAll(t, ks, 0, bodies, seqno)
    ensures k <= |bodies|
    ensures var p := ReceiveAll(t, ks, Handoff(Origin(0, [], seqno)), chunks);
            && p.status.Running? && p.frames == bodies[..k]
            && (Flatten(chunks) == SendAll(t, ks, 0, bodies, seqno) ==>
                  p.frames == bodies && p.buf == [] && p.raw == [])
  {
    SentIsStream(t, ks, bodies, seqno);
    k := CarriedArrives(t, ks, Origin(0, [], seqno), SendAll(t, ks, 0, bodies, seqno), bodies,
                        AllPieces(t, bodies, seqno), chunks);
  }

  /** Which lists of frames survive every cut into reads: exactly those that pass the test. */
  lemma StackEndToEndExactlyWhen(t: Stack, ks: Keys, bodies: seq<seq<byte>>, seqno: u32)
    requires SoundStack(t) && AllFit(t.inner, bodies) && SendAll(t, ks, 0, bodies, seqno) != []
    ensures (forall chunks :: IsCut(t, chunks, SendAll(t, ks, 0, bodies, seqno)) ==>
               var p := ReceiveAll(t, ks, Handoff(Origin(0, [], seqno)), chunks); p.status.Running? && p.frames == bodies)
            <==> BodiesFit(t, bodies, seqno)
  {
    SentIsStream(t, ks, bodies, seqno);
    EveryCutArrivesExactlyWhenSizesFit(t, ks, Origin(0, [], seqno), SendAll(t, ks, 0, bodies, seqno), bodies,
                                       AllPieces(t, bodies, seqno));
  }

  lemma {:induction false} SizesArePositive(c: Codec, bodies: seq<seq<byte>>, seqno: u32)
    requires Sound(c) && AllFit(c, bodies)
    ensures Positive(Sizes(c, bodies, seqno))
    decreases |bodies|
  {
    if bodies != [] {
      assert c.peel(c.encode(bodies[0], seqno), seqno).Complete?;
      assert forall i :: 0 <= i < |bodies[1..]| ==> bodies[1..][i] == bodies[i + 1];
      SizesArePositive(c, bodies[1..], c.next(seqno));
    }
  }

  /** Without records the test is on each frame and what is behind it: all of the frame
      but its last byte, and one read, must fit the buffer. */
  lemma BodiesFitInBytes(t: Stack, bodies: seq<seq<byte>>, seqno: u32)
    requires SoundStack(t) && AllFit(t.inner, bodies) && !t.wrapped
    ensures BodiesFit(t, bodies, seqno) <==> BytesFit(Sizes(t.inner, bodies, seqno), t.readLimit, t.capacity)
  {
    SizesArePositive(t.inner, bodies, seqno);
    BytesFitIsTheTest(Sizes(t.inner, bodies, seqno), t.readLimit, t.capacity);
  }

  /** Frames small enough to leave room for a piece and a read pass the test. */
  lemma SmallBodiesFit(t: Stack, bodies: seq<seq<byte>>, seqno: u32)
    requires SoundStack(t)
    requires SmallFrames(Sizes(t.inner, bodies, seqno), 0, PieceSize(t), t.readLimit, t.capacity)
    ensures BodiesFit(t, bodies, seqno)
  {
    var sizes := Sizes(t.inner, bodies, seqno);
    PiecesSum(sizes, PieceSize(t));
    PiecesAreShort(sizes, PieceSize(t));
    SmallFramesFit(sizes, 0, AllPieces(t, bodies, seqno), PieceSize(t), Overhead(t), t.readLimit, t.capacity);
  }

  // Frames larger than the buffer

  lemma SumUpTo(sizes: seq<nat>, i: nat, j: nat)
    requires i <= j <= |sizes|
    ensures Sum(sizes[..i]) <= Sum(sizes[..j])
    ensures i < j ==> Sum(sizes[..i]) + sizes[i] <= Sum(sizes[..j])
  {
    Stretch(sizes, 0, i, j);
    if i < j {
      Stretch(sizes, 0, i, i + 1);
      OneOf(sizes, 0, i);
      Stretch(sizes, 0, i + 1, j);
    }
  }

  /** How many bytes the frames handed on and the buffer account for. */
  lemma BufferedAndHandedOn(t: Stack, ks: Keys, o: Origin, wire: seq<byte>, later: seq<seq<byte>>, pieces: seq<nat>, x: nat)
    requires Stream(t, ks, o, wire, later, pieces) && o.held == [] && x <= |wire|
    ensures !FailedBy(t, ks, o, wire[..x]) && |FramesBy(t, ks, o, wire[..x])| <= |later|
    ensures |Decoded(t, ks, o.pos, wire[..x])|
            == Sum(Sizes(t.inner, later, o.seqno)[..|FramesBy(t, ks, o, wire[..x])|]) + |Buffered(t, ks, o, wire[..x])|
  {
    NothingDecoded(t, ks, o.pos);
    var k := PartHandedOn(t, ks, o, wire, later, pieces, x);
    assert [] + Decoded(t, ks, o.pos, wire[..x]) == Decoded(t, ks, o.pos, wire[..x]);
  }

  /** A read that finds room does not complete a frame larger than the buffer. */
  lemma StaysBelow(t: Stack, ks: Keys, o: Origin, wire: seq<byte>, later: seq<seq<byte>>, pieces: seq<nat>,
                   x: nat, y: nat, i: nat)
    requires Stream(t, ks, o, wire, later, pieces) && o.held == [] && x <= y <= |wire|
    requires i < |later| && Sizes(t.inner, later, o.seqno)[i] > t.capacity
    requires RoomAt(t, ks, o, wire, x, y) && |FramesBy(t, ks, o, wire[..x])| <= i
    ensures |FramesBy(t, ks, o, wire[..y])| <= i
  {
    BufferedAndHandedOn(t, ks, o, wire, later, pieces, x);
    BufferedAndHandedOn(t, ks, o, wire, later, pieces, y);
    var sizes := Sizes(t.inner, later, o.seqno);
    SumUpTo(sizes, |FramesBy(t, ks, o, wire[..x])|, i);
    if |FramesBy(t, ks, o, wire[..y])| > i {
      SumUpTo(sizes, i, |FramesBy(t, ks, o, wire[..y])|);
    }
  }

  lemma RunningHasRoom(t: Stack, ks: Keys, o: Origin, wire: seq<byte>, x: nat, y: nat, before: seq<byte>, chunk: seq<byte>)
    requires SoundStack(t) && x <= y <= |wire| && before == wire[..x] && before + chunk == wire[..y]
    requires Verdict(t, ks, o, before, chunk).Running?
    ensures RoomAt(t, ks, o, wire, x, y)
  {
  }

  lemma SamePrefix(a: seq<byte>, b: seq<byte>, x: nat)
    requires a <= b && x <= |a|
    ensures a[..x] == b[..x]
  {
  }

  lemma {:induction false} NeverBeyond(t: Stack, ks: Keys, o: Origin, wire: seq<byte>, later: seq<seq<byte>>, pieces: seq<nat>,
                                       chunks: seq<seq<byte>>, m: nat, i: nat)
    requires Stream(t, ks, o, wire, later, pieces) && o.held == [] && AreReads(t, chunks) && Flatten(chunks) <= wire
    requires i < |later| && Sizes(t.inner, later, o.seqno)[i] > t.capacity
    requires m <= |chunks| && forall j :: 0 <= j < m ==> Verdict(t, ks, o, Upto(chunks, j), chunks[j]).Running?
    ensures |FramesBy(t, ks, o, Upto(chunks, m))| <= i
    decreases m
  {
    if m == 0 {
      assert Upto(chunks, 0) == [];
    } else {
      NeverBeyond(t, ks, o, wire, later, pieces, chunks, m - 1, i);
      var x, y := ReadPositions(t, chunks, m - 1);
      SamePrefix(Flatten(chunks), wire, x);
      SamePrefix(Flatten(chunks), wire, y);
      RunningHasRoom(t, ks, o, wire, x, y, Upto(chunks, m - 1), chunks[m - 1]);
      StaysBelow(t, ks, o, wire, later, pieces, x, y, i);
    }
  }

  /** A frame larger than the buffer is not handed on, nor is anything behind it,
      whatever the reads. */
  lemma TooLargeNeverArrives(t: Stack, ks: Keys, bodies: seq<seq<byte>>, seqno: u32, chunks: seq<seq<byte>>, i: nat)
    requires SoundStack(t) && AllFit(t.inner, bodies) && i < |bodies|
    requires |t.inner.encode(bodies[i], SeqnoAfter(t.inner, seqno, i))| > t.capacity
    requires AreReads(t, chunks) && Flatten(chunks) <= SendAll(t, ks, 0, bodies, seqno)
    ensures |ReceiveAll(t, ks, Handoff(Origin(0, [], seqno)), chunks).frames| <= i
  {
    var o, wire := Origin(0, [], seqno), SendAll(t, ks, 0, bodies, seqno);
    SentIsStream(t, ks, bodies, seqno);
    SizeAt(t.inner, bodies, seqno, i);
    var n := RunEnds(t, ks, o, chunks);
    NeverBeyond(t, ks, o, wire, bodies, AllPieces(t, bodies, seqno), chunks, n, i);
    EndsWithFrames(t, ks, o, wire, bodies, AllPieces(t, bodies, seqno), chunks, n);
  }

  /** No frame of a stream is bad, one read further on either. */
  lemma GoodBehind(t: Stack, ks: Keys, o: Origin, wire: seq<byte>, later: seq<seq<byte>>, pieces: seq<nat>,
                   chunks: seq<seq<byte>>, n: nat)
    requires Stream(t, ks, o, wire, later, pieces) && o.held == [] && AreReads(t, chunks) && Flatten(chunks) <= wire
    requires n < |chunks|
    ensures !FailedBy(t, ks, o, Upto(chunks, n) + chunks[n])
  {
    var x, y := ReadPositions(t, chunks, n);
    assert Flatten(chunks)[..y] == wire[..y];
    BufferedAndHandedOn(t, ks, o, wire, later, pieces, y);
  }

  /** A run over part of a stream ends with the frames complete by its last good read. */
  lemma EndsWithFrames(t: Stack, ks: Keys, o: Origin, wire: seq<byte>, later: seq<seq<byte>>, pieces: seq<nat>,
                       chunks: seq<seq<byte>>, n: nat)
    requires Stream(t, ks, o, wire, later, pieces) && o.held == [] && AreReads(t, chunks) && Flatten(chunks) <= wire
    requires EndsAt(t, ks, o, chunks, n, ReceiveAll(t, ks, Handoff(o), chunks))
    ensures n <= |chunks| && ReceiveAll(t, ks, Handoff(o), chunks).frames == FramesBy(t, ks, o, Upto(chunks, n))
  {
    if n < |chunks| {
      GoodBehind(t, ks, o, wire, later, pieces, chunks, n);
      OneTurn(t, ks, o, Upto(chunks, n), chunks[n], Through(t, ks, o, chunks, n));
    }
  }

  // From the hand-off on

  /** The bytes the handshake read and did not hand out are the start of the pipe's buffer. */
  ghost predicate HandshakeLeft(t: Stack, ks: Keys, read: seq<byte>, pos: nat, taken: seq<byte>, held: seq<byte>)
    requires SoundStack(t)
  {
    && Readable(t, read) && RawAfter(t, read) == []
    && taken + held == Decoded(t, ks, 0, read) && pos == PosAfter(t, 0, taken + held)
  }

  lemma CancelPrefix(x: seq<byte>, y: seq<byte>, z: seq<byte>)
    requires x + y == x + z
    ensures y == z
  {
    assert (x + y)[|x|..] == y;
    assert (x + z)[|x|..] == z;
  }

  /** What is decoded after the handshake's bytes goes on from them. */
  lemma DecodedOn(t: Stack, ks: Keys, read: seq<byte>, got: seq<byte>, pos: nat, taken: seq<byte>, held: seq<byte>)
    requires SoundStack(t) && HandshakeLeft(t, ks, read, pos, taken, held) && Readable(t, read + got)
    ensures Readable(t, got) && RawAfter(t, got) == RawAfter(t, read + got)
    ensures Decoded(t, ks, 0, read + got) == (taken + held) + Decoded(t, ks, pos, got)
  {
    RawGrows(t, read, got);
    DecodedGrows(t, ks, 0, read, got);
    assert [] + got == got;
  }

  lemma PiecesOf(t: Stack, ks: Keys, pos: nat, wire: seq<byte>, pieces: seq<nat>, x: nat, got: seq<byte>)
    requires SoundStack(t) && x <= |wire| && InPieces(t, ks, pos, wire, pieces, x) && got == wire[..x]
    ensures var k := PieceIndex(pieces, Overhead(t), x);
            && |Decoded(t, ks, pos, got)| == Sum(pieces[..k])
            && (t.wrapped ==> |RawAfter(t, got)| == x - FrameSizes.Wire(pieces[..k], Overhead(t)))
  {
  }

  lemma BytesEnd(pieces: seq<nat>, n: nat)
    requires Ones(pieces) && n <= |pieces|
    ensures FrameSizes.Wire(pieces[..PieceIndex(pieces, 0, n)], 0) == n
  {
    OnesSum(pieces[..n]);
    if n < |pieces| {
      OnesSum(pieces[..n + 1]);
    }
    IndexIs(pieces, 0, n, n);
  }

  /** The handshake's read ends where a piece does. */
  lemma HandshakeReadPieces(t: Stack, ks: Keys, read: seq<byte>, rest: seq<byte>, pieces: seq<nat>)
    requires SoundStack(t) && RawAfter(t, read) == []
    requires InPieces(t, ks, 0, read + rest, pieces, |read|)
    requires !t.wrapped ==> Ones(pieces) && |read| <= |pieces|
    ensures |read| == FrameSizes.Wire(pieces[..PieceIndex(pieces, Overhead(t), |read|)], Overhead(t))
  {
    PiecesOf(t, ks, 0, read + rest, pieces, |read|, read);
    if !t.wrapped {
      BytesEnd(pieces, |read|);
    }
  }

  /** Pieces counted from where the `f`th ends. */
  lemma CountedFrom(pieces: seq<nat>, overhead: nat, f: nat, x: nat)
    requires f <= |pieces|
    ensures var k := PieceIndex(pieces[f..], overhead, x);
            var j := PieceIndex(pieces, overhead, FrameSizes.Wire(pieces[..f], overhead) + x);
            && Sum(pieces[..j]) == Sum(pieces[..f]) + Sum(pieces[f..][..k])
            && FrameSizes.Wire(pieces[..j], overhead)
               == FrameSizes.Wire(pieces[..f], overhead) + FrameSizes.Wire(pieces[f..][..k], overhead)
  {
    IndexSplits(pieces, overhead, f, x);
    var k := PieceIndex(pieces[f..], overhead, x);
    Stretch(pieces, overhead, f, f + k);
    assert pieces[f..][..k] == pieces[f..f + k];
  }

  lemma InPiecesFrom(t: Stack, ks: Keys, pos: nat, wire: seq<byte>, pieces: seq<nat>, x: nat, got: seq<byte>, k: nat)
    requires SoundStack(t) && x <= |wire| && got == wire[..x] && k == PieceIndex(pieces, Overhead(t), x)
    requires Readable(t, got) && |Decoded(t, ks, pos, got)| == Sum(pieces[..k])
    requires t.wrapped ==> |RawAfter(t, got)| == x - FrameSizes.Wire(pieces[..k], Overhead(t))
    ensures InPieces(t, ks, pos, wire, pieces, x)
  {
  }

  /** `left` are the pieces behind the `f` that were read. */
  lemma PiecesAfter(t: Stack, ks: Keys, read: seq<byte>, rest: seq<byte>, pos: nat, taken: seq<byte>, held: seq<byte>,
                    pieces: seq<nat>, f: nat, left: seq<nat>, x: nat, got: seq<byte>)
    requires SoundStack(t) && HandshakeLeft(t, ks, read, pos, taken, held) && Readable(t, read + got)
    requires f <= |pieces| && left == pieces[f..] && |read| == FrameSizes.Wire(pieces[..f], Overhead(t))
    requires x <= |rest| && got == rest[..x]
    requires |taken + held| == Sum(pieces[..f])
    requires var j := PieceIndex(pieces, Overhead(t), |read| + x);
             && |Decoded(t, ks, 0, read + got)| == Sum(pieces[..j])
             && (t.wrapped ==> |RawAfter(t, read + got)| == |read| + x - FrameSizes.Wire(pieces[..j], Overhead(t)))
    ensures InPieces(t, ks, pos, rest, left, x)
  {
    DecodedOn(t, ks, read, got, pos, taken, held);
    CountedFrom(pieces, Overhead(t), f, x);
    AddedLength(taken + held, Decoded(t, ks, pos, got), Decoded(t, ks, 0, read + got));
    InPiecesFrom(t, ks, pos, rest, left, x, got, PieceIndex(left, Overhead(t), x));
  }

  lemma AddedLength(a: seq<byte>, b: seq<byte>, c: seq<byte>)
    requires c == a + b
    ensures |c| == |a| + |b|
  {
  }

  lemma HandoffCarries(t: Stack, ks: Keys, early: seq<seq<byte>>, later: seq<seq<byte>>, seqno: u32,
                       read: seq<byte>, rest: seq<byte>, o: Origin, taken: seq<byte>)
    requires SoundStack(t) && read + rest == SendAll(t, ks, 0, early + later, seqno)
    requires HandshakeLeft(t, ks, read, o.pos, taken, o.held)
    requires taken == EncodeAll(t.inner, early, seqno) && o.seqno == SeqnoAfter(t.inner, seqno, |early|)
    ensures Carries(t, ks, o, rest, later, PiecesToCome(t, early + later, seqno, read))
  {
    var all, pieces := early + later, AllPieces(t, early + later, seqno);
    SentCarries(t, ks, all, seqno);
    EncodeAllConcat(t.inner, early, later, seqno);
    DecodedOn(t, ks, read, rest, o.pos, taken, o.held);
    Reassociate(taken, o.held, Decoded(t, ks, o.pos, rest));
    assert [] + Decoded(t, ks, 0, read + rest) == Decoded(t, ks, 0, read + rest);
    CancelPrefix(taken, o.held + Decoded(t, ks, o.pos, rest), EncodeAll(t.inner, later, o.seqno));
    assert InPieces(t, ks, 0, read + rest, pieces, |read|);
    if !t.wrapped {
      PiecesAreBytes(Sizes(t.inner, all, seqno));
      OnesSum(pieces);
    }
    HandshakeReadPieces(t, ks, read, rest, pieces);
    RestInPieces(t, ks, read, rest, o, taken, pieces);
  }

  lemma RestInPiecesAt(t: Stack, ks: Keys, read: seq<byte>, rest: seq<byte>, all: seq<byte>, o: Origin, taken: seq<byte>,
                       pieces: seq<nat>, f: nat, left: seq<nat>, x: nat, got: seq<byte>, both: seq<byte>)
    requires SoundStack(t) && HandshakeLeft(t, ks, read, o.pos, taken, o.held) && Readable(t, both)
    requires x <= |rest| && got == rest[..x] && |read| + x <= |all|
    requires both == read + got && both == all[..|read| + x] && InPieces(t, ks, 0, all, pieces, |read| + x)
    requires f <= |pieces| && |read| == FrameSizes.Wire(pieces[..f], Overhead(t)) && |taken + o.held| == Sum(pieces[..f])
    requires left == pieces[f..]
    ensures InPieces(t, ks, o.pos, rest, left, x)
  {
    PiecesOf(t, ks, 0, all, pieces, |read| + x, both);
    PiecesAfter(t, ks, read, rest, o.pos, taken, o.held, pieces, f, left, x, got);
  }

  lemma RestInPieces(t: Stack, ks: Keys, read: seq<byte>, rest: seq<byte>, o: Origin, taken: seq<byte>, pieces: seq<nat>)
    requires SoundStack(t) && HandshakeLeft(t, ks, read, o.pos, taken, o.held) && Readable(t, read + rest)
    requires |read + rest| == FrameSizes.Wire(pieces, Overhead(t)) && Positive(pieces)
    requires forall x: nat :: x <= |read + rest| ==> InPieces(t, ks, 0, read + rest, pieces, x)
    requires |read| == FrameSizes.Wire(pieces[..PieceIndex(pieces, Overhead(t), |read|)], Overhead(t))
    ensures var left := pieces[PieceIndex(pieces, Overhead(t), |read|)..];
            && Positive(left) && |rest| == FrameSizes.Wire(left, Overhead(t))
            && forall x: nat :: x <= |rest| ==> InPieces(t, ks, o.pos, rest, left, x)
  {
    var f, all := PieceIndex(pieces, Overhead(t), |read|), read + rest;
    Stretch(pieces, Overhead(t), f, |pieces|);
    assert pieces[..|pieces|] == pieces && pieces[f..|pieces|] == pieces[f..];
    assert all[..|read|] == read;
    PiecesOf(t, ks, 0, all, pieces, |read|, read);
    forall x: nat | x <= |rest|
      ensures InPieces(t, ks, o.pos, rest, pieces[f..], x)
    {
      assert all[..|read| + x] == read + rest[..x];
      ReadableBefore(t, all, |read| + x);
      RestInPiecesAt(t, ks, read, rest, all, o, taken, pieces, f, pieces[f..], x, rest[..x], read + rest[..x]);
    }
  }

  /** The pieces the handshake has not read. */
  function PiecesToCome(t: Stack, all: seq<seq<byte>>, seqno: u32, read: seq<byte>): seq<nat> {
    var pieces := AllPieces(t, all, seqno);
    pieces[PieceIndex(pieces, Overhead(t), |read|)..]
  }

  /** If the handshake took whole frames, the pipe it hands over to yields the others,
      in every cut exactly when their sizes pass the test. */
  lemma HandoffEndToEnd(t: Stack, ks: Keys, early: seq<seq<byte>>, later: seq<seq<byte>>, seqno: u32,
                        read: seq<byte>, rest: seq<byte>, o: Origin, taken: seq<byte>)
    requires SoundStack(t) && AllFit(t.inner, later) && rest != []
    requires read + rest == SendAll(t, ks, 0, early + later, seqno)
    requires HandshakeLeft(t, ks, read, o.pos, taken, o.held) && |o.held| <= t.capacity
    requires taken == EncodeAll(t.inner, early, seqno) && o.seqno == SeqnoAfter(t.inner, seqno, |early|)
    ensures (forall chunks :: IsCut(t, chunks, rest) ==>
               var p := ReceiveAll(t, ks, Handoff(o), chunks); p.status.Running? && p.frames == later)
            <==> SizesFit(t, o, later, PiecesToCome(t, early + later, seqno, read))
  {
    HandoffCarries(t, ks, early, later, seqno, read, rest, o, taken);
    EveryCutArrivesExactlyWhenSizesFit(t, ks, o, rest, later, PiecesToCome(t, early + later, seqno, read));
  }
}
