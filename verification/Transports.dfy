/** The six transports as stacks of layers over the sender's read buffer, and what the
    arrival theorems say of each. */
module Transports {
  import opened Bytes
  import opened FrameStreams
  import opened Framing
  import opened Keystream
  import opened Pipeline
  import opened ReadCuts
  import opened FrameSizes
  import Capacity
  import opened SentStreams
  import opened Arrival

  const READ_BUF_CAP := 1024 * 1024 + 8 * 1024
  const READ_SCRATCH_CAP := 64 * 1024

  datatype Transport =
    | PlainAbridged | PlainIntermediate | PlainFull
    | Obfuscated | PaddedIntermediate | FakeTls

  function FramingOf(t: Transport): Framing {
    match t
    case PlainAbridged => Abridged
    case Obfuscated => Abridged
    case PlainFull => Full
    case PlainIntermediate => Intermediate
    case PaddedIntermediate => Intermediate
    case FakeTls => Intermediate
  }

  predicate Ciphered(t: Transport) {
    t.Obfuscated? || t.PaddedIntermediate? || t.FakeTls?
  }

  predicate Pads(t: Transport) {
    t.PaddedIntermediate? || t.FakeTls?
  }

  function StackOf(t: Transport): (s: Stack)
    ensures SoundStack(s)
  {
    EveryFramingIsSound(FramingOf(t));
    EveryFramingIsSound(TlsRecord);
    Stack(CodecOf(FramingOf(t)), Ciphered(t), t.FakeTls?, CodecOf(TlsRecord), READ_BUF_CAP, READ_SCRATCH_CAP)
  }

  /** What is framed: the message, and up to 15 random bytes where the transport pads. */
  function Body(t: Transport, data: seq<byte>, pad: seq<byte>): seq<byte> {
    if Pads(t) then data + pad else data
  }

  datatype Outgoing = Outgoing(data: seq<byte>, pad: seq<byte>)

  function Bodies(t: Transport, msgs: seq<Outgoing>): (r: seq<seq<byte>>)
    ensures |r| == |msgs| && forall i :: 0 <= i < |msgs| ==> r[i] == Body(t, msgs[i].data, msgs[i].pad)
  {
    seq(|msgs|, i requires 0 <= i < |msgs| => Body(t, msgs[i].data, msgs[i].pad))
  }

  ghost predicate Sendable(t: Transport, msgs: seq<Outgoing>) {
    forall i :: 0 <= i < |msgs| ==> Fits(FramingOf(t), Body(t, msgs[i].data, msgs[i].pad))
  }

  lemma StackCarries(t: Transport, msgs: seq<Outgoing>)
    requires Sendable(t, msgs)
    ensures AllFit(StackOf(t).inner, Bodies(t, msgs))
  {
  }

  /** The read buffer is large enough for the messages, whatever the reads. */
  ghost predicate Receivable(t: Transport, msgs: seq<Outgoing>, seqno: u32) {
    BodiesFit(StackOf(t), Bodies(t, msgs), seqno)
  }

  /** On every transport, for messages the buffer is large enough for: whatever part of the
      sent bytes has arrived, in whatever reads, the bodies that are complete come out as
      sent and in order. */
  lemma EndToEnd(t: Transport, ks: Keys, msgs: seq<Outgoing>, seqno: u32, chunks: seq<seq<byte>>) returns (k: nat)
    requires Sendable(t, msgs) && Receivable(t, msgs, seqno)
    requires AreReads(StackOf(t), chunks) && chunks != []
    requires Flatten(chunks) <= SendAll(StackOf(t), ks, 0, Bodies(t, msgs), seqno)
    ensures k <= |msgs|
    ensures var p := ReceiveAll(StackOf(t), ks, Handoff(Origin(0, [], seqno)), chunks);
            && p.status.Running? && p.frames == Bodies(t, msgs)[..k]
            && (Flatten(chunks) == SendAll(StackOf(t), ks, 0, Bodies(t, msgs), seqno) ==>
                  p.frames == Bodies(t, msgs) && p.buf == [] && p.raw == [])
  {
    StackCarries(t, msgs);
    k := StackEndToEnd(StackOf(t), ks, Bodies(t, msgs), seqno, chunks);
  }

  /** Exactly those messages survive every cut into reads. */
  lemma EndToEndExactlyWhen(t: Transport, ks: Keys, msgs: seq<Outgoing>, seqno: u32)
    requires Sendable(t, msgs) && SendAll(StackOf(t), ks, 0, Bodies(t, msgs), seqno) != []
    ensures (forall chunks :: IsCut(StackOf(t), chunks, SendAll(StackOf(t), ks, 0, Bodies(t, msgs), seqno)) ==>
               var p := ReceiveAll(StackOf(t), ks, Handoff(Origin(0, [], seqno)), chunks);
               p.status.Running? && p.frames == Bodies(t, msgs))
            <==> Receivable(t, msgs, seqno)
  {
    StackCarries(t, msgs);
    StackEndToEndExactlyWhen(StackOf(t), ks, Bodies(t, msgs), seqno);
  }

  /** On the five transports without records the test is one inequality a frame. */
  lemma ReceivableInBytes(t: Transport, msgs: seq<Outgoing>, seqno: u32)
    requires Sendable(t, msgs) && !t.FakeTls?
    ensures Receivable(t, msgs, seqno)
            <==> BytesFit(Sizes(StackOf(t).inner, Bodies(t, msgs), seqno), READ_SCRATCH_CAP, READ_BUF_CAP)
  {
    StackCarries(t, msgs);
    BodiesFitInBytes(StackOf(t), Bodies(t, msgs), seqno);
  }

  // A body this long leaves room for its header, a record and a read.
  const SMALL_BODY := READ_BUF_CAP - READ_SCRATCH_CAP - 16384 - 12

  lemma EncodedSize(f: Framing, data: seq<byte>, seqno: u32)
    ensures |data| < |Encode(f, data, seqno)| <= |data| + 12
  {
  }

  /** Bodies of up to 974 836 bytes are receivable on every transport. */
  lemma SmallBodiesAreReceivable(t: Transport, msgs: seq<Outgoing>, seqno: u32)
    requires forall i :: 0 <= i < |msgs| ==> |Body(t, msgs[i].data, msgs[i].pad)| <= SMALL_BODY
    ensures Receivable(t, msgs, seqno)
  {
    var c, bodies := StackOf(t).inner, Bodies(t, msgs);
    forall i | 0 <= i < |bodies|
      ensures Sizes(c, bodies, seqno)[i] <= SMALL_BODY + 12
    {
      SizeAt(c, bodies, seqno, i);
      EncodedSize(FramingOf(t), bodies[i], SeqnoAfter(c, seqno, i));
    }
    SmallBodiesFit(StackOf(t), bodies, seqno);
  }

  /** A body as long as the buffer is not handed on, nor is any behind it, in any reads. */
  lemma LongBodyNeverArrives(t: Transport, ks: Keys, msgs: seq<Outgoing>, seqno: u32, chunks: seq<seq<byte>>, i: nat)
    requires Sendable(t, msgs) && i < |msgs| && |Body(t, msgs[i].data, msgs[i].pad)| >= READ_BUF_CAP
    requires AreReads(StackOf(t), chunks) && Flatten(chunks) <= SendAll(StackOf(t), ks, 0, Bodies(t, msgs), seqno)
    ensures |ReceiveAll(StackOf(t), ks, Handoff(Origin(0, [], seqno)), chunks).frames| <= i
  {
    StackCarries(t, msgs);
    EncodedSize(FramingOf(t), Bodies(t, msgs)[i], SeqnoAfter(StackOf(t).inner, seqno, i));
    TooLargeNeverArrives(StackOf(t), ks, Bodies(t, msgs), seqno, chunks, i);
  }

  /** From the handshake on: if the handshake's exact reads took the frames `early`, its
      left-over bytes and the later reads yield the frames `later`, in every cut exactly
      when their sizes pass the test. */
  lemma HandoffToSender(t: Transport, ks: Keys, early: seq<seq<byte>>, later: seq<Outgoing>, seqno: u32,
                        read: seq<byte>, rest: seq<byte>, o: Origin, taken: seq<byte>)
    requires Sendable(t, later) && rest != [] && |o.held| <= READ_BUF_CAP
    requires read + rest == SendAll(StackOf(t), ks, 0, early + Bodies(t, later), seqno)
    requires HandshakeLeft(StackOf(t), ks, read, o.pos, taken, o.held)
    requires taken == EncodeAll(StackOf(t).inner, early, seqno)
    requires o.seqno == SeqnoAfter(StackOf(t).inner, seqno, |early|)
    ensures (forall chunks :: IsCut(StackOf(t), chunks, rest) ==>
               var p := ReceiveAll(StackOf(t), ks, Handoff(o), chunks); p.status.Running? && p.frames == Bodies(t, later))
            <==> Capacity.SizesFit(StackOf(t), o, Bodies(t, later),
                                   PiecesToCome(StackOf(t), early + Bodies(t, later), seqno, read))
  {
    StackCarries(t, later);
    HandoffEndToEnd(StackOf(t), ks, early, Bodies(t, later), seqno, read, rest, o, taken);
  }

  // Frames in front of a bad record

  lemma BadBehindGood(t: Stack, good: seq<byte>, bad: seq<byte>)
    requires SoundStack(t) && RawAfter(t, good) == [] && !Readable(t, bad)
    ensures !Readable(t, good + bad)
  {
    assert [] + bad == bad;
    if Readable(t, good + bad) {
      RawGrows(t, good, bad);
    }
  }

  /** Frames in front of a bad record are handed on when they come in a read of their own,
      and lost when the bad record comes in the same read. */
  lemma OneReadHidesFrames(t: Stack, ks: Keys, bodies: seq<seq<byte>>, seqno: u32, bad: seq<byte>)
    requires SoundStack(t) && AllFit(t.inner, bodies) && BodiesFit(t, bodies, seqno) && !Readable(t, bad)
    requires var good := SendAll(t, ks, 0, bodies, seqno); good != [] && |good| + |bad| <= t.readLimit
    ensures var good, start := SendAll(t, ks, 0, bodies, seqno), Handoff(Origin(0, [], seqno));
            && ReceiveAll(t, ks, start, [good, bad]).frames == bodies
            && ReceiveAll(t, ks, start, [good + bad]).frames == []
            && ReceiveAll(t, ks, start, [good, bad]).status == ReceiveAll(t, ks, start, [good + bad]).status == BadRecord
  {
    var good, start := SendAll(t, ks, 0, bodies, seqno), Handoff(Origin(0, [], seqno));
    assert Flatten([good]) == good + Flatten([]);
    var k := StackEndToEnd(t, ks, bodies, seqno, [good]);
    SentCarries(t, ks, bodies, seqno);
    BadBehindGood(t, good, bad);
    BadReadBehind(t, ks, start, good, bad);
    BadReadAlone(t, ks, start, good + bad);
  }

  lemma BadReadBehind(t: Stack, ks: Keys, start: Pipe, good: seq<byte>, bad: seq<byte>)
    requires SoundStack(t) && start.status.Running? && !Readable(t, bad)
    requires ReceiveAll(t, ks, start, [good]).status.Running? && ReceiveAll(t, ks, start, [good]).raw == []
    ensures var p := ReceiveAll(t, ks, start, [good, bad]);
            p.frames == ReceiveAll(t, ks, start, [good]).frames && p.status.BadRecord?
  {
    ReceiveOneMore(t, ks, start, [good], bad);
    assert [good] + [bad] == [good, bad];
    assert [] + bad == bad;
  }

  lemma BadReadAlone(t: Stack, ks: Keys, start: Pipe, bad: seq<byte>)
    requires SoundStack(t) && start.status.Running? && start.raw == [] && !Readable(t, bad)
    ensures var p := ReceiveAll(t, ks, start, [bad]); p.frames == start.frames && p.status.BadRecord?
  {
    assert [] + bad == bad;
    OneRead(t, ks, start, bad);
  }

  lemma OneRead(t: Stack, ks: Keys, p: Pipe, chunk: seq<byte>)
    requires SoundStack(t) && p.status.Running?
    ensures ReceiveAll(t, ks, p, [chunk]) == Turn(t, ks, p, chunk)
  {
    assert [chunk][1..] == [];
  }

  /** An empty handshake record, which has no business in the data stream. */
  const HANDSHAKE_RECORD: seq<byte> := [0x16, 0x03, 0x03, 0x00, 0x00]

  lemma HandshakeRecordIsBad()
    ensures !Readable(StackOf(FakeTls), HANDSHAKE_RECORD)
  {
    var c := StackOf(FakeTls).records;
    assert HANDSHAKE_RECORD[3..5] == [0x00, 0x00];
    DrainUnfolds(c, HANDSHAKE_RECORD, 0, c.peel(HANDSHAKE_RECORD, 0));
  }

  /** FakeTLS messages and then an empty handshake record: in two reads the messages come
      out, in one they do not. */
  lemma AHandshakeRecordHidesFrames(ks: Keys, msgs: seq<Outgoing>, seqno: u32)
    requires Sendable(FakeTls, msgs) && Receivable(FakeTls, msgs, seqno)
    requires var good := SendAll(StackOf(FakeTls), ks, 0, Bodies(FakeTls, msgs), seqno);
             good != [] && |good| + |HANDSHAKE_RECORD| <= READ_SCRATCH_CAP
    ensures var good := SendAll(StackOf(FakeTls), ks, 0, Bodies(FakeTls, msgs), seqno);
            var start := Handoff(Origin(0, [], seqno));
            && ReceiveAll(StackOf(FakeTls), ks, start, [good, HANDSHAKE_RECORD]).frames == Bodies(FakeTls, msgs)
            && ReceiveAll(StackOf(FakeTls), ks, start, [good + HANDSHAKE_RECORD]).frames == []
  {
    StackCarries(FakeTls, msgs);
    HandshakeRecordIsBad();
    OneReadHidesFrames(StackOf(FakeTls), ks, Bodies(FakeTls, msgs), seqno, HANDSHAKE_RECORD);
  }
}
