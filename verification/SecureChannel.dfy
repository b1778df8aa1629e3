/** All layers together: messages enveloped, padded, sealed, framed, enciphered and
    wrapped by the server come out of the client's buffers as they went in. */
module SecureChannel {
  import opened Wrappers
  import opened Bytes
  import opened FrameStreams
  import opened Framing
  import opened Keystream
  import opened Pipeline
  import opened ReadCuts
  import opened Transports
  import Ige
  import opened Seal
  import opened Sessions

  /** A message, its random padding, and the random bytes the transport appends. */
  datatype Letter = Letter(m: Message, rnd: Digest, pad: seq<byte>)

  predicate Mailable(l: Letter) {
    |l.m.body| <= MAX_BODY && |l.pad| <= 15 && AsI32(l.m.seqNo % U32) == l.m.seqNo
  }

  function Post(c: Primitives, auth: AuthKey, l: Letter): Outgoing {
    Outgoing(Sealed(c, auth, Server, Padded(Envelope(l.m), l.rnd)), l.pad)
  }

  function PostAll(c: Primitives, auth: AuthKey, ls: seq<Letter>): (r: seq<Outgoing>)
    ensures |r| == |ls| && forall i :: 0 <= i < |ls| ==> r[i] == Post(c, auth, ls[i])
  {
    seq(|ls|, i requires 0 <= i < |ls| => Post(c, auth, ls[i]))
  }

  lemma WordsOfBlocks(n: nat)
    requires n % 16 == 0
    ensures (HEADER + n) % 4 == 0
  {
    var k := n / 16;
    assert HEADER + n == 24 + 16 * k == 4 * (6 + 4 * k);
  }

  lemma PaddedSize(plain: seq<byte>, rnd: Digest)
    ensures var n := |Padded(plain, rnd)|; (HEADER + n) % 4 == 0 && |plain| < n <= |plain| + 27
  {
    PaddingBounds(|plain|);
    WordsOfBlocks(|Padded(plain, rnd)|);
  }

  lemma SealedSize(c: Primitives, auth: AuthKey, padded: seq<byte>)
    requires Ige.Whole(padded)
    ensures |Sealed(c, auth, Server, padded)| == HEADER + |padded|
  {
  }

  lemma PostSize(c: Primitives, auth: AuthKey, l: Letter)
    ensures var n := |Post(c, auth, l).data|; n % 4 == 0 && |l.m.body| < n <= |l.m.body| + 96
  {
    PaddedSize(Envelope(l.m), l.rnd);
    SealedSize(c, auth, Padded(Envelope(l.m), l.rnd));
  }

  /** Every transport's length field can carry every message a client accepts. */
  lemma PostFits(t: Transport, c: Primitives, auth: AuthKey, l: Letter)
    requires Mailable(l)
    ensures Fits(FramingOf(t), Body(t, Post(c, auth, l).data, l.pad))
  {
    PostSize(c, auth, l);
  }

  lemma FrameOpens(t: Transport, c: Primitives, auth: AuthKey, l: Letter)
    requires Seal.Sound(c) && Mailable(l)
    ensures Opened(c, auth, Server, Body(t, Post(c, auth, l).data, l.pad)) == Ok(Padded(Envelope(l.m), l.rnd))
  {
    var sealed := Post(c, auth, l).data;
    OpenUndoesSeal(c, auth, Server, Padded(Envelope(l.m), l.rnd), if Pads(t) then l.pad else []);
    assert sealed + [] == sealed;
  }

  /** The read buffer is large enough for the letters, whatever the reads. */
  ghost predicate Deliverable(t: Transport, c: Primitives, auth: AuthKey, ls: seq<Letter>, seqno: u32) {
    Receivable(t, PostAll(c, auth, ls), seqno)
  }

  function OnTheWire(t: Transport, ks: Keys, c: Primitives, auth: AuthKey, ls: seq<Letter>, seqno: u32): seq<byte> {
    SendAll(StackOf(t), ks, 0, Bodies(t, PostAll(c, auth, ls)), seqno)
  }

  /** Each of the frames opens to the envelope of the letter at its place. */
  predicate OpenTo(c: Primitives, auth: AuthKey, frames: seq<seq<byte>>, ls: seq<Letter>) {
    && |frames| <= |ls|
    && forall i :: 0 <= i < |frames| ==> Opened(c, auth, Server, frames[i]) == Ok(Padded(Envelope(ls[i].m), ls[i].rnd))
  }

  lemma LettersAreSendable(t: Transport, c: Primitives, auth: AuthKey, ls: seq<Letter>)
    requires Seal.Sound(c) && forall i :: 0 <= i < |ls| ==> Mailable(ls[i])
    ensures Sendable(t, PostAll(c, auth, ls)) && OpenTo(c, auth, Bodies(t, PostAll(c, auth, ls)), ls)
  {
    var out := PostAll(c, auth, ls);
    forall i | 0 <= i < |ls|
      ensures Fits(FramingOf(t), Body(t, out[i].data, out[i].pad))
      ensures Opened(c, auth, Server, Bodies(t, out)[i]) == Ok(Padded(Envelope(ls[i].m), ls[i].rnd))
    {
      PostFits(t, c, auth, ls[i]);
      FrameOpens(t, c, auth, ls[i]);
    }
  }

  /** Whatever part of the server's bytes has arrived, on any transport and in any reads:
      each frame peeled opens to the envelope of the letter sent, in order, and no frame is
      missing once all bytes are there, for letters the buffer is large enough for. */
  lemma LettersArePeeled(t: Transport, ks: Keys, c: Primitives, auth: AuthKey, ls: seq<Letter>, seqno: u32, chunks: seq<seq<byte>>)
    requires Seal.Sound(c) && (forall i :: 0 <= i < |ls| ==> Mailable(ls[i])) && Deliverable(t, c, auth, ls, seqno)
    requires AreReads(StackOf(t), chunks) && chunks != [] && Flatten(chunks) <= OnTheWire(t, ks, c, auth, ls, seqno)
    ensures var p := ReceiveAll(StackOf(t), ks, Handoff(Origin(0, [], seqno)), chunks);
            && p.status.Running? && OpenTo(c, auth, p.frames, ls)
            && (Flatten(chunks) == OnTheWire(t, ks, c, auth, ls, seqno) ==> |p.frames| == |ls|)
  {
    LettersAreSendable(t, c, auth, ls);
    var out := PostAll(c, auth, ls);
    var k := EndToEnd(t, ks, out, seqno, chunks);
    PrefixOpens(c, auth, Bodies(t, out), k, ls);
  }

  lemma PrefixOpens(c: Primitives, auth: AuthKey, frames: seq<seq<byte>>, k: nat, ls: seq<Letter>)
    requires OpenTo(c, auth, frames, ls) && k <= |frames|
    ensures OpenTo(c, auth, frames[..k], ls)
  {
  }

  /** Exactly the deliverable letters are peeled from every cut into reads. */
  lemma LettersArePeeledExactlyWhen(t: Transport, ks: Keys, c: Primitives, auth: AuthKey, ls: seq<Letter>, seqno: u32)
    requires Seal.Sound(c) && (forall i :: 0 <= i < |ls| ==> Mailable(ls[i]))
    requires OnTheWire(t, ks, c, auth, ls, seqno) != []
    ensures (forall chunks :: IsCut(StackOf(t), chunks, OnTheWire(t, ks, c, auth, ls, seqno)) ==>
               var p := ReceiveAll(StackOf(t), ks, Handoff(Origin(0, [], seqno)), chunks);
               p.status.Running? && p.frames == Bodies(t, PostAll(c, auth, ls)))
            <==> Deliverable(t, c, auth, ls, seqno)
    ensures OpenTo(c, auth, Bodies(t, PostAll(c, auth, ls)), ls)
  {
    LettersAreSendable(t, c, auth, ls);
    EndToEndExactlyWhen(t, ks, PostAll(c, auth, ls), seqno);
  }

  /** Messages of up to 974 725 bytes are deliverable on every transport. */
  lemma ShortLettersAreDeliverable(t: Transport, c: Primitives, auth: AuthKey, ls: seq<Letter>, seqno: u32)
    requires forall i :: 0 <= i < |ls| ==> Mailable(ls[i]) && |ls[i].m.body| + 111 <= SMALL_BODY
    ensures Deliverable(t, c, auth, ls, seqno)
  {
    forall i | 0 <= i < |ls|
      ensures |Body(t, PostAll(c, auth, ls)[i].data, PostAll(c, auth, ls)[i].pad)| <= SMALL_BODY
    {
      PostSize(c, auth, ls[i]);
    }
    SmallBodiesAreReceivable(t, PostAll(c, auth, ls), seqno);
  }

  /** A letter as long as the buffer is not peeled, nor is any behind it, in any reads. */
  lemma LongLettersAreNotPeeled(t: Transport, ks: Keys, c: Primitives, auth: AuthKey, ls: seq<Letter>, seqno: u32,
                                chunks: seq<seq<byte>>, i: nat)
    requires Seal.Sound(c) && (forall j :: 0 <= j < |ls| ==> Mailable(ls[j]))
    requires i < |ls| && |ls[i].m.body| >= READ_BUF_CAP
    requires AreReads(StackOf(t), chunks) && Flatten(chunks) <= OnTheWire(t, ks, c, auth, ls, seqno)
    ensures |ReceiveAll(StackOf(t), ks, Handoff(Origin(0, [], seqno)), chunks).frames| <= i
  {
    LettersAreSendable(t, c, auth, ls);
    PostSize(c, auth, ls[i]);
    LongBodyNeverArrives(t, ks, PostAll(c, auth, ls), seqno, chunks, i);
  }

  /** Unpacking what arrived gives the message back exactly when it is acceptable. */
  lemma LetterIsRead(t: Transport, c: Primitives, auth: AuthKey, l: Letter, s: Session, seen: seq<i64>, secs: nat)
    requires Seal.Sound(c) && Mailable(l)
    ensures var r := Opened(c, auth, Server, Body(t, Post(c, auth, l).data, l.pad));
            r.Ok? && (Unpacked(s, seen, r.value, secs) == Ok(l.m) <==> Acceptable(s, seen, l.m, secs))
  {
    FrameOpens(t, c, auth, l);
    UnpackUndoesEnvelope(s, seen, l.m, l.rnd, secs);
  }
}
