/** A frame with a wrong checksum behind good letters: in a read of its own the letters'
    updates are returned, in one read with them they are lost. */
module LostUpdates {
  import opened Bytes
  import opened FrameStreams
  import opened Framing
  import opened Keystream
  import opened Pipeline
  import opened ReadCuts
  import SentStreams
  import opened Transports
  import Seal
  import opened SecureChannel
  import opened Inboxes
  import opened InboxCuts
  import opened Desks
  import opened Correspondence

  lemma {:induction false} RestIsPart(c: Codec, buf: seq<byte>, seqno: u32)
    requires Sound(c)
    ensures |Drain(c, buf, seqno).rest| <= |buf|
    decreases |buf|
  {
    var p := c.peel(buf, seqno);
    DrainUnfolds(c, buf, seqno, p);
    if p.Complete? {
      RestIsPart(c, buf[p.end..], c.next(seqno));
    }
  }

  /** A stream no longer than the buffer always finds room. */
  lemma SmallStreamHasRoom(t: Stack, ks: Keys, o: Origin, wire: seq<byte>)
    requires SoundStack(t) && !t.wrapped && |o.held| + |wire| <= t.capacity
    ensures Room(t, ks, o, wire)
  {
    forall x: nat, y: nat | x <= y <= |wire| && PossibleRead(t, ks, o, wire, x, y)
      ensures RoomAt(t, ks, o, wire, x, y)
    {
      RestIsPart(t.inner, o.held + Decoded(t, ks, o.pos, wire[..x]), o.seqno);
    }
  }

  /** One read that goes through. */
  lemma RunsOn(t: Stack, ks: Keys, o: Origin, h: Handling<Desk>, d: Desk, good: seq<byte>)
    requires SoundStack(t) && !t.wrapped && 0 < |good| <= t.readLimit && |o.held| + |good| <= t.capacity
    requires Attend(t, ks, h, Opening(o, d), [good]).pipe.status.Running?
    ensures Alive(t, ks, o, h, d, good) && UpdatesBy(t, ks, o, h, d, good) == Attend(t, ks, h, Opening(o, d), [good]).updates
  {
    OneCut(t, good);
    SmallStreamHasRoom(t, ks, o, good);
    TwoReads([], good);
    assert [] + good == good;
    var n := UpdatesByLastRead(t, ks, o, h, d, [good]);
  }

  /** A bad frame behind complete ones. */
  lemma FailsBehind(c: Codec, good: seq<byte>, bad: seq<byte>, seqno: u32)
    requires Sound(c) && Drain(c, good, seqno).rest == [] && !Drain(c, good, seqno).failed
    requires c.peel(bad, Drain(c, good, seqno).seqno).Failed?
    ensures Drain(c, good + bad, seqno).failed
  {
    DrainInTwo(c, good, bad, seqno);
    assert [] + bad == bad;
  }

  predicate Short(ls: seq<Letter>) {
    forall i :: 0 <= i < |ls| ==> Mailable(ls[i]) && |ls[i].m.body| + 111 <= SMALL_BODY
  }

  lemma OneCut(t: Stack, wire: seq<byte>)
    requires 0 < |wire| <= t.readLimit
    ensures IsCut(t, [wire], wire)
  {
    TwoReads([], wire);
    assert [] + wire == wire;
  }

  /** Good letters in one read, without a cipher. */
  lemma GoodIsAlive(ks: Keys, o: Office, d: Desk, ls: seq<Letter>, seqno: u32)
    requires Seal.Sound(o.c) && Short(ls) && AllAcceptable(o, d, MessagesOf(ls))
    requires var good := Wire(PlainFull, ks, o, ls, seqno); 0 < |good| <= READ_SCRATCH_CAP
    ensures var t, start, good := StackOf(PlainFull), Origin(0, [], seqno), Wire(PlainFull, ks, o, ls, seqno);
            && Alive(t, ks, start, Handler(o), d, good)
            && UpdatesBy(t, ks, start, Handler(o), d, good) == UpdatesInAll(o, MessagesOf(ls))
  {
    var good := Wire(PlainFull, ks, o, ls, seqno);
    GoodIsRead(ks, o, d, ls, seqno);
    RunsOn(StackOf(PlainFull), ks, Origin(0, [], seqno), Handler(o), d, good);
  }

  lemma GoodIsRead(ks: Keys, o: Office, d: Desk, ls: seq<Letter>, seqno: u32)
    requires Seal.Sound(o.c) && Short(ls) && AllAcceptable(o, d, MessagesOf(ls))
    requires var good := Wire(PlainFull, ks, o, ls, seqno); 0 < |good| <= READ_SCRATCH_CAP
    ensures var a := Reading(PlainFull, ks, o, d, seqno, [Wire(PlainFull, ks, o, ls, seqno)]);
            a.pipe.status.Running? && a.updates == UpdatesInAll(o, MessagesOf(ls))
  {
    var good := Wire(PlainFull, ks, o, ls, seqno);
    OneCut(StackOf(PlainFull), good);
    ShortLettersAreDeliverable(PlainFull, o.c, o.auth, ls, seqno);
    var k := LettersUpToTheFirstRefused(PlainFull, ks, o, d, ls, seqno, [good]);
  }

  lemma GoodIsWhole(ks: Keys, o: Office, ls: seq<Letter>, seqno: u32)
    requires Seal.Sound(o.c) && Short(ls)
    ensures var g := Drain(StackOf(PlainFull).inner, Wire(PlainFull, ks, o, ls, seqno), seqno); g.rest == [] && !g.failed
  {
    var t, out := StackOf(PlainFull), PostAll(o.c, o.auth, ls);
    LettersAreSendable(PlainFull, o.c, o.auth, ls);
    StackCarries(PlainFull, out);
    SentStreams.SentPlain(t, ks, 0, Bodies(PlainFull, out), seqno);
    WholeStreamDrains(t.inner, Bodies(PlainFull, out), seqno);
  }

  /** Bytes whose frames fail end the run. */
  lemma FailedIsDead(t: Stack, ks: Keys, seqno: u32, h: Handling<Desk>, d: Desk, good: seq<byte>, bad: seq<byte>)
    requires SoundStack(t) && !t.wrapped && !t.ciphered && good != []
    requires var g := Drain(t.inner, good, seqno); g.rest == [] && !g.failed && t.inner.peel(bad, g.seqno).Failed?
    ensures !Alive(t, ks, Origin(0, [], seqno), h, d, good + bad)
  {
    FailsBehind(t.inner, good, bad, seqno);
    assert [] + (good + bad) == good + bad;
  }

  /** No frame number makes these bytes a frame. */
  ghost predicate NeverPeels(bad: seq<byte>) {
    forall seqno: u32 :: PeelFull(bad, seqno).Failed?
  }

  lemma WrongByteNeverPeels(data: seq<byte>, n: u32, i: nat, b: byte)
    requires Fits(Full, data) && 4 <= i < |data| + 12 == |Encode(Full, data, n)| && Encode(Full, data, n)[i] != b
    ensures NeverPeels(Encode(Full, data, n)[i := b])
  {
    var bad := Encode(Full, data, n)[i := b];
    forall seqno: u32
      ensures PeelFull(bad, seqno).Failed?
    {
      AlteredFullFrameIsRejected(data, n, seqno, i, b);
    }
  }

  lemma DeadBehind(ks: Keys, h: Handling<Desk>, d: Desk, good: seq<byte>, seqno: u32, bad: seq<byte>)
    requires var g := Drain(StackOf(PlainFull).inner, good, seqno); g.rest == [] && !g.failed
    requires good != [] && NeverPeels(bad)
    ensures !Alive(StackOf(PlainFull), ks, Origin(0, [], seqno), h, d, good + bad)
  {
    FailedIsDead(StackOf(PlainFull), ks, seqno, h, d, good, bad);
  }

  /** Good letters with bytes behind them that are no frame: the same letters are handled in
      either cut, and their updates are returned in two reads and lost in one. */
  lemma ABadFrameHidesUpdates(ks: Keys, o: Office, d: Desk, ls: seq<Letter>, seqno: u32, bad: seq<byte>)
    requires Seal.Sound(o.c) && Short(ls) && AllAcceptable(o, d, MessagesOf(ls)) && NeverPeels(bad) && bad != []
    requires var good := Wire(PlainFull, ks, o, ls, seqno); good != [] && |good| + |bad| <= READ_SCRATCH_CAP
    ensures var good := Wire(PlainFull, ks, o, ls, seqno);
            var two, one := Reading(PlainFull, ks, o, d, seqno, [good, bad]), Reading(PlainFull, ks, o, d, seqno, [good + bad]);
            && !two.pipe.status.Running? && !one.pipe.status.Running?
            && two.state == one.state && two.pipe.frames == one.pipe.frames
            && two.updates == UpdatesInAll(o, MessagesOf(ls)) && one.updates == []
  {
    var good := Wire(PlainFull, ks, o, ls, seqno);
    GoodIsAlive(ks, o, d, ls, seqno);
    GoodIsWhole(ks, o, ls, seqno);
    DeadBehind(ks, Handler(o), d, good, seqno, bad);
    SmallStreamHasRoom(StackOf(PlainFull), ks, Origin(0, [], seqno), good + bad);
    OneReadHidesUpdates(StackOf(PlainFull), ks, Origin(0, [], seqno), Handler(o), d, good, bad);
  }

  /** So it is for a frame one byte of which is wrong, anywhere behind its length. */
  lemma AWrongByteHidesUpdates(ks: Keys, o: Office, d: Desk, ls: seq<Letter>, seqno: u32, data: seq<byte>, n: u32,
                               i: nat, b: byte)
    requires Seal.Sound(o.c) && Short(ls) && AllAcceptable(o, d, MessagesOf(ls))
    requires Fits(Full, data) && 4 <= i < |data| + 12 == |Encode(Full, data, n)| && Encode(Full, data, n)[i] != b
    requires var good := Wire(PlainFull, ks, o, ls, seqno); good != [] && |good| + |data| + 12 <= READ_SCRATCH_CAP
    ensures var good, bad := Wire(PlainFull, ks, o, ls, seqno), Encode(Full, data, n)[i := b];
            && Reading(PlainFull, ks, o, d, seqno, [good, bad]).updates == UpdatesInAll(o, MessagesOf(ls))
            && Reading(PlainFull, ks, o, d, seqno, [good + bad]).updates == []
  {
    WrongByteNeverPeels(data, n, i, b);
    ABadFrameHidesUpdates(ks, o, d, ls, seqno, Encode(Full, data, n)[i := b]);
  }
}
