/** From the server's messages to the sender's state: which letters are read, and what they
    leave behind, on every transport and in every cut into reads. */
module Correspondence {
  import opened Bytes
  import opened FrameStreams
  import opened Keystream
  import opened Pipeline
  import opened ReadCuts
  import opened Transports
  import opened Seal
  import opened Sessions
  import opened EncryptedSessions
  import opened SecureChannel
  import opened Inboxes
  import opened Desks

  function MessagesOf(ls: seq<Letter>): (r: seq<Message>)
    ensures |r| == |ls| && forall i :: 0 <= i < |ls| ==> r[i] == ls[i].m
  {
    seq(|ls|, i requires 0 <= i < |ls| => ls[i].m)
  }

  /** What the receiver has after `chunks`. */
  ghost function Reading(t: Transport, ks: Keys, o: Office, d: Desk, seqno: u32, chunks: seq<seq<byte>>): Inbox<Desk> {
    Attend(StackOf(t), ks, Handler(o), Opening(Origin(0, [], seqno), d), chunks)
  }

  function Wire(t: Transport, ks: Keys, o: Office, ls: seq<Letter>, seqno: u32): seq<byte> {
    OnTheWire(t, ks, o.c, o.auth, ls, seqno)
  }

  function Frames(t: Transport, o: Office, ls: seq<Letter>): (r: seq<seq<byte>>)
    ensures |r| == |ls|
  {
    Bodies(t, PostAll(o.c, o.auth, ls))
  }

  /** Handling a letter's frame is handling its message: the layers add and lose nothing. */
  lemma LetterIsHandled(t: Transport, o: Office, d: Desk, l: Letter)
    requires Seal.Sound(o.c) && Mailable(l)
    ensures Handle(o, d, Body(t, Post(o.c, o.auth, l).data, l.pad)) == MessageTurn(o, d, l.m)
  {
    FrameOpens(t, o.c, o.auth, l);
    UnpackUndoesEnvelope(d.st.session, d.seen, l.m, l.rnd, o.envs(d.count).secs);
  }

  lemma {:induction false} LettersAreHandled(t: Transport, o: Office, d: Desk, ls: seq<Letter>, frames: seq<seq<byte>>)
    requires Seal.Sound(o.c) && |frames| == |ls|
    requires forall i :: 0 <= i < |ls| ==> Mailable(ls[i]) && frames[i] == Body(t, Post(o.c, o.auth, ls[i]).data, ls[i].pad)
    ensures Fold(Handler(o), d, frames) == Fold(MessageHandler(o), d, MessagesOf(ls))
    decreases |ls|
  {
    if ls != [] {
      LetterIsHandled(t, o, d, ls[0]);
      assert MessagesOf(ls)[1..] == MessagesOf(ls[1..]);
      LettersAreHandled(t, o, MessageTurn(o, d, ls[0].m).state, ls[1..], frames[1..]);
    }
  }

  lemma StartIsHandled(t: Transport, o: Office, d: Desk, ls: seq<Letter>, k: nat)
    requires Seal.Sound(o.c) && k <= |ls| && forall i :: 0 <= i < |ls| ==> Mailable(ls[i])
    ensures Fold(Handler(o), d, Frames(t, o, ls)[..k]) == Fold(MessageHandler(o), d, MessagesOf(ls)[..k])
  {
    var out := PostAll(o.c, o.auth, ls);
    forall i | 0 <= i < k
      ensures Frames(t, o, ls)[..k][i] == Body(t, Post(o.c, o.auth, ls[i]).data, ls[i].pad)
    {
      assert out[i] == Post(o.c, o.auth, ls[i]);
    }
    LettersAreHandled(t, o, d, ls[..k], Frames(t, o, ls)[..k]);
    assert MessagesOf(ls[..k]) == MessagesOf(ls)[..k];
  }

  /** What reading comes to once the frames of the first `k` letters are complete. */
  ghost predicate ReadUpTo(t: Transport, o: Office, d: Desk, ls: seq<Letter>, k: nat, a: Inbox<Desk>) {
    && k <= |ls|
    && var f := Fold(MessageHandler(o), d, MessagesOf(ls)[..k]);
    && a.state == f.state && a.pipe.frames == Frames(t, o, ls)[..f.taken]
    && a.pipe.status == (if f.refused then Refused else Running)
    && (!f.refused ==> a.updates == f.updates)
  }

  /** Whatever part of the bytes has arrived, in any reads: the letters complete by then
      are handled as their messages alone would be, in order, up to the first refused. */
  lemma LettersArrive(t: Transport, ks: Keys, o: Office, d: Desk, ls: seq<Letter>, seqno: u32, chunks: seq<seq<byte>>)
    returns (k: nat)
    requires Seal.Sound(o.c) && (forall i :: 0 <= i < |ls| ==> Mailable(ls[i])) && Deliverable(t, o.c, o.auth, ls, seqno)
    requires AreReads(StackOf(t), chunks) && chunks != [] && Flatten(chunks) <= Wire(t, ks, o, ls, seqno)
    ensures ReadUpTo(t, o, d, ls, k, Reading(t, ks, o, d, seqno, chunks))
    ensures Flatten(chunks) == Wire(t, ks, o, ls, seqno) ==> k == |ls|
  {
    LettersAreSendable(t, o.c, o.auth, ls);
    k := EndToEnd(t, ks, PostAll(o.c, o.auth, ls), seqno, chunks);
    var b, r := Opening(Origin(0, [], seqno), d), ReceiveAll(StackOf(t), ks, Handoff(Origin(0, [], seqno)), chunks);
    AttendIsReceive(StackOf(t), ks, Handler(o), b, chunks);
    OpeningProcessed(Handler(o), Origin(0, [], seqno), d, r, Reading(t, ks, o, d, seqno, chunks));
    StartIsHandled(t, o, d, ls, k);
    CutTwice(Frames(t, o, ls), k, Fold(MessageHandler(o), d, MessagesOf(ls)[..k]).taken);
  }

  lemma CutTwice<T>(xs: seq<T>, k: nat, n: nat)
    requires n <= k <= |xs|
    ensures xs[..k][..n] == xs[..n] && xs[..|xs|] == xs
  {
  }

  lemma WholeRead(t: Transport, o: Office, d: Desk, ls: seq<Letter>, a: Inbox<Desk>)
    requires ReadUpTo(t, o, d, ls, |ls|, a)
    ensures var f := Fold(MessageHandler(o), d, MessagesOf(ls));
            && a.state == f.state && a.pipe.frames == Frames(t, o, ls)[..f.taken] && f.taken <= |ls|
            && a.pipe.status == (if f.refused then Refused else Running)
            && (!f.refused ==> a.updates == f.updates && a.pipe.frames == Frames(t, o, ls))
  {
    assert MessagesOf(ls)[..|ls|] == MessagesOf(ls) && Frames(t, o, ls)[..|ls|] == Frames(t, o, ls);
  }

  /** The state a refusal leaves. */
  lemma StoppedAt(o: Office, d: Desk, ms: seq<Message>, k: nat)
    requires k < |ms| && Fold(MessageHandler(o), d, ms).taken == k && AllAcceptable(o, d, ms[..k])
    ensures Fold(MessageHandler(o), d, ms).state == MessageTurn(o, DeskAfter(o, d, ms[..k]), ms[k]).state
  {
    assert ms == ms[..k + 1] + ms[k + 1..] && ms[..k + 1] == ms[..k] + [ms[k]];
    AllTakenExactlyWhen(o, d, ms[..k]);
    FoldSnoc(MessageHandler(o), d, ms[..k], ms[k]);
    FoldConcat(MessageHandler(o), d, ms[..k + 1], ms[k + 1..]);
  }

  /** The first `k` letters were read, opened and remembered in order; `k` is the first that
      is not acceptable in its turn, or behind the last. */
  ghost predicate ReadToRefused(t: Transport, o: Office, d: Desk, ls: seq<Letter>, a: Inbox<Desk>, k: nat) {
    var ms := MessagesOf(ls);
    && FirstRefused(o, d, ms, k)
    && var before := DeskAfter(o, d, ms[..k]);
    && a.pipe.frames == Frames(t, o, ls)[..k]
    && before.seen == RememberAll(d.seen, IdsOf(ms[..k])) && before.count == d.count + k
    && (if k == |ls| then a.pipe.status.Running? && a.state == before && a.updates == UpdatesInAll(o, ms)
        else a.pipe.status.Refused? && a.state == MessageTurn(o, before, ms[k]).state)
  }

  lemma TakenUpTo(o: Office, d: Desk, ms: seq<Message>) returns (k: nat)
    ensures k == Fold(MessageHandler(o), d, ms).taken && FirstRefused(o, d, ms, k) && AllAcceptable(o, d, ms[..k])
    ensures var before := DeskAfter(o, d, ms[..k]);
            && before.seen == RememberAll(d.seen, IdsOf(ms[..k])) && before.count == d.count + k
            && Fold(MessageHandler(o), d, ms[..k]).updates == UpdatesInAll(o, ms[..k])
  {
    TakenExactlyWhen(o, d, ms);
    k := Fold(MessageHandler(o), d, ms).taken;
    StartAcceptable(o, d, ms, k);
    TakenAreRemembered(o, d, ms[..k]);
  }

  lemma StopsAtRefused(t: Transport, o: Office, d: Desk, ls: seq<Letter>, a: Inbox<Desk>) returns (k: nat)
    requires ReadUpTo(t, o, d, ls, |ls|, a)
    ensures ReadToRefused(t, o, d, ls, a, k)
  {
    var ms := MessagesOf(ls);
    WholeRead(t, o, d, ls, a);
    k := TakenUpTo(o, d, ms);
    if k < |ms| {
      StoppedAt(o, d, ms, k);
    } else {
      assert ms[..k] == ms;
    }
  }

  /** In every cut of all the bytes: every letter before the first that is not acceptable in
      its turn is read, dispatched and remembered once, in order, and none behind it. */
  lemma LettersUpToTheFirstRefused(t: Transport, ks: Keys, o: Office, d: Desk, ls: seq<Letter>, seqno: u32,
                                   chunks: seq<seq<byte>>)
    returns (k: nat)
    requires Seal.Sound(o.c) && (forall i :: 0 <= i < |ls| ==> Mailable(ls[i])) && Deliverable(t, o.c, o.auth, ls, seqno)
    requires chunks != [] && IsCut(StackOf(t), chunks, Wire(t, ks, o, ls, seqno))
    ensures ReadToRefused(t, o, d, ls, Reading(t, ks, o, d, seqno, chunks), k)
  {
    var n := LettersArrive(t, ks, o, d, ls, seqno, chunks);
    k := StopsAtRefused(t, o, d, ls, Reading(t, ks, o, d, seqno, chunks));
  }

  /** The run over these reads goes on, and every letter is read. */
  ghost predicate AllRead(t: Transport, ks: Keys, o: Office, d: Desk, ls: seq<Letter>, seqno: u32, chunks: seq<seq<byte>>) {
    var a := Reading(t, ks, o, d, seqno, chunks);
    a.pipe.status.Running? && a.pipe.frames == Frames(t, o, ls)
  }

  ghost predicate Peels(t: Transport, ks: Keys, seqno: u32, chunks: seq<seq<byte>>, frames: seq<seq<byte>>) {
    var p := ReceiveAll(StackOf(t), ks, Handoff(Origin(0, [], seqno)), chunks);
    p.status.Running? && p.frames == frames
  }

  ghost predicate ReadInEveryCut(t: Transport, ks: Keys, o: Office, d: Desk, ls: seq<Letter>, seqno: u32) {
    forall chunks :: IsCut(StackOf(t), chunks, Wire(t, ks, o, ls, seqno)) ==> AllRead(t, ks, o, d, ls, seqno, chunks)
  }

  ghost predicate PeeledInEveryCut(t: Transport, ks: Keys, o: Office, ls: seq<Letter>, seqno: u32) {
    forall chunks :: IsCut(StackOf(t), chunks, Wire(t, ks, o, ls, seqno)) ==> Peels(t, ks, seqno, chunks, Frames(t, o, ls))
  }

  /** All letters are read in every cut exactly when their sizes pass the buffer's test and
      each is acceptable in its turn. */
  lemma LettersArriveExactlyWhen(t: Transport, ks: Keys, o: Office, d: Desk, ls: seq<Letter>, seqno: u32)
    requires Seal.Sound(o.c) && (forall i :: 0 <= i < |ls| ==> Mailable(ls[i])) && Wire(t, ks, o, ls, seqno) != []
    ensures ReadInEveryCut(t, ks, o, d, ls, seqno)
            <==> Deliverable(t, o.c, o.auth, ls, seqno) && AllAcceptable(o, d, MessagesOf(ls))
  {
    PeeledExactlyWhen(t, ks, o, ls, seqno);
    if Deliverable(t, o.c, o.auth, ls, seqno) {
      ReadExactlyWhen(t, ks, o, d, ls, seqno);
    } else if ReadInEveryCut(t, ks, o, d, ls, seqno) {
      ReadIsPeeled(t, ks, o, d, ls, seqno);
    }
  }

  lemma CutIsNotEmpty(t: Transport, chunks: seq<seq<byte>>, wire: seq<byte>)
    requires IsCut(StackOf(t), chunks, wire) && wire != []
    ensures chunks != []
  {
  }

  lemma ACut(t: Transport, wire: seq<byte>) returns (chunks: seq<seq<byte>>)
    requires wire != []
    ensures IsCut(StackOf(t), chunks, wire) && chunks != []
  {
    chunks := Singles(wire);
    SinglesFlatten(wire);
  }

  lemma PeeledExactlyWhen(t: Transport, ks: Keys, o: Office, ls: seq<Letter>, seqno: u32)
    requires Seal.Sound(o.c) && (forall i :: 0 <= i < |ls| ==> Mailable(ls[i])) && Wire(t, ks, o, ls, seqno) != []
    ensures PeeledInEveryCut(t, ks, o, ls, seqno) <==> Deliverable(t, o.c, o.auth, ls, seqno)
  {
    LettersArePeeledExactlyWhen(t, ks, o.c, o.auth, ls, seqno);
  }

  /** Letters that are read were peeled. */
  lemma ReadIsPeeled(t: Transport, ks: Keys, o: Office, d: Desk, ls: seq<Letter>, seqno: u32)
    requires ReadInEveryCut(t, ks, o, d, ls, seqno)
    ensures PeeledInEveryCut(t, ks, o, ls, seqno)
  {
    forall chunks | IsCut(StackOf(t), chunks, Wire(t, ks, o, ls, seqno))
      ensures Peels(t, ks, seqno, chunks, Frames(t, o, ls))
    {
      AllPeeled(t, ks, o, d, ls, seqno, chunks);
    }
  }

  lemma AllPeeled(t: Transport, ks: Keys, o: Office, d: Desk, ls: seq<Letter>, seqno: u32, chunks: seq<seq<byte>>)
    requires AllRead(t, ks, o, d, ls, seqno, chunks)
    ensures Peels(t, ks, seqno, chunks, Frames(t, o, ls))
  {
    AttendIsReceive(StackOf(t), ks, Handler(o), Opening(Origin(0, [], seqno), d), chunks);
  }

  lemma ReadExactlyWhen(t: Transport, ks: Keys, o: Office, d: Desk, ls: seq<Letter>, seqno: u32)
    requires Seal.Sound(o.c) && (forall i :: 0 <= i < |ls| ==> Mailable(ls[i])) && Deliverable(t, o.c, o.auth, ls, seqno)
    requires Wire(t, ks, o, ls, seqno) != []
    ensures ReadInEveryCut(t, ks, o, d, ls, seqno) <==> AllAcceptable(o, d, MessagesOf(ls))
  {
    var wire := Wire(t, ks, o, ls, seqno);
    if AllAcceptable(o, d, MessagesOf(ls)) {
      forall chunks | IsCut(StackOf(t), chunks, wire)
        ensures AllRead(t, ks, o, d, ls, seqno, chunks)
      {
        CutIsNotEmpty(t, chunks, wire);
        AllReadExactlyWhen(t, ks, o, d, ls, seqno, chunks);
      }
    } else {
      var chunks := ACut(t, wire);
      AllReadExactlyWhen(t, ks, o, d, ls, seqno, chunks);
    }
  }

  lemma AllReadExactlyWhen(t: Transport, ks: Keys, o: Office, d: Desk, ls: seq<Letter>, seqno: u32, chunks: seq<seq<byte>>)
    requires Seal.Sound(o.c) && (forall i :: 0 <= i < |ls| ==> Mailable(ls[i])) && Deliverable(t, o.c, o.auth, ls, seqno)
    requires chunks != [] && IsCut(StackOf(t), chunks, Wire(t, ks, o, ls, seqno))
    ensures AllRead(t, ks, o, d, ls, seqno, chunks) <==> AllAcceptable(o, d, MessagesOf(ls))
  {
    var k := LettersArrive(t, ks, o, d, ls, seqno, chunks);
    WholeRead(t, o, d, ls, Reading(t, ks, o, d, seqno, chunks));
    AllTakenExactlyWhen(o, d, MessagesOf(ls));
  }

  // Letters that are not read

  /** A letter as long as the buffer is not handled, nor is any behind it, in any reads. */
  lemma LongLettersNeverArrive(t: Transport, ks: Keys, o: Office, d: Desk, ls: seq<Letter>, seqno: u32,
                               chunks: seq<seq<byte>>, i: nat)
    requires Seal.Sound(o.c) && (forall j :: 0 <= j < |ls| ==> Mailable(ls[j]))
    requires i < |ls| && |ls[i].m.body| >= READ_BUF_CAP
    requires AreReads(StackOf(t), chunks) && Flatten(chunks) <= Wire(t, ks, o, ls, seqno)
    ensures |Reading(t, ks, o, d, seqno, chunks).pipe.frames| <= i
  {
    LongLettersAreNotPeeled(t, ks, o.c, o.auth, ls, seqno, chunks, i);
    AttendIsReceive(StackOf(t), ks, Handler(o), Opening(Origin(0, [], seqno), d), chunks);
  }

  const PRESENT_SESSION := Session(0, 0, 0, 0, 0)

  /** A letter of 2023 with a body of zero bytes. */
  function ZeroLetter(size: nat): (l: Letter)
    ensures |l.m.body| == size
  {
    Letter(Message(0, 0, PRESENT_ID, 1, seq(size, _ => 0)), seq(32, _ => 0), [])
  }

  lemma ZeroLetterIsAcceptable(size: nat)
    requires size <= MAX_BODY && size % 4 == 0
    ensures Mailable(ZeroLetter(size)) && Acceptable(PRESENT_SESSION, [], ZeroLetter(size).m, PRESENT)
  {
  }

  /** Two million zero bytes: every length field and every check of the receiver allows
      them, and whatever is sent before them, they never get through the read buffer. */
  lemma AnAcceptableLetterThatNeverArrives(t: Transport, ks: Keys, o: Office, d: Desk, ls: seq<Letter>, seqno: u32,
                                           chunks: seq<seq<byte>>, i: nat)
    requires Seal.Sound(o.c) && i < |ls| && ls[i] == ZeroLetter(2_000_000)
    requires forall j :: 0 <= j < |ls| && j != i ==> Mailable(ls[j])
    ensures Mailable(ls[i]) && Acceptable(PRESENT_SESSION, [], ls[i].m, PRESENT)
    ensures AreReads(StackOf(t), chunks) && Flatten(chunks) <= Wire(t, ks, o, ls, seqno) ==>
              |Reading(t, ks, o, d, seqno, chunks).pipe.frames| <= i
  {
    ZeroLetterIsAcceptable(2_000_000);
    if AreReads(StackOf(t), chunks) && Flatten(chunks) <= Wire(t, ks, o, ls, seqno) {
      LongLettersNeverArrive(t, ks, o, d, ls, seqno, chunks, i);
    }
  }

  /** A server that sends a message again: of everything behind the first copy nothing is
      read, in any cut. */
  lemma ARepeatedLetterEndsTheRun(t: Transport, ks: Keys, o: Office, d: Desk, l: Letter, later: seq<Letter>, seqno: u32,
                                  chunks: seq<seq<byte>>)
    requires Seal.Sound(o.c) && forall x :: x in [l] + later ==> Mailable(x) && |x.m.body| + 111 <= SMALL_BODY
    requires IsRing(d.seen) && Acceptable(d.st.session, d.seen, l.m, o.envs(d.count).secs)
    requires chunks != [] && IsCut(StackOf(t), chunks, Wire(t, ks, o, [l, l] + later, seqno))
    ensures var a := Reading(t, ks, o, d, seqno, chunks);
            a.pipe.status.Refused? && a.pipe.frames == [Body(t, Post(o.c, o.auth, l).data, l.pad)]
  {
    var ls := [l, l] + later;
    RepeatedAreShort(l, later);
    ShortLettersAreDeliverable(t, o.c, o.auth, ls, seqno);
    var n := LettersArrive(t, ks, o, d, ls, seqno, chunks);
    RepeatedMessages(o, d, l, later);
    CutTwice(MessagesOf(ls), n, n);
    FirstFrame(t, o, ls);
  }

  lemma RepeatedAreShort(l: Letter, later: seq<Letter>)
    requires forall x :: x in [l] + later ==> Mailable(x) && |x.m.body| + 111 <= SMALL_BODY
    ensures var ls := [l, l] + later; forall i :: 0 <= i < |ls| ==> Mailable(ls[i]) && |ls[i].m.body| + 111 <= SMALL_BODY
  {
    var ls := [l, l] + later;
    forall i | 0 <= i < |ls|
      ensures ls[i] in [l] + later
    {
    }
  }

  lemma RepeatedMessages(o: Office, d: Desk, l: Letter, later: seq<Letter>)
    requires IsRing(d.seen) && Acceptable(d.st.session, d.seen, l.m, o.envs(d.count).secs)
    ensures Fold(MessageHandler(o), d, MessagesOf([l, l] + later)).taken == 1
  {
    assert MessagesOf([l, l] + later) == [l.m, l.m] + MessagesOf(later);
    RepeatedIsRefused(o, d, l.m, MessagesOf(later));
  }

  lemma FirstFrame(t: Transport, o: Office, ls: seq<Letter>)
    requires ls != []
    ensures Frames(t, o, ls)[..1] == [Body(t, Post(o.c, o.auth, ls[0]).data, ls[0].pad)]
  {
    assert PostAll(o.c, o.auth, ls)[0] == Post(o.c, o.auth, ls[0]);
    assert Frames(t, o, ls)[..1] == [Frames(t, o, ls)[0]];
  }
}
