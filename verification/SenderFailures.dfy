/** Where the sender's guarantees end: which reports send a request again, and runs in
    which a reply is lost and the message ids start over. */
module SenderFailures {
  import opened Bytes
  import opened Sessions
  import opened Containers
  import opened Requests
  import opened SenderSteps
  import opened SenderRuns
  import opened SenderIds

  // Reports about a message

  lemma {:induction false} FirstRequeued(rs: seq<Request>, id: i64) returns (k: nat)
    ensures k <= |rs| && (k < |rs| ==> Carries(rs[k], id)) && (forall j :: 0 <= j < k ==> !Carries(rs[j], id))
    ensures Requeue(rs, id) == if k < |rs| then rs[k := rs[k].(state := Pending)] else rs
  {
    k := 0;
    if rs != [] && !Carries(rs[0], id) {
      var j := FirstRequeued(rs[1..], id);
      k := j + 1;
      assert rs == [rs[0]] + rs[1..];
      assert Requeue(rs, id) == [rs[0]] + Requeue(rs[1..], id);
    }
  }

  /** A report sends a request again exactly when it names the id of one's own message. */
  lemma RequeuesExactlyWhen(rs: seq<Request>, id: i64)
    ensures Requeue(rs, id) != rs <==> HasId(rs, id)
  {
    var k := FirstRequeued(rs, id);
    if k < |rs| {
      assert Requeue(rs, id)[k] != rs[k];
    }
  }

  /** With distinct ids it is that request and no other. */
  lemma TheOneIsRequeued(rs: seq<Request>, top: int, id: i64, i: nat)
    requires DistinctUpTo(rs, top) && i < |rs| && Carries(rs[i], id)
    ensures Requeue(rs, id) == rs[i := rs[i].(state := Pending)]
  {
    var k := FirstRequeued(rs, id);
    assert k == i;
  }

  lemma SentKeepIds(rs: seq<Request>, id: i64)
    ensures HasId(AllSent(rs), id) <==> HasId(rs, id)
  {
    forall i | 0 <= i < |rs|
      ensures Carries(AllSent(rs)[i], id) <==> Carries(rs[i], id)
    {
    }
  }

  /** What the peer has after one fill was written out. */
  ghost function SentFill(st: State, t: Clocks, pack: Packer): State
    requires AreClocks(t)
  {
    var filled := Fill(st, t, pack);
    Wrote(filled, |filled.buf|)
  }

  lemma FrameIdIsNone(st: State, t: Clocks, pack: Packer)
    requires AreClocks(t) && Distinct(st) && st.head == |st.buf| && RoomToFill(st, t) && |Collect(st)| > 1
    ensures !HasId(Fill(st, t, pack).requests, FrameId(st, t))
  {
    var n := Messages(st, t);
    NumberAscends(st.session, Collect(st), t, 0);
    FillMarks(st, t, pack);
    MarkAllDistinct(st.requests, n.ms, FrameId(st, t), st.session.last, n.s.last);
    NextMsgIdIncreases(n.s.last, t(|n.ms|), n.s.offset);
  }

  /** A report that names the id of a frame of several messages sends none of its requests
      again: only the messages' own ids are looked at. */
  lemma ContainerReportRequeuesNone(st: State, t: Clocks, pack: Packer)
    requires AreClocks(t) && Distinct(st) && st.head == |st.buf| && RoomToFill(st, t) && |Collect(st)| > 1
    ensures Resent(SentFill(st, t, pack), FrameId(st, t)) == SentFill(st, t, pack)
  {
    var filled := Fill(st, t, pack);
    FrameIdIsNone(st, t, pack);
    SentKeepIds(filled.requests, FrameId(st, t));
    RequeuesExactlyWhen(SentFill(st, t, pack).requests, FrameId(st, t));
  }

  // A reply that is lost

  const START := Session(0, 0, 0, 0, 0)

  const NOW := Clock(PRESENT, 0)

  function Stopped(): Clocks {
    k => NOW
  }

  /** The first message id a client can give at that time. */
  const FIRST: i64 := PRESENT * U32 + 4

  lemma FirstIds()
    ensures NextMsgId(0, NOW, 0) == FIRST && NextMsgId(FIRST, NOW, 0) == FIRST + 4 && NextMsgId(FIRST + 4, NOW, 0) == FIRST + 8
  {
  }

  /** The body of the acknowledgement of a message just received. */
  const ACK := AckBody([PRESENT_ID])

  /** A message of 2023 with a short body arrives, and a request is made whose body is its
      acknowledgement's. */
  function TwinRun(pack: Packer): seq<Event> {
    [Received(PRESENT_ID, Short, Env(PRESENT, 0)), Enqueued(ACK), Filled(Stopped(), pack)]
  }

  const TWINS: seq<Inner> := [Inner(FIRST, 0, ACK), Inner(FIRST + 4, 1, ACK)]

  lemma TwinNumbers(st: State)
    requires st.session == START && st.acks == [PRESENT_ID] && st.resends == []
    requires st.requests == [Request(ACK, Pending, 0)]
    ensures Collect(st) == [Outgoing(ACK, false), Outgoing(ACK, true)]
    ensures Number(START, Collect(st), Stopped(), 0) == Numbered(TWINS, START.(last := FIRST + 4, sequence := 1))
  {
    var outs := Collect(st);
    FirstIds();
    assert PendingBodies(st.requests) == [ACK];
    assert outs == [Outgoing(ACK, false), Outgoing(ACK, true)];
    var s1 := START.(last := FIRST);
    var s2 := START.(last := FIRST + 4, sequence := 1);
    assert Number(s2, [], Stopped(), 2) == Numbered([], s2);
    assert outs[1..][1..] == [];
    assert Number(s1, outs[1..], Stopped(), 1) == Numbered([Inner(FIRST + 4, 1, ACK)], s2);
  }

  lemma TwinsMarked()
    ensures MarkAll([Request(ACK, Pending, 0)], TWINS, FIRST + 8) == [Request(ACK, Serialised(FIRST, FIRST + 8), 0)]
  {
    var marked := [Request(ACK, Serialised(FIRST, FIRST + 8), 0)];
    assert MarkFirst([Request(ACK, Pending, 0)], TWINS[0], FIRST + 8) == marked;
    assert MarkFirst(marked, TWINS[1], FIRST + 8) == marked;
    assert TWINS[1..][1..] == [];
    assert MarkAll(marked, TWINS[1..], FIRST + 8) == marked;
  }

  lemma TwinFill(st: State, pack: Packer)
    requires st.session == START && st.acks == [PRESENT_ID] && st.resends == [] && st.head == |st.buf|
    requires st.requests == [Request(ACK, Pending, 0)]
    ensures var filled := Fill(st, Stopped(), pack);
            && filled.requests == [Request(ACK, Serialised(FIRST, FIRST + 8), 0)]
            && filled.buf == pack(Wrapped(FIRST + 8, 2, TWINS)) && filled.head == 0
  {
    TwinNumbers(st);
    TwinsMarked();
    FirstIds();
  }

  lemma ThreeEvents(st: State, a: Event, b: Event, c: Event)
    requires Enabled(st, a) && Enabled(Do(st, a), b) && Enabled(Do(Do(st, a), b), c)
    ensures CanRun(st, [a, b, c]) && Run(st, [a, b, c]) == Do(Do(Do(st, a), b), c)
  {
    var s1, s2, s3 := Do(st, a), Do(Do(st, a), b), Do(Do(Do(st, a), b), c);
    assert [a, b, c][1..] == [b, c] && [b, c][1..] == [c] && [c][1..] == [];
    assert CanRun(s3, []) && Run(s3, []) == s3;
    assert CanRun(s2, [c]) && Run(s2, [c]) == s3;
    assert CanRun(s1, [b, c]) && Run(s1, [b, c]) == s3;
  }

  /** The sender when it fills. */
  function Twins(): State {
    Enqueue(Receive(Fresh(START), PRESENT_ID, Short, Env(PRESENT, 0)), ACK)
  }

  lemma TwinsWait()
    ensures var st := Twins();
            && st.session == START && st.acks == [PRESENT_ID] && st.resends == [] && st.head == |st.buf|
            && st.requests == [Request(ACK, Pending, 0)]
  {
    assert PRESENT_ID % 2 == 1;
    assert Acked(Fresh(START), PRESENT_ID).acks == [PRESENT_ID];
  }

  lemma TwinEnds(pack: Packer)
    requires PacksSomething(pack)
    ensures CanRun(Fresh(START), TwinRun(pack)) && Run(Fresh(START), TwinRun(pack)) == Fill(Twins(), Stopped(), pack)
  {
    ThreeEvents(Fresh(START), Received(PRESENT_ID, Short, Env(PRESENT, 0)), Enqueued(ACK), Filled(Stopped(), pack));
  }

  /** The request carries the acknowledgement's id and not its own message's, so a reply to
      its message answers nobody. */
  lemma AReplyIsLost(pack: Packer, outcome: Outcome)
    requires PacksSomething(pack)
    ensures CanRun(Fresh(START), TwinRun(pack))
    ensures var st := Run(Fresh(START), TwinRun(pack));
            && st.requests == [Request(ACK, Serialised(FIRST, FIRST + 8), 0)] && st.buf == pack(Wrapped(FIRST + 8, 2, TWINS))
            && Resolve(Wrote(st, |st.buf|), FIRST + 4, outcome) == Wrote(st, |st.buf|)
  {
    TwinEnds(pack);
    TwinsWait();
    TwinFill(Twins(), pack);
    var filled := Fill(Twins(), Stopped(), pack);
    var sent := Wrote(filled, |filled.buf|);
    assert sent.requests == [Request(ACK, Sent(FIRST, FIRST + 8), 0)];
    assert FirstAwaiting(sent.requests, FIRST + 4) == 1 == FirstAwaitingIn(sent.requests, FIRST + 4);
  }

  // Ids that start over

  /** Ids of messages accepted on their own leave the counter room while the time of the
      server fits 31 bits. */
  lemma AcceptedIdsLeaveRoom(s: Session, msgId: i64, secs: nat)
    requires InWindow(s, msgId, secs) && secs + s.offset + 30 < 0x7fff_ffff
    ensures ClearLowBits(msgId) < I64_MAX - 3
  {
    var n := msgId % U64;
    assert n == n / U32 * U32 + n % U32;
    assert n / U32 <= 0x7fff_fffe;
  }

  /** Ids inside a container are not checked: a notification under the largest id puts the
      counter at its end, and every later id is below all before. */
  lemma AContainerCanExhaustTheIds(t: Clock, offset: int)
    requires IsClock(t)
    ensures var report := Container(Cons(I64_MAX, BadMsgNotification(0, 16), Nil));
            Receive(Fresh(START), PRESENT_ID, report, Env(PRESENT, 0)).session.last == I64_MAX - 3
    ensures NextMsgId(I64_MAX - 3, t, offset) == -U64 / 2
  {
    var report := BadMsgNotification(0, 16);
    var st := Acked(Fresh(START), PRESENT_ID);
    assert Dispatch(Acked(st, I64_MAX), report, I64_MAX, Env(PRESENT, 0)).session.last == I64_MAX - 3;
    assert DispatchItems(st, Cons(I64_MAX, report, Nil), Env(PRESENT, 0)).session.last == I64_MAX - 3;
    LastFourth(ClockId(t, offset));
  }
}
