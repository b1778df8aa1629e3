/** The server's notices about a message or the session: how their bytes are read, and what
    they come to, from the letter that carries one to the next frame written. */
module Notices {
  import opened Bytes
  import Transports
  import Seal
  import opened Sessions
  import opened Containers
  import opened Requests
  import opened SenderSteps
  import opened SenderIds
  import opened SenderFailures
  import opened WireFormats
  import opened SecureChannel
  import opened Inboxes
  import opened Desks
  import opened IncomingBodies
  import opened Correspondence
  import opened ClientFrames
  import opened ClientRuns
  import opened RoundTrips

  // The bytes, field by field

  /** bad_server_salt: the message meant, its sequence number, a code, the new salt. */
  function SaltNotice(badId: i64, seqno: u32, code: u32, salt: i64): seq<byte> {
    [0x7b, 0x44, 0xab, 0xed] + Le64(badId) + ToLe32(seqno) + ToLe32(code) + Le64(salt)
  }

  /** bad_msg_notification: the message meant, its sequence number, a code. */
  function Report(badId: i64, seqno: u32, code: u32): seq<byte> {
    [0x11, 0xf8, 0xef, 0xa7] + Le64(badId) + ToLe32(seqno) + ToLe32(code)
  }

  /** new_session_created: the first message of the session, its number, its salt. */
  function SessionNotice(firstId: i64, uniqueId: i64, salt: i64): seq<byte> {
    [0x08, 0x09, 0xc2, 0x9e] + Le64(firstId) + Le64(uniqueId) + Le64(salt)
  }

  /** pong: the message answered and the number it gave. */
  function PongNotice(id: i64, pingId: i64): seq<byte> {
    [0xc5, 0x73, 0x77, 0x34] + Le64(id) + Le64(pingId)
  }

  lemma SaltFields(badId: i64, seqno: u32, code: u32, salt: i64, more: seq<byte>)
    ensures var body := SaltNotice(badId, seqno, code, salt) + more;
            Stands(body, 0, [0x7b, 0x44, 0xab, 0xed]) && Stands(body, 4, Le64(badId)) && Stands(body, 20, Le64(salt))
  {
  }

  lemma SaltNoticeIsRead(z: Inflate, depth: nat, badId: i64, seqno: u32, code: u32, salt: i64, more: seq<byte>)
    ensures ReadIncoming(z, depth, SaltNotice(badId, seqno, code, salt) + more) == BadServerSalt(badId, salt)
  {
    SaltFields(badId, seqno, code, salt, more);
    assert FromLe32([0x7b, 0x44, 0xab, 0xed]) == BAD_SERVER_SALT;
  }

  lemma ReportFields(badId: i64, seqno: u32, code: u32, more: seq<byte>)
    ensures var body := Report(badId, seqno, code) + more;
            Stands(body, 0, [0x11, 0xf8, 0xef, 0xa7]) && Stands(body, 4, Le64(badId)) && Stands(body, 16, ToLe32(code))
  {
  }

  lemma ReportIsRead(z: Inflate, depth: nat, badId: i64, seqno: u32, code: u32, more: seq<byte>)
    ensures ReadIncoming(z, depth, Report(badId, seqno, code) + more) == BadMsgNotification(badId, code)
  {
    ReportFields(badId, seqno, code, more);
    assert FromLe32([0x11, 0xf8, 0xef, 0xa7]) == BAD_MSG_NOTIFICATION;
  }

  lemma SessionFields(firstId: i64, uniqueId: i64, salt: i64, more: seq<byte>)
    ensures var body := SessionNotice(firstId, uniqueId, salt) + more;
            Stands(body, 0, [0x08, 0x09, 0xc2, 0x9e]) && Stands(body, 20, Le64(salt))
  {
  }

  lemma SessionNoticeIsRead(z: Inflate, depth: nat, firstId: i64, uniqueId: i64, salt: i64, more: seq<byte>)
    ensures ReadIncoming(z, depth, SessionNotice(firstId, uniqueId, salt) + more) == NewSession(salt)
  {
    SessionFields(firstId, uniqueId, salt, more);
    assert FromLe32([0x08, 0x09, 0xc2, 0x9e]) == NEW_SESSION_CREATED;
  }

  lemma PongFields(id: i64, pingId: i64, more: seq<byte>)
    ensures var body := PongNotice(id, pingId) + more;
            Stands(body, 0, [0xc5, 0x73, 0x77, 0x34]) && Stands(body, 4, Le64(id))
  {
  }

  /** A pong answers the ping with all its bytes. */
  lemma PongIsRead(z: Inflate, depth: nat, id: i64, pingId: i64, more: seq<byte>)
    ensures ReadIncoming(z, depth, PongNotice(id, pingId) + more) == Pong(id, PongNotice(id, pingId) + more)
  {
    PongFields(id, pingId, more);
    assert FromLe32([0xc5, 0x73, 0x77, 0x34]) == PONG;
  }

  /** A notice cut off in front of the end of its last field is passed over. */
  lemma CutNoticesAreShort(z: Inflate, depth: nat, body: seq<byte>, n: nat)
    requires 4 <= n <= |body|
    ensures Stands(body, 0, [0x7b, 0x44, 0xab, 0xed]) && n < 28 ==> ReadIncoming(z, depth, body[..n]) == Short
    ensures Stands(body, 0, [0x11, 0xf8, 0xef, 0xa7]) && n < 20 ==> ReadIncoming(z, depth, body[..n]) == Short
    ensures Stands(body, 0, [0x08, 0x09, 0xc2, 0x9e]) && n < 28 ==> ReadIncoming(z, depth, body[..n]) == Short
    ensures Stands(body, 0, [0xc5, 0x73, 0x77, 0x34]) && n < 12 ==> ReadIncoming(z, depth, body[..n]) == Short
  {
    assert body[..n][..4] == body[0..4];
    assert FromLe32([0x7b, 0x44, 0xab, 0xed]) == BAD_SERVER_SALT;
    assert FromLe32([0x11, 0xf8, 0xef, 0xa7]) == BAD_MSG_NOTIFICATION;
    assert FromLe32([0x08, 0x09, 0xc2, 0x9e]) == NEW_SESSION_CREATED;
    assert FromLe32([0xc5, 0x73, 0x77, 0x34]) == PONG;
  }

  // What a notice comes to

  /** A letter the client accepts, with these bytes as its body. */
  predicate Brings(o: Office, d: Desk, letter: Letter, body: seq<byte>) {
    && Mailable(letter) && Acceptable(d.st.session, d.seen, letter.m, o.envs(d.count).secs)
    && letter.m.body == body
  }

  ghost function Turn(t: Transports.Transport, o: Office, d: Desk, letter: Letter): Handled<Desk> {
    Handle(o, d, Transports.Body(t, Post(o.c, o.auth, letter).data, letter.pad))
  }

  lemma NoticeIsHandled(t: Transports.Transport, o: Office, d: Desk, letter: Letter, body: seq<byte>, z: Inflate,
          depth: nat)
    requires Seal.Sound(o.c) && o.parse == Reader(z, depth) && Brings(o, d, letter, body)
    ensures var r, msg := Turn(t, o, d, letter), ReadIncoming(z, depth, body);
            && !r.refused && r.updates == UpdatesIn(msg)
            && r.state.st == Dispatch(d.st.(acks := d.st.acks + [letter.m.msgId]), msg, letter.m.msgId, o.envs(d.count))
  {
    LetterIsHandled(t, o, d, letter);
  }

  /** The request at `i` goes back to the queue, and no other changes. */
  function PutBack(rs: seq<Request>, i: nat): seq<Request>
    requires i < |rs|
  {
    rs[i := rs[i].(state := Pending)]
  }

  lemma SaltIsDispatched(st: State, badId: i64, salt: i64, msgId: i64, env: Env, i: nat)
    requires Distinct(st) && i < |st.requests| && Carries(st.requests[i], badId)
    ensures Dispatch(st, BadServerSalt(badId, salt), msgId, env)
            == st.(session := st.session.(salt := salt), requests := PutBack(st.requests, i))
  {
    TheOneIsRequeued(st.requests, st.session.last, badId, i);
  }

  /** The server refuses a message for its salt: the new salt is taken over, the request
      that message was made from is pending again, and nothing else changes but the
      acknowledgement owed for the letter. */
  lemma NewSaltIsTaken(t: Transports.Transport, o: Office, d: Desk, letter: Letter, i: nat,
                       badId: i64, seqno: u32, code: u32, salt: i64, more: seq<byte>, z: Inflate, depth: nat)
    requires Seal.Sound(o.c) && o.parse == Reader(z, depth)
    requires Brings(o, d, letter, SaltNotice(badId, seqno, code, salt) + more)
    requires Distinct(d.st) && i < |d.st.requests| && Carries(d.st.requests[i], badId)
    ensures var r := Turn(t, o, d, letter);
            && !r.refused && r.updates == []
            && r.state.st == d.st.(session := d.st.session.(salt := salt), acks := d.st.acks + [letter.m.msgId],
                                   requests := PutBack(d.st.requests, i))
  {
    NoticeIsHandled(t, o, d, letter, SaltNotice(badId, seqno, code, salt) + more, z, depth);
    SaltNoticeIsRead(z, depth, badId, seqno, code, salt, more);
    SaltIsDispatched(d.st.(acks := d.st.acks + [letter.m.msgId]), badId, salt, letter.m.msgId, o.envs(d.count), i);
  }

  /** The session after a report: its clock is set by the letter's id (codes 16 and 17), or
      it starts over (32 and 33), or it stays. */
  function SessionAfter(s: Session, code: u32, letterId: i64, env: Env): Session {
    if code in {16, 17} then CorrectTimeOffset(s, letterId, env.secs)
    else if code in {32, 33} then s.(sessionId := env.random, sequence := 0, last := 0)
    else s
  }

  lemma ReportIsDispatched(st: State, badId: i64, code: u32, msgId: i64, env: Env, i: nat)
    requires Distinct(st) && i < |st.requests| && Carries(st.requests[i], badId)
    ensures Dispatch(st, BadMsgNotification(badId, code), msgId, env)
            == st.(session := SessionAfter(st.session, code, msgId, env), requests := PutBack(st.requests, i))
  {
    TheOneIsRequeued(st.requests, st.session.last, badId, i);
  }

  /** The server refuses a message for its id or number. */
  lemma ReportIsTaken(t: Transports.Transport, o: Office, d: Desk, letter: Letter, i: nat,
                      badId: i64, seqno: u32, code: u32, more: seq<byte>, z: Inflate, depth: nat)
    requires Seal.Sound(o.c) && o.parse == Reader(z, depth)
    requires Brings(o, d, letter, Report(badId, seqno, code) + more)
    requires Distinct(d.st) && i < |d.st.requests| && Carries(d.st.requests[i], badId)
    ensures var r := Turn(t, o, d, letter);
            && !r.refused && r.updates == []
            && r.state.st == d.st.(session := SessionAfter(d.st.session, code, letter.m.msgId, o.envs(d.count)),
                                   acks := d.st.acks + [letter.m.msgId], requests := PutBack(d.st.requests, i))
  {
    NoticeIsHandled(t, o, d, letter, Report(badId, seqno, code) + more, z, depth);
    ReportIsRead(z, depth, badId, seqno, code, more);
    ReportIsDispatched(d.st.(acks := d.st.acks + [letter.m.msgId]), badId, code, letter.m.msgId, o.envs(d.count), i);
  }

  /** The server has a new session: its salt is taken over and every request is pending. */
  lemma NewSessionIsTaken(t: Transports.Transport, o: Office, d: Desk, letter: Letter,
                          firstId: i64, uniqueId: i64, salt: i64, more: seq<byte>, z: Inflate, depth: nat)
    requires Seal.Sound(o.c) && o.parse == Reader(z, depth)
    requires Brings(o, d, letter, SessionNotice(firstId, uniqueId, salt) + more)
    ensures var r := Turn(t, o, d, letter);
            && !r.refused && r.updates == []
            && r.state.st == d.st.(session := d.st.session.(salt := salt), acks := d.st.acks + [letter.m.msgId],
                                   requests := r.state.st.requests)
            && |r.state.st.requests| == |d.st.requests|
            && forall i :: 0 <= i < |d.st.requests| ==> r.state.st.requests[i] == d.st.requests[i].(state := Pending)
  {
    NoticeIsHandled(t, o, d, letter, SessionNotice(firstId, uniqueId, salt) + more, z, depth);
    SessionNoticeIsRead(z, depth, firstId, uniqueId, salt, more);
  }

  lemma PongIsDispatched(st: State, id: i64, body: seq<byte>, msgId: i64, env: Env, i: nat)
    requires Distinct(st) && i < |st.requests| && Awaits(st.requests[i], id)
    ensures Dispatch(st, Pong(id, body), msgId, env)
            == st.(answers := st.answers + [Answer(st.requests[i].tx, Reply(body))],
                   requests := st.requests[..i] + st.requests[i + 1..])
  {
    ReplyIsUnambiguous(st, i, id, Reply(body));
  }

  /** A pong answers the request that pinged with all its bytes, and no other. */
  lemma PongIsTaken(t: Transports.Transport, o: Office, d: Desk, letter: Letter, i: nat,
                    id: i64, pingId: i64, more: seq<byte>, z: Inflate, depth: nat)
    requires Seal.Sound(o.c) && o.parse == Reader(z, depth)
    requires Brings(o, d, letter, PongNotice(id, pingId) + more)
    requires Distinct(d.st) && i < |d.st.requests| && Awaits(d.st.requests[i], id)
    ensures var r := Turn(t, o, d, letter);
            && !r.refused && r.updates == []
            && r.state.st == d.st.(acks := d.st.acks + [letter.m.msgId],
                                   answers := d.st.answers + [Answer(d.st.requests[i].tx, Reply(PongNotice(id,
                                       pingId) + more))],
                                   requests := d.st.requests[..i] + d.st.requests[i + 1..])
  {
    var body := PongNotice(id, pingId) + more;
    NoticeIsHandled(t, o, d, letter, body, z, depth);
    PongIsRead(z, depth, id, pingId, more);
    PongIsDispatched(d.st.(acks := d.st.acks + [letter.m.msgId]), id, body, letter.m.msgId, o.envs(d.count), i);
  }

  // The next frame

  /** Where the body of the `i`th request stands in the next frame. */
  function PlaceInNext(st: State, i: nat): nat
    requires i < |st.requests|
  {
    |AckMessages(st.acks)| + |st.resends| + |PendingBodies(st.requests[..i])|
  }

  lemma CollectsPending(st: State, i: nat)
    requires i < |st.requests| && st.requests[i].state.Pending?
    ensures var k := PlaceInNext(st, i); k < |Collect(st)| && Collect(st)[k].body == st.requests[i].body
  {
    var acks, sent, own := AckMessages(st.acks), AsContent(st.resends), AsContent(PendingBodies(st.requests));
    PendingAt(st.requests, i);
    ContentBodies(PendingBodies(st.requests));
    var k := |PendingBodies(st.requests[..i])|;
    assert own[k].body == BodiesOut(own)[k];
    assert Collect(st) == (acks + sent) + own;
  }

  /** A pending request's body is in the next frame written, which the server opens and
      finds under the session's salt. */
  lemma PendingIsWritten(p: Packing, i: nat)
    requires IsPacking(p) && i < |p.st.requests| && p.st.requests[i].state.Pending?
    ensures var d := Peeled(p.l, Filled(p).buf);
            && !d.failed && |d.frames| == 1 && Reads(d.frames[0], p) && MessageIn(p).salt == p.st.session.salt
            && PlaceInNext(p.st, i) < |Contained(MessageIn(p))|
            && Contained(MessageIn(p))[PlaceInNext(p.st, i)].body == p.st.requests[i].body
  {
    ServerReads(p);
    CollectsPending(p.st, i);
    BodyAt(Messages(p.st, p.t).ms, PlaceInNext(p.st, i));
  }

  /** The sender when what it had begun to write is out. */
  predicate WrittenOut(before: State, after: State) {
    after == before || (before.head <= |before.buf| && after == Wrote(before, |before.buf| - before.head))
  }

  /** From the notice to the server again: the request that was refused for its salt is in
      the next frame, which is sealed under the new salt. */
  lemma RefusedForItsSaltIsSentAgain(t: Transports.Transport, o: Office, d: Desk, letter: Letter, i: nat, badId: i64,
          seqno: u32,
                                     code: u32, salt: i64, more: seq<byte>, z: Inflate, depth: nat, p: Packing)
    requires Seal.Sound(o.c) && o.parse == Reader(z, depth)
    requires Brings(o, d, letter, SaltNotice(badId, seqno, code, salt) + more)
    requires Distinct(d.st) && i < |d.st.requests| && Carries(d.st.requests[i], badId)
    requires IsPacking(p) && WrittenOut(Turn(t, o, d, letter).state.st, p.st)
    ensures i < |p.st.requests|
    ensures var found := Peeled(p.l, Filled(p).buf);
            && !found.failed && |found.frames| == 1 && Reads(found.frames[0], p) && MessageIn(p).salt == salt
            && PlaceInNext(p.st, i) < |Contained(MessageIn(p))|
            && Contained(MessageIn(p))[PlaceInNext(p.st, i)].body == d.st.requests[i].body
  {
    NewSaltIsTaken(t, o, d, letter, i, badId, seqno, code, salt, more, z, depth);
    PendingIsWritten(p, i);
  }
}
