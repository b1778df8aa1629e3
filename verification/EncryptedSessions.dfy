/** The session object: packs outgoing bodies and unpacks server frames in place. */
module EncryptedSessions {
  import opened Wrappers
  import opened Bytes
  import opened DequeBuffers
  import opened Seal
  import opened Sessions

  lemma EnvelopeInOrder(m: Message)
    ensures [] + Le64(m.salt) + Le64(m.sessionId) + Le64(m.msgId) + ToLe32(m.seqNo % U32) + ToLe32(|m.body| % U32) + m.body
            == Envelope(m)
  {
    assert [] + Le64(m.salt) == Le64(m.salt);
  }

  /** The message in a frame of the server, or why it is refused. */
  function OpenedMessage(c: Primitives, auth: AuthKey, s: Session, seen: seq<i64>, frame: seq<byte>, secs: nat):
      Result<Message, UnpackError>
  {
    match Opened(c, auth, Server, frame)
    case Err(e) => Err(Crypto(e))
    case Ok(plain) => Unpacked(s, seen, plain, secs)
  }

  /** The ids seen after such a frame. */
  function SeenBy(c: Primitives, auth: AuthKey, s: Session, seen: seq<i64>, frame: seq<byte>, secs: nat): seq<i64> {
    match Opened(c, auth, Server, frame)
    case Err(_) => seen
    case Ok(plain) => SeenAfter(s, seen, plain, secs)
  }

  class EncryptedSession {
    const c: Primitives
    const auth: AuthKey
    var sequence: nat
    var last: i64
    var salt: i64
    var offset: int
    var sessionId: i64
    var seen: seq<i64>

    ghost predicate Valid()
      reads this
    {
      last % 4 == 0 && IsRing(seen)
    }

    function View(): Session
      reads this
    {
      Session(sequence, last, salt, offset, sessionId)
    }

    constructor (c: Primitives, auth: AuthKey, salt: i64, offset: int, random: i64)
      ensures Valid() && this.c == c && this.auth == auth && seen == []
      ensures View() == Session(0, 0, salt, offset, random)
    {
      this.c, this.auth, this.salt, this.offset := c, auth, salt, offset;
      sequence, last, sessionId, seen := 0, 0, random, [];
    }

    method NextMsgId(t: Clock) returns (id: i64)
      requires Valid() && IsClock(t)
      modifies this`last
      ensures Valid() && id == last == Sessions.NextMsgId(old(last), t, offset)
    {
      NextMsgIdIncreases(last, t, offset);
      id := ClockId(t, offset);
      if last >= id {
        id := StepId(last);
      }
      last := id;
    }

    method AllocMsgSeqno(content: bool, t: Clock) returns (id: i64, seqno: int)
      requires Valid() && IsClock(t)
      modifies this`last, this`sequence
      ensures Valid() && Allocated(id, seqno, View()) == Alloc(old(View()), content, t)
    {
      id := NextMsgId(t);
      if content {
        seqno := sequence * 2 + 1;
        sequence := sequence + 1;
      } else {
        seqno := sequence * 2;
      }
    }

    method CorrectTimeOffset(serverMsgId: i64, secs: nat)
      requires Valid()
      modifies this`offset, this`last
      ensures Valid() && View() == Sessions.CorrectTimeOffset(old(View()), serverMsgId, secs)
    {
      offset := WrapI32(ServerSecs(serverMsgId) - secs);
      var cleared := ClearLowBits(serverMsgId);
      if cleared > last {
        last := cleared;
      }
    }

    method ResetSession(random: i64)
      requires Valid()
      modifies this`sessionId, this`sequence, this`last
      ensures Valid() && View() == Sessions.ResetSession(old(View()), random)
    {
      sessionId, sequence, last := random, 0, 0;
    }

    method SetSalt(newSalt: i64)
      requires Valid()
      modifies this`salt
      ensures Valid() && View() == old(View()).(salt := newSalt)
    {
      salt := newSalt;
    }

    method Seal(m: Message, rnd: Digest) returns (wire: seq<byte>)
      ensures wire == Sealed(c, auth, Client, Padded(Envelope(m), rnd))
    {
      var buf := new DequeBuffer(32);
      buf.Extend(Le64(m.salt));
      buf.Extend(Le64(m.sessionId));
      buf.Extend(Le64(m.msgId));
      buf.Extend(ToLe32(m.seqNo % U32));
      buf.Extend(ToLe32(|m.body| % U32));
      buf.Extend(m.body);
      EnvelopeInOrder(m);
      EncryptDataV2(buf, c, auth, rnd);
      wire := buf.Contents();
    }

    method PackBody(body: seq<byte>, content: bool, t: Clock, rnd: Digest)
      returns (wire: seq<byte>, id: i64)
      requires Valid() && IsClock(t)
      modifies this`last, this`sequence
      ensures Valid()
      ensures var a := Alloc(old(View()), content, t);
              && id == a.id && View() == a.s
              && wire == Sealed(c, auth, Client, Padded(Envelope(Message(salt, sessionId, a.id, a.seqno, body)), rnd))
    {
      var seqno;
      id, seqno := AllocMsgSeqno(content, t);
      wire := Seal(Message(salt, sessionId, id, seqno, body), rnd);
    }

    method Unpack(frame: array<byte>, secs: nat) returns (r: Result<Message, UnpackError>)
      requires Valid()
      modifies frame, this`seen
      ensures Valid() && r == OpenedMessage(c, auth, View(), old(seen), old(frame[..]), secs)
      ensures seen == SeenBy(c, auth, View(), old(seen), old(frame[..]), secs)
    {
      var end := DecryptDataV2(frame, c, auth);
      if end.Err? {
        return Err(Crypto(end.error));
      }
      var plain := frame[HEADER..end.value];
      r := Check(plain, secs);
    }

    /** The checks on an opened plaintext, in order. */
    method Check(plain: seq<byte>, secs: nat) returns (r: Result<Message, UnpackError>)
      requires Valid()
      modifies this`seen
      ensures Valid()
      ensures r == Unpacked(View(), old(seen), plain, secs)
      ensures seen == SeenAfter(View(), old(seen), plain, secs)
    {
      RingIsKept(View(), seen, plain, secs);
      if |plain| < ENVELOPE {
        return Err(FrameTooShort);
      }
      var m := Parse(plain);
      if m.sessionId != sessionId {
        return Err(SessionMismatch);
      }
      if m.msgId % 2 == 0 {
        return Err(InvalidMsgId);
      }
      if !InWindow(View(), m.msgId, secs) {
        return Err(MsgIdTimeWindow);
      }
      if m.msgId in seen {
        return Err(DuplicateMsgId);
      }
      seen := seen + [m.msgId];
      if |seen| > SEEN_MSG_IDS_MAX {
        seen := seen[1..];
      }
      var bodyLen := FromLe32(plain[28..32]);
      if bodyLen > MAX_BODY || ENVELOPE + bodyLen > |plain| || bodyLen % 4 != 0 {
        return Err(FrameTooShort);
      }
      var padding := |plain| - ENVELOPE - bodyLen;
      if padding < 12 || padding > 1024 {
        return Err(FrameTooShort);
      }
      r := Ok(m);
    }
  }
}
