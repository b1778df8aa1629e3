/** The encrypted session (ferogram-mtproto's encrypted.rs): message ids, sequence
    numbers, the envelope of a message, and what of the server is accepted. */
module Sessions {
  import opened Wrappers
  import opened Bytes
  import opened Seal

  const U64 := 0x1_0000_0000_0000_0000

  const I64_MAX := U64 / 2 - 1

  type i64 = x: int | -U64 / 2 <= x <= I64_MAX

  function AsI64(n: nat): i64
    requires n < U64
  {
    if n < U64 / 2 then n else n - U64
  }

  // Message ids

  /** One reading of the system clock. */
  datatype Clock = Clock(secs: nat, nanos: nat)

  predicate IsClock(t: Clock) {
    t.secs < U64 && t.nanos < 1_000_000_000
  }

  /** Seconds of server time, as far as the upper half of an id holds them. */
  function UpperHalf(secs: nat, offset: int): u32 {
    (secs + offset) % U64 % U32
  }

  lemma FourTimes(k: int)
    ensures 4 * k % 4 == 0
  {
  }

  /** The id in fourths: seconds times 2^30 and nanoseconds. */
  function Fourths(upper: u32, nanos: nat): (m: nat)
    requires nanos < 1_000_000_000
    ensures m < U64 / 4
  {
    upper * 0x4000_0000 + nanos
  }

  lemma WholeSecondsLeaveRoom(upper: u32)
    ensures AsI64(4 * Fourths(upper, 0)) <= I64_MAX - 4
  {
    if upper < 0x8000_0000 {
      assert Fourths(upper, 0) <= 0x7fff_ffff * 0x4000_0000;
    }
  }

  /** Seconds in the upper half, the fraction in the lower, never a zero fraction. */
  function IdOf(upper: u32, nanos: nat): (id: i64)
    requires nanos < 1_000_000_000
    ensures id % 4 == 0
  {
    var m := Fourths(upper, nanos);
    FourTimes(m);
    FourTimes(m - U64 / 4);
    WholeSecondsLeaveRoom(upper);
    var id := AsI64(4 * m);
    if nanos == 0 then id + 4 else id
  }

  function ClockId(t: Clock, offset: int): i64
    requires IsClock(t)
  {
    IdOf(UpperHalf(t.secs, offset), t.nanos)
  }

  /** The addition wraps at 64 bits. */
  function StepId(last: i64): (id: i64)
    ensures id == if last <= I64_MAX - 4 then last + 4 else last + 4 - U64
  {
    AsI64((last + 4) % U64)
  }

  function NextMsgId(last: i64, t: Clock, offset: int): i64
    requires IsClock(t)
  {
    var id := ClockId(t, offset);
    if last < id then id else StepId(last)
  }

  lemma FourthsStep(last: i64)
    requires last % 4 == 0
    ensures StepId(last) % 4 == 0
  {
    assert last + 4 - U64 == 4 * (last / 4 + 1 - U64 / 4);
  }

  lemma LastFourth(id: i64)
    requires id % 4 == 0
    ensures id <= I64_MAX - 3
  {
  }

  /** Ids strictly increase, and by multiples of four, exactly until they run out. */
  lemma NextMsgIdIncreases(last: i64, t: Clock, offset: int)
    requires IsClock(t) && last % 4 == 0
    ensures NextMsgId(last, t, offset) % 4 == 0
    ensures NextMsgId(last, t, offset) > last <==> last < I64_MAX - 3
  {
    FourthsStep(last);
    LastFourth(ClockId(t, offset));
    LastFourth(last);
  }

  // The session

  datatype Session = Session(sequence: nat, last: i64, salt: i64, offset: int, sessionId: i64)

  datatype Allocated = Allocated(id: i64, seqno: int, s: Session)

  /** Content-related messages take the next odd number, others the even one. */
  function Alloc(s: Session, content: bool, t: Clock): Allocated
    requires IsClock(t)
  {
    var id := NextMsgId(s.last, t, s.offset);
    if content then Allocated(id, 2 * s.sequence + 1, s.(last := id, sequence := s.sequence + 1))
    else Allocated(id, 2 * s.sequence, s.(last := id))
  }

  /** The upper half of a message id, as a 32-bit time. */
  function ServerSecs(msgId: i64): nat {
    msgId % U64 / U32
  }

  /** A 32-bit subtraction that wraps. */
  function WrapI32(n: int): int {
    AsI32(n % U32)
  }

  function ClearLowBits(msgId: i64): (id: i64)
    ensures id % 4 == 0 && id <= msgId < id + 4
  {
    msgId - msgId % 4
  }

  function CorrectTimeOffset(s: Session, serverMsgId: i64, secs: nat): Session {
    var cleared := ClearLowBits(serverMsgId);
    s.(offset := WrapI32(ServerSecs(serverMsgId) - secs),
       last := if cleared > s.last then cleared else s.last)
  }

  lemma SameRemainder(a: int, b: int, k: int)
    requires a == b + k * U32 && 0 <= b < U32
    ensures a % U32 == b
  {
  }

  /** After the correction the clock reads as the server's did when it made the id: own
      ids are made from the same second, and the id lies within the window accepted
      unless the clocks are 68 years apart. */
  lemma CorrectedClockAgrees(s: Session, serverMsgId: i64, secs: nat)
    ensures UpperHalf(secs, CorrectTimeOffset(s, serverMsgId, secs).offset) == ServerSecs(serverMsgId)
    ensures -U32 / 2 <= ServerSecs(serverMsgId) - secs < U32 / 2 ==>
              InWindow(CorrectTimeOffset(s, serverMsgId, secs), serverMsgId, secs)
  {
    var server := ServerSecs(serverMsgId);
    var offset := WrapI32(server - secs);
    var k := (server - secs - offset) / U32;
    assert server - secs == offset + k * U32;
    var wraps := (secs + offset) / U64;
    assert (secs + offset) % U64 == server - k * U32 - wraps * U64;
    SameRemainder((secs + offset) % U64, server, -k - wraps * U32);
  }

  function ResetSession(s: Session, random: i64): Session {
    s.(sessionId := random, sequence := 0, last := 0)
  }

  // A message's plaintext

  function Le64(v: i64): (s: seq<byte>)
    ensures |s| == 8 && FromLe64(s) == v
  {
    var n := v % U64;
    assert n == n % U32 + U32 * (n / U32);
    var lo, hi := ToLe32(n % U32), ToLe32(n / U32);
    assert (lo + hi)[..4] == lo && (lo + hi)[4..] == hi;
    lo + hi
  }

  function FromLe64(s: seq<byte>): i64
    requires |s| == 8
  {
    AsI64(FromLe32(s[..4]) + U32 * FromLe32(s[4..]))
  }

  /** The eight bytes are the digits of the number, least first. */
  lemma Le64Digits(s: seq<byte>)
    requires |s| == 8
    ensures FromLe64(s) % U64
            == (s[0] as int) + 0x100 * (s[1] as int) + 0x1_0000 * (s[2] as int) + 0x100_0000 * (s[3] as int)
               + 0x1_0000_0000 * (s[4] as int) + 0x100_0000_0000 * (s[5] as int)
               + 0x1_0000_0000_0000 * (s[6] as int) + 0x100_0000_0000_0000 * (s[7] as int)
  {
  }

  datatype Message = Message(salt: i64, sessionId: i64, msgId: i64, seqNo: int, body: seq<byte>)

  const ENVELOPE := 32

  function Envelope(m: Message): (s: seq<byte>)
    ensures |s| == ENVELOPE + |m.body|
  {
    Le64(m.salt) + Le64(m.sessionId) + Le64(m.msgId) + ToLe32(m.seqNo % U32) + ToLe32(|m.body| % U32) + m.body
  }

  /** Where each field of an envelope stands, whatever follows it. */
  lemma EnvelopeFields(m: Message, pad: seq<byte>)
    ensures var p := Envelope(m) + pad;
            && p[..8] == Le64(m.salt) && p[8..16] == Le64(m.sessionId) && p[16..24] == Le64(m.msgId)
            && p[24..28] == ToLe32(m.seqNo % U32) && p[28..32] == ToLe32(|m.body| % U32)
            && p[32..32 + |m.body|] == m.body
  {
  }

  // Accepting what the server sends

  const SEEN_MSG_IDS_MAX := 500
  const MAX_BODY := 16 * 1024 * 1024

  datatype UnpackError =
    | Crypto(e: DecryptError) | FrameTooShort | SessionMismatch | InvalidMsgId | MsgIdTimeWindow | DuplicateMsgId

  predicate InWindow(s: Session, msgId: i64, secs: nat) {
    -300 <= ServerSecs(msgId) - (secs + s.offset) <= 30
  }

  /** The checks on the length field, made after the id was remembered. */
  predicate BodyFits(plain: seq<byte>, bodyLen: nat) {
    && bodyLen <= MAX_BODY && ENVELOPE + bodyLen <= |plain| && bodyLen % 4 == 0
    && 12 <= |plain| - ENVELOPE - bodyLen <= 1024
  }

  function Parse(plain: seq<byte>): Message
    requires |plain| >= ENVELOPE
  {
    var n := FromLe32(plain[28..32]);
    Message(FromLe64(plain[..8]), FromLe64(plain[8..16]), FromLe64(plain[16..24]), AsI32(FromLe32(plain[24..28])),
            if ENVELOPE + n <= |plain| then plain[32..32 + n] else [])
  }

  /** The error before the id is remembered, if any. */
  function Refused(s: Session, seen: seq<i64>, plain: seq<byte>, secs: nat): Option<UnpackError> {
    if |plain| < ENVELOPE then Some(FrameTooShort)
    else
      var m := Parse(plain);
      if m.sessionId != s.sessionId then Some(SessionMismatch)
      else if m.msgId % 2 == 0 then Some(InvalidMsgId)
      else if !InWindow(s, m.msgId, secs) then Some(MsgIdTimeWindow)
      else if m.msgId in seen then Some(DuplicateMsgId)
      else None
  }

  function Unpacked(s: Session, seen: seq<i64>, plain: seq<byte>, secs: nat): Result<Message, UnpackError> {
    match Refused(s, seen, plain, secs)
    case Some(e) => Err(e)
    case None =>
      if BodyFits(plain, FromLe32(plain[28..32])) then Ok(Parse(plain)) else Err(FrameTooShort)
  }

  /** The ring forgets its oldest id when it grows past its size. */
  function Remember(seen: seq<i64>, id: i64): seq<i64> {
    var grown := seen + [id];
    if |grown| > SEEN_MSG_IDS_MAX then grown[1..] else grown
  }

  function SeenAfter(s: Session, seen: seq<i64>, plain: seq<byte>, secs: nat): seq<i64> {
    if Refused(s, seen, plain, secs).None? then Remember(seen, Parse(plain).msgId) else seen
  }

  /** What a server message must be to be accepted; everything else in the envelope is
      guaranteed by the way it is sealed. */
  predicate Acceptable(s: Session, seen: seq<i64>, m: Message, secs: nat) {
    && m.sessionId == s.sessionId && m.msgId % 2 == 1 && InWindow(s, m.msgId, secs) && m.msgId !in seen
    && |m.body| <= MAX_BODY && |m.body| % 4 == 0
  }

  /** The checks made before the id is remembered. */
  predicate Remembered(s: Session, seen: seq<i64>, m: Message, secs: nat) {
    m.sessionId == s.sessionId && m.msgId % 2 == 1 && InWindow(s, m.msgId, secs) && m.msgId !in seen
  }

  lemma ParseUndoesEnvelope(m: Message, pad: seq<byte>)
    requires AsI32(m.seqNo % U32) == m.seqNo && |m.body| < U32
    ensures var p := Envelope(m) + pad;
            FromLe32(p[28..32]) == |m.body| && Parse(p) == m
  {
    EnvelopeFields(m, pad);
    ParseFields(m, Envelope(m) + pad);
  }

  lemma ParseFields(m: Message, p: seq<byte>)
    requires AsI32(m.seqNo % U32) == m.seqNo && |m.body| < U32 && |p| >= ENVELOPE + |m.body|
    requires p[..8] == Le64(m.salt) && p[8..16] == Le64(m.sessionId) && p[16..24] == Le64(m.msgId)
    requires p[24..28] == ToLe32(m.seqNo % U32) && p[28..32] == ToLe32(|m.body| % U32)
    requires p[32..32 + |m.body|] == m.body
    ensures FromLe32(p[28..32]) == |m.body| && Parse(p) == m
  {
  }

  /** Whether a parsed plaintext is accepted. */
  lemma AcceptedExactlyWhen(s: Session, seen: seq<i64>, m: Message, p: seq<byte>, secs: nat)
    requires |p| >= ENVELOPE && FromLe32(p[28..32]) == |m.body| && Parse(p) == m
    requires 12 <= |p| - ENVELOPE - |m.body| <= 27
    ensures Unpacked(s, seen, p, secs) == Ok(m) <==> Acceptable(s, seen, m, secs)
    ensures Unpacked(s, seen, p, secs).Ok? <==> Acceptable(s, seen, m, secs)
    ensures SeenAfter(s, seen, p, secs) == if Remembered(s, seen, m, secs) then Remember(seen, m.msgId) else seen
  {
  }

  /** An envelope padded as the sender pads it is unpacked to the message that went in,
      exactly when the message is acceptable. */
  lemma UnpackUndoesEnvelope(s: Session, seen: seq<i64>, m: Message, rnd: Digest, secs: nat)
    requires AsI32(m.seqNo % U32) == m.seqNo && |m.body| < U32
    ensures Unpacked(s, seen, Padded(Envelope(m), rnd), secs) == Ok(m) <==> Acceptable(s, seen, m, secs)
    ensures Unpacked(s, seen, Padded(Envelope(m), rnd), secs).Ok? <==> Acceptable(s, seen, m, secs)
    ensures SeenAfter(s, seen, Padded(Envelope(m), rnd), secs)
            == if Remembered(s, seen, m, secs) then Remember(seen, m.msgId) else seen
  {
    var e := Envelope(m);
    PaddingBounds(|e|);
    ParseUndoesEnvelope(m, rnd[..PaddingLen(|e|)]);
    AcceptedExactlyWhen(s, seen, m, Padded(e, rnd), secs);
  }

  /** An instant of 2023, and the first message id a server can give at it. */
  const PRESENT: nat := 1_700_000_000

  const PRESENT_ID: i64 := PRESENT * U32 + 1

  predicate IsRing(seen: seq<i64>) {
    && |seen| <= SEEN_MSG_IDS_MAX
    && forall i, j :: 0 <= i < j < |seen| ==> seen[i] != seen[j]
  }

  lemma RingIsKept(s: Session, seen: seq<i64>, plain: seq<byte>, secs: nat)
    requires IsRing(seen)
    ensures IsRing(SeenAfter(s, seen, plain, secs))
  {
  }

  function RememberAll(seen: seq<i64>, ids: seq<i64>): seq<i64>
    decreases |ids|
  {
    if ids == [] then seen else RememberAll(Remember(seen, ids[0]), ids[1..])
  }

  /** After `k` further ids an id is still in the ring, unless the ring turned over. */
  lemma {:induction false} StillRemembered(seen: seq<i64>, i: nat, ids: seq<i64>)
    requires i < |seen| <= SEEN_MSG_IDS_MAX && |seen| + |ids| <= SEEN_MSG_IDS_MAX + i
    ensures seen[i] in RememberAll(seen, ids)
    decreases |ids|
  {
    if ids != [] {
      var next := Remember(seen, ids[0]);
      if |seen| == SEEN_MSG_IDS_MAX {
        assert next[i - 1] == seen[i];
        StillRemembered(next, i - 1, ids[1..]);
      } else {
        assert next[i] == seen[i];
        StillRemembered(next, i, ids[1..]);
      }
    }
  }

  /** A message that was accepted is refused again for the next 499 others. */
  lemma NoReplay(s: Session, seen: seq<i64>, plain: seq<byte>, secs: nat, ids: seq<i64>, later: Session, again: seq<byte>, now: nat)
    requires IsRing(seen) && Unpacked(s, seen, plain, secs).Ok? && |ids| < SEEN_MSG_IDS_MAX
    requires |again| >= ENVELOPE && Parse(again).msgId == Parse(plain).msgId
    ensures Unpacked(later, RememberAll(SeenAfter(s, seen, plain, secs), ids), again, now).Err?
  {
    var ring := SeenAfter(s, seen, plain, secs);
    assert ring[|ring| - 1] == Parse(plain).msgId;
    StillRemembered(ring, |ring| - 1, ids);
  }
}
