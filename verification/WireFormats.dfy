/** The bytes a server relies on, place by place and in plain numbers: frames, records,
    containers, envelopes, acknowledgements and message ids. */
module WireFormats {
  import opened Bytes
  import opened Crc
  import opened Framing
  import opened Keystream
  import opened Transports
  import SenderBuffers
  import TlsRecords
  import opened Sessions
  import opened Containers
  import opened SenderSteps

  /** The `i`th byte of a number, counted from the lowest. */
  function ByteOf(n: nat, i: nat): byte {
    if i == 0 then n % 256 else ByteOf(n / 256, i - 1)
  }

  /** A number of `k` bytes at `at`, lowest byte first. */
  predicate NumberAt(s: seq<byte>, at: nat, n: nat, k: nat) {
    at + k <= |s| && forall i :: 0 <= i < k ==> s[at + i] == ByteOf(n, i)
  }

  predicate Word(s: seq<byte>, at: nat, n: u32) {
    NumberAt(s, at, n, 4)
  }

  /** A 64-bit number, two's complement: its lower half, then its upper half. */
  predicate Long(s: seq<byte>, at: nat, v: i64) {
    Word(s, at, v % U64 % U32) && Word(s, at + 4, v % U64 / U32)
  }

  /** `part` stands at `at`. */
  predicate Stands(s: seq<byte>, at: nat, part: seq<byte>) {
    at + |part| <= |s| && s[at..at + |part|] == part
  }

  lemma {:induction false} DigitsAreBytes(n: nat, k: nat, i: nat)
    requires i < k
    ensures Digits(n, k)[i] == ByteOf(n, i)
    decreases k
  {
    if i > 0 {
      DigitsAreBytes(n / 256, k - 1, i - 1);
    }
  }

  lemma WordOf(s: seq<byte>, at: nat, n: u32)
    requires Stands(s, at, ToLe32(n))
    ensures Word(s, at, n)
  {
    forall i | 0 <= i < 4
      ensures s[at + i] == ByteOf(n, i)
    {
      DigitsAreBytes(n, 4, i);
      assert s[at + i] == s[at..at + 4][i];
    }
  }

  lemma PartStands(x: seq<byte>, p: seq<byte>, y: seq<byte>)
    ensures Stands(x + (p + y), |x|, p) && (x + (p + y))[|x| + |p|..] == y
  {
    var s := x + (p + y);
    assert s[|x|..] == p + y;
    assert s[|x|..|x| + |p|] == s[|x|..][..|p|] == p;
  }

  /** A part of a part. */
  lemma StandsWithin(s: seq<byte>, at: nat, w: seq<byte>, k: nat, p: seq<byte>)
    requires Stands(s, at, w) && Stands(w, k, p)
    ensures Stands(s, at + k, p)
  {
    forall i | 0 <= i < |p|
      ensures s[at + k + i] == p[i]
    {
      assert s[at + k + i] == s[at..at + |w|][k + i];
      assert w[k + i] == w[k..k + |p|][i];
    }
  }

  lemma HalvesOf(v: i64)
    ensures Le64(v) == ToLe32(v % U64 % U32) + ToLe32(v % U64 / U32)
  {
  }

  lemma LongOf(s: seq<byte>, at: nat, v: i64)
    requires Stands(s, at, Le64(v))
    ensures Long(s, at, v)
  {
    var lo, hi := ToLe32(v % U64 % U32), ToLe32(v % U64 / U32);
    HalvesOf(v);
    PartStands([], lo, hi);
    PartStands(lo, hi, []);
    assert [] + (lo + hi) == lo + hi && lo + (hi + []) == lo + hi;
    StandsWithin(s, at, lo + hi, 0, lo);
    StandsWithin(s, at, lo + hi, 4, hi);
    WordOf(s, at, v % U64 % U32);
    WordOf(s, at + 4, v % U64 / U32);
  }

  // Frames

  lemma AbridgedLayout(data: seq<byte>)
    ensures var e, words := Encode(Abridged, data, 0), |data| / 4;
            && (words < 127 ==> e[0] == words && e[1..] == data)
            && (127 <= words < 0x100_0000 ==>
                  e[0] == 127 && e[1] as int + 256 * e[2] as int + 65536 * e[3] as int == words && e[4..] == data)
  {
    var words := |data| / 4;
    if words >= 127 {
      var a, b := words / 256, words / 256 / 256;
      assert words == 256 * a + words % 256 && a == 256 * b + a % 256 && b == words / 65536;
    }
  }

  lemma IntermediateLayout(data: seq<byte>)
    ensures var e := Encode(Intermediate, data, 0); Word(e, 0, |data| % U32) && e[4..] == data
  {
    var e, prefix := Encode(Intermediate, data, 0), ToLe32(|data| % U32);
    PartStands([], prefix, data);
    assert [] + (prefix + data) == prefix + data;
    WordOf(e, 0, |data| % U32);
  }

  lemma FullFrameParts(a: seq<byte>, b: seq<byte>, data: seq<byte>, crc: seq<byte>)
    requires |a| == |b| == 4
    ensures var e, n := (a + b + data) + crc, |data|;
            && Stands(e, 0, a) && Stands(e, 4, b) && Stands(e, 8, data) && Stands(e, 8 + n, crc)
            && e[..8 + n] == a + b + data
  {
    var e := (a + b + data) + crc;
    PartStands([], a, b + data + crc);
    PartStands(a, b, data + crc);
    PartStands(a + b, data, crc);
    PartStands(a + b + data, crc, []);
    assert e == [] + (a + (b + data + crc)) == a + (b + (data + crc)) == (a + b) + (data + crc)
        == (a + b + data) + (crc + []);
  }

  lemma FullFrameLayout(data: seq<byte>, seqno: u32)
    ensures var e, n := Encode(Full, data, seqno), |data|;
            && |e| == n + 12 && Word(e, 0, (n + 12) % U32) && Word(e, 4, seqno) && e[8..8 + n] == data
            && Word(e, 8 + n, Crc32(e[..8 + n]))
  {
    var e, n, crc := Encode(Full, data, seqno), |data|, Crc32(FullHead(data, seqno));
    FullFrameParts(ToLe32((n + 12) % U32), ToLe32(seqno), data, ToLe32(crc));
    WordOf(e, 0, (n + 12) % U32);
    WordOf(e, 4, seqno);
    WordOf(e, 8 + n, crc);
  }

  lemma RecordLayout(data: seq<byte>)
    requires |data| < U16
    ensures var e := Encode(TlsRecord, data, 0);
            e[..3] == [0x17, 0x03, 0x03] && 256 * e[3] as int + e[4] as int == |data| && e[5..] == data
  {
  }

  /** What each transport writes for one payload. */
  lemma TransportLayout(ks: Keys, pos: nat, body: seq<byte>, seqno: u32)
    ensures SenderBuffers.WireOf(PlainAbridged, ks, pos, body, seqno) == Encode(Abridged, body, 0)
    ensures SenderBuffers.WireOf(PlainIntermediate, ks, pos, body, seqno) == Encode(Intermediate, body, 0)
    ensures SenderBuffers.WireOf(PlainFull, ks, pos, body, seqno) == Encode(Full, body, seqno)
    ensures SenderBuffers.WireOf(Obfuscated, ks, pos, body, seqno) == Apply(ks, pos, Encode(Abridged, body, 0))
    ensures SenderBuffers.WireOf(PaddedIntermediate, ks, pos, body, seqno)
        == Apply(ks, pos, Encode(Intermediate, body, 0))
    ensures SenderBuffers.WireOf(FakeTls, ks, pos, body, seqno)
            == TlsRecords.Wrap(Apply(ks, pos, Encode(Intermediate, body, 0)))
  {
  }

  // Messages

  lemma EnvelopeParts(m: Message)
    ensures var p := Envelope(m);
            && Stands(p, 0, Le64(m.salt)) && Stands(p, 8, Le64(m.sessionId)) && Stands(p, 16, Le64(m.msgId))
            && Stands(p, 24, ToLe32(m.seqNo % U32)) && Stands(p, 28, ToLe32(|m.body| % U32)) && p[32..] == m.body
  {
    EnvelopeFields(m, []);
    assert Envelope(m) + [] == Envelope(m);
  }

  lemma EnvelopeLayout(m: Message)
    ensures var p := Envelope(m);
            && Long(p, 0, m.salt) && Long(p, 8, m.sessionId) && Long(p, 16, m.msgId)
            && Word(p, 24, m.seqNo % U32) && Word(p, 28, |m.body| % U32) && p[32..] == m.body
  {
    var p := Envelope(m);
    EnvelopeParts(m);
    LongOf(p, 0, m.salt);
    LongOf(p, 8, m.sessionId);
    LongOf(p, 16, m.msgId);
    WordOf(p, 24, m.seqNo % U32);
    WordOf(p, 28, |m.body| % U32);
  }

  /** A message of a container at `at`. */
  predicate InnerStands(s: seq<byte>, at: nat, m: Inner) {
    && Long(s, at, m.msgId) && Word(s, at + 8, m.seqno % U32) && Word(s, at + 12, |m.body| % U32)
    && Stands(s, at + 16, m.body)
  }

  lemma InnerParts(m: Inner)
    ensures var w := InnerBytes(m);
            && Stands(w, 0, Le64(m.msgId)) && Stands(w, 8, ToLe32(m.seqno % U32))
            && Stands(w, 12, ToLe32(|m.body| % U32)) && Stands(w, 16, m.body)
  {
    var id, seqno, len := Le64(m.msgId), ToLe32(m.seqno % U32), ToLe32(|m.body| % U32);
    PartStands([], id, seqno + len + m.body);
    PartStands(id, seqno, len + m.body);
    PartStands(id + seqno, len, m.body);
    PartStands(id + seqno + len, m.body, []);
    InnerReassociated(id, seqno, len, m.body);
  }

  lemma InnerReassociated(a: seq<byte>, b: seq<byte>, c: seq<byte>, d: seq<byte>)
    ensures a + b + c + d == [] + (a + (b + c + d)) == a + (b + (c + d)) == (a + b) + (c + d) == (a + b + c) + (d + [])
  {
  }

  lemma InnerLayout(s: seq<byte>, at: nat, m: Inner)
    requires Stands(s, at, InnerBytes(m))
    ensures InnerStands(s, at, m)
  {
    var w := InnerBytes(m);
    InnerParts(m);
    StandsWithin(s, at, w, 0, Le64(m.msgId));
    StandsWithin(s, at, w, 8, ToLe32(m.seqno % U32));
    StandsWithin(s, at, w, 12, ToLe32(|m.body| % U32));
    StandsWithin(s, at, w, 16, m.body);
    LongOf(s, at, m.msgId);
    WordOf(s, at + 8, m.seqno % U32);
    WordOf(s, at + 12, |m.body| % U32);
  }

  /** Where the `i`th message of a container begins. */
  function PlaceOf(ms: seq<Inner>, i: nat): nat
    requires i <= |ms|
  {
    if i == 0 then 8 else PlaceOf(ms, i - 1) + 16 + |ms[i - 1].body|
  }

  function BytesBefore(ms: seq<Inner>, i: nat): seq<byte>
    requires i <= |ms|
  {
    if i == 0 then [] else BytesBefore(ms, i - 1) + InnerBytes(ms[i - 1])
  }

  lemma {:induction false} AllInnerAt(ms: seq<Inner>, i: nat)
    requires i <= |ms|
    ensures |BytesBefore(ms, i)| == PlaceOf(ms, i) - 8 && AllInner(ms) == BytesBefore(ms, i) + AllInner(ms[i..])
  {
    if i == 0 {
      assert ms[0..] == ms && [] + AllInner(ms) == AllInner(ms);
    } else {
      AllInnerAt(ms, i - 1);
      var m, later := ms[i - 1], AllInner(ms[i..]);
      assert ms[i - 1..][0] == m && ms[i - 1..][1..] == ms[i..];
      assert BytesBefore(ms, i - 1) + (InnerBytes(m) + later) == (BytesBefore(ms, i - 1) + InnerBytes(m)) + later;
    }
  }

  /** A container: its constructor, the number of messages, and each message in turn. */
  lemma ContainerLayout(ms: seq<Inner>, i: nat)
    requires i < |ms|
    ensures var b := Header(|ms|) + AllInner(ms);
            b[..4] == [0xdc, 0xf8, 0xf1, 0x73] && Word(b, 4, |ms| % U32) && InnerStands(b, PlaceOf(ms, i), ms[i])
  {
    var b, m, before := Header(|ms|) + AllInner(ms), ms[i], BytesBefore(ms, i);
    var later := AllInner(ms[i + 1..]);
    AllInnerAt(ms, i);
    assert ms[i..][0] == m && ms[i..][1..] == ms[i + 1..];
    Reassociated(Header(|ms|), before, InnerBytes(m), later);
    PartStands(Header(|ms|) + before, InnerBytes(m), later);
    InnerLayout(b, PlaceOf(ms, i), m);
    HeaderLayout(|ms|, AllInner(ms));
  }

  lemma Reassociated(a: seq<byte>, b: seq<byte>, c: seq<byte>, d: seq<byte>)
    ensures a + (b + (c + d)) == (a + b) + (c + d)
  {
  }

  lemma HeaderLayout(n: nat, more: seq<byte>)
    ensures var b := Header(n) + more; b[..4] == [0xdc, 0xf8, 0xf1, 0x73] && Word(b, 4, n % U32)
  {
    var b, count := Header(n) + more, ToLe32(n % U32);
    PartStands(ID_MSG_CONTAINER, count, more);
    Reassociated3(ID_MSG_CONTAINER, count, more);
    WordOf(b, 4, n % U32);
  }

  lemma Reassociated3(a: seq<byte>, b: seq<byte>, c: seq<byte>)
    ensures (a + b) + c == a + (b + c)
  {
  }

  lemma FirstId(ids: seq<i64>)
    requires ids != []
    ensures var all, later := AllIds(ids), AllIds(ids[1..]);
            Stands(all, 0, Le64(ids[0])) && Stands(all, 8, later) && |all| == 8 + |later|
  {
    var first, later := Le64(ids[0]), AllIds(ids[1..]);
    PartStands([], first, later);
    PartStands(first, later, []);
    assert [] + (first + later) == first + (later + []);
    assert AllIds(ids) == [] + (first + later);
  }

  lemma {:induction false} IdAt(ids: seq<i64>, i: nat)
    requires i < |ids|
    ensures |AllIds(ids)| == 8 * |ids| && Stands(AllIds(ids), 8 * i, Le64(ids[i]))
    decreases |ids|
  {
    FirstId(ids);
    if |ids| > 1 {
      IdAt(ids[1..], if i == 0 then 0 else i - 1);
    }
    if i > 0 {
      StandsWithin(AllIds(ids), 8, AllIds(ids[1..]), 8 * (i - 1), Le64(ids[i]));
    }
  }

  lemma AckParts(count: seq<byte>, ids: seq<byte>)
    requires |count| == 4
    ensures var b := MSGS_ACK + count + ids; b[..8] == MSGS_ACK && Stands(b, 8, count) && Stands(b, 12, ids)
  {
  }

  /** An acknowledgement: its constructor, a vector of ids, and each id in turn. */
  lemma AckLayout(ids: seq<i64>, i: nat)
    requires i < |ids|
    ensures var b := AckBody(ids);
            && b[..8] == [0x59, 0xb4, 0xd6, 0x62, 0x15, 0xc4, 0xb5, 0x1c] && Word(b, 8, |ids| % U32)
            && |b| == 12 + 8 * |ids| && Long(b, 12 + 8 * i, ids[i])
  {
    var b := AckBody(ids);
    IdAt(ids, i);
    AckParts(ToLe32(|ids| % U32), AllIds(ids));
    WordOf(b, 8, |ids| % U32);
    StandsWithin(b, 12, AllIds(ids), 8 * i, Le64(ids[i]));
    LongOf(b, 12 + 8 * i, ids[i]);
  }

  /** A message id made from the clock bears the server's time in its upper half, and four
      times the nanoseconds, never zero, in its lower half. */
  lemma IdBearsTheTime(t: Clock, offset: int)
    requires IsClock(t)
    ensures var id := ClockId(t, offset);
            && ServerSecs(id) == (t.secs + offset) % U64 % U32
            && id % U64 % U32 == if t.nanos == 0 then 4 else 4 * t.nanos
  {
    var upper := UpperHalf(t.secs, offset);
    var m := Fourths(upper, t.nanos);
    assert 4 * m == upper * U32 + 4 * t.nanos;
  }
}
