/** The byte-stream framings of the transport: how a frame is written, how frames are
    peeled off a growing buffer, and why neither depends on how the stream is split.
    TLS records are peeled the same way and share the theory. */
module Framing {
  import opened Bytes
  import opened Crc
  import opened FrameStreams

  datatype Framing = Abridged | Intermediate | Full | TlsRecord

  const RECORD_CHANGE_CIPHER_SPEC: byte := 0x14
  const RECORD_APPLICATION_DATA: byte := 0x17
  const RECORD_HEADER_LEN := 5

  // Reading one frame

  function PeelAbridged(buf: seq<byte>): Peel {
    if buf == [] then Incomplete
    else if buf[0] < 0x7f then Take(buf, 1, 4 * buf[0] as int)
    else if |buf| < 4 then Incomplete
    else if buf[0] == 0x7f then Take(buf, 4, 4 * (buf[1] as int + 256 * buf[2] as int + 65536 * buf[3] as int))
    else Failed
  }

  /** The payload of `len` bytes behind a header of `header` bytes. */
  function Take(buf: seq<byte>, header: nat, len: nat): Peel {
    if |buf| < header + len then Incomplete else Complete(buf[header..header + len], header + len)
  }

  function PeelIntermediate(buf: seq<byte>): Peel {
    if |buf| < 4 then Incomplete
    else if AsI32(FromLe32(buf[..4])) < 0 then Failed
    else Take(buf, 4, FromLe32(buf[..4]))
  }

  function PeelFull(buf: seq<byte>, seqno: u32): Peel {
    if |buf| < 4 then Incomplete
    else
      var total := AsI32(FromLe32(buf[..4]));
      if total < 12 then Failed
      else if |buf| < total then Incomplete
      else if FromLe32(buf[total - 4..total]) != Crc32(buf[..total - 4]) then Failed
      else if AsI32(FromLe32(buf[4..8])) != AsI32(seqno) then Failed
      else Complete(buf[8..total - 4], total)
  }

  function PeelRecord(buf: seq<byte>): Peel {
    if |buf| < RECORD_HEADER_LEN then Incomplete
    else
      var len := FromBe16(buf[3..5]);
      if |buf| < RECORD_HEADER_LEN + len then Incomplete
      else if buf[0] == RECORD_APPLICATION_DATA || buf[0] == RECORD_CHANGE_CIPHER_SPEC then
        Take(buf, RECORD_HEADER_LEN, len)
      else Failed
  }

  function PeelOne(f: Framing, buf: seq<byte>, seqno: u32): (p: Peel)
    ensures p.Complete? ==> 0 < p.end <= |buf|
  {
    match f
    case Abridged => PeelAbridged(buf)
    case Intermediate => PeelIntermediate(buf)
    case Full => PeelFull(buf, seqno)
    case TlsRecord => PeelRecord(buf)
  }

  /** The full framing counts frames, wrapping at 32 bits. */
  function NextSeqno(f: Framing, seqno: u32): u32 {
    if f == Full then (seqno + 1) % U32 else seqno
  }

  /** Bytes that arrive later change neither a complete frame nor a failure. */
  lemma PeelIsStable(f: Framing, a: seq<byte>, b: seq<byte>, seqno: u32)
    requires !PeelOne(f, a, seqno).Incomplete?
    ensures PeelOne(f, a + b, seqno) == PeelOne(f, a, seqno)
  {
    assert forall i, j :: 0 <= i <= j <= |a| ==> (a + b)[i..j] == a[i..j];
    if |a| >= 4 {
      assert (a + b)[..4] == a[..4];
    }
    if f == Full && |a| >= 4 {
      var total := AsI32(FromLe32(a[..4]));
      if 12 <= total <= |a| {
        assert (a + b)[..total - 4] == a[..total - 4];
      }
    }
  }

  // Writing frames

  function AbridgedHeader(words: nat): seq<byte> {
    if words < 0x7f then [words] else [0x7f, words % 256, words / 256 % 256, words / 65536 % 256]
  }

  /** A length as 32 bits; the cast truncates. */
  function LengthPrefix(n: nat): (s: seq<byte>)
    ensures |s| == 4 && FromLe32(s) == n % U32
  {
    ToLe32(n % U32)
  }

  function FullHead(data: seq<byte>, seqno: u32): seq<byte> {
    LengthPrefix(|data| + 12) + ToLe32(seqno) + data
  }

  function Encode(f: Framing, data: seq<byte>, seqno: u32): seq<byte> {
    match f
    case Abridged => AbridgedHeader(|data| / 4) + data
    case Intermediate => LengthPrefix(|data|) + data
    case Full => FullHead(data, seqno) + ToLe32(Crc32(FullHead(data, seqno)))
    case TlsRecord => [RECORD_APPLICATION_DATA, 0x03, 0x03] + ToBe16(|data| % U16) + data
  }

  /** The payloads a framing can carry. */
  predicate Fits(f: Framing, data: seq<byte>) {
    match f
    case Abridged => |data| % 4 == 0 && |data| / 4 < 0x100_0000
    case Intermediate => |data| < U32 / 2
    case Full => |data| + 12 < U32 / 2
    case TlsRecord => |data| < U16
  }

  lemma AbridgedRoundTrip(data: seq<byte>)
    ensures PeelAbridged(AbridgedHeader(|data| / 4) + data) ==
            Complete(data, |AbridgedHeader(|data| / 4) + data|)
            <==> Fits(Abridged, data)
  {
    var words := |data| / 4;
    var e := AbridgedHeader(words) + data;
    if words >= 0x7f {
      var a, b := words / 256, words / 256 / 256;
      assert words == 256 * a + words % 256 && a == 256 * b + a % 256 && b == words / 65536;
      assert e[1] as int + 256 * e[2] as int + 65536 * e[3] as int == words % 256 + 256 * (a % 256) + 65536 * (b % 256);
    }
  }

  lemma IntermediateRoundTrip(data: seq<byte>)
    ensures PeelIntermediate(LengthPrefix(|data|) + data) == Complete(data, 4 + |data|) <==> Fits(Intermediate, data)
  {
    var prefix := LengthPrefix(|data|);
    var e := prefix + data;
    assert e[..4] == prefix;
    if |data| < U32 {
      assert FromLe32(prefix) == |data| && e[4..4 + |data|] == data;
    } else {
      assert FromLe32(prefix) < U32;
    }
  }

  lemma RecordRoundTrip(data: seq<byte>)
    ensures PeelRecord(Encode(TlsRecord, data, 0)) == Complete(data, 5 + |data|) <==> Fits(TlsRecord, data)
  {
    var e := Encode(TlsRecord, data, 0);
    assert e[3..5] == ToBe16(|data| % U16);
    assert |data| < U16 ==> e[5..5 + |data|] == data;
  }

  lemma FullLength(n: nat)
    ensures AsI32((n + 12) % U32) == n + 12 <==> n + 12 < U32 / 2
  {
  }

  lemma FullLayout(data: seq<byte>, seqno: u32)
    ensures var e := Encode(Full, data, seqno);
            && |e| == |data| + 12 && FromLe32(e[..4]) == (|data| + 12) % U32
            && FromLe32(e[4..8]) == seqno && e[8..|e| - 4] == data
            && FromLe32(e[|e| - 4..]) == Crc32(e[..|e| - 4])
  {
    var head := FullHead(data, seqno);
    var e := Encode(Full, data, seqno);
    assert e[..4] == LengthPrefix(|data| + 12);
    assert e[|e| - 4..] == ToLe32(Crc32(head));
    assert e[..|e| - 4] == head;
    assert e[4..8] == ToLe32(seqno);
  }

  lemma FullRoundTrip(data: seq<byte>, seqno: u32)
    ensures PeelFull(Encode(Full, data, seqno), seqno) == Complete(data, 12 + |data|) <==> Fits(Full, data)
  {
    var e := Encode(Full, data, seqno);
    FullLayout(data, seqno);
    FullLength(|data|);
    assert e[|e| - 4..|e|] == e[|e| - 4..];
  }

  /** A frame is read back as written exactly when its framing can carry it. */
  lemma RoundTrip(f: Framing, data: seq<byte>, seqno: u32)
    ensures PeelOne(f, Encode(f, data, seqno), seqno) == Complete(data, |Encode(f, data, seqno)|) <==> Fits(f, data)
  {
    match f
    case Abridged => AbridgedRoundTrip(data);
    case Intermediate => IntermediateRoundTrip(data);
    case Full => FullRoundTrip(data, seqno);
    case TlsRecord => RecordRoundTrip(data);
  }

  /** A full frame with one byte altered after its length is never accepted, whatever
      the expected frame number. */
  lemma AlteredFullFrameIsRejected(data: seq<byte>, seqno: u32, expected: u32, i: nat, b: byte)
    requires Fits(Full, data) && 4 <= i < |data| + 12
    requires |Encode(Full, data, seqno)| == |data| + 12 && Encode(Full, data, seqno)[i] != b
    ensures PeelFull(Encode(Full, data, seqno)[i := b], expected).Failed?
  {
    var e := Encode(Full, data, seqno);
    var n := |e| - 4;
    var x := e[i := b];
    FullLayout(data, seqno);
    FullLength(|data|);
    assert x[..4] == e[..4];
    assert x[n..|e|] == x[n..];
    if i < n {
      assert x[..n] == e[..n][i := b];
      assert x[n..] == e[n..];
      OneByteChangesCrc(e[..n], i, b);
    } else {
      assert x[..n] == e[..n];
      assert x[n..][i - n] == b && e[n..][i - n] == e[i];
      if FromLe32(x[n..]) == FromLe32(e[n..]) {
        Le32Injective(x[n..], e[n..]);
      }
    }
  }

  function CodecOf(f: Framing): Codec {
    Codec((buf: seq<byte>, s: u32) => PeelOne(f, buf, s), (data: seq<byte>, s: u32) => Encode(f, data, s),
          (s: u32) => NextSeqno(f, s), (data: seq<byte>) => Fits(f, data))
  }

  lemma EveryFramingIsSound(f: Framing)
    ensures Sound(CodecOf(f))
  {
    var c := CodecOf(f);
    forall a, b, s | !c.peel(a, s).Incomplete?
      ensures c.peel(a + b, s) == c.peel(a, s)
    {
      PeelIsStable(f, a, b, s);
    }
    forall data, s | c.carries(data)
      ensures c.peel(c.encode(data, s), s) == Complete(data, |c.encode(data, s)|)
    {
      RoundTrip(f, data, s);
    }
  }
}
