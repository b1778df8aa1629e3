/** FakeTLS record framing (ferogram-connect's tls_record.rs): data is cut into
    application-data records of at most 2^14 bytes, the limit of section 5.1 of RFC 8446. */
module TlsRecords {
  import opened Wrappers
  import opened Bytes
  import opened FrameStreams
  import opened Framing

  const RECORD_MAX_CHUNK := 16384

  /** The stretches that go into one record each. */
  function Records(data: seq<byte>): seq<seq<byte>>
    decreases |data|
  {
    if data == [] then []
    else if |data| <= RECORD_MAX_CHUNK then [data]
    else [data[..RECORD_MAX_CHUNK]] + Records(data[RECORD_MAX_CHUNK..])
  }

  function Tls(): (c: Codec)
    ensures Sound(c)
  {
    EveryFramingIsSound(TlsRecord);
    CodecOf(TlsRecord)
  }

  function Wrap(data: seq<byte>): seq<byte> {
    EncodeAll(Tls(), Records(data), 0)
  }

  lemma {:induction false} RecordsRejoin(data: seq<byte>)
    ensures Flatten(Records(data)) == data
    ensures forall i :: 0 <= i < |Records(data)| ==> |Records(data)[i]| <= RECORD_MAX_CHUNK
    decreases |data|
  {
    if |data| > RECORD_MAX_CHUNK {
      RecordsRejoin(data[RECORD_MAX_CHUNK..]);
    } else if data != [] {
      assert Flatten([data]) == data + Flatten([]);
    }
  }

  method WrapApplicationData(ciphertext: seq<byte>, out: seq<byte>) returns (wire: seq<byte>)
    ensures wire == out + Wrap(ciphertext)
  {
    wire := out;
    if ciphertext == [] {
      return;
    }
    var offset := 0;
    while offset < |ciphertext|
      invariant offset <= |ciphertext| && wire + Wrap(ciphertext[offset..]) == out + Wrap(ciphertext)
    {
      var end := if offset + RECORD_MAX_CHUNK < |ciphertext| then offset + RECORD_MAX_CHUNK else |ciphertext|;
      var chunk := ciphertext[offset..end];
      ghost var left := ciphertext[offset..];
      assert ciphertext[end..] == left[|chunk|..];
      FirstRecord(left, chunk);
      var record := [RECORD_APPLICATION_DATA, 0x03, 0x03] + ToBe16(|chunk|) + chunk;
      Reassociate(wire, record, Wrap(left[|chunk|..]));
      wire := wire + record;
      offset := end;
    }
  }

  lemma FirstRecord(data: seq<byte>, chunk: seq<byte>)
    requires 0 < |chunk| <= |data| && chunk == data[..|chunk|]
    requires |chunk| == RECORD_MAX_CHUNK || (chunk == data && |data| <= RECORD_MAX_CHUNK)
    ensures Wrap(data) == [RECORD_APPLICATION_DATA, 0x03, 0x03] + ToBe16(|chunk|) + chunk + Wrap(data[|chunk|..])
  {
    var rest := data[|chunk|..];
    if |data| <= RECORD_MAX_CHUNK {
      assert chunk == data && rest == [] && Records(rest) == [];
    }
    assert Records(data) == [chunk] + Records(rest);
    assert Records(data)[1..] == Records(rest);
  }

  datatype Unwrapped = Unwrapped(ciphertext: seq<byte>, consumed: nat)

  datatype RecordError = UnexpectedRecord

  /** One step of the scan: the complete record at `offset`, if there is one. */
  method RecordAt(pending: seq<byte>, offset: nat) returns (p: Peel)
    requires offset <= |pending|
    ensures p == PeelRecord(pending[offset..])
  {
    ghost var left := pending[offset..];
    if |pending| < offset + RECORD_HEADER_LEN {
      return Incomplete;
    }
    assert left[3..5] == pending[offset + 3..offset + 5];
    var len := FromBe16(pending[offset + 3..offset + 5]);
    var total := RECORD_HEADER_LEN + len;
    if |pending| < offset + total {
      return Incomplete;
    }
    var recType := pending[offset];
    if recType != RECORD_APPLICATION_DATA && recType != RECORD_CHANGE_CIPHER_SPEC {
      return Failed;
    }
    assert left[RECORD_HEADER_LEN..total] == pending[offset + RECORD_HEADER_LEN..offset + total];
    p := Complete(pending[offset + RECORD_HEADER_LEN..offset + total], total);
  }

  lemma BehindSnoc(frames: seq<seq<byte>>, data: seq<byte>, d: Drained)
    ensures Behind(frames + [data], d) == Behind(frames, Prefixed(data, d))
    ensures Flatten(frames + [data]) == Flatten(frames) + data
  {
    assert (frames + [data]) + d.frames == frames + ([data] + d.frames);
    FlattenConcat(frames, [data]);
    assert Flatten([data]) == data;
  }

  method UnwrapRecords(pending: seq<byte>) returns (r: Result<Unwrapped, RecordError>)
    ensures var d := Drain(Tls(), pending, 0);
            && (r.Err? <==> d.failed)
            && (r.Ok? ==> r.value.consumed <= |pending|
                          && r.value.ciphertext == Flatten(d.frames) && pending[r.value.consumed..] == d.rest)
  {
    var offset := 0;
    var ciphertext: seq<byte> := [];
    ghost var frames: seq<seq<byte>> := [];
    assert Behind([], Drain(Tls(), pending, 0)) == Drain(Tls(), pending, 0);
    while true
      invariant 0 <= offset <= |pending| && ciphertext == Flatten(frames)
      invariant Drain(Tls(), pending, 0) == Behind(frames, Drain(Tls(), pending[offset..], 0))
      decreases |pending| - offset
    {
      var p := RecordAt(pending, offset);
      DrainUnfolds(Tls(), pending[offset..], 0, p);
      match p {
        case Incomplete => break;
        case Failed => return Err(UnexpectedRecord);
        case Complete(data, total) =>
          assert pending[offset..][total..] == pending[offset + total..];
          BehindSnoc(frames, data, Drain(Tls(), pending[offset + total..], 0));
          ciphertext := ciphertext + data;
          frames := frames + [data];
          offset := offset + total;
      }
    }
    assert frames + [] == frames;
    r := Ok(Unwrapped(ciphertext, offset));
  }
}
