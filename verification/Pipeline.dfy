/** The byte pipeline of one connection, both ways: framing, stream cipher and, for
    FakeTLS, record wrapping, with a read buffer of fixed size. What a run over reads
    gives is a function of where the reads ended; when the cut matters is stated exactly. */
module Pipeline {
  import opened Bytes
  import opened FrameStreams
  import opened Framing
  import opened Keystream
  import opened TlsRecords

  /** The layers of a transport: an inner framing, perhaps a stream cipher over it,
      perhaps records around that; and the sizes of the read buffer and of one read. */
  datatype Stack = Stack(inner: Codec, ciphered: bool, wrapped: bool, records: Codec,
                         capacity: nat, readLimit: nat)

  ghost predicate SoundStack(t: Stack) {
    && Sound(t.inner) && Sound(t.records)
    && t.records.next(0) == 0
    && (forall d: seq<byte> :: |d| <= RECORD_MAX_CHUNK ==> t.records.carries(d))
    && (forall d: seq<byte> :: |d| <= RECORD_MAX_CHUNK ==> |t.records.encode(d, 0)| == RECORD_HEADER_LEN + |d|)
    && (t.wrapped ==> t.ciphered) && 1 <= t.readLimit <= t.capacity
  }

  // Sending

  /** One outgoing body, framed, enciphered at `pos`, and wrapped. */
  function FrameEncode(t: Stack, ks: Keys, pos: nat, body: seq<byte>, seqno: u32): seq<byte> {
    var framed := t.inner.encode(body, seqno);
    var sealed := if t.ciphered then Apply(ks, pos, framed) else framed;
    if t.wrapped then EncodeAll(t.records, Records(sealed), 0) else sealed
  }

  function SendAll(t: Stack, ks: Keys, pos: nat, bodies: seq<seq<byte>>, seqno: u32): seq<byte>
    decreases |bodies|
  {
    if bodies == [] then []
    else
      FrameEncode(t, ks, pos, bodies[0], seqno)
      + SendAll(t, ks, pos + |t.inner.encode(bodies[0], seqno)|, bodies[1..], t.inner.next(seqno))
  }

  // Receiving

  /** Why reading stopped, if it did; a payload is only refused where it is processed. */
  datatype Status = Running | BadRecord | Overflow | BadFrame | Refused

  /** The read half: undecoded record bytes, cipher position, decoded bytes, the frames
      handed on so far, and why reading stopped, if it did. */
  datatype Pipe = Pipe(raw: seq<byte>, pos: nat, buf: seq<byte>, seqno: u32,
                       frames: seq<seq<byte>>, status: Status)

  /** Every complete record among the bytes is one of data. */
  ghost predicate Readable(t: Stack, wire: seq<byte>)
    requires SoundStack(t)
  {
    t.wrapped ==> !Drain(t.records, wire, 0).failed
  }

  /** The bytes one read adds to the buffer, deciphered. */
  ghost function Fresh(t: Stack, ks: Keys, raw: seq<byte>, pos: nat, chunk: seq<byte>): seq<byte>
    requires SoundStack(t)
  {
    if t.wrapped then Apply(ks, pos, Flatten(Drain(t.records, raw + chunk, 0).frames))
    else if t.ciphered then Apply(ks, pos, chunk)
    else chunk
  }

  /** The incomplete record at the end of some wire bytes. */
  ghost function RawAfter(t: Stack, wire: seq<byte>): seq<byte>
    requires SoundStack(t)
  {
    if t.wrapped then Drain(t.records, wire, 0).rest else []
  }

  function PosAfter(t: Stack, pos: nat, added: seq<byte>): nat {
    if t.ciphered then pos + |added| else pos
  }

  /** Decodes one read and appends it to the buffer, which may have no room for it. */
  ghost function Ingest(t: Stack, ks: Keys, p: Pipe, chunk: seq<byte>): Pipe
    requires SoundStack(t)
  {
    if !Readable(t, p.raw + chunk) then p.(raw := p.raw + chunk, status := BadRecord)
    else
      var added := Fresh(t, ks, p.raw, p.pos, chunk);
      var q := p.(raw := RawAfter(t, p.raw + chunk), pos := PosAfter(t, p.pos, added));
      if |p.buf| + |added| > t.capacity then q.(status := Overflow) else q.(buf := p.buf + added)
  }

  ghost function DrainFrames(t: Stack, p: Pipe): Pipe
    requires SoundStack(t)
  {
    var d := Drain(t.inner, p.buf, p.seqno);
    p.(buf := d.rest, seqno := d.seqno, frames := p.frames + d.frames,
       status := if d.failed then BadFrame else Running)
  }

  /** One reading step. */
  ghost function Turn(t: Stack, ks: Keys, p: Pipe, chunk: seq<byte>): Pipe
    requires SoundStack(t)
  {
    var q := Ingest(t, ks, p, chunk);
    if q.status.Running? then DrainFrames(t, q) else q
  }

  ghost function ReceiveAll(t: Stack, ks: Keys, p: Pipe, chunks: seq<seq<byte>>): Pipe
    requires SoundStack(t)
    decreases |chunks|
  {
    if chunks == [] || !p.status.Running? then p
    else ReceiveAll(t, ks, Turn(t, ks, p, chunks[0]), chunks[1..])
  }

  // What all the bytes so far decode to

  /** The deciphered bytes of everything that arrived. */
  ghost function Decoded(t: Stack, ks: Keys, pos: nat, wire: seq<byte>): seq<byte>
    requires SoundStack(t)
  {
    if t.wrapped then Apply(ks, pos, Flatten(Drain(t.records, wire, 0).frames))
    else if t.ciphered then Apply(ks, pos, wire)
    else wire
  }

  /** Where a read half starts: cipher position, bytes already decoded, frame number. */
  datatype Origin = Origin(pos: nat, held: seq<byte>, seqno: u32)

  function Handoff(o: Origin): Pipe {
    Pipe([], o.pos, o.held, o.seqno, [], Running)
  }

  /** Everything that arrived, drained at once. */
  ghost function Whole(t: Stack, ks: Keys, o: Origin, wire: seq<byte>): Drained
    requires SoundStack(t)
  {
    Drain(t.inner, o.held + Decoded(t, ks, o.pos, wire), o.seqno)
  }

  /** What stands in the buffer before the next read: nothing is drained before the first. */
  ghost function Buffered(t: Stack, ks: Keys, o: Origin, wire: seq<byte>): seq<byte>
    requires SoundStack(t)
  {
    if wire == [] then o.held else Whole(t, ks, o, wire).rest
  }

  ghost function FramesBy(t: Stack, ks: Keys, o: Origin, wire: seq<byte>): seq<seq<byte>>
    requires SoundStack(t)
  {
    if wire == [] then [] else Whole(t, ks, o, wire).frames
  }

  ghost predicate FailedBy(t: Stack, ks: Keys, o: Origin, wire: seq<byte>)
    requires SoundStack(t)
  {
    wire != [] && Whole(t, ks, o, wire).failed
  }

  /** `p` is the pipe after `wire` arrived without a bad record or an overflow. */
  ghost predicate After(t: Stack, ks: Keys, o: Origin, wire: seq<byte>, p: Pipe)
    requires SoundStack(t)
  {
    if wire == [] then p == Handoff(o)
    else
      var d := Whole(t, ks, o, wire);
      && Readable(t, wire)
      && p == Pipe(RawAfter(t, wire), PosAfter(t, o.pos, Decoded(t, ks, o.pos, wire)), d.rest, d.seqno, d.frames,
                   if d.failed then BadFrame else Running)
  }

  /** How the read that brings `chunk` behind `wire` ends. */
  ghost function Verdict(t: Stack, ks: Keys, o: Origin, wire: seq<byte>, chunk: seq<byte>): Status
    requires SoundStack(t)
  {
    if !Readable(t, wire + chunk) then BadRecord
    else if |Buffered(t, ks, o, wire)| + Growth(t, ks, o, wire, wire + chunk) > t.capacity then Overflow
    else if Whole(t, ks, o, wire + chunk).failed then BadFrame
    else Running
  }

  /** By how much the decoded bytes grow from `wire` to `later`. */
  ghost function Growth(t: Stack, ks: Keys, o: Origin, wire: seq<byte>, later: seq<byte>): int
    requires SoundStack(t)
  {
    |Decoded(t, ks, o.pos, later)| - |Decoded(t, ks, o.pos, wire)|
  }

  lemma RecordsGrow(c: Codec, wire: seq<byte>, chunk: seq<byte>)
    requires Sound(c) && c.next(0) == 0 && !Drain(c, wire + chunk, 0).failed
    ensures var d, whole := Drain(c, wire, 0), Drain(c, wire + chunk, 0);
            var e := Drain(c, d.rest + chunk, 0);
            && !d.failed && !e.failed && whole.rest == e.rest
            && Flatten(whole.frames) == Flatten(d.frames) + Flatten(e.frames)
  {
    SeqnoStays(c, wire, 0);
    DrainInTwo(c, wire, chunk, 0);
    var d := Drain(c, wire, 0);
    FlattenConcat(d.frames, Drain(c, d.rest + chunk, 0).frames);
  }

  lemma RecordsDecode(c: Codec, ks: Keys, pos: nat, wire: seq<byte>, chunk: seq<byte>)
    requires Sound(c) && c.next(0) == 0 && !Drain(c, wire + chunk, 0).failed
    ensures var all := Apply(ks, pos, Flatten(Drain(c, wire, 0).frames));
            Apply(ks, pos, Flatten(Drain(c, wire + chunk, 0).frames))
            == all + Apply(ks, pos + |all|, Flatten(Drain(c, Drain(c, wire, 0).rest + chunk, 0).frames))
  {
    RecordsGrow(c, wire, chunk);
    var x, y := Flatten(Drain(c, wire, 0).frames), Flatten(Drain(c, Drain(c, wire, 0).rest + chunk, 0).frames);
    ApplyConcat(ks, pos, x, y);
  }

  lemma RawGrows(t: Stack, wire: seq<byte>, chunk: seq<byte>)
    requires SoundStack(t) && Readable(t, wire + chunk)
    ensures Readable(t, wire) && Readable(t, RawAfter(t, wire) + chunk)
    ensures RawAfter(t, RawAfter(t, wire) + chunk) == RawAfter(t, wire + chunk)
  {
    if t.wrapped {
      RecordsGrow(t.records, wire, chunk);
    }
  }

  /** Decoding is done once for each byte: later reads only append. */
  lemma DecodedGrows(t: Stack, ks: Keys, pos: nat, wire: seq<byte>, chunk: seq<byte>)
    requires SoundStack(t) && Readable(t, wire + chunk)
    ensures var all := Decoded(t, ks, pos, wire);
            Decoded(t, ks, pos, wire + chunk) == all + Fresh(t, ks, RawAfter(t, wire), PosAfter(t, pos, all), chunk)
  {
    if t.wrapped {
      WrappedGrows(t, ks, pos, wire, chunk);
    } else if t.ciphered {
      ApplyConcat(ks, pos, wire, chunk);
    }
  }

  lemma WrappedGrows(t: Stack, ks: Keys, pos: nat, wire: seq<byte>, chunk: seq<byte>)
    requires SoundStack(t) && t.wrapped && Readable(t, wire + chunk)
    ensures var all := Decoded(t, ks, pos, wire);
            Decoded(t, ks, pos, wire + chunk) == all + Fresh(t, ks, RawAfter(t, wire), PosAfter(t, pos, all), chunk)
  {
    RecordsDecode(t.records, ks, pos, wire, chunk);
  }

  lemma NothingDecoded(t: Stack, ks: Keys, pos: nat)
    requires SoundStack(t)
    ensures Decoded(t, ks, pos, []) == [] && RawAfter(t, []) == [] && Readable(t, [])
  {
    StartIsDrained(t.records, 0);
  }

  /** What one read adds, from a pipe that has seen `wire`. */
  lemma ReadAdds(t: Stack, ks: Keys, o: Origin, wire: seq<byte>, chunk: seq<byte>, p: Pipe)
    requires SoundStack(t) && Readable(t, wire + chunk)
    requires After(t, ks, o, wire, p)
    ensures p.buf == Buffered(t, ks, o, wire) && p.frames == FramesBy(t, ks, o, wire)
    ensures Readable(t, p.raw + chunk) && RawAfter(t, p.raw + chunk) == RawAfter(t, wire + chunk)
    ensures p.pos == PosAfter(t, o.pos, Decoded(t, ks, o.pos, wire))
    ensures Decoded(t, ks, o.pos, wire + chunk) == Decoded(t, ks, o.pos, wire) + Fresh(t, ks, p.raw, p.pos, chunk)
  {
    NothingDecoded(t, ks, o.pos);
    RawGrows(t, wire, chunk);
    DecodedGrows(t, ks, o.pos, wire, chunk);
  }

  lemma UnreadableStays(t: Stack, ks: Keys, o: Origin, wire: seq<byte>, chunk: seq<byte>, p: Pipe)
    requires SoundStack(t) && After(t, ks, o, wire, p) && Readable(t, wire) && !Readable(t, wire + chunk)
    ensures !Readable(t, p.raw + chunk)
  {
    if wire == [] {
      assert [] + chunk == wire + chunk;
    } else {
      SeqnoStays(t.records, wire, 0);
      DrainInTwo(t.records, wire, chunk, 0);
    }
  }

  lemma DrainedOn(t: Stack, ks: Keys, o: Origin, wire: seq<byte>, chunk: seq<byte>, added: seq<byte>, p: Pipe)
    requires SoundStack(t) && After(t, ks, o, wire, p) && p.status.Running?
    requires Decoded(t, ks, o.pos, wire + chunk) == Decoded(t, ks, o.pos, wire) + added
    ensures var d, e := Whole(t, ks, o, wire + chunk), Drain(t.inner, p.buf + added, p.seqno);
            e.rest == d.rest && e.seqno == d.seqno && p.frames + e.frames == d.frames && e.failed == d.failed
  {
    var all := Decoded(t, ks, o.pos, wire);
    Reassociate(o.held, all, added);
    if wire == [] {
      NothingDecoded(t, ks, o.pos);
      assert [] + added == added;
      var e := Drain(t.inner, p.buf + added, p.seqno);
      assert [] + e.frames == e.frames;
    } else {
      DrainInTwo(t.inner, o.held + all, added, o.seqno);
    }
  }

  /** One turn ends as its verdict says, and leaves what the bytes so far determine. */
  lemma OneTurn(t: Stack, ks: Keys, o: Origin, wire: seq<byte>, chunk: seq<byte>, p: Pipe)
    requires SoundStack(t) && chunk != []
    requires After(t, ks, o, wire, p) && p.status.Running?
    ensures var q, v := Turn(t, ks, p, chunk), Verdict(t, ks, o, wire, chunk);
            && q.status == v
            && (v.Running? || v.BadFrame? ==> After(t, ks, o, wire + chunk, q))
            && (v.BadRecord? || v.Overflow? ==> q.frames == FramesBy(t, ks, o, wire))
  {
    NothingDecoded(t, ks, o.pos);
    if Readable(t, wire + chunk) {
      ReadAdds(t, ks, o, wire, chunk, p);
      DrainedOn(t, ks, o, wire, chunk, Fresh(t, ks, p.raw, p.pos, chunk), p);
      TurnAfter(t, ks, o, wire, chunk, p);
    } else {
      UnreadableStays(t, ks, o, wire, chunk, p);
    }
  }

  lemma TurnAfter(t: Stack, ks: Keys, o: Origin, wire: seq<byte>, chunk: seq<byte>, p: Pipe)
    requires SoundStack(t) && chunk != [] && Readable(t, wire + chunk)
    requires p.buf == Buffered(t, ks, o, wire) && p.frames == FramesBy(t, ks, o, wire) && p.status.Running?
    requires Readable(t, p.raw + chunk) && RawAfter(t, p.raw + chunk) == RawAfter(t, wire + chunk)
    requires p.pos == PosAfter(t, o.pos, Decoded(t, ks, o.pos, wire))
    requires Decoded(t, ks, o.pos, wire + chunk) == Decoded(t, ks, o.pos, wire) + Fresh(t, ks, p.raw, p.pos, chunk)
    requires var d, e := Whole(t, ks, o, wire + chunk), Drain(t.inner, p.buf + Fresh(t, ks, p.raw, p.pos, chunk), p.seqno);
             e.rest == d.rest && e.seqno == d.seqno && p.frames + e.frames == d.frames && e.failed == d.failed
    ensures var q, v := Turn(t, ks, p, chunk), Verdict(t, ks, o, wire, chunk);
            && q.status == v
            && (v.Running? || v.BadFrame? ==> After(t, ks, o, wire + chunk, q))
            && (v.Overflow? ==> q.frames == FramesBy(t, ks, o, wire))
  {
  }

  // A run over reads

  /** The bytes of the first `n` reads. */
  function Upto(chunks: seq<seq<byte>>, n: nat): seq<byte>
    requires n <= |chunks|
  {
    Flatten(chunks[..n])
  }

  /** Reads bring at least one byte and at most `readLimit`. */
  predicate AreReads(t: Stack, chunks: seq<seq<byte>>) {
    forall i :: 0 <= i < |chunks| ==> 0 < |chunks[i]| <= t.readLimit
  }

  /** `p` is what the reads give, and the first `n` of them went through. */
  ghost predicate EndsAt(t: Stack, ks: Keys, o: Origin, chunks: seq<seq<byte>>, n: nat, p: Pipe)
    requires SoundStack(t)
  {
    && n <= |chunks|
    && (forall i :: 0 <= i < n ==> Verdict(t, ks, o, Upto(chunks, i), chunks[i]).Running?)
    && After(t, ks, o, Upto(chunks, n), Through(t, ks, o, chunks, n))
    && Through(t, ks, o, chunks, n).status.Running?
    && (n == |chunks| ==> p == Through(t, ks, o, chunks, n))
    && (n < |chunks| ==> p == Turn(t, ks, Through(t, ks, o, chunks, n), chunks[n]) && !p.status.Running?)
  }

  /** The pipe after the first `n` reads. */
  ghost function Through(t: Stack, ks: Keys, o: Origin, chunks: seq<seq<byte>>, n: nat): Pipe
    requires SoundStack(t) && n <= |chunks|
  {
    ReceiveAll(t, ks, Handoff(o), chunks[..n])
  }

  lemma UptoMore(chunks: seq<seq<byte>>, n: nat)
    requires n < |chunks|
    ensures Upto(chunks, n + 1) == Upto(chunks, n) + chunks[n]
  {
    assert chunks[..n + 1] == chunks[..n] + [chunks[n]];
    FlattenConcat(chunks[..n], [chunks[n]]);
    assert Flatten([chunks[n]]) == chunks[n] + Flatten([]);
  }

  lemma {:induction false} ReceiveOneMore(t: Stack, ks: Keys, p: Pipe, chunks: seq<seq<byte>>, chunk: seq<byte>)
    requires SoundStack(t)
    ensures var q := ReceiveAll(t, ks, p, chunks);
            ReceiveAll(t, ks, p, chunks + [chunk]) == if q.status.Running? then Turn(t, ks, q, chunk) else q
    decreases |chunks|
  {
    if chunks == [] {
      assert [] + [chunk] == [chunk] && [chunk][1..] == [];
    } else if p.status.Running? {
      assert (chunks + [chunk])[1..] == chunks[1..] + [chunk];
      ReceiveOneMore(t, ks, Turn(t, ks, p, chunks[0]), chunks[1..], chunk);
    }
  }

  lemma {:induction false} StoppedStays(t: Stack, ks: Keys, p: Pipe, first: seq<seq<byte>>, more: seq<seq<byte>>)
    requires SoundStack(t) && !ReceiveAll(t, ks, p, first).status.Running?
    ensures ReceiveAll(t, ks, p, first + more) == ReceiveAll(t, ks, p, first)
    decreases |first|
  {
    if p.status.Running? {
      assert (first + more)[1..] == first[1..] + more;
      StoppedStays(t, ks, Turn(t, ks, p, first[0]), first[1..], more);
    }
  }

  lemma SameStart(t: Stack, ks: Keys, o: Origin, init: seq<seq<byte>>, chunk: seq<byte>, n: nat)
    requires SoundStack(t) && n <= |init|
    ensures Upto(init + [chunk], n) == Upto(init, n)
    ensures Through(t, ks, o, init + [chunk], n) == Through(t, ks, o, init, n)
  {
    assert (init + [chunk])[..n] == init[..n];
  }

  lemma EndsBefore(t: Stack, ks: Keys, o: Origin, init: seq<seq<byte>>, chunk: seq<byte>, n: nat, p: Pipe)
    requires SoundStack(t) && EndsAt(t, ks, o, init, n, p) && n < |init|
    ensures EndsAt(t, ks, o, init + [chunk], n, p)
  {
    SameStart(t, ks, o, init, chunk, n);
    forall i | 0 <= i < n
      ensures Verdict(t, ks, o, Upto(init + [chunk], i), (init + [chunk])[i]).Running?
    {
      SameStart(t, ks, o, init, chunk, i);
    }
  }

  lemma EndsHere(t: Stack, ks: Keys, o: Origin, init: seq<seq<byte>>, chunk: seq<byte>, p: Pipe) returns (n: nat)
    requires SoundStack(t) && EndsAt(t, ks, o, init, |init|, p) && chunk != []
    ensures EndsAt(t, ks, o, init + [chunk], n, Turn(t, ks, p, chunk))
  {
    var chunks := init + [chunk];
    OneTurn(t, ks, o, Upto(init, |init|), chunk, p);
    SameVerdicts(t, ks, o, init, chunk);
    if Turn(t, ks, p, chunk).status.Running? {
      n := |chunks|;
      RunsThrough(t, ks, o, init, chunk, p);
    } else {
      n := |init|;
    }
  }

  lemma RunsThrough(t: Stack, ks: Keys, o: Origin, init: seq<seq<byte>>, chunk: seq<byte>, p: Pipe)
    requires SoundStack(t) && p == Through(t, ks, o, init, |init|) && p.status.Running?
    ensures Through(t, ks, o, init + [chunk], |init| + 1) == Turn(t, ks, p, chunk)
    ensures Upto(init + [chunk], |init| + 1) == Upto(init, |init|) + chunk
  {
    var chunks := init + [chunk];
    UptoMore(chunks, |init|);
    assert chunks[..|init| + 1] == chunks && chunks[..|init|] == init && init[..|init|] == init;
    ReceiveOneMore(t, ks, Handoff(o), init, chunk);
  }

  lemma SameVerdicts(t: Stack, ks: Keys, o: Origin, init: seq<seq<byte>>, chunk: seq<byte>)
    requires SoundStack(t)
    ensures forall i :: 0 <= i < |init| ==>
              Verdict(t, ks, o, Upto(init + [chunk], i), (init + [chunk])[i]) == Verdict(t, ks, o, Upto(init, i), init[i])
    ensures Upto(init + [chunk], |init|) == Upto(init, |init|)
    ensures Through(t, ks, o, init + [chunk], |init|) == Through(t, ks, o, init, |init|)
  {
    forall i | 0 <= i <= |init|
      ensures Upto(init + [chunk], i) == Upto(init, i)
      ensures Through(t, ks, o, init + [chunk], i) == Through(t, ks, o, init, i)
    {
      SameStart(t, ks, o, init, chunk, i);
    }
  }

  /** What a run gives is determined by where its reads end: each read that goes through
      leaves what the bytes so far determine, and the first that does not ends the run. */
  lemma {:induction false} RunEnds(t: Stack, ks: Keys, o: Origin, chunks: seq<seq<byte>>) returns (n: nat)
    requires SoundStack(t) && AreReads(t, chunks)
    ensures EndsAt(t, ks, o, chunks, n, ReceiveAll(t, ks, Handoff(o), chunks))
    decreases |chunks|
  {
    if chunks == [] {
      n := 0;
    } else {
      var init, last := chunks[..|chunks| - 1], chunks[|chunks| - 1];
      var p := ReceiveAll(t, ks, Handoff(o), init);
      assert chunks == init + [last];
      n := RunEnds(t, ks, o, init);
      ReceiveOneMore(t, ks, Handoff(o), init, last);
      if n < |init| {
        EndsBefore(t, ks, o, init, last, n, p);
      } else {
        n := EndsHere(t, ks, o, init, last, p);
      }
    }
  }
}
