/** When the way a stream is cut into reads matters: never for streams that can be read
    and fit the buffer; for records that are refused, exactly when frames complete close
    before the bad one. */
module ReadCuts {
  import opened Bytes
  import opened FrameStreams
  import opened Keystream
  import opened Pipeline

  predicate IsCut(t: Stack, chunks: seq<seq<byte>>, wire: seq<byte>) {
    AreReads(t, chunks) && Flatten(chunks) == wire
  }

  /** The read from `x` to `y` finds room. */
  ghost predicate RoomAt(t: Stack, ks: Keys, o: Origin, wire: seq<byte>, x: nat, y: nat)
    requires SoundStack(t) && x <= y <= |wire|
  {
    |Buffered(t, ks, o, wire[..x])| + Growth(t, ks, o, wire[..x], wire[..y]) <= t.capacity
  }

  /** A run can read from `x` to `y`: it was not ended before, nor is it by a bad record. */
  ghost predicate PossibleRead(t: Stack, ks: Keys, o: Origin, wire: seq<byte>, x: nat, y: nat)
    requires SoundStack(t) && x <= y <= |wire|
  {
    x < y && y - x <= t.readLimit && Readable(t, wire[..y]) && !FailedBy(t, ks, o, wire[..x])
  }

  /** Every read that can be part of a cut finds room. */
  ghost predicate Room(t: Stack, ks: Keys, o: Origin, wire: seq<byte>)
    requires SoundStack(t)
  {
    forall x: nat, y: nat :: x <= y <= |wire| && PossibleRead(t, ks, o, wire, x, y) ==> RoomAt(t, ks, o, wire, x, y)
  }

  // Bytes that arrive later

  lemma ReadableBefore(t: Stack, wire: seq<byte>, x: nat)
    requires SoundStack(t) && x <= |wire| && Readable(t, wire)
    ensures Readable(t, wire[..x])
  {
    assert wire == wire[..x] + wire[x..];
    RawGrows(t, wire[..x], wire[x..]);
  }

  /** More bytes only add frames, and none after a failure. */
  lemma WholeGrows(t: Stack, ks: Keys, o: Origin, wire: seq<byte>, more: seq<byte>)
    requires SoundStack(t) && Readable(t, wire + more)
    ensures var d, e := Whole(t, ks, o, wire), Whole(t, ks, o, wire + more);
            d.frames <= e.frames && (d.failed ==> e.failed && e.frames == d.frames)
  {
    DecodedGrows(t, ks, o.pos, wire, more);
    var all := Decoded(t, ks, o.pos, wire);
    var added := Fresh(t, ks, RawAfter(t, wire), PosAfter(t, o.pos, all), more);
    DrainInTwo(t.inner, o.held + all, added, o.seqno);
    Reassociate(o.held, all, added);
  }

  lemma FramesOnlyGrow(t: Stack, ks: Keys, o: Origin, wire: seq<byte>, more: seq<byte>)
    requires SoundStack(t) && Readable(t, wire + more)
    ensures FramesBy(t, ks, o, wire) <= FramesBy(t, ks, o, wire + more)
    ensures FailedBy(t, ks, o, wire) ==>
              FailedBy(t, ks, o, wire + more) && FramesBy(t, ks, o, wire + more) == FramesBy(t, ks, o, wire)
  {
    if wire != [] {
      WholeGrows(t, ks, o, wire, more);
    }
  }

  lemma FramesGrow(t: Stack, ks: Keys, o: Origin, wire: seq<byte>, x: nat, y: nat)
    requires SoundStack(t) && x <= y <= |wire| && Readable(t, wire[..y])
    ensures FramesBy(t, ks, o, wire[..x]) <= FramesBy(t, ks, o, wire[..y])
    ensures FailedBy(t, ks, o, wire[..x]) ==>
              FailedBy(t, ks, o, wire[..y]) && FramesBy(t, ks, o, wire[..y]) == FramesBy(t, ks, o, wire[..x])
  {
    assert wire[..x] + wire[x..y] == wire[..y];
    FramesOnlyGrow(t, ks, o, wire[..x], wire[x..y]);
  }

  // Where reads end

  lemma UptoIsPrefix(chunks: seq<seq<byte>>, n: nat)
    requires n <= |chunks|
    ensures Upto(chunks, n) <= Flatten(chunks) && Upto(chunks, n) == Flatten(chunks)[..|Upto(chunks, n)|]
    ensures n == |chunks| ==> Upto(chunks, n) == Flatten(chunks)
  {
    assert chunks == chunks[..n] + chunks[n..];
    FlattenConcat(chunks[..n], chunks[n..]);
  }

  /** The `n`th read is one from some position to a later one. */
  lemma ReadPositions(t: Stack, chunks: seq<seq<byte>>, n: nat) returns (x: nat, y: nat)
    requires AreReads(t, chunks) && n < |chunks|
    ensures x < y <= |Flatten(chunks)| && y - x <= t.readLimit
    ensures Upto(chunks, n) == Flatten(chunks)[..x]
    ensures Upto(chunks, n) + chunks[n] == Upto(chunks, n + 1) == Flatten(chunks)[..y]
  {
    UptoIsPrefix(chunks, n);
    UptoIsPrefix(chunks, n + 1);
    UptoMore(chunks, n);
    x, y := |Upto(chunks, n)|, |Upto(chunks, n + 1)|;
  }

  lemma NoOverflow(t: Stack, ks: Keys, o: Origin, chunks: seq<seq<byte>>, n: nat)
    requires SoundStack(t) && AreReads(t, chunks) && n < |chunks| && Room(t, ks, o, Flatten(chunks))
    requires !FailedBy(t, ks, o, Upto(chunks, n))
    ensures !Verdict(t, ks, o, Upto(chunks, n), chunks[n]).Overflow?
  {
    var x, y := ReadPositions(t, chunks, n);
    if Readable(t, Flatten(chunks)[..y]) {
      assert PossibleRead(t, ks, o, Flatten(chunks), x, y);
      assert RoomAt(t, ks, o, Flatten(chunks), x, y);
    }
  }

  /** How a run with room ends, and where. */
  ghost predicate Ending(t: Stack, ks: Keys, o: Origin, chunks: seq<seq<byte>>, n: nat, p: Pipe)
    requires SoundStack(t) && n <= |chunks|
  {
    && Readable(t, Upto(chunks, n)) && !FailedBy(t, ks, o, Upto(chunks, n))
    && (n == |chunks| ==> p.status.Running? && After(t, ks, o, Upto(chunks, n), p))
    && (n < |chunks| && p.status.BadRecord? ==>
          !Readable(t, Upto(chunks, n + 1)) && p.frames == FramesBy(t, ks, o, Upto(chunks, n)))
    && (n < |chunks| && p.status.BadFrame? ==>
          && Readable(t, Upto(chunks, n + 1)) && FailedBy(t, ks, o, Upto(chunks, n + 1))
          && p.frames == FramesBy(t, ks, o, Upto(chunks, n + 1)))
  }

  lemma RunWithRoom(t: Stack, ks: Keys, o: Origin, chunks: seq<seq<byte>>) returns (n: nat)
    requires SoundStack(t) && AreReads(t, chunks) && Room(t, ks, o, Flatten(chunks))
    ensures n <= |chunks| && Ending(t, ks, o, chunks, n, ReceiveAll(t, ks, Handoff(o), chunks))
    ensures n < |chunks| ==> ReceiveAll(t, ks, Handoff(o), chunks).status in {BadRecord, BadFrame}
  {
    n := RunEnds(t, ks, o, chunks);
    NothingDecoded(t, ks, o.pos);
    var at := Through(t, ks, o, chunks, n);
    if n < |chunks| {
      var x, y := ReadPositions(t, chunks, n);
      NoOverflow(t, ks, o, chunks, n);
      OneTurn(t, ks, o, Upto(chunks, n), chunks[n], at);
    }
  }

  /** With room for every read, and every record one of data: the frames, a failure of the
      inner framing, and what is left depend on the bytes, not on the reads. */
  lemma ReadsDoNotMatter(t: Stack, ks: Keys, o: Origin, chunks: seq<seq<byte>>)
    requires SoundStack(t) && AreReads(t, chunks)
    requires Readable(t, Flatten(chunks)) && Room(t, ks, o, Flatten(chunks))
    ensures var p, wire := ReceiveAll(t, ks, Handoff(o), chunks), Flatten(chunks);
            && p.frames == FramesBy(t, ks, o, wire)
            && p.status == (if FailedBy(t, ks, o, wire) then BadFrame else Running)
            && (p.status.Running? ==> After(t, ks, o, wire, p))
  {
    var n := RunWithRoom(t, ks, o, chunks);
    UptoIsPrefix(chunks, n);
    if n < |chunks| {
      var x, y := ReadPositions(t, chunks, n);
      ReadableBefore(t, Flatten(chunks), y);
      assert Flatten(chunks)[..|Flatten(chunks)|] == Flatten(chunks);
      FramesGrow(t, ks, o, Flatten(chunks), y, |Flatten(chunks)|);
    }
  }

  // Cuts with a read at a chosen place

  function Singles(s: seq<byte>): (r: seq<seq<byte>>)
    ensures |r| == |s| && forall i :: 0 <= i < |s| ==> r[i] == [s[i]]
  {
    seq(|s|, i requires 0 <= i < |s| => [s[i]])
  }

  lemma {:induction false} SinglesFlatten(s: seq<byte>)
    ensures Flatten(Singles(s)) == s
  {
    if s != [] {
      assert Singles(s)[1..] == Singles(s[1..]);
      SinglesFlatten(s[1..]);
    }
  }

  /** Byte by byte, but for one read from `x` to `y`. */
  function CutAt(wire: seq<byte>, x: nat, y: nat): seq<seq<byte>>
    requires x < y <= |wire|
  {
    Singles(wire[..x]) + ([wire[x..y]] + Singles(wire[y..]))
  }

  lemma CutFlattens(a: seq<byte>, b: seq<byte>, c: seq<byte>)
    ensures Flatten(Singles(a) + ([b] + Singles(c))) == a + (b + c)
  {
    SinglesFlatten(a);
    SinglesFlatten(c);
    FlattenConcat(Singles(a), [b] + Singles(c));
    assert ([b] + Singles(c))[1..] == Singles(c);
  }

  lemma CutStart(wire: seq<byte>, x: nat, y: nat, i: nat)
    requires i <= x < y <= |wire|
    ensures i <= |CutAt(wire, x, y)| && Upto(CutAt(wire, x, y), i) == wire[..i]
  {
    assert CutAt(wire, x, y)[..i] == Singles(wire[..i]);
    SinglesFlatten(wire[..i]);
  }

  lemma CutAtIsCut(t: Stack, wire: seq<byte>, x: nat, y: nat)
    requires x < y <= |wire| && 1 <= y - x <= t.readLimit
    ensures IsCut(t, CutAt(wire, x, y), wire)
    ensures |CutAt(wire, x, y)| > x && CutAt(wire, x, y)[x] == wire[x..y]
    ensures forall i :: 0 <= i <= x ==> Upto(CutAt(wire, x, y), i) == wire[..i]
    ensures Upto(CutAt(wire, x, y), x + 1) == wire[..y]
  {
    var c := CutAt(wire, x, y);
    CutFlattens(wire[..x], wire[x..y], wire[y..]);
    assert wire == wire[..x] + (wire[x..y] + wire[y..]);
    forall i | 0 <= i <= x
      ensures Upto(c, i) == wire[..i]
    {
      CutStart(wire, x, y, i);
    }
    assert |Singles(wire[..x])| == x;
    UptoMore(c, x);
    assert wire[..x] + wire[x..y] == wire[..y];
  }

  /** A stream that can be read survives every cut exactly when every read that can be
      part of one finds room. */
  lemma EveryCutSurvivesExactlyWithRoom(t: Stack, ks: Keys, o: Origin, wire: seq<byte>)
    requires SoundStack(t) && Readable(t, wire) && !FailedBy(t, ks, o, wire)
    ensures (forall chunks :: IsCut(t, chunks, wire) ==> ReceiveAll(t, ks, Handoff(o), chunks).status.Running?)
            <==> Room(t, ks, o, wire)
  {
    if Room(t, ks, o, wire) {
      forall chunks | IsCut(t, chunks, wire)
        ensures ReceiveAll(t, ks, Handoff(o), chunks).status.Running?
      {
        ReadsDoNotMatter(t, ks, o, chunks);
      }
    }
    forall x: nat, y: nat | x < y <= |wire| && PossibleRead(t, ks, o, wire, x, y) && !RoomAt(t, ks, o, wire, x, y)
      ensures IsCut(t, CutAt(wire, x, y), wire)
      ensures !ReceiveAll(t, ks, Handoff(o), CutAt(wire, x, y)).status.Running?
    {
      CutWithoutRoom(t, ks, o, wire, x, y);
    }
  }

  lemma CutWithoutRoom(t: Stack, ks: Keys, o: Origin, wire: seq<byte>, x: nat, y: nat)
    requires SoundStack(t) && x < y <= |wire| && y - x <= t.readLimit
    requires Readable(t, wire[..y]) && !RoomAt(t, ks, o, wire, x, y)
    ensures IsCut(t, CutAt(wire, x, y), wire)
    ensures !ReceiveAll(t, ks, Handoff(o), CutAt(wire, x, y)).status.Running?
  {
    CutAtIsCut(t, wire, x, y);
    var c := CutAt(wire, x, y);
    var n := RunEnds(t, ks, o, c);
    UptoMore(c, x);
    assert Verdict(t, ks, o, Upto(c, x), c[x]).Overflow?;
  }

  // Streams with a record that is refused

  /** `z` bytes are the fewest that show the bad record. */
  ghost predicate FirstBad(t: Stack, wire: seq<byte>, z: nat)
    requires SoundStack(t)
  {
    && z <= |wire| && !Readable(t, wire[..z])
    && forall y: nat :: y < z ==> Readable(t, wire[..y])
  }

  lemma {:induction false} FirstBadExists(t: Stack, wire: seq<byte>) returns (z: nat)
    requires SoundStack(t) && !Readable(t, wire)
    ensures FirstBad(t, wire, z) && z > 0
    decreases |wire|
  {
    StartIsDrained(t.records, 0);
    var init := wire[..|wire| - 1];
    if Readable(t, init) {
      z := |wire|;
      assert wire[..z] == wire;
      forall y: nat | y < z
        ensures Readable(t, wire[..y])
      {
        assert wire[..y] == init[..y];
        ReadableBefore(t, init, y);
      }
    } else {
      z := FirstBadExists(t, init);
      assert forall y: nat :: y <= z ==> wire[..y] == init[..y];
    }
  }

  lemma BadFrom(t: Stack, wire: seq<byte>, z: nat, y: nat)
    requires SoundStack(t) && FirstBad(t, wire, z) && y <= |wire|
    ensures Readable(t, wire[..y]) <==> y < z
  {
    if y >= z {
      assert wire[..y][..z] == wire[..z];
      if Readable(t, wire[..y]) {
        ReadableBefore(t, wire[..y], z);
      }
    }
  }

  /** The earliest position from which one read can reach the bad record. */
  function Reach(t: Stack, z: nat): nat {
    if z > t.readLimit then z - t.readLimit else 0
  }

  /** Between `lo` and `hi`, as prefixes. */
  ghost predicate Between(lo: seq<seq<byte>>, frames: seq<seq<byte>>, hi: seq<seq<byte>>) {
    lo <= frames <= hi && (lo == hi ==> frames == lo)
  }

  lemma FramesBetween(t: Stack, ks: Keys, o: Origin, wire: seq<byte>, x: nat, at: nat, y: nat)
    requires SoundStack(t) && x <= at <= y <= |wire| && Readable(t, wire[..y])
    ensures Between(FramesBy(t, ks, o, wire[..x]), FramesBy(t, ks, o, wire[..at]), FramesBy(t, ks, o, wire[..y]))
  {
    assert wire[..y][..at] == wire[..at];
    ReadableBefore(t, wire[..y], at);
    FramesGrow(t, ks, o, wire, x, at);
    FramesGrow(t, ks, o, wire, at, y);
  }

  lemma FramesByBadRecord(t: Stack, ks: Keys, o: Origin, wire: seq<byte>, x: nat, y: nat, z: nat)
    requires SoundStack(t) && x < y <= |wire| && y - x <= t.readLimit && z > 0 && FirstBad(t, wire, z)
    requires Readable(t, wire[..x]) && !Readable(t, wire[..y])
    ensures Between(FramesBy(t, ks, o, wire[..Reach(t, z)]), FramesBy(t, ks, o, wire[..x]), FramesBy(t, ks, o, wire[..z - 1]))
  {
    BadFrom(t, wire, z, x);
    BadFrom(t, wire, z, y);
    BadFrom(t, wire, z, z - 1);
    FramesBetween(t, ks, o, wire, Reach(t, z), x, z - 1);
  }

  lemma FramesByBadFrame(t: Stack, ks: Keys, o: Origin, wire: seq<byte>, y: nat, z: nat)
    requires SoundStack(t) && y <= |wire| && z > 0 && FirstBad(t, wire, z)
    requires Readable(t, wire[..y]) && FailedBy(t, ks, o, wire[..y])
    ensures Between(FramesBy(t, ks, o, wire[..Reach(t, z)]), FramesBy(t, ks, o, wire[..y]), FramesBy(t, ks, o, wire[..z - 1]))
  {
    BadFrom(t, wire, z, y);
    BadFrom(t, wire, z, z - 1);
    FailedBetween(t, ks, o, wire, Reach(t, z), y, z - 1);
  }

  lemma FailedBetween(t: Stack, ks: Keys, o: Origin, wire: seq<byte>, x: nat, y: nat, m: nat)
    requires SoundStack(t) && x <= m <= |wire| && y <= m && Readable(t, wire[..m]) && FailedBy(t, ks, o, wire[..y])
    ensures Between(FramesBy(t, ks, o, wire[..x]), FramesBy(t, ks, o, wire[..y]), FramesBy(t, ks, o, wire[..m]))
  {
    FramesGrow(t, ks, o, wire, y, m);
    FramesBetween(t, ks, o, wire, x, m, m);
  }

  lemma EndingFrames(t: Stack, ks: Keys, o: Origin, chunks: seq<seq<byte>>, wire: seq<byte>, z: nat, n: nat, p: Pipe)
    requires SoundStack(t) && AreReads(t, chunks) && n < |chunks| && wire == Flatten(chunks)
    requires z > 0 && FirstBad(t, wire, z)
    requires Ending(t, ks, o, chunks, n, p) && p.status in {BadRecord, BadFrame}
    ensures Between(FramesBy(t, ks, o, wire[..Reach(t, z)]), p.frames, FramesBy(t, ks, o, wire[..z - 1]))
  {
    var x, y := ReadPositions(t, chunks, n);
    if p.status.BadRecord? {
      FramesByBadRecord(t, ks, o, wire, x, y, z);
    } else {
      FramesByBadFrame(t, ks, o, wire, y, z);
    }
  }

  /** A refused record ends every run. The frames before it that were handed on are those
      complete by the last read before it, so none beyond what came before the record
      and none missing that were complete a whole read earlier. */
  lemma RefusedRecordEndsTheRun(t: Stack, ks: Keys, o: Origin, chunks: seq<seq<byte>>, z: nat)
    requires SoundStack(t) && AreReads(t, chunks) && Room(t, ks, o, Flatten(chunks))
    requires z > 0 && FirstBad(t, Flatten(chunks), z)
    ensures var p, wire := ReceiveAll(t, ks, Handoff(o), chunks), Flatten(chunks);
            && p.status in {BadRecord, BadFrame}
            && Between(FramesBy(t, ks, o, wire[..Reach(t, z)]), p.frames, FramesBy(t, ks, o, wire[..z - 1]))
  {
    var n := RunWithRoom(t, ks, o, chunks);
    UptoIsPrefix(chunks, n);
    BadFrom(t, Flatten(chunks), z, |Upto(chunks, n)|);
    if n < |chunks| {
      EndingFrames(t, ks, o, chunks, Flatten(chunks), z, n, ReceiveAll(t, ks, Handoff(o), chunks));
    }
  }

  lemma LaterUpto(chunks: seq<seq<byte>>, m: nat, n: nat)
    requires m <= n <= |chunks|
    ensures |Upto(chunks, m)| <= |Upto(chunks, n)|
  {
    assert chunks[..n][..m] == chunks[..m];
    UptoIsPrefix(chunks[..n], m);
  }

  /** A run over this cut gets to the read over the bad record, or fails before. */
  lemma StopsBy(t: Stack, ks: Keys, o: Origin, wire: seq<byte>, x: nat, z: nat, n: nat)
    requires SoundStack(t) && FirstBad(t, wire, z) && x < z && z - x <= t.readLimit
    requires n <= |CutAt(wire, x, z)| && Readable(t, Upto(CutAt(wire, x, z), n))
    ensures n <= x
  {
    var c := CutAt(wire, x, z);
    CutAtIsCut(t, wire, x, z);
    UptoIsPrefix(c, n);
    BadFrom(t, wire, z, |Upto(c, n)|);
    if n > x {
      LaterUpto(c, x + 1, n);
    }
  }

  /** With one read from `x` over the bad record, the frames are those complete by `x`. */
  lemma CutOverBadRecord(t: Stack, ks: Keys, o: Origin, wire: seq<byte>, x: nat, z: nat)
    requires SoundStack(t) && Room(t, ks, o, wire) && FirstBad(t, wire, z) && x < z && z - x <= t.readLimit
    ensures IsCut(t, CutAt(wire, x, z), wire)
    ensures ReceiveAll(t, ks, Handoff(o), CutAt(wire, x, z)).frames == FramesBy(t, ks, o, wire[..x])
  {
    CutAtIsCut(t, wire, x, z);
    var c := CutAt(wire, x, z);
    var n := RunWithRoom(t, ks, o, c);
    StopsBy(t, ks, o, wire, x, z, n);
    BadFrom(t, wire, z, x);
    if n < x {
      BadFrom(t, wire, z, n + 1);
      FramesGrow(t, ks, o, wire, n + 1, x);
    } else {
      BadFrom(t, wire, z, z);
    }
  }

  /** The cut of a stream with a refused record does not matter exactly when no frame
      completes within one read before that record. */
  lemma CutMattersExactlyWhen(t: Stack, ks: Keys, o: Origin, wire: seq<byte>, z: nat)
    requires SoundStack(t) && Room(t, ks, o, wire) && z > 0 && FirstBad(t, wire, z)
    ensures (forall a, b :: IsCut(t, a, wire) && IsCut(t, b, wire) ==>
               ReceiveAll(t, ks, Handoff(o), a).frames == ReceiveAll(t, ks, Handoff(o), b).frames)
            <==> FramesBy(t, ks, o, wire[..Reach(t, z)]) == FramesBy(t, ks, o, wire[..z - 1])
  {
    CutOverBadRecord(t, ks, o, wire, Reach(t, z), z);
    CutOverBadRecord(t, ks, o, wire, z - 1, z);
    forall a | IsCut(t, a, wire)
      ensures Between(FramesBy(t, ks, o, wire[..Reach(t, z)]), ReceiveAll(t, ks, Handoff(o), a).frames,
                      FramesBy(t, ks, o, wire[..z - 1]))
    {
      RefusedRecordEndsTheRun(t, ks, o, a, z);
    }
  }
}
