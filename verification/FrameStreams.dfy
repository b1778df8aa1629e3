/** Streams of frames: frames are peeled off a growing buffer one after the other, and
    neither the frames nor a failure depend on how the stream was cut into reads. */
module FrameStreams {
  import opened Bytes

  datatype Peel = Complete(payload: seq<byte>, end: nat) | Incomplete | Failed

  /** A framing: how one frame is read and written, given the frame number expected. */
  datatype Codec = Codec(peel: (seq<byte>, u32) -> Peel, encode: (seq<byte>, u32) -> seq<byte>,
                         next: u32 -> u32, carries: seq<byte> -> bool)

  /** No frame is empty, later bytes change neither a complete frame nor a failure, and
      a frame is read back as it was written. */
  ghost predicate Sound(c: Codec) {
    && (forall s :: c.peel([], s).Incomplete?)
    && (forall buf, s :: c.peel(buf, s).Complete? ==> 0 < c.peel(buf, s).end <= |buf|)
    && (forall a, b, s :: !c.peel(a, s).Incomplete? ==> c.peel(a + b, s) == c.peel(a, s))
    && (forall data, s :: c.carries(data) ==> c.peel(c.encode(data, s), s) == Complete(data, |c.encode(data, s)|))
  }

  datatype Drained = Drained(frames: seq<seq<byte>>, rest: seq<byte>, seqno: u32, failed: bool)

  ghost function Drain(c: Codec, buf: seq<byte>, seqno: u32): Drained
    requires Sound(c)
    decreases |buf|
  {
    match c.peel(buf, seqno)
    case Complete(payload, end) =>
      var d := Drain(c, buf[end..], c.next(seqno));
      d.(frames := [payload] + d.frames)
    case Incomplete => Drained([], buf, seqno, false)
    case Failed => Drained([], buf, seqno, true)
  }

  /** Chunks arrive one after the other; reading stops at the first failure. */
  ghost function FeedAll(c: Codec, start: Drained, chunks: seq<seq<byte>>): Drained
    requires Sound(c)
    decreases |chunks|
  {
    if chunks == [] || start.failed then start
    else
      var d := Drain(c, start.rest + chunks[0], start.seqno);
      FeedAll(c, d.(frames := start.frames + d.frames), chunks[1..])
  }

  function Flatten(chunks: seq<seq<byte>>): seq<byte> {
    if chunks == [] then [] else chunks[0] + Flatten(chunks[1..])
  }

  lemma {:induction false} FlattenConcat(a: seq<seq<byte>>, b: seq<seq<byte>>)
    ensures Flatten(a + b) == Flatten(a) + Flatten(b)
  {
    if a == [] {
      assert a + b == b;
    } else {
      assert (a + b)[1..] == a[1..] + b;
      FlattenConcat(a[1..], b);
    }
  }

  lemma StableAt(c: Codec, a: seq<byte>, b: seq<byte>, seqno: u32)
    requires Sound(c)
    ensures !c.peel(a, seqno).Incomplete? ==> c.peel(a + b, seqno) == c.peel(a, seqno)
  {
  }

  lemma DrainUnfolds(c: Codec, buf: seq<byte>, seqno: u32, p: Peel)
    requires Sound(c)
    requires p == c.peel(buf, seqno)
    ensures p.Complete? ==> Drain(c, buf, seqno) == Prefixed(p.payload, Drain(c, buf[p.end..], c.next(seqno)))
    ensures !p.Complete? ==> Drain(c, buf, seqno) == Drained([], buf, seqno, p.Failed?)
  {
  }

  function Prefixed(payload: seq<byte>, d: Drained): Drained {
    d.(frames := [payload] + d.frames)
  }

  /** Draining `a` and later `b` behind it is draining `a + b`. */
  ghost predicate Resumes(c: Codec, b: seq<byte>, d: Drained, whole: Drained)
    requires Sound(c)
  {
    if d.failed then whole == d.(rest := d.rest + b)
    else
      var e := Drain(c, d.rest + b, d.seqno);
      whole == e.(frames := d.frames + e.frames)
  }

  lemma ResumesPrefixed(c: Codec, b: seq<byte>, payload: seq<byte>, d: Drained, whole: Drained)
    requires Sound(c)
    requires Resumes(c, b, d, whole)
    ensures Resumes(c, b, Prefixed(payload, d), Prefixed(payload, whole))
  {
    if !d.failed {
      var e := Drain(c, d.rest + b, d.seqno);
      assert [payload] + (d.frames + e.frames) == ([payload] + d.frames) + e.frames;
    }
  }

  lemma {:induction false} DrainInTwo(c: Codec, a: seq<byte>, b: seq<byte>, seqno: u32)
    requires Sound(c)
    ensures Resumes(c, b, Drain(c, a, seqno), Drain(c, a + b, seqno))
    decreases |a|
  {
    var p := c.peel(a, seqno);
    DrainUnfolds(c, a, seqno, p);
    if !p.Incomplete? {
      StableAt(c, a, b, seqno);
      DrainUnfolds(c, a + b, seqno, p);
    }
    if p.Complete? {
      assert (a + b)[p.end..] == a[p.end..] + b;
      DrainInTwo(c, a[p.end..], b, c.next(seqno));
      ResumesPrefixed(c, b, p.payload, Drain(c, a[p.end..], c.next(seqno)),
                      Drain(c, a[p.end..] + b, c.next(seqno)));
    }
  }

  lemma {:induction false} DrainEnds(c: Codec, buf: seq<byte>, seqno: u32)
    requires Sound(c)
    ensures var d := Drain(c, buf, seqno); !d.failed ==> Drain(c, d.rest, d.seqno) == Drained([], d.rest, d.seqno, false)
    decreases |buf|
  {
    var p := c.peel(buf, seqno);
    if p.Complete? {
      DrainEnds(c, buf[p.end..], c.next(seqno));
    }
  }

  /** The reader after `fed` agrees with one drain of everything that came. */
  ghost predicate Agrees(before: seq<seq<byte>>, fed: Drained, whole: Drained) {
    && fed.frames == before + whole.frames && fed.seqno == whole.seqno && fed.failed == whole.failed
    && (!whole.failed ==> fed.rest == whole.rest)
  }

  lemma AgreesLater(c: Codec, before: seq<seq<byte>>, d: Drained, more: seq<byte>, fed: Drained, whole: Drained)
    requires Sound(c)
    requires Resumes(c, more, d, whole)
    requires if d.failed then fed == d.(frames := before + d.frames)
             else Agrees(before + d.frames, fed, Drain(c, d.rest + more, d.seqno))
    ensures Agrees(before, fed, whole)
  {
  }

  /** How a stream is cut into reads does not matter: same frames, same failure, same rest. */
  lemma {:induction false} SplitDoesNotMatter(c: Codec, start: Drained, chunks: seq<seq<byte>>)
    requires Sound(c)
    requires !start.failed && Drain(c, start.rest, start.seqno) == Drained([], start.rest, start.seqno, false)
    ensures Agrees(start.frames, FeedAll(c, start, chunks), Drain(c, start.rest + Flatten(chunks), start.seqno))
    decreases |chunks|
  {
    if chunks == [] {
      assert start.rest + Flatten(chunks) == start.rest;
    } else {
      var got, more := start.rest + chunks[0], Flatten(chunks[1..]);
      var d := Drain(c, got, start.seqno);
      var next := d.(frames := start.frames + d.frames);
      DrainInTwo(c, got, more, start.seqno);
      DrainEnds(c, got, start.seqno);
      if !d.failed {
        SplitDoesNotMatter(c, next, chunks[1..]);
      }
      AgreesLater(c, start.frames, d, more, FeedAll(c, next, chunks[1..]), Drain(c, got + more, start.seqno));
      assert got + more == start.rest + Flatten(chunks);
    }
  }

  // Streams of encoded payloads

  function EncodeAll(c: Codec, payloads: seq<seq<byte>>, seqno: u32): seq<byte>
    decreases |payloads|
  {
    if payloads == [] then []
    else c.encode(payloads[0], seqno) + EncodeAll(c, payloads[1..], c.next(seqno))
  }

  lemma {:induction false} EncodeAllConcat(c: Codec, xs: seq<seq<byte>>, ys: seq<seq<byte>>, seqno: u32)
    ensures EncodeAll(c, xs + ys, seqno) == EncodeAll(c, xs, seqno) + EncodeAll(c, ys, SeqnoAfter(c, seqno, |xs|))
    decreases |xs|
  {
    if xs == [] {
      assert xs + ys == ys;
    } else {
      var next := c.next(seqno);
      assert (xs + ys)[1..] == xs[1..] + ys;
      EncodeAllConcat(c, xs[1..], ys, next);
      Reassociate(c.encode(xs[0], seqno), EncodeAll(c, xs[1..], next), EncodeAll(c, ys, SeqnoAfter(c, seqno, |xs|)));
    }
  }

  lemma {:induction false} SeqnoSame(c: Codec, seqno: u32, count: nat)
    requires c.next(seqno) == seqno
    ensures SeqnoAfter(c, seqno, count) == seqno
    decreases count
  {
    if count > 0 {
      SeqnoSame(c, seqno, count - 1);
    }
  }

  lemma {:induction false} SeqnoStays(c: Codec, buf: seq<byte>, seqno: u32)
    requires Sound(c) && c.next(seqno) == seqno
    ensures Drain(c, buf, seqno).seqno == seqno
    decreases |buf|
  {
    var p := c.peel(buf, seqno);
    if p.Complete? {
      SeqnoStays(c, buf[p.end..], seqno);
    }
  }

  lemma {:induction false} FlattenPrefix(xs: seq<seq<byte>>, k: nat)
    requires k <= |xs|
    ensures Flatten(xs[..k]) <= Flatten(xs)
  {
    assert xs == xs[..k] + xs[k..];
    FlattenConcat(xs[..k], xs[k..]);
  }

  /** A whole encoded stream drains to its payloads and nothing else. */
  lemma WholeStreamDrains(c: Codec, payloads: seq<seq<byte>>, seqno: u32)
    requires Sound(c) && AllFit(c, payloads)
    ensures var d := Drain(c, EncodeAll(c, payloads, seqno), seqno);
            !d.failed && d.frames == payloads && d.rest == []
  {
    StartIsDrained(c, SeqnoAfter(c, seqno, |payloads|));
    WholeStream(c, payloads, seqno, []);
    assert EncodeAll(c, payloads, seqno) + [] == EncodeAll(c, payloads, seqno);
    assert payloads + [] == payloads;
  }

  function SeqnoAfter(c: Codec, seqno: u32, count: nat): u32
    decreases count
  {
    if count == 0 then seqno else SeqnoAfter(c, c.next(seqno), count - 1)
  }

  ghost predicate AllFit(c: Codec, payloads: seq<seq<byte>>) {
    forall i :: 0 <= i < |payloads| ==> c.carries(payloads[i])
  }

  lemma ProperPrefixIsIncomplete(c: Codec, data: seq<byte>, seqno: u32, n: nat)
    requires Sound(c)
    requires c.carries(data) && n < |c.encode(data, seqno)|
    ensures c.peel(c.encode(data, seqno)[..n], seqno).Incomplete?
  {
    var e := c.encode(data, seqno);
    assert e[..n] + e[n..] == e;
    StableAt(c, e[..n], e[n..], seqno);
  }

  lemma FirstFrame(c: Codec, data: seq<byte>, more: seq<byte>, seqno: u32)
    requires Sound(c)
    requires c.carries(data)
    ensures Drain(c, c.encode(data, seqno) + more, seqno) == Prefixed(data, Drain(c, more, c.next(seqno)))
  {
    var e := c.encode(data, seqno);
    StableAt(c, e, more, seqno);
    DrainUnfolds(c, e + more, seqno, Complete(data, |e|));
    assert (e + more)[|e|..] == more;
  }

  /** `d` is what the first `k` payloads and a proper part of the next leave. */
  ghost predicate Received(c: Codec, payloads: seq<seq<byte>>, seqno: u32, d: Drained, k: nat)
    requires Sound(c)
  {
    && k <= |payloads| && !d.failed && d.frames == payloads[..k] && d.seqno == SeqnoAfter(c, seqno, k)
    && (k == |payloads| ==> d.rest == [])
    && (k < |payloads| ==> d.rest < c.encode(payloads[k], d.seqno))
  }

  lemma ReceivedOneMore(c: Codec, payloads: seq<seq<byte>>, seqno: u32, d: Drained, j: nat)
    requires Sound(c)
    requires payloads != [] && Received(c, payloads[1..], c.next(seqno), d, j)
    ensures Received(c, payloads, seqno, Prefixed(payloads[0], d), j + 1)
  {
    assert payloads[..j + 1] == [payloads[0]] + payloads[1..][..j];
  }

  lemma PartOfFirst(c: Codec, payloads: seq<seq<byte>>, seqno: u32, got: seq<byte>)
    requires Sound(c)
    requires payloads != [] && c.carries(payloads[0]) && got < c.encode(payloads[0], seqno)
    ensures Received(c, payloads, seqno, Drain(c, got, seqno), 0)
  {
    assert got == c.encode(payloads[0], seqno)[..|got|];
    ProperPrefixIsIncomplete(c, payloads[0], seqno, |got|);
    DrainUnfolds(c, got, seqno, Incomplete);
  }

  lemma FirstAndMore(c: Codec, payloads: seq<seq<byte>>, seqno: u32, tail: seq<byte>, j: nat)
    requires Sound(c)
    requires payloads != [] && c.carries(payloads[0])
    requires Received(c, payloads[1..], c.next(seqno), Drain(c, tail, c.next(seqno)), j)
    ensures Received(c, payloads, seqno, Drain(c, c.encode(payloads[0], seqno) + tail, seqno), j + 1)
  {
    FirstFrame(c, payloads[0], tail, seqno);
    ReceivedOneMore(c, payloads, seqno, Drain(c, tail, c.next(seqno)), j);
  }

  lemma PrefixSplits(e: seq<byte>, more: seq<byte>, got: seq<byte>)
    requires got <= e + more
    ensures |got| < |e| ==> got < e
    ensures |got| >= |e| ==> got == e + got[|e|..] && got[|e|..] <= more
  {
    assert got == (e + more)[..|got|];
    if |got| >= |e| {
      assert got[|e|..] == more[..|got| - |e|];
    }
  }

  lemma RestBehind(c: Codec, payloads: seq<seq<byte>>, seqno: u32, got: seq<byte>, j: nat)
    requires Sound(c) && payloads != [] && j < |payloads| && c.carries(payloads[0])
    requires var e := c.encode(payloads[0], seqno);
             && |e| <= |got| && got == e + got[|e|..]
             && got[|e|..] == EncodeAll(c, payloads[1..][..j], c.next(seqno)) + Drain(c, got[|e|..], c.next(seqno)).rest
    ensures got == EncodeAll(c, payloads[..j + 1], seqno) + Drain(c, got, seqno).rest
  {
    var e := c.encode(payloads[0], seqno);
    FirstFrame(c, payloads[0], got[|e|..], seqno);
    assert payloads[..j + 1][1..] == payloads[1..][..j];
    Reassociate(e, EncodeAll(c, payloads[1..][..j], c.next(seqno)), Drain(c, got[|e|..], c.next(seqno)).rest);
  }

  /** Any bytes received so far of a stream of frames: the frames that are complete come
      out as they were sent, and what is left is a proper part of the next one. */
  lemma {:induction false} PrefixOfStream(c: Codec, payloads: seq<seq<byte>>, seqno: u32, got: seq<byte>)
    returns (k: nat)
    requires Sound(c)
    requires AllFit(c, payloads) && got <= EncodeAll(c, payloads, seqno)
    ensures Received(c, payloads, seqno, Drain(c, got, seqno), k)
    ensures got == EncodeAll(c, payloads[..k], seqno) + Drain(c, got, seqno).rest
    decreases |payloads|
  {
    if payloads == [] {
      k := 0;
      DrainUnfolds(c, [], seqno, Incomplete);
    } else {
      var e, more := c.encode(payloads[0], seqno), EncodeAll(c, payloads[1..], c.next(seqno));
      PrefixSplits(e, more, got);
      if |got| < |e| {
        k := 0;
        PartOfFirst(c, payloads, seqno, got);
        assert payloads[..0] == [];
      } else {
        var j := PrefixOfStream(c, payloads[1..], c.next(seqno), got[|e|..]);
        k := j + 1;
        FirstAndMore(c, payloads, seqno, got[|e|..], j);
        RestBehind(c, payloads, seqno, got, j);
      }
    }
  }

  function Behind(payloads: seq<seq<byte>>, d: Drained): Drained {
    d.(frames := payloads + d.frames)
  }

  lemma BehindOneMore(payloads: seq<seq<byte>>, d: Drained)
    requires payloads != []
    ensures Behind(payloads, d) == Prefixed(payloads[0], Behind(payloads[1..], d))
  {
    assert payloads + d.frames == [payloads[0]] + (payloads[1..] + d.frames);
  }

  lemma FirstBehind(c: Codec, payloads: seq<seq<byte>>, more: seq<byte>, d: Drained, seqno: u32)
    requires Sound(c)
    requires payloads != [] && c.carries(payloads[0])
    requires Drain(c, more, c.next(seqno)) == Behind(payloads[1..], d)
    ensures Drain(c, c.encode(payloads[0], seqno) + more, seqno) == Behind(payloads, d)
  {
    FirstFrame(c, payloads[0], more, seqno);
    BehindOneMore(payloads, d);
  }

  lemma {:induction false} WholeStream(c: Codec, payloads: seq<seq<byte>>, seqno: u32, tail: seq<byte>)
    requires Sound(c)
    requires AllFit(c, payloads)
    ensures Drain(c, EncodeAll(c, payloads, seqno) + tail, seqno)
            == Behind(payloads, Drain(c, tail, SeqnoAfter(c, seqno, |payloads|)))
    decreases |payloads|
  {
    if payloads == [] {
      assert EncodeAll(c, payloads, seqno) + tail == tail;
      assert Behind([], Drain(c, tail, seqno)) == Drain(c, tail, seqno);
    } else {
      var more := EncodeAll(c, payloads[1..], c.next(seqno));
      assert |payloads[1..]| == |payloads| - 1;
      WholeStream(c, payloads[1..], c.next(seqno), tail);
      FirstBehind(c, payloads, more + tail, Drain(c, tail, SeqnoAfter(c, seqno, |payloads|)), seqno);
      Reassociate(c.encode(payloads[0], seqno), more, tail);
    }
  }

  lemma Reassociate<T>(x: seq<T>, y: seq<T>, z: seq<T>)
    ensures (x + y) + z == x + (y + z)
  {
  }

  function Start(seqno: u32): Drained {
    Drained([], [], seqno, false)
  }

  lemma StartIsDrained(c: Codec, seqno: u32)
    requires Sound(c)
    ensures Drain(c, Start(seqno).rest, seqno) == Start(seqno)
  {
    DrainUnfolds(c, [], seqno, Incomplete);
  }

  /** The framing is invertible and independent of how the stream is cut: whatever has
      arrived of an encoded list of payloads, in whatever chunks, gives the payloads
      that are complete and leaves a proper part of the next frame. */
  lemma AnySplitYieldsThePayloads(c: Codec, payloads: seq<seq<byte>>, seqno: u32, chunks: seq<seq<byte>>)
    returns (k: nat)
    requires Sound(c)
    requires AllFit(c, payloads) && Flatten(chunks) <= EncodeAll(c, payloads, seqno)
    ensures k <= |payloads|
    ensures var fed := FeedAll(c, Start(seqno), chunks);
            && !fed.failed && fed.frames == payloads[..k]
            && (k < |payloads| ==> fed.rest < c.encode(payloads[k], SeqnoAfter(c, seqno, k)))
            && (Flatten(chunks) == EncodeAll(c, payloads, seqno) ==> fed.frames == payloads && fed.rest == [])
  {
    StartIsDrained(c, seqno);
    SplitDoesNotMatter(c, Start(seqno), chunks);
    assert Start(seqno).rest + Flatten(chunks) == Flatten(chunks);
    k := PrefixOfStream(c, payloads, seqno, Flatten(chunks));
    if Flatten(chunks) == EncodeAll(c, payloads, seqno) {
      WholeStream(c, payloads, seqno, []);
      assert EncodeAll(c, payloads, seqno) + [] == EncodeAll(c, payloads, seqno);
      DrainUnfolds(c, [], SeqnoAfter(c, seqno, |payloads|), Incomplete);
      assert payloads + [] == payloads;
    }
  }
}
