/** Receiving with processing: each frame is handled as soon as it is peeled, one that is
    refused ends the run, and a reading step returns its updates only if it succeeds. */
module Inboxes {
  import opened Bytes
  import opened FrameStreams
  import opened Keystream
  import opened Pipeline

  /** What handling one item does to the state. */
  datatype Handled<S> = Handled(state: S, updates: seq<seq<byte>>, refused: bool)

  /** How one frame is handled. */
  type Handling<!S> = (S, seq<byte>) -> Handled<S>

  /** Items handled in order, up to the first that is refused. */
  datatype Folded<S> = Folded(taken: nat, state: S, updates: seq<seq<byte>>, refused: bool)

  function Fold<S, F>(h: (S, F) -> Handled<S>, s: S, items: seq<F>): (f: Folded<S>)
    ensures f.taken <= |items| && (f.refused <==> f.taken < |items|)
  {
    if items == [] then Folded(0, s, [], false)
    else
      var r := h(s, items[0]);
      if r.refused then Folded(0, r.state, [], true)
      else
        var f := Fold(h, r.state, items[1..]);
        Folded(1 + f.taken, f.state, r.updates + f.updates, f.refused)
  }

  /** `b` behind `a`, handled from where `a` ended. */
  function Joined<S>(a: Folded<S>, b: Folded<S>): Folded<S> {
    if a.refused then a else Folded(a.taken + b.taken, b.state, a.updates + b.updates, b.refused)
  }

  lemma {:induction false} FoldConcat<S, F>(h: (S, F) -> Handled<S>, s: S, a: seq<F>, b: seq<F>)
    ensures Fold(h, s, a + b) == Joined(Fold(h, s, a), Fold(h, Fold(h, s, a).state, b))
    decreases |a|
  {
    if a == [] {
      assert a + b == b;
    } else {
      assert (a + b)[1..] == a[1..] + b;
      var r := h(s, a[0]);
      if !r.refused {
        FoldConcat(h, r.state, a[1..], b);
        var f, g := Fold(h, r.state, a[1..]), Fold(h, Fold(h, s, a).state, b);
        assert r.updates + (f.updates + g.updates) == (r.updates + f.updates) + g.updates;
      }
    }
  }

  // One drain

  datatype Served<S> = Served(frames: seq<seq<byte>>, rest: seq<byte>, seqno: u32, status: Status,
                              state: S, updates: seq<seq<byte>>)

  /** Peels and handles frames until one is incomplete, bad or refused. */
  ghost function Serve<S>(c: Codec, h: Handling<S>, buf: seq<byte>, seqno: u32, s: S): Served<S>
    requires Sound(c)
    decreases |buf|
  {
    match c.peel(buf, seqno)
    case Incomplete => Served([], buf, seqno, Running, s, [])
    case Failed => Served([], buf, seqno, BadFrame, s, [])
    case Complete(payload, end) =>
      var r := h(s, payload);
      if r.refused then Served([], buf[end..], c.next(seqno), Refused, r.state, [])
      else Before(payload, r.updates, Serve(c, h, buf[end..], c.next(seqno), r.state))
  }

  function Before<S>(payload: seq<byte>, updates: seq<seq<byte>>, v: Served<S>): Served<S> {
    v.(frames := [payload] + v.frames, updates := updates + v.updates)
  }

  /** What serving gives when `frames` were handled before, with these updates. */
  function Ahead<S>(frames: seq<seq<byte>>, updates: seq<seq<byte>>, v: Served<S>): Served<S> {
    v.(frames := frames + v.frames, updates := updates + v.updates)
  }

  // One frame at a time

  /** What handling the next frame does; without one, serving stops. */
  ghost function Next<S>(h: Handling<S>, s: S, p: Peel): Handled<S> {
    if p.Complete? then h(s, p.payload) else Handled(s, [], true)
  }

  ghost function LeftAt(p: Peel, buf: seq<byte>): seq<byte>
    requires p.Complete? ==> p.end <= |buf|
  {
    if p.Complete? then buf[p.end..] else buf
  }

  ghost function SeqnoAt(c: Codec, p: Peel, seqno: u32): u32 {
    if p.Complete? then c.next(seqno) else seqno
  }

  /** Why serving stops at this frame. */
  ghost function WhyStops(p: Peel): Status {
    match p
    case Incomplete => Running
    case Failed => BadFrame
    case Complete(_, _) => Refused
  }

  /** One more frame behind those already served. */
  lemma ServedOn<S>(c: Codec, h: Handling<S>, frames: seq<seq<byte>>, updates: seq<seq<byte>>,
                    buf: seq<byte>, seqno: u32, s: S, p: Peel, r: Handled<S>)
    requires Sound(c) && p == c.peel(buf, seqno) && r == Next(h, s, p)
    ensures var v, left := Ahead(frames, updates, Serve(c, h, buf, seqno, s)), LeftAt(p, buf);
            && (r.refused ==> v == Served(frames, left, SeqnoAt(c, p, seqno), WhyStops(p), r.state, updates))
            && (!r.refused ==>
                  v == Ahead(frames + [p.payload], updates + r.updates, Serve(c, h, left, SeqnoAt(c, p, seqno), r.state)))
  {
    if r.refused {
      assert frames + [] == frames && updates + [] == updates;
    } else {
      var v := Serve(c, h, buf[p.end..], c.next(seqno), r.state);
      assert (frames + [p.payload]) + v.frames == frames + ([p.payload] + v.frames);
      assert (updates + r.updates) + v.updates == updates + (r.updates + v.updates);
    }
  }

  /** Serving handles the frames that draining peels, in order, up to the first refused. */
  ghost predicate ServesDrained<S>(d: Drained, f: Folded<S>, v: Served<S>) {
    && f.taken <= |d.frames| && v.frames == d.frames[..f.taken] && v.state == f.state && v.updates == f.updates
    && (f.refused ==> v.status == Refused)
    && (!f.refused ==> v.rest == d.rest && v.seqno == d.seqno && v.status == if d.failed then BadFrame else Running)
  }

  lemma {:induction false} ServeIsDrain<S>(c: Codec, h: Handling<S>, buf: seq<byte>, seqno: u32, s: S)
    requires Sound(c)
    ensures var d := Drain(c, buf, seqno); ServesDrained(d, Fold(h, s, d.frames), Serve(c, h, buf, seqno, s))
    decreases |buf|
  {
    var p := c.peel(buf, seqno);
    DrainUnfolds(c, buf, seqno, p);
    if p.Complete? {
      var d, r := Drain(c, buf[p.end..], c.next(seqno)), h(s, p.payload);
      assert ([p.payload] + d.frames)[1..] == d.frames;
      if !r.refused {
        ServeIsDrain(c, h, buf[p.end..], c.next(seqno), r.state);
        var f := Fold(h, r.state, d.frames);
        assert ([p.payload] + d.frames)[..1 + f.taken] == [p.payload] + d.frames[..f.taken];
      }
    }
  }

  // Runs

  /** The read half, what its frames did to the state, and the updates returned so far. */
  datatype Inbox<S> = Inbox(pipe: Pipe, state: S, updates: seq<seq<byte>>)

  /** Serves what stands in the buffer: updates are returned only if nothing fails. */
  ghost function Deliver<S>(t: Stack, h: Handling<S>, b: Inbox<S>): Inbox<S>
    requires SoundStack(t)
  {
    var q := b.pipe;
    var v := Serve(t.inner, h, q.buf, q.seqno, b.state);
    Inbox(q.(buf := v.rest, seqno := v.seqno, frames := q.frames + v.frames, status := v.status), v.state,
          if v.status.Running? then b.updates + v.updates else b.updates)
  }

  lemma DeliverIs<S>(t: Stack, h: Handling<S>, b: Inbox<S>, v: Served<S>)
    requires SoundStack(t) && v == Ahead(b.pipe.frames, [], Serve(t.inner, h, b.pipe.buf, b.pipe.seqno, b.state))
    ensures Deliver(t, h, b)
            == Inbox(b.pipe.(buf := v.rest, seqno := v.seqno, frames := v.frames, status := v.status), v.state,
                     if v.status.Running? then b.updates + v.updates else b.updates)
  {
    assert [] + v.updates == v.updates;
  }

  /** One reading step: the updates of a step that fails are dropped with it. */
  ghost function Step<S>(t: Stack, ks: Keys, h: Handling<S>, b: Inbox<S>, chunk: seq<byte>): Inbox<S>
    requires SoundStack(t)
  {
    var q := Ingest(t, ks, b.pipe, chunk);
    if q.status.Running? then Deliver(t, h, b.(pipe := q)) else b.(pipe := q)
  }

  ghost function Attend<S>(t: Stack, ks: Keys, h: Handling<S>, b: Inbox<S>, chunks: seq<seq<byte>>): Inbox<S>
    requires SoundStack(t)
    decreases |chunks|
  {
    if chunks == [] || !b.pipe.status.Running? then b
    else Attend(t, ks, h, Step(t, ks, h, b, chunks[0]), chunks[1..])
  }

  function Opening<S>(o: Origin, s: S): Inbox<S> {
    Inbox(Handoff(o), s, [])
  }

  /** The frames complete in the bytes so far, handled. */
  ghost function HandledBy<S>(t: Stack, ks: Keys, o: Origin, h: Handling<S>, s: S, wire: seq<byte>): Folded<S>
    requires SoundStack(t)
  {
    Fold(h, s, FramesBy(t, ks, o, wire))
  }

  /** `b` is the inbox after `wire` arrived and nothing went wrong. */
  ghost predicate Attending<S>(t: Stack, ks: Keys, o: Origin, h: Handling<S>, s: S, wire: seq<byte>, b: Inbox<S>)
    requires SoundStack(t)
  {
    var f := HandledBy(t, ks, o, h, s, wire);
    && After(t, ks, o, wire, b.pipe) && b.pipe.status.Running?
    && !f.refused && b.state == f.state && b.updates == f.updates
  }

  lemma OpeningAttends<S>(t: Stack, ks: Keys, o: Origin, h: Handling<S>, s: S)
    requires SoundStack(t)
    ensures Attending(t, ks, o, h, s, [], Opening(o, s))
  {
  }

  /** How the step that brings `chunk` behind `wire` ends. */
  ghost function Ends<S>(t: Stack, ks: Keys, o: Origin, h: Handling<S>, s: S,
                         wire: seq<byte>, chunk: seq<byte>): Status
    requires SoundStack(t)
  {
    var v := Verdict(t, ks, o, wire, chunk);
    if v.BadRecord? || v.Overflow? then v
    else if HandledBy(t, ks, o, h, s, wire + chunk).refused then Refused
    else v
  }

  /** What a step leaves that was not cut short by a bad record or an overflow. */
  ghost predicate Reached<S>(f: Folded<S>, frames: seq<seq<byte>>, a: Inbox<S>) {
    f.taken <= |frames| && a.pipe.frames == frames[..f.taken] && a.state == f.state
  }

  lemma FramesSoFar(t: Stack, ks: Keys, o: Origin, wire: seq<byte>, p: Pipe)
    requires SoundStack(t) && After(t, ks, o, wire, p)
    ensures p.frames == FramesBy(t, ks, o, wire)
  {
  }

  /** Serving the buffer as draining it and handling its frames. */
  lemma DeliverIsDrain<S>(t: Stack, h: Handling<S>, b: Inbox<S>)
    requires SoundStack(t) && b.pipe.status.Running?
    ensures var a, q := Deliver(t, h, b), DrainFrames(t, b.pipe);
            && b.pipe.frames <= q.frames
            && var f := Fold(h, b.state, q.frames[|b.pipe.frames|..]);
            && a.state == f.state && a.pipe.frames == q.frames[..|b.pipe.frames| + f.taken]
            && a.updates == (if a.pipe.status.Running? then b.updates + f.updates else b.updates)
            && (if f.refused then a.pipe.status.Refused? else a.pipe == q)
  {
    var d := Drain(t.inner, b.pipe.buf, b.pipe.seqno);
    ServeIsDrain(t.inner, h, b.pipe.buf, b.pipe.seqno, b.state);
    FramesBehind(b.pipe.frames, d.frames, Fold(h, b.state, d.frames).taken);
  }

  lemma FramesBehind(x: seq<seq<byte>>, y: seq<seq<byte>>, n: nat)
    requires n <= |y|
    ensures (x + y)[|x|..] == y && (x + y)[..|x| + n] == x + y[..n]
  {
  }

  /** The step as a turn of the pipeline and its frames handled. */
  lemma StepIsTurn<S>(t: Stack, ks: Keys, h: Handling<S>, b: Inbox<S>, chunk: seq<byte>)
    requires SoundStack(t) && b.pipe.status.Running?
    ensures var a, q := Step(t, ks, h, b, chunk), Turn(t, ks, b.pipe, chunk);
            && (q.status.BadRecord? || q.status.Overflow? ==> a == b.(pipe := q))
            && (!q.status.BadRecord? && !q.status.Overflow? ==>
                  && b.pipe.frames <= q.frames
                  && var f := Fold(h, b.state, q.frames[|b.pipe.frames|..]);
                  && a.state == f.state && a.pipe.frames == q.frames[..|b.pipe.frames| + f.taken]
                  && a.updates == (if a.pipe.status.Running? then b.updates + f.updates else b.updates)
                  && (if f.refused then a.pipe.status.Refused? else a.pipe == q))
  {
    var i := Ingest(t, ks, b.pipe, chunk);
    if i.status.Running? {
      DeliverIsDrain(t, h, b.(pipe := i));
    }
  }

  lemma OneStep<S>(t: Stack, ks: Keys, o: Origin, h: Handling<S>, s: S,
                   wire: seq<byte>, chunk: seq<byte>, b: Inbox<S>)
    requires SoundStack(t) && chunk != [] && Attending(t, ks, o, h, s, wire, b)
    ensures var a, v := Step(t, ks, h, b, chunk), Ends(t, ks, o, h, s, wire, chunk);
            && a.pipe.status == v
            && (v.Running? ==> Attending(t, ks, o, h, s, wire + chunk, a))
            && (!v.Running? ==> a.updates == b.updates)
            && (v.BadRecord? || v.Overflow? ==> a.state == b.state && a.pipe.frames == b.pipe.frames)
            && (!v.BadRecord? && !v.Overflow? ==>
                  Reached(HandledBy(t, ks, o, h, s, wire + chunk), FramesBy(t, ks, o, wire + chunk), a))
  {
    OneTurn(t, ks, o, wire, chunk, b.pipe);
    var q := Turn(t, ks, b.pipe, chunk);
    if q.status.BadRecord? || q.status.Overflow? {
      StepIsTurn(t, ks, h, b, chunk);
    } else {
      StepReaches(t, ks, o, h, s, wire, chunk, b);
    }
  }

  /** A step that is not cut short by a bad record or an overflow. */
  lemma StepReaches<S>(t: Stack, ks: Keys, o: Origin, h: Handling<S>, s: S,
                       wire: seq<byte>, chunk: seq<byte>, b: Inbox<S>)
    requires SoundStack(t) && Attending(t, ks, o, h, s, wire, b)
    requires var q := Turn(t, ks, b.pipe, chunk);
             After(t, ks, o, wire + chunk, q) && !q.status.BadRecord? && !q.status.Overflow?
    ensures var a, q, f := Step(t, ks, h, b, chunk), Turn(t, ks, b.pipe, chunk), HandledBy(t, ks, o, h, s, wire + chunk);
            && a.pipe.status == (if f.refused then Refused else q.status)
            && Reached(f, FramesBy(t, ks, o, wire + chunk), a)
            && (a.pipe.status.Running? ==> a.pipe == q && a.updates == f.updates)
            && (!a.pipe.status.Running? ==> a.updates == b.updates)
  {
    StepIsTurn(t, ks, h, b, chunk);
    FramesSoFar(t, ks, o, wire, b.pipe);
    FramesSoFar(t, ks, o, wire + chunk, Turn(t, ks, b.pipe, chunk));
    FoldOn(h, s, b.pipe.frames, Turn(t, ks, b.pipe, chunk).frames);
  }

  lemma FoldOn<S, F>(h: (S, F) -> Handled<S>, s: S, a: seq<F>, b: seq<F>)
    requires a <= b
    ensures Fold(h, s, b) == Joined(Fold(h, s, a), Fold(h, Fold(h, s, a).state, b[|a|..]))
    ensures b[|a|..] == [] ==> a == b
  {
    assert b == a + b[|a|..];
    FoldConcat(h, s, a, b[|a|..]);
  }

  lemma {:induction false} AttendOneMore<S>(t: Stack, ks: Keys, h: Handling<S>, b: Inbox<S>,
                                            chunks: seq<seq<byte>>, chunk: seq<byte>)
    requires SoundStack(t)
    ensures var a := Attend(t, ks, h, b, chunks);
            Attend(t, ks, h, b, chunks + [chunk]) == if a.pipe.status.Running? then Step(t, ks, h, a, chunk) else a
    decreases |chunks|
  {
    if chunks == [] {
      assert [] + [chunk] == [chunk] && [chunk][1..] == [];
    } else if b.pipe.status.Running? {
      assert (chunks + [chunk])[1..] == chunks[1..] + [chunk];
      AttendOneMore(t, ks, h, Step(t, ks, h, b, chunks[0]), chunks[1..], chunk);
    }
  }

  /** `b` is what the reads give; the first `n` of them went through, and left `at`. */
  ghost predicate StopsAt<S>(t: Stack, ks: Keys, o: Origin, h: Handling<S>, s: S,
                             chunks: seq<seq<byte>>, n: nat, at: Inbox<S>, b: Inbox<S>)
    requires SoundStack(t)
  {
    && n <= |chunks| && Attending(t, ks, o, h, s, Upto(chunks, n), at)
    && (n == |chunks| ==> b == at)
    && (n < |chunks| ==> b == Step(t, ks, h, at, chunks[n]) && !b.pipe.status.Running?)
  }

  /** A run is determined by where its reads end: each read that goes through leaves what
      the bytes so far determine, and the first that does not ends the run. */
  lemma {:induction false} AttendStops<S>(t: Stack, ks: Keys, o: Origin, h: Handling<S>, s: S,
                                          chunks: seq<seq<byte>>)
    returns (n: nat, at: Inbox<S>)
    requires SoundStack(t) && AreReads(t, chunks)
    ensures StopsAt(t, ks, o, h, s, chunks, n, at, Attend(t, ks, h, Opening(o, s), chunks))
    decreases |chunks|
  {
    if chunks == [] {
      n, at := 0, Opening(o, s);
      OpeningAttends(t, ks, o, h, s);
    } else {
      var init, last := chunks[..|chunks| - 1], chunks[|chunks| - 1];
      assert chunks == init + [last];
      n, at := AttendStops(t, ks, o, h, s, init);
      n, at := StopsOneMore(t, ks, o, h, s, init, last, n, at);
    }
  }

  lemma StopsOneMore<S>(t: Stack, ks: Keys, o: Origin, h: Handling<S>, s: S, init: seq<seq<byte>>, last: seq<byte>,
                        k: nat, b: Inbox<S>)
    returns (n: nat, at: Inbox<S>)
    requires SoundStack(t) && last != [] && StopsAt(t, ks, o, h, s, init, k, b, Attend(t, ks, h, Opening(o, s), init))
    ensures StopsAt(t, ks, o, h, s, init + [last], n, at, Attend(t, ks, h, Opening(o, s), init + [last]))
  {
    AttendOneMore(t, ks, h, Opening(o, s), init, last);
    SameUpto(init, last, k);
    n, at := k, b;
    if k == |init| {
      OneStep(t, ks, o, h, s, Upto(init, k), last, b);
      UptoMore(init + [last], k);
      var a := Step(t, ks, h, b, last);
      if a.pipe.status.Running? {
        n, at := |init| + 1, a;
      }
    }
  }

  lemma SameUpto(init: seq<seq<byte>>, last: seq<byte>, n: nat)
    requires n <= |init|
    ensures Upto(init + [last], n) == Upto(init, n)
  {
    assert (init + [last])[..n] == init[..n];
  }

  // Runs with and without processing

  lemma {:induction false} ReceiveOnlyAdds(t: Stack, ks: Keys, p: Pipe, chunks: seq<seq<byte>>)
    requires SoundStack(t)
    ensures p.frames <= ReceiveAll(t, ks, p, chunks).frames
    decreases |chunks|
  {
    if chunks != [] && p.status.Running? {
      ReceiveOnlyAdds(t, ks, Turn(t, ks, p, chunks[0]), chunks[1..]);
    }
  }

  /** `a` is what `r` gives when its frames behind the first `n` are handled from `b` on. */
  ghost predicate Processed<S>(h: Handling<S>, b: Inbox<S>, r: Pipe, a: Inbox<S>) {
    && b.pipe.frames <= r.frames
    && var f := Fold(h, b.state, r.frames[|b.pipe.frames|..]);
    && a.state == f.state && a.pipe.frames == r.frames[..|b.pipe.frames| + f.taken]
    && (if f.refused then a.pipe.status.Refused? else a.pipe == r)
    && (a.pipe.status.Running? ==> a.updates == b.updates + f.updates)
  }

  lemma FramesSplit(n: nat, x: seq<seq<byte>>, y: seq<seq<byte>>)
    requires n <= |x| && x <= y
    ensures y[n..] == x[n..] + y[|x|..] && forall k :: n <= k <= |x| ==> x[..k] == y[..k]
  {
  }

  /** A frame was refused: later reads change nothing. */
  lemma ProcessedStays<S>(h: Handling<S>, b: Inbox<S>, q: Pipe, r: Pipe, a: Inbox<S>)
    requires b.pipe.frames <= q.frames <= r.frames && Processed(h, b, q, a)
    requires Fold(h, b.state, q.frames[|b.pipe.frames|..]).refused
    ensures Processed(h, b, r, a)
  {
    FramesSplit(|b.pipe.frames|, q.frames, r.frames);
    FoldConcat(h, b.state, q.frames[|b.pipe.frames|..], r.frames[|q.frames|..]);
  }

  /** No frame was refused: the run goes on from the state they left. */
  lemma ProcessedGoesOn<S>(h: Handling<S>, b: Inbox<S>, m: Inbox<S>, r: Pipe, a: Inbox<S>)
    requires b.pipe.frames <= m.pipe.frames <= r.frames && Processed(h, m, r, a)
    requires var f := Fold(h, b.state, m.pipe.frames[|b.pipe.frames|..]);
             !f.refused && m.state == f.state && m.updates == b.updates + f.updates
    ensures Processed(h, b, r, a)
  {
    FramesSplit(|b.pipe.frames|, m.pipe.frames, r.frames);
    var x, y := m.pipe.frames[|b.pipe.frames|..], r.frames[|m.pipe.frames|..];
    FoldConcat(h, b.state, x, y);
    Reassociate(b.updates, Fold(h, b.state, x).updates, Fold(h, m.state, y).updates);
  }

  lemma ProcessedOn<S>(h: Handling<S>, b: Inbox<S>, q: Pipe, m: Inbox<S>, r: Pipe, a: Inbox<S>)
    requires b.pipe.frames <= q.frames <= r.frames && Processed(h, b, q, m)
    requires if m.pipe.status.Running? then Processed(h, m, r, a) else a == m && (m.pipe == q ==> r == q)
    ensures Processed(h, b, r, a)
  {
    if m.pipe.status.Running? {
      ProcessedGoesOn(h, b, m, r, a);
    } else if Fold(h, b.state, q.frames[|b.pipe.frames|..]).refused {
      ProcessedStays(h, b, q, r, a);
    }
  }

  /** A run with processing is a run without, its frames handled in order up to the first
      that is refused. */
  lemma {:induction false} AttendIsReceive<S>(t: Stack, ks: Keys, h: Handling<S>, b: Inbox<S>, chunks: seq<seq<byte>>)
    requires SoundStack(t) && b.pipe.status.Running?
    ensures Processed(h, b, ReceiveAll(t, ks, b.pipe, chunks), Attend(t, ks, h, b, chunks))
    decreases |chunks|
  {
    if chunks == [] {
      assert b.pipe.frames[|b.pipe.frames|..] == [] && b.updates + [] == b.updates;
    } else {
      var m, q := Step(t, ks, h, b, chunks[0]), Turn(t, ks, b.pipe, chunks[0]);
      StepProcesses(t, ks, h, b, chunks[0]);
      ReceiveOnlyAdds(t, ks, q, chunks[1..]);
      if m.pipe.status.Running? {
        AttendIsReceive(t, ks, h, m, chunks[1..]);
      }
      ProcessedOn(h, b, q, m, ReceiveAll(t, ks, q, chunks[1..]), Attend(t, ks, h, m, chunks[1..]));
    }
  }

  /** A whole run from the start, as long as its pipeline goes on. */
  lemma OpeningProcessed<S>(h: Handling<S>, o: Origin, s: S, r: Pipe, a: Inbox<S>)
    requires Processed(h, Opening(o, s), r, a) && r.status.Running?
    ensures var f := Fold(h, s, r.frames);
            && a.state == f.state && a.pipe.frames == r.frames[..f.taken]
            && a.pipe.status == (if f.refused then Refused else Running)
            && (!f.refused ==> a.updates == f.updates && a.pipe == r)
  {
    assert r.frames[0..] == r.frames;
    var f := Fold(h, s, r.frames);
    assert [] + f.updates == f.updates;
  }

  lemma StepProcesses<S>(t: Stack, ks: Keys, h: Handling<S>, b: Inbox<S>, chunk: seq<byte>)
    requires SoundStack(t) && b.pipe.status.Running?
    ensures Processed(h, b, Turn(t, ks, b.pipe, chunk), Step(t, ks, h, b, chunk))
  {
    StepIsTurn(t, ks, h, b, chunk);
  }
}
