/** From the client to the server over whole runs: whatever is enqueued, received, filled
    and written, in any order, the bytes written are read at the other end as the messages
    of all fills, in order. */
module ClientRuns {
  import opened Bytes
  import opened FrameStreams
  import opened Framing
  import opened Keystream
  import Pipeline
  import SentStreams
  import opened Transports
  import opened SenderBuffers
  import opened Seal
  import opened Sessions
  import opened Containers
  import opened Requests
  import opened SenderSteps
  import SenderRuns
  import opened SenderIds
  import opened ClientFrames

  /** One fill that packed something: where the sender stood, and how it was sealed. */
  datatype Packing = Packing(l: Outlet, st: State, t: Clocks)

  ghost predicate Packs(st: State) {
    st.head == |st.buf| && Collect(st) != []
  }

  ghost predicate IsPacking(p: Packing) {
    && AreClocks(p.t) && Packs(p.st) && Seal.Sound(p.l.c) && Holdable(p.l, p.st.session, Packed(p.st, p.t))
  }

  ghost function MessageIn(p: Packing): Message
    requires IsPacking(p)
  {
    MessageOf(p.st.session, Packed(p.st, p.t))
  }

  ghost function BodyFor(p: Packing): seq<byte>
    requires IsPacking(p)
  {
    Payload(p.l, MessageIn(p))
  }

  ghost predicate SameOutlet(l: Outlet, m: Outlet) {
    l.c == m.c && l.auth == m.auth && l.kind == m.kind && l.ks == m.ks
  }

  ghost predicate Packings(ps: seq<Packing>, start: Outlet) {
    ps == []
    || (Packings(ps[..|ps| - 1], start) && IsPacking(ps[|ps| - 1]) && SameOutlet(ps[|ps| - 1].l, start))
  }

  ghost function BodiesFor(ps: seq<Packing>, start: Outlet): (r: seq<seq<byte>>)
    requires Packings(ps, start)
    ensures |r| == |ps|
  {
    if ps == [] then [] else BodiesFor(ps[..|ps| - 1], start) + [BodyFor(ps[|ps| - 1])]
  }

  /** The sender, what it writes through, the bytes written so far, and every packing. */
  datatype Line = Line(st: State, l: Outlet, wire: seq<byte>, packings: seq<Packing>)

  datatype Act = Own(e: SenderRuns.Event) | FillNow(t: Clocks, rnd: Digest, pad: seq<byte>) | WriteNow(n: nat)

  function Drawing(l: Outlet, rnd: Digest, pad: seq<byte>): Outlet {
    l.(rnd := rnd, pad := pad)
  }

  ghost function Filling(x: Line, t: Clocks, l: Outlet): Line
    requires AreClocks(t) && (Packs(x.st) ==> IsPacking(Packing(l, x.st, t)))
  {
    var st := Fill(x.st, t, PackerOf(l, x.st.session));
    if Packs(x.st) then
      var p := Packing(l, x.st, t);
      Line(st, Passed(l, MessageIn(p)), x.wire, x.packings + [p])
    else x.(st := st)
  }

  function Writing(x: Line, n: nat): Line
    requires x.st.head + n <= |x.st.buf|
  {
    x.(st := Wrote(x.st, n), wire := x.wire + x.st.buf[x.st.head..x.st.head + n])
  }

  ghost predicate CanAct(x: Line, a: Act) {
    match a
    case Own(e) => e.Enqueued? || e.Received?
    case FillNow(t, rnd, pad) => AreClocks(t) && (Packs(x.st) ==> IsPacking(Packing(Drawing(x.l, rnd, pad), x.st, t)))
    case WriteNow(n) => x.st.head < |x.st.buf| && x.st.head + n <= |x.st.buf|
  }

  ghost function DoAct(x: Line, a: Act): Line
    requires CanAct(x, a)
  {
    match a
    case Own(e) => x.(st := SenderRuns.Do(x.st, e))
    case FillNow(t, rnd, pad) => Filling(x, t, Drawing(x.l, rnd, pad))
    case WriteNow(n) => Writing(x, n)
  }

  ghost predicate CanActAll(x: Line, acts: seq<Act>)
    decreases |acts|
  {
    acts == [] || (CanAct(x, acts[0]) && CanActAll(DoAct(x, acts[0]), acts[1..]))
  }

  ghost function DoAll(x: Line, acts: seq<Act>): Line
    requires CanActAll(x, acts)
    decreases |acts|
  {
    if acts == [] then x else DoAll(DoAct(x, acts[0]), acts[1..])
  }

  // What is sent so far

  function PosBehind(t: Pipeline.Stack, pos: nat, bodies: seq<seq<byte>>, seqno: u32): nat
    decreases |bodies|
  {
    if bodies == [] then pos
    else PosBehind(t, pos + |t.inner.encode(bodies[0], seqno)|, bodies[1..], t.inner.next(seqno))
  }

  lemma {:induction false} SendSnoc(t: Pipeline.Stack, ks: Keys, pos: nat, bodies: seq<seq<byte>>, body: seq<byte>,
                                    seqno: u32)
    ensures var at, n := PosBehind(t, pos, bodies, seqno), SeqnoAfter(t.inner, seqno, |bodies|);
            && Pipeline.SendAll(t, ks, pos, bodies + [body], seqno)
               == Pipeline.SendAll(t, ks, pos, bodies, seqno) + Pipeline.FrameEncode(t, ks, at, body, n)
    decreases |bodies|
  {
    if bodies == [] {
      assert [] + [body] == [body] && [body][1..] == [];
      var wire := Pipeline.FrameEncode(t, ks, pos, body, seqno);
      assert wire + [] == wire == [] + wire;
    } else {
      assert (bodies + [body])[1..] == bodies[1..] + [body];
      SendSnoc(t, ks, pos + |t.inner.encode(bodies[0], seqno)|, bodies[1..], body, t.inner.next(seqno));
    }
  }

  lemma {:induction false} BehindSnoc(t: Pipeline.Stack, pos: nat, bodies: seq<seq<byte>>, body: seq<byte>, seqno: u32)
    ensures var n := SeqnoAfter(t.inner, seqno, |bodies|);
            && PosBehind(t, pos, bodies + [body], seqno) == PosBehind(t, pos, bodies, seqno) + |t.inner.encode(body, n)|
            && SeqnoAfter(t.inner, seqno, |bodies| + 1) == t.inner.next(n)
    decreases |bodies|
  {
    if bodies == [] {
      assert [] + [body] == [body] && [body][1..] == [];
      assert SeqnoAfter(t.inner, t.inner.next(seqno), 0) == t.inner.next(seqno);
      var at := pos + |t.inner.encode(body, seqno)|;
      assert PosBehind(t, at, [], t.inner.next(seqno)) == at;
    } else {
      assert (bodies + [body])[1..] == bodies[1..] + [body];
      BehindSnoc(t, pos + |t.inner.encode(bodies[0], seqno)|, bodies[1..], body, t.inner.next(seqno));
    }
  }

  /** These bytes are the bodies sent one after the other from `start` to `at`. */
  ghost predicate Sent(start: Outlet, bodies: seq<seq<byte>>, bytes: seq<byte>, at: Outlet) {
    var t := StackOf(start.kind);
    && SameOutlet(at, start) && bytes == Pipeline.SendAll(t, start.ks, start.pos, bodies, start.seqno)
    && (Ciphered(start.kind) ==> at.pos == PosBehind(t, start.pos, bodies, start.seqno))
    && at.seqno == SeqnoAfter(t.inner, start.seqno, |bodies|)
  }

  function Unwritten(st: State): seq<byte> {
    if st.head <= |st.buf| then st.buf[st.head..] else []
  }

  /** Bytes written and bytes still in the write buffer. */
  function AllBytes(x: Line): seq<byte> {
    x.wire + Unwritten(x.st)
  }

  /** They are those of the packings so far. */
  ghost predicate Linked(x: Line, start: Outlet) {
    && x.st.head <= |x.st.buf| && Packings(x.packings, start)
    && Sent(start, BodiesFor(x.packings, start), AllBytes(x), x.l)
  }

  // Every act keeps it

  lemma {:induction false} DispatchKeepsBuffer(st: State, msg: Incoming, msgId: i64, env: Env)
    ensures var r := Dispatch(st, msg, msgId, env); r.buf == st.buf && r.head == st.head
    decreases msg
  {
    match msg
    case Container(items) => ItemsKeepBuffer(st, items, env);
    case GzipPacked(Some(inner)) => DispatchKeepsBuffer(st, inner, msgId, env);
    case _ =>
  }

  lemma {:induction false} ItemsKeepBuffer(st: State, items: Items, env: Env)
    ensures var r := DispatchItems(st, items, env); r.buf == st.buf && r.head == st.head
    decreases items
  {
    match items
    case Nil =>
    case Cons(id, msg, rest) =>
      DispatchKeepsBuffer(Acked(st, id), msg, id, env);
      ItemsKeepBuffer(Dispatch(Acked(st, id), msg, id, env), rest, env);
  }

  /** Only the bytes written and unwritten matter. */
  lemma StillLinked(x: Line, y: Line, start: Outlet)
    requires Linked(x, start) && y.packings == x.packings && y.l == x.l && y.st.head <= |y.st.buf|
    requires AllBytes(y) == AllBytes(x)
    ensures Linked(y, start)
  {
  }

  lemma OwnBytes(x: Line, e: SenderRuns.Event)
    requires x.st.head <= |x.st.buf| && (e.Enqueued? || e.Received?)
    ensures var y := x.(st := SenderRuns.Do(x.st, e)); y.st.head <= |y.st.buf| && AllBytes(y) == AllBytes(x)
  {
    if e.Received? {
      DispatchKeepsBuffer(Acked(x.st, e.msgId), e.msg, e.msgId, e.env);
    }
  }

  lemma OwnKeeps(x: Line, e: SenderRuns.Event, start: Outlet)
    requires Linked(x, start) && (e.Enqueued? || e.Received?)
    ensures Linked(x.(st := SenderRuns.Do(x.st, e)), start)
  {
    OwnBytes(x, e);
    StillLinked(x, x.(st := SenderRuns.Do(x.st, e)), start);
  }

  lemma WrittenBytes(x: Line, n: nat)
    requires x.st.head < |x.st.buf| && x.st.head + n <= |x.st.buf|
    ensures var y := Writing(x, n); y.st.head <= |y.st.buf| && AllBytes(y) == AllBytes(x)
  {
    var buf, i, j := x.st.buf, x.st.head, x.st.head + n;
    assert buf[i..] == buf[i..j] + buf[j..];
    assert x.wire + buf[i..] == (x.wire + buf[i..j]) + buf[j..];
    assert j == |buf| ==> buf[j..] == [];
  }

  lemma WriteKeeps(x: Line, n: nat, start: Outlet)
    requires Linked(x, start) && x.st.head < |x.st.buf| && x.st.head + n <= |x.st.buf|
    ensures Linked(Writing(x, n), start)
  {
    WrittenBytes(x, n);
    StillLinked(x, Writing(x, n), start);
  }

  lemma IdleBytes(st: State, t: Clocks, pack: Packer)
    requires AreClocks(t) && !Packs(st) && st.head <= |st.buf|
    ensures var r := Fill(st, t, pack); r.head <= |r.buf| && Unwritten(r) == Unwritten(st)
  {
  }

  /** What one packing adds to the write buffer. */
  lemma PackedBytes(p: Packing)
    requires IsPacking(p)
    ensures var st := Fill(p.st, p.t, PackerOf(p.l, p.st.session));
            st.head == 0 && st.buf == Pipeline.FrameEncode(StackOf(p.l.kind), p.l.ks, p.l.pos, BodyFor(p), p.l.seqno)
  {
    FillPacks(p.st, p.t, PackerOf(p.l, p.st.session));
    WireIsFrameEncode(p.l.kind, p.l.ks, p.l.pos, BodyFor(p), p.l.seqno);
  }

  lemma OneMorePacking(ps: seq<Packing>, p: Packing, start: Outlet)
    requires Packings(ps, start) && IsPacking(p) && SameOutlet(p.l, start)
    ensures Packings(ps + [p], start) && BodiesFor(ps + [p], start) == BodiesFor(ps, start) + [BodyFor(p)]
  {
    assert (ps + [p])[..|ps + [p]| - 1] == ps;
  }

  lemma OneMoreSent(start: Outlet, bodies: seq<seq<byte>>, bytes: seq<byte>, at: Outlet, m: Message)
    requires Sent(start, bodies, bytes, at)
    ensures var body := Payload(at, m);
            Sent(start, bodies + [body],
                 bytes + Pipeline.FrameEncode(StackOf(at.kind), at.ks, at.pos, body, at.seqno), Passed(at, m))
  {
    var t, body := StackOf(start.kind), Payload(at, m);
    SendSnoc(t, start.ks, start.pos, bodies, body, start.seqno);
    BehindSnoc(t, start.pos, bodies, body, start.seqno);
  }

  lemma PackingBytes(x: Line, t: Clocks, l: Outlet)
    requires AreClocks(t) && Packs(x.st) && IsPacking(Packing(l, x.st, t))
    ensures var y, p := Filling(x, t, l), Packing(l, x.st, t);
            && y.st.head <= |y.st.buf|
            && AllBytes(y) == AllBytes(x) + Pipeline.FrameEncode(StackOf(l.kind), l.ks, l.pos, BodyFor(p), l.seqno)
  {
    PackedBytes(Packing(l, x.st, t));
    assert x.wire + Unwritten(x.st) == x.wire;
    assert Unwritten(Filling(x, t, l).st) == Filling(x, t, l).st.buf;
  }

  /** The parts of the claim, one more packing on. */
  lemma PackingLinks(x: Line, y: Line, p: Packing, start: Outlet)
    requires Linked(x, start) && IsPacking(p) && SameOutlet(p.l, x.l) && p.l.pos == x.l.pos && p.l.seqno == x.l.seqno
    requires y.packings == x.packings + [p] && y.l == Passed(p.l, MessageIn(p)) && y.st.head <= |y.st.buf|
    requires AllBytes(y) == AllBytes(x) + Pipeline.FrameEncode(StackOf(p.l.kind), p.l.ks, p.l.pos, BodyFor(p), p.l.seqno)
    ensures Linked(y, start)
  {
    OneMorePacking(x.packings, p, start);
    OneMoreSent(start, BodiesFor(x.packings, start), AllBytes(x), p.l, MessageIn(p));
  }

  lemma PackingKeeps(x: Line, t: Clocks, l: Outlet, start: Outlet)
    requires Linked(x, start) && AreClocks(t) && Packs(x.st) && IsPacking(Packing(l, x.st, t))
    requires SameOutlet(l, x.l) && l.pos == x.l.pos && l.seqno == x.l.seqno
    ensures Linked(Filling(x, t, l), start)
  {
    PackingBytes(x, t, l);
    PackingLinks(x, Filling(x, t, l), Packing(l, x.st, t), start);
  }

  lemma FillKeeps(x: Line, t: Clocks, l: Outlet, start: Outlet)
    requires Linked(x, start) && AreClocks(t) && (Packs(x.st) ==> IsPacking(Packing(l, x.st, t)))
    requires SameOutlet(l, x.l) && l.pos == x.l.pos && l.seqno == x.l.seqno
    ensures Linked(Filling(x, t, l), start)
  {
    if Packs(x.st) {
      PackingKeeps(x, t, l, start);
    } else {
      IdleBytes(x.st, t, PackerOf(l, x.st.session));
      StillLinked(x, Filling(x, t, l), start);
    }
  }

  lemma ActKeeps(x: Line, a: Act, start: Outlet)
    requires Linked(x, start) && CanAct(x, a)
    ensures Linked(DoAct(x, a), start)
  {
    match a
    case Own(e) => OwnKeeps(x, e, start);
    case WriteNow(n) => WriteKeeps(x, n, start);
    case FillNow(t, rnd, pad) => FillKeeps(x, t, Drawing(x.l, rnd, pad), start);
  }

  lemma {:induction false} ActsKeep(x: Line, acts: seq<Act>, start: Outlet)
    requires Linked(x, start) && CanActAll(x, acts)
    ensures Linked(DoAll(x, acts), start)
    decreases |acts|
  {
    if acts != [] {
      ActKeeps(x, acts[0], start);
      ActsKeep(DoAct(x, acts[0]), acts[1..], start);
    }
  }

  // The other end

  /** A frame opens to what one fill packed: its messages are those collected then. */
  ghost predicate Reads(frame: seq<byte>, p: Packing)
    requires IsPacking(p)
  {
    var r := Opened(p.l.c, p.l.auth, Client, frame);
    && r.Ok? && |r.value| >= ENVELOPE && Parse(r.value) == MessageIn(p)
    && Contained(Parse(r.value)) == Messages(p.st, p.t).ms
    && BodiesOf(Messages(p.st, p.t).ms) == BodiesOut(Collect(p.st))
  }

  lemma PackingIsRead(p: Packing)
    requires IsPacking(p)
    ensures Reads(BodyFor(p), p)
  {
    MessageIsOpened(p.l, MessageIn(p));
    ContainedIsListed(p.st.session, Packed(p.st, p.t));
    FillPacks(p.st, p.t, PackerOf(p.l, p.st.session));
    NumberBodies(p.st.session, Collect(p.st), p.t, 0);
  }

  lemma {:induction false} PackingAt(ps: seq<Packing>, start: Outlet, i: nat)
    requires Packings(ps, start) && i < |ps|
    ensures IsPacking(ps[i]) && BodiesFor(ps, start)[i] == BodyFor(ps[i]) && Fits(FramingOf(start.kind), BodyFor(ps[i]))
  {
    if i < |ps| - 1 {
      PackingAt(ps[..|ps| - 1], start, i);
    }
  }

  lemma BodiesFit(ps: seq<Packing>, start: Outlet)
    requires Packings(ps, start)
    ensures AllFit(StackOf(start.kind).inner, BodiesFor(ps, start))
  {
    forall i | 0 <= i < |ps|
      ensures Fits(FramingOf(start.kind), BodiesFor(ps, start)[i])
    {
      PackingAt(ps, start, i);
    }
  }

  /** Any part of bytes sent is peeled to the bodies complete in it. */
  lemma PartIsPeeled(start: Outlet, bodies: seq<seq<byte>>, wire: seq<byte>) returns (k: nat)
    requires AllFit(StackOf(start.kind).inner, bodies)
    requires wire <= Pipeline.SendAll(StackOf(start.kind), start.ks, start.pos, bodies, start.seqno)
    ensures k <= |bodies| && Peeled(start, wire).frames == bodies[..k] && !Peeled(start, wire).failed
    ensures wire == Pipeline.SendAll(StackOf(start.kind), start.ks, start.pos, bodies, start.seqno) ==> k == |bodies|
  {
    var t := StackOf(start.kind);
    SentStreams.PartDecodes(t, start.ks, start.pos, bodies, start.seqno, wire);
    var got := Pipeline.Decoded(t, start.ks, start.pos, wire);
    k := PrefixOfStream(t.inner, bodies, start.seqno, got);
    if got == EncodeAll(t.inner, bodies, start.seqno) {
      WholeStreamDrains(t.inner, bodies, start.seqno);
    }
  }

  /** The first `k` packings are what the peer reads. */
  ghost predicate ReadUpTo(frames: seq<seq<byte>>, ps: seq<Packing>, k: nat) {
    |frames| == k <= |ps| && forall i :: 0 <= i < k ==> IsPacking(ps[i]) && Reads(frames[i], ps[i])
  }

  lemma FramesAreRead(ps: seq<Packing>, start: Outlet, k: nat)
    requires Packings(ps, start) && k <= |ps|
    ensures ReadUpTo(BodiesFor(ps, start)[..k], ps, k)
  {
    forall i | 0 <= i < k
      ensures IsPacking(ps[i]) && Reads(BodiesFor(ps, start)[i], ps[i])
    {
      PackingAt(ps, start, i);
      PackingIsRead(ps[i]);
    }
  }

  lemma LinkedIsRead(x: Line, start: Outlet) returns (k: nat)
    requires Linked(x, start)
    ensures !Peeled(start, x.wire).failed && ReadUpTo(Peeled(start, x.wire).frames, x.packings, k)
    ensures Unwritten(x.st) == [] ==> k == |x.packings|
  {
    BodiesFit(x.packings, start);
    assert x.wire <= AllBytes(x);
    assert Unwritten(x.st) == [] ==> x.wire == AllBytes(x);
    k := PartIsPeeled(start, BodiesFor(x.packings, start), x.wire);
    FramesAreRead(x.packings, start, k);
  }

  lemma StartsLinked(st: State, start: Outlet)
    requires st.head == |st.buf|
    ensures Linked(Line(st, start, [], []), start)
  {
    assert [] + Unwritten(st) == [];
  }

  /** Whatever was written so far, over any run from an empty write buffer: the peer peels
      the frames that are complete, and each opens to the messages of one fill, in order;
      once nothing is left to write, all fills are read. */
  lemma WritesAreRead(st: State, start: Outlet, acts: seq<Act>) returns (k: nat)
    requires st.head == |st.buf| && CanActAll(Line(st, start, [], []), acts)
    ensures var x := DoAll(Line(st, start, [], []), acts);
            && !Peeled(start, x.wire).failed && ReadUpTo(Peeled(start, x.wire).frames, x.packings, k)
            && (Unwritten(x.st) == [] ==> k == |x.packings|)
  {
    StartsLinked(st, start);
    ActsKeep(Line(st, start, [], []), acts, start);
    k := LinkedIsRead(DoAll(Line(st, start, [], []), acts), start);
  }
}
