/** From the client to the server: what a fill writes, sealed, framed and wrapped, is
    peeled and opened at the other end, and gives the messages that were collected. */
module ClientFrames {
  import opened Bytes
  import opened FrameStreams
  import opened Framing
  import opened Keystream
  import Pipeline
  import SentStreams
  import opened Transports
  import opened SenderBuffers
  import TlsRecords
  import opened Seal
  import opened Sessions
  import opened Containers
  import opened Requests
  import opened SenderSteps
  import opened SenderIds

  /** The keys, counters and random bytes one frame is made with. */
  datatype Outlet = Outlet(c: Primitives, auth: AuthKey, rnd: Digest, pad: seq<byte>,
                           kind: Transport, ks: Keys, pos: nat, seqno: u32)

  function BodyOf(o: Outbound): seq<byte> {
    match o
    case Single(m) => m.body
    case Wrapped(_, _, ms) => Header(|ms|) + AllInner(ms)
  }

  function MessageOf(s: Session, o: Outbound): Message {
    match o
    case Single(m) => Message(s.salt, s.sessionId, m.msgId, m.seqno, m.body)
    case Wrapped(id, seqno, _) => Message(s.salt, s.sessionId, id, seqno, BodyOf(o))
  }

  /** What is framed: the sealed message and the transport's padding. */
  function Payload(l: Outlet, m: Message): seq<byte> {
    Body(l.kind, Sealed(l.c, l.auth, Client, Padded(Envelope(m), l.rnd)), l.pad)
  }

  function WireFor(l: Outlet, m: Message): (wire: seq<byte>)
    ensures wire != []
  {
    FrameIsNotEmpty(l, Payload(l, m));
    WireOf(l.kind, l.ks, l.pos, Payload(l, m), l.seqno)
  }

  /** Where the next frame starts: the cipher moves on by the frame, if there is one. */
  function Passed(l: Outlet, m: Message): Outlet {
    l.(pos := if Ciphered(l.kind) then l.pos + |Encode(FramingOf(l.kind), Payload(l, m), l.seqno)| else l.pos,
       seqno := NextSeqno(FramingOf(l.kind), l.seqno))
  }

  lemma FrameIsNotEmpty(l: Outlet, body: seq<byte>)
    ensures WireOf(l.kind, l.ks, l.pos, body, l.seqno) != []
  {
    var framed := Encode(FramingOf(l.kind), body, l.seqno);
    EncodedSize(FramingOf(l.kind), body, l.seqno);
    if l.kind.FakeTls? {
      WrapIsNotEmpty(Apply(l.ks, l.pos, framed));
    }
  }

  lemma WrapIsNotEmpty(data: seq<byte>)
    requires data != []
    ensures TlsRecords.Wrap(data) != []
  {
    var n := if |data| <= TlsRecords.RECORD_MAX_CHUNK then |data| else TlsRecords.RECORD_MAX_CHUNK;
    TlsRecords.FirstRecord(data, data[..n]);
  }

  /** The packer the sender uses. */
  function PackerOf(l: Outlet, s: Session): Packer {
    (o: Outbound) => WireFor(l, MessageOf(s, o))
  }

  lemma PackerPacks(l: Outlet, s: Session)
    ensures PacksSomething(PackerOf(l, s))
  {
    forall o: Outbound
      ensures PackerOf(l, s)(o) != []
    {
      assert PackerOf(l, s)(o) == WireFor(l, MessageOf(s, o));
    }
  }

  // The other end

  /** What the peer peels off the wire. */
  ghost function Peeled(l: Outlet, wire: seq<byte>): Drained {
    Drain(StackOf(l.kind).inner, Pipeline.Decoded(StackOf(l.kind), l.ks, l.pos, wire), l.seqno)
  }

  lemma OneBody(t: Pipeline.Stack, ks: Keys, pos: nat, body: seq<byte>, seqno: u32)
    ensures Pipeline.SendAll(t, ks, pos, [body], seqno) == Pipeline.FrameEncode(t, ks, pos, body, seqno)
    ensures EncodeAll(t.inner, [body], seqno) == t.inner.encode(body, seqno)
  {
    assert [body][1..] == [];
    var wire := Pipeline.FrameEncode(t, ks, pos, body, seqno);
    assert wire + [] == wire;
    assert t.inner.encode(body, seqno) + [] == t.inner.encode(body, seqno);
  }

  lemma FrameIsPeeled(l: Outlet, body: seq<byte>)
    requires Fits(FramingOf(l.kind), body)
    ensures var d := Peeled(l, WireOf(l.kind, l.ks, l.pos, body, l.seqno));
            d.frames == [body] && d.rest == [] && !d.failed
  {
    var t := StackOf(l.kind);
    var wire := WireOf(l.kind, l.ks, l.pos, body, l.seqno);
    WireIsFrameEncode(l.kind, l.ks, l.pos, body, l.seqno);
    OneBody(t, l.ks, l.pos, body, l.seqno);
    SentStreams.PartDecodes(t, l.ks, l.pos, [body], l.seqno, wire);
    WholeStreamDrains(t.inner, [body], l.seqno);
  }

  predicate IsContainer(body: seq<byte>) {
    |body| >= 4 && body[..4] == ID_MSG_CONTAINER
  }

  /** The messages in one, or in a container. */
  function Contained(m: Message): seq<Inner> {
    if IsContainer(m.body) then ReadBody(m.body) else [Inner(m.msgId, m.seqNo, m.body)]
  }

  predicate Fields(m: Message) {
    AsI32(m.seqNo % U32) == m.seqNo && |m.body| < U32
  }

  lemma MessageIsOpened(l: Outlet, m: Message)
    requires Seal.Sound(l.c) && |l.pad| <= 15 && Fields(m)
    ensures var r := Opened(l.c, l.auth, Client, Payload(l, m));
            r.Ok? && |r.value| >= ENVELOPE && Parse(r.value) == m
  {
    var padded := Padded(Envelope(m), l.rnd);
    OpenUndoesSeal(l.c, l.auth, Client, padded, if Pads(l.kind) then l.pad else []);
    assert Sealed(l.c, l.auth, Client, padded) + [] == Sealed(l.c, l.auth, Client, padded);
    ParseUndoesEnvelope(m, l.rnd[..PaddingLen(|Envelope(m)|)]);
  }

  /** Everything the fields of one frame must hold. */
  predicate Holdable(l: Outlet, s: Session, o: Outbound) {
    && |l.pad| <= 15 && Fields(MessageOf(s, o)) && Fits(FramingOf(l.kind), Payload(l, MessageOf(s, o)))
    && match o
       case Single(m) => !IsContainer(m.body)
       case Wrapped(_, _, ms) => |ms| < U32 && forall i :: 0 <= i < |ms| ==> Carried(ms[i])
  }

  function Listed(o: Outbound): seq<Inner> {
    match o
    case Single(m) => [m]
    case Wrapped(_, _, ms) => ms
  }

  lemma ContainedIsListed(s: Session, o: Outbound)
    requires match o
             case Single(m) => !IsContainer(m.body)
             case Wrapped(_, _, ms) => |ms| < U32 && forall i :: 0 <= i < |ms| ==> Carried(ms[i])
    ensures Contained(MessageOf(s, o)) == Listed(o)
  {
    match o
    case Single(m) =>
    case Wrapped(_, _, ms) =>
      var head := Header(|ms|);
      ContainerRoundTrip(ms, head);
      assert (head + AllInner(ms))[..4] == head[..4] == ID_MSG_CONTAINER;
  }

  /** The peer peels one frame off the wire, opens it, and finds the messages packed. */
  lemma FrameIsRead(l: Outlet, s: Session, o: Outbound)
    requires Seal.Sound(l.c) && Holdable(l, s, o)
    ensures var d := Peeled(l, PackerOf(l, s)(o));
            && !d.failed && d.rest == [] && |d.frames| == 1
            && var r := Opened(l.c, l.auth, Client, d.frames[0]);
            && r.Ok? && |r.value| >= ENVELOPE && Parse(r.value) == MessageOf(s, o)
            && Contained(Parse(r.value)) == Listed(o)
  {
    var m := MessageOf(s, o);
    assert PackerOf(l, s)(o) == WireOf(l.kind, l.ks, l.pos, Payload(l, m), l.seqno);
    FrameIsPeeled(l, Payload(l, m));
    MessageIsOpened(l, m);
    ContainedIsListed(s, o);
  }

  /** What one fill packs. */
  ghost function Packed(st: State, t: Clocks): Outbound
    requires AreClocks(t) && Collect(st) != []
  {
    var outs, n := Collect(st), Messages(st, t);
    if |outs| == 1 then Single(n.ms[0])
    else
      var a := Alloc(n.s, false, t(|outs|));
      Wrapped(a.id, a.seqno, n.ms)
  }

  lemma FillPacks(st: State, t: Clocks, pack: Packer)
    requires AreClocks(t) && Collect(st) != [] && st.head == |st.buf|
    ensures Fill(st, t, pack).buf == pack(Packed(st, t)) && Listed(Packed(st, t)) == Messages(st, t).ms
  {
    var outs := Collect(st);
    if |outs| == 1 {
      var a := Alloc(st.session, outs[0].content, t(0));
      assert Number(a.s, outs[1..], t, 1).ms == [];
    }
  }

  /** A fill's bytes, written out, reach the peer as the messages collected, in order:
      acknowledgements, resends, pending requests. */
  lemma FillIsRead(st: State, t: Clocks, l: Outlet)
    requires AreClocks(t) && Collect(st) != [] && st.head == |st.buf|
    requires Seal.Sound(l.c) && Holdable(l, st.session, Packed(st, t))
    ensures var d := Peeled(l, Fill(st, t, PackerOf(l, st.session)).buf);
            && !d.failed && d.rest == [] && |d.frames| == 1
            && var r := Opened(l.c, l.auth, Client, d.frames[0]);
            && r.Ok? && |r.value| >= ENVELOPE
            && Parse(r.value).salt == st.session.salt && Parse(r.value).sessionId == st.session.sessionId
            && Contained(Parse(r.value)) == Messages(st, t).ms
    ensures BodiesOf(Messages(st, t).ms) == BodiesOut(Collect(st))
  {
    FillPacks(st, t, PackerOf(l, st.session));
    FrameIsRead(l, st.session, Packed(st, t));
    NumberBodies(st.session, Collect(st), t, 0);
  }
}
