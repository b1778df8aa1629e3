/** What the sender does between its reads, enqueuing, filling and writing, changes nothing
    of what the reads give: the checks on received messages do not look at it. */
module Interleavings {
  import opened Bytes
  import opened Keystream
  import opened FrameStreams
  import opened Pipeline
  import opened ReadCuts
  import opened Transports
  import Seal
  import opened Sessions
  import opened EncryptedSessions
  import opened SenderSteps
  import SenderRuns
  import opened Inboxes
  import opened Desks
  import opened SecureChannel
  import opened Correspondence

  /** The same as far as the checks on received messages go. */
  predicate Alike(d: Desk, e: Desk) {
    SameChecks(d.st.session, e.st.session) && d.seen == e.seen && d.count == e.count
  }

  lemma {:induction false} DispatchAlike(st: State, su: State, msg: Incoming, msgId: i64, env: Env)
    requires SameChecks(st.session, su.session)
    ensures SameChecks(Dispatch(st, msg, msgId, env).session, Dispatch(su, msg, msgId, env).session)
    decreases msg
  {
    match msg
    case Container(items) => ItemsAlike(st, su, items, env);
    case GzipPacked(Some(inner)) => DispatchAlike(st, su, inner, msgId, env);
    case _ =>
  }

  lemma {:induction false} ItemsAlike(st: State, su: State, items: Items, env: Env)
    requires SameChecks(st.session, su.session)
    ensures SameChecks(DispatchItems(st, items, env).session, DispatchItems(su, items, env).session)
    decreases items
  {
    match items
    case Nil =>
    case Cons(id, msg, rest) =>
      DispatchAlike(Acked(st, id), Acked(su, id), msg, id, env);
      ItemsAlike(Dispatch(Acked(st, id), msg, id, env), Dispatch(Acked(su, id), msg, id, env), rest, env);
  }

  /** The same outcome, up to what the checks do not look at. */
  predicate HandledAlike(r: Handled<Desk>, q: Handled<Desk>) {
    Alike(r.state, q.state) && r.updates == q.updates && r.refused == q.refused
  }

  lemma OpenedAlike(o: Office, d: Desk, e: Desk, frame: seq<byte>, secs: nat)
    requires Alike(d, e)
    ensures OpenedMessage(o.c, o.auth, d.st.session, d.seen, frame, secs)
            == OpenedMessage(o.c, o.auth, e.st.session, e.seen, frame, secs)
    ensures SeenBy(o.c, o.auth, d.st.session, d.seen, frame, secs) == SeenBy(o.c, o.auth, e.st.session, e.seen, frame, secs)
  {
  }

  lemma HandleAlike(o: Office, d: Desk, e: Desk, frame: seq<byte>)
    requires Alike(d, e)
    ensures HandledAlike(Handle(o, d, frame), Handle(o, e, frame))
  {
    var env := o.envs(d.count);
    OpenedAlike(o, d, e, frame, env.secs);
    var r := OpenedMessage(o.c, o.auth, d.st.session, d.seen, frame, env.secs);
    if r.Ok? {
      DispatchAlike(Acked(d.st, r.value.msgId), Acked(e.st, r.value.msgId), o.parse(r.value.body), r.value.msgId, env);
    }
  }

  ghost predicate ServedAlike(v: Served<Desk>, w: Served<Desk>) {
    && v.frames == w.frames && v.rest == w.rest && v.seqno == w.seqno && v.status == w.status
    && v.updates == w.updates && Alike(v.state, w.state)
  }

  /** `h` stands for the office's handler; only that it treats alike desks alike is used. */
  ghost predicate TreatsAlike(h: Handling<Desk>) {
    forall d, e, frame :: Alike(d, e) ==> HandledAlike(h(d, frame), h(e, frame))
  }

  lemma HandlerTreatsAlike(o: Office)
    ensures TreatsAlike(Handler(o))
  {
    forall d, e, frame | Alike(d, e)
      ensures HandledAlike(Handler(o)(d, frame), Handler(o)(e, frame))
    {
      HandleAlike(o, d, e, frame);
    }
  }

  lemma {:induction false} ServeAlike(c: Codec, h: Handling<Desk>, buf: seq<byte>, seqno: u32, d: Desk, e: Desk)
    requires Sound(c) && TreatsAlike(h) && Alike(d, e)
    ensures ServedAlike(Serve(c, h, buf, seqno, d), Serve(c, h, buf, seqno, e))
    decreases |buf|
  {
    var p := c.peel(buf, seqno);
    if p.Complete? {
      var r, q := h(d, p.payload), h(e, p.payload);
      assert HandledAlike(r, q);
      if !r.refused {
        ServeAlike(c, h, buf[p.end..], c.next(seqno), r.state, q.state);
      }
    }
  }

  /** The same buffer and the same updates, and alike to the checks. */
  ghost predicate InboxAlike(b: Inbox<Desk>, c: Inbox<Desk>) {
    b.pipe == c.pipe && b.updates == c.updates && Alike(b.state, c.state)
  }

  lemma StepAlike(t: Stack, ks: Keys, h: Handling<Desk>, b: Inbox<Desk>, c: Inbox<Desk>, chunk: seq<byte>)
    requires SoundStack(t) && TreatsAlike(h) && InboxAlike(b, c)
    ensures InboxAlike(Step(t, ks, h, b, chunk), Step(t, ks, h, c, chunk))
  {
    var i := Ingest(t, ks, b.pipe, chunk);
    if i.status.Running? {
      ServeAlike(t.inner, h, i.buf, i.seqno, b.state, c.state);
    }
  }

  // Runs

  /** A reading step, or something the sender does of its own. */
  datatype Move = Read(chunk: seq<byte>) | Own(e: SenderRuns.Event)

  predicate IsOwn(e: SenderRuns.Event) {
    e.Enqueued? || e.Filled? || e.Written?
  }

  lemma {:induction false} NumberKeepsChecks(s: Session, outs: seq<SenderSteps.Outgoing>, t: Clocks, k: nat)
    requires AreClocks(t)
    ensures SameChecks(Number(s, outs, t, k).s, s)
    decreases |outs|
  {
    if outs != [] {
      NumberKeepsChecks(Alloc(s, outs[0].content, t(k)).s, outs[1..], t, k + 1);
    }
  }

  lemma OwnKeepsChecks(st: State, e: SenderRuns.Event)
    requires IsOwn(e) && SenderRuns.Enabled(st, e)
    ensures SameChecks(SenderRuns.Do(st, e).session, st.session)
  {
    if e.Filled? {
      NumberKeepsChecks(st.session, Collect(st), e.t, 0);
    }
  }

  /** Each own move can be made when its turn comes; a failure ends the run. */
  ghost predicate CanLive(t: Stack, ks: Keys, h: Handling<Desk>, b: Inbox<Desk>, moves: seq<Move>)
    requires SoundStack(t)
    decreases |moves|
  {
    moves == [] || !b.pipe.status.Running?
    || match moves[0]
       case Read(chunk) => CanLive(t, ks, h, Step(t, ks, h, b, chunk), moves[1..])
       case Own(e) => IsOwn(e) && SenderRuns.Enabled(b.state.st, e) && CanLive(t, ks, h, Doing(b, e), moves[1..])
  }

  ghost function Doing(b: Inbox<Desk>, e: SenderRuns.Event): Inbox<Desk>
    requires SenderRuns.Enabled(b.state.st, e)
  {
    b.(state := b.state.(st := SenderRuns.Do(b.state.st, e)))
  }

  ghost function Live(t: Stack, ks: Keys, h: Handling<Desk>, b: Inbox<Desk>, moves: seq<Move>): Inbox<Desk>
    requires SoundStack(t) && CanLive(t, ks, h, b, moves)
    decreases |moves|
  {
    if moves == [] || !b.pipe.status.Running? then b
    else match moves[0]
      case Read(chunk) => Live(t, ks, h, Step(t, ks, h, b, chunk), moves[1..])
      case Own(e) => Live(t, ks, h, Doing(b, e), moves[1..])
  }

  function ReadsOf(moves: seq<Move>): seq<seq<byte>> {
    if moves == [] then []
    else if moves[0].Read? then [moves[0].chunk] + ReadsOf(moves[1..])
    else ReadsOf(moves[1..])
  }

  lemma {:induction false} LiveAlike(t: Stack, ks: Keys, h: Handling<Desk>, b: Inbox<Desk>, c: Inbox<Desk>,
                                     moves: seq<Move>)
    requires SoundStack(t) && TreatsAlike(h) && InboxAlike(b, c) && CanLive(t, ks, h, b, moves)
    ensures InboxAlike(Live(t, ks, h, b, moves), Attend(t, ks, h, c, ReadsOf(moves)))
    decreases |moves|
  {
    if moves != [] && b.pipe.status.Running? {
      match moves[0]
      case Read(chunk) =>
        assert ReadsOf(moves)[1..] == ReadsOf(moves[1..]);
        StepAlike(t, ks, h, b, c, chunk);
        LiveAlike(t, ks, h, Step(t, ks, h, b, chunk), Step(t, ks, h, c, chunk), moves[1..]);
      case Own(e) =>
        OwnKeepsChecks(b.state.st, e);
        LiveAlike(t, ks, h, Doing(b, e), c, moves[1..]);
    }
  }

  /** Whatever the sender does between its reads: frames, failure, bytes kept, updates and
      ids seen are those of the reads alone. */
  lemma OnlyReadsMatter(t: Stack, ks: Keys, o: Office, b: Inbox<Desk>, moves: seq<Move>)
    requires SoundStack(t) && CanLive(t, ks, Handler(o), b, moves)
    ensures var a, r := Live(t, ks, Handler(o), b, moves), Attend(t, ks, Handler(o), b, ReadsOf(moves));
            && a.pipe == r.pipe && a.updates == r.updates && a.state.seen == r.state.seen && a.state.count == r.state.count
            && SameChecks(a.state.st.session, r.state.st.session)
  {
    HandlerTreatsAlike(o);
    LiveAlike(t, ks, Handler(o), b, b, moves);
  }

  /** The letters in front of the first that is not acceptable in its turn are read, in
      every cut and whatever the sender enqueues, fills and writes in between; if that is
      all of them, their updates come out, each once and in order. */
  lemma LettersAreReadWhileSending(t: Transport, ks: Keys, o: Office, d: Desk, ls: seq<Letter>, seqno: u32, moves: seq<Move>)
    returns (k: nat)
    requires Seal.Sound(o.c) && (forall i :: 0 <= i < |ls| ==> Mailable(ls[i])) && Deliverable(t, o.c, o.auth, ls, seqno)
    requires ReadsOf(moves) != [] && IsCut(StackOf(t), ReadsOf(moves), Wire(t, ks, o, ls, seqno))
    requires CanLive(StackOf(t), ks, Handler(o), Opening(Origin(0, [], seqno), d), moves)
    ensures FirstRefused(o, d, MessagesOf(ls), k)
    ensures var a := Live(StackOf(t), ks, Handler(o), Opening(Origin(0, [], seqno), d), moves);
            && a.pipe.frames == Frames(t, o, ls)[..k] && a.pipe.status == (if k == |ls| then Running else Status.Refused)
            && (k == |ls| ==>
                  && a.updates == UpdatesInAll(o, MessagesOf(ls))
                  && a.state.seen == RememberAll(d.seen, IdsOf(MessagesOf(ls))))
  {
    k := LettersUpToTheFirstRefused(t, ks, o, d, ls, seqno, ReadsOf(moves));
    OnlyReadsMatter(StackOf(t), ks, o, Opening(Origin(0, [], seqno), d), moves);
    CutTwice(MessagesOf(ls), k, k);
  }
}
