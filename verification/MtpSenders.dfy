/** The sender object: its methods change the queue and buffers in place, step by step,
    and do what the state machine of SenderSteps says. */
module MtpSenders {
  import opened Wrappers
  import opened Bytes
  import opened Sessions
  import opened Containers
  import opened Requests
  import SenderSteps
  import opened EncryptedSessions
  import opened Seal
  import opened IncomingBodies
  import opened Transports
  import opened SenderBuffers
  import opened ClientFrames

  type State = SenderSteps.State

  // How loops over the queue relate to the recursive functions

  lemma {:induction false} MarkFirstAt(rs: seq<Request>, m: Inner, containerId: i64, i: nat)
    requires i <= |rs| && forall j :: 0 <= j < i ==> !Takes(rs[j], m.body)
    ensures i == |rs| ==> MarkFirst(rs, m, containerId) == rs
    ensures i < |rs| && Takes(rs[i], m.body) ==>
              MarkFirst(rs, m, containerId) == rs[i := rs[i].(state := Serialised(m.msgId, containerId))]
  {
    if i > 0 {
      MarkFirstAt(rs[1..], m, containerId, i - 1);
      assert rs == [rs[0]] + rs[1..];
    }
  }

  lemma {:induction false} RequeueAt(rs: seq<Request>, id: i64, i: nat)
    requires i <= |rs| && forall j :: 0 <= j < i ==> !Carries(rs[j], id)
    ensures i == |rs| ==> SenderSteps.Requeue(rs, id) == rs
    ensures i < |rs| && Carries(rs[i], id) ==> SenderSteps.Requeue(rs, id) == rs[i := rs[i].(state := Pending)]
  {
    if i > 0 {
      RequeueAt(rs[1..], id, i - 1);
      assert rs == [rs[0]] + rs[1..];
    }
  }

  lemma NumberMore(s: Session, outs: seq<SenderSteps.Outgoing>, t: SenderSteps.Clocks, i: nat, front: seq<Inner>)
    requires SenderSteps.AreClocks(t) && i < |outs|
    ensures var a := Alloc(s, outs[i].content, t(i));
            var n, rest := SenderSteps.Number(s, outs[i..], t, i), SenderSteps.Number(a.s, outs[i + 1..], t, i + 1);
            front + n.ms == (front + [Inner(a.id, a.seqno, outs[i].body)]) + rest.ms && n.s == rest.s
  {
    assert outs[i..][1..] == outs[i + 1..];
  }

  lemma OneMoreBatch(before: seq<seq<byte>>, updates: seq<seq<byte>>, more: seq<seq<byte>>)
    ensures (before + updates) + more == before + (updates + more)
  {
  }

  class MtpSender {
    var enc: EncryptedSession
    var requests: seq<Request>
    var pendingAck: seq<i64>
    var resendQueue: seq<seq<byte>>
    var writeBuf: seq<byte>
    var writeHead: nat
    var enqueued: nat
    ghost var answers: seq<SenderSteps.Answer>
    ghost var delivered: seq<seq<byte>>

    ghost predicate Valid()
      reads this, enc
    {
      enc.Valid() && writeHead <= |writeBuf|
    }

    ghost function View(): State
      reads this, enc
    {
      SenderSteps.State(requests, pendingAck, resendQueue, writeBuf, writeHead, enc.View(), enqueued, answers, delivered)
    }

    constructor (enc: EncryptedSession)
      requires enc.Valid()
      ensures Valid() && this.enc == enc && View() == SenderSteps.Fresh(enc.View())
    {
      this.enc := enc;
      requests, pendingAck, resendQueue, writeBuf, writeHead := [], [], [], [], 0;
      enqueued, answers, delivered := 0, [], [];
    }

    method Enqueue(body: seq<byte>, tx: nat)
      requires Valid() && tx == enqueued
      modifies this`requests, this`enqueued
      ensures Valid() && View() == SenderSteps.Enqueue(old(View()), body)
    {
      requests := requests + [Request(body, Pending, tx)];
      enqueued := enqueued + 1;
    }

    /** Drops what was to be written, acknowledged or sent again. */
    method ClearBuffers()
      requires Valid()
      modifies this`writeBuf, this`writeHead, this`pendingAck, this`resendQueue
      ensures Valid() && View() == SenderSteps.Emptied(old(View()))
    {
      writeBuf, writeHead, pendingAck, resendQueue := [], 0, [], [];
    }

    method RequeueAll()
      requires Valid()
      modifies this`requests
      ensures Valid() && requests == SenderSteps.AllPending(old(requests))
    {
      for i := 0 to |requests|
        invariant |requests| == |old(requests)|
        invariant forall j :: 0 <= j < i ==> requests[j] == old(requests)[j].(state := Pending)
        invariant forall j :: i <= j < |requests| ==> requests[j] == old(requests)[j]
      {
        requests := requests[i := requests[i].(state := Pending)];
      }
    }

    method SetStream(next: EncryptedSession)
      requires Valid() && next.Valid()
      modifies this
      ensures Valid() && enc == next && View() == SenderSteps.SetStream(old(View()), next.View())
    {
      enc := next;
      ClearBuffers();
      RequeueAll();
    }

    method FailAll(code: int)
      requires Valid()
      modifies this
      ensures Valid() && enc == old(enc) && View() == SenderSteps.FailAll(old(View()), code)
    {
      answers := answers + SenderSteps.FailedAnswers(requests, code);
      requests := [];
      ClearBuffers();
    }

    method Wrote(n: nat)
      requires Valid() && writeHead < |writeBuf| && writeHead + n <= |writeBuf|
      modifies this`requests, this`writeBuf, this`writeHead
      ensures Valid() && View() == SenderSteps.Wrote(old(View()), n)
    {
      writeHead := writeHead + n;
      if writeHead >= |writeBuf| {
        writeBuf, writeHead := [], 0;
        MarkSent();
      }
    }

    method MarkSent()
      requires Valid()
      modifies this`requests
      ensures Valid() && requests == SenderSteps.AllSent(old(requests))
    {
      for i := 0 to |requests|
        invariant |requests| == |old(requests)|
        invariant forall j :: 0 <= j < i ==> requests[j] == SenderSteps.SentNow(old(requests)[j])
        invariant forall j :: i <= j < |requests| ==> requests[j] == old(requests)[j]
      {
        if requests[i].state.Serialised? {
          var s := requests[i].state;
          requests := requests[i := requests[i].(state := Sent(s.msgId, s.containerId))];
        }
      }
    }

    // Filling the write buffer

    method BuildMsgsAckBody() returns (out: seq<byte>)
      ensures out == SenderSteps.AckBody(pendingAck)
    {
      out := SenderSteps.MSGS_ACK + ToLe32(|pendingAck| % U32);
      ghost var head := out;
      for i := 0 to |pendingAck|
        invariant out + SenderSteps.AllIds(pendingAck[i..]) == head + SenderSteps.AllIds(pendingAck)
      {
        out := out + Le64(pendingAck[i]);
        assert pendingAck[i..][1..] == pendingAck[i + 1..];
      }
    }

    method AppendResends(front: seq<SenderSteps.Outgoing>) returns (msgs: seq<SenderSteps.Outgoing>)
      ensures msgs == front + SenderSteps.AsContent(resendQueue)
    {
      msgs := front;
      for i := 0 to |resendQueue|
        invariant msgs + SenderSteps.AsContent(resendQueue[i..]) == front + SenderSteps.AsContent(resendQueue)
      {
        msgs := msgs + [SenderSteps.Outgoing(resendQueue[i], true)];
        assert resendQueue[i..][1..] == resendQueue[i + 1..];
      }
      assert msgs + SenderSteps.AsContent([]) == msgs;
    }

    method AppendPending(front: seq<SenderSteps.Outgoing>) returns (msgs: seq<SenderSteps.Outgoing>)
      ensures msgs == front + SenderSteps.AsContent(PendingBodies(requests))
    {
      msgs := front;
      for i := 0 to |requests|
        invariant msgs + SenderSteps.AsContent(PendingBodies(requests[i..]))
                  == front + SenderSteps.AsContent(PendingBodies(requests))
      {
        assert requests[i..][1..] == requests[i + 1..];
        if requests[i].state.Pending? {
          msgs := msgs + [SenderSteps.Outgoing(requests[i].body, true)];
        }
      }
      assert msgs + SenderSteps.AsContent([]) == msgs;
    }

    method CollectMessages() returns (msgs: seq<SenderSteps.Outgoing>)
      ensures msgs == SenderSteps.Collect(View())
    {
      msgs := [];
      if pendingAck != [] {
        var ack := BuildMsgsAckBody();
        msgs := [SenderSteps.Outgoing(ack, false)];
      }
      msgs := AppendResends(msgs);
      msgs := AppendPending(msgs);
    }

    /** The first pending request with the message's body becomes serialised. */
    method MarkSerialised(m: Inner, containerId: i64)
      requires Valid()
      modifies this`requests
      ensures Valid() && requests == MarkFirst(old(requests), m, containerId)
    {
      for i := 0 to |requests|
        invariant requests == old(requests)
        invariant forall j :: 0 <= j < i ==> !Takes(requests[j], m.body)
      {
        if requests[i].state.Pending? && requests[i].body == m.body {
          MarkFirstAt(requests, m, containerId, i);
          requests := requests[i := requests[i].(state := Serialised(m.msgId, containerId))];
          return;
        }
      }
      MarkFirstAt(requests, m, containerId, |requests|);
    }

    method NumberAll(msgs: seq<SenderSteps.Outgoing>, t: SenderSteps.Clocks) returns (inner: seq<Inner>)
      requires Valid() && SenderSteps.AreClocks(t)
      modifies enc`last, enc`sequence
      ensures Valid() && SenderSteps.Numbered(inner, enc.View()) == SenderSteps.Number(old(enc.View()), msgs, t, 0)
    {
      inner := [];
      ghost var whole := SenderSteps.Number(enc.View(), msgs, t, 0);
      for i := 0 to |msgs|
        invariant enc.Valid()
        invariant var rest := SenderSteps.Number(enc.View(), msgs[i..], t, i);
                  inner + rest.ms == whole.ms && rest.s == whole.s
      {
        NumberMore(enc.View(), msgs, t, i, inner);
        var id, seqno := enc.AllocMsgSeqno(msgs[i].content, t(i));
        inner := inner + [Inner(id, seqno, msgs[i].body)];
      }
    }

    method MarkEach(inner: seq<Inner>, containerId: i64)
      requires Valid()
      modifies this`requests
      ensures Valid() && requests == MarkAll(old(requests), inner, containerId)
    {
      for i := 0 to |inner|
        invariant Valid() && MarkAll(requests, inner[i..], containerId) == MarkAll(old(requests), inner, containerId)
      {
        assert inner[i..][1..] == inner[i + 1..];
        MarkSerialised(inner[i], containerId);
      }
    }

    /** How the next frame will be sealed and sent. */
    ghost function OutletAt(w: WriteHalf, rnd: Digest, pad: seq<byte>): Outlet
      reads this, enc, w
    {
      Outlet(enc.c, enc.auth, rnd, pad, w.kind, w.ks, w.txPos, w.sendSeqno)
    }

    /** Seals one message and turns it into wire bytes. */
    method Pack(id: i64, seqno: int, body: seq<byte>, w: WriteHalf, rnd: Digest, pad: seq<byte>) returns (wire: seq<byte>)
      requires |pad| <= 15
      modifies w
      ensures var l, m := old(OutletAt(w, rnd, pad)), Message(enc.salt, enc.sessionId, id, seqno, body);
              wire == WireFor(l, m) && OutletAt(w, rnd, pad) == Passed(l, m)
    {
      var data := enc.Seal(Message(enc.salt, enc.sessionId, id, seqno, body), rnd);
      wire := w.FrameMessage(data, pad);
    }

    /** Nothing waits but the requests. */
    ghost predicate Cleared()
      reads this
    {
      writeBuf == [] && writeHead == 0 && pendingAck == [] && resendQueue == []
    }

    method FillSingle(o: SenderSteps.Outgoing, t: SenderSteps.Clocks, w: WriteHalf, rnd: Digest, pad: seq<byte>)
      requires Valid() && SenderSteps.AreClocks(t) && |pad| <= 15 && Cleared()
      modifies this`requests, this`writeBuf, enc`last, enc`sequence, w
      ensures Valid()
      ensures var l, s := old(OutletAt(w, rnd, pad)), old(enc.View());
              && View() == SenderSteps.FillSingle(old(View()), o, t, PackerOf(l, s))
              && var a := Alloc(s, o.content, t(0));
                 OutletAt(w, rnd, pad) == Passed(l, MessageOf(s, SenderSteps.Single(Inner(a.id, a.seqno, o.body))))
    {
      var id, seqno := enc.AllocMsgSeqno(o.content, t(0));
      MarkSerialised(Inner(id, seqno, o.body), id);
      writeBuf := Pack(id, seqno, o.body, w, rnd, pad);
    }

    method FillWrapped(outs: seq<SenderSteps.Outgoing>, t: SenderSteps.Clocks, w: WriteHalf, rnd: Digest, pad: seq<byte>)
      requires Valid() && SenderSteps.AreClocks(t) && |pad| <= 15 && Cleared()
      modifies this`requests, this`writeBuf, enc`last, enc`sequence, w
      ensures Valid()
      ensures var l, s := old(OutletAt(w, rnd, pad)), old(enc.View());
              && View() == SenderSteps.FillWrapped(old(View()), outs, t, PackerOf(l, s))
              && var n := SenderSteps.Number(s, outs, t, 0);
                 var a := Alloc(n.s, false, t(|outs|));
                 OutletAt(w, rnd, pad) == Passed(l, MessageOf(s, SenderSteps.Wrapped(a.id, a.seqno, n.ms)))
    {
      var inner := NumberAll(outs, t);
      var raw := BuildContainerBody(inner);
      var id, seqno := enc.AllocMsgSeqno(false, t(|outs|));
      MarkEach(inner, id);
      writeBuf := Pack(id, seqno, raw, w, rnd, pad);
    }

    /** Packs acknowledgements, resends and pending requests into one frame, sealed and
        framed through `w` with the random bytes drawn. */
    method TryFillWrite(t: SenderSteps.Clocks, w: WriteHalf, rnd: Digest, pad: seq<byte>)
      requires Valid() && SenderSteps.AreClocks(t) && |pad| <= 15
      modifies this, enc`last, enc`sequence, w
      ensures Valid() && enc == old(enc)
      ensures var l, s, st := old(OutletAt(w, rnd, pad)), old(enc.View()), old(View());
              && View() == SenderSteps.Fill(st, t, PackerOf(l, s))
              && OutletAt(w, rnd, pad)
                 == if st.head == |st.buf| && SenderSteps.Collect(st) != [] then Passed(l, MessageOf(s, Packed(st, t))) else l
    {
      if writeHead < |writeBuf| {
        return;
      }
      var msgs := CollectMessages();
      ClearBuffers();
      if |msgs| == 1 {
        FillSingle(msgs[0], t, w, rnd, pad);
      } else if msgs != [] {
        FillWrapped(msgs, t, w, rnd, pad);
      }
    }

    // Dispatching

    method Answer(i: nat, outcome: SenderSteps.Outcome)
      requires Valid() && i < |requests|
      modifies this`requests, this`answers
      ensures Valid() && View() == SenderSteps.Answered(old(View()), i, outcome)
    {
      answers := answers + [SenderSteps.Answer(requests[i].tx, outcome)];
      requests := requests[..i] + requests[i + 1..];
    }

    method Position(id: i64) returns (i: nat)
      ensures i == SenderSteps.FirstAwaiting(requests, id)
    {
      i := 0;
      while i < |requests| && !SenderSteps.Awaits(requests[i], id)
        invariant i <= |requests| && forall j :: 0 <= j < i ==> !SenderSteps.Awaits(requests[j], id)
      {
        i := i + 1;
      }
    }

    method PositionIn(id: i64) returns (i: nat)
      ensures i == SenderSteps.FirstAwaitingIn(requests, id)
    {
      i := 0;
      while i < |requests| && !SenderSteps.AwaitsIn(requests[i], id)
        invariant i <= |requests| && forall j :: 0 <= j < i ==> !SenderSteps.AwaitsIn(requests[j], id)
      {
        i := i + 1;
      }
    }

    /** Answers the request with this message id, or else one of its container. */
    method Resolve(id: i64, outcome: SenderSteps.Outcome)
      requires Valid()
      modifies this`requests, this`answers
      ensures Valid() && View() == SenderSteps.Resolve(old(View()), id, outcome)
    {
      var i := Position(id);
      if i < |requests| {
        Answer(i, outcome);
        return;
      }
      i := PositionIn(id);
      if i < |requests| {
        Answer(i, outcome);
      }
    }

    method QueueResend(badId: i64)
      requires Valid()
      modifies this`requests
      ensures Valid() && View() == SenderSteps.Resent(old(View()), badId)
    {
      for i := 0 to |requests|
        invariant requests == old(requests)
        invariant forall j :: 0 <= j < i ==> !Carries(requests[j], badId)
      {
        if !requests[i].state.Pending? && requests[i].state.msgId == badId {
          RequeueAt(requests, badId, i);
          requests := requests[i := requests[i].(state := Pending)];
          return;
        }
      }
      RequeueAt(requests, badId, |requests|);
    }

    method CorrectSession(code: nat, msgId: i64, env: SenderSteps.Env)
      requires Valid()
      modifies enc`offset, enc`last, enc`sessionId, enc`sequence
      ensures Valid() && enc.View() == SenderSteps.Corrected(old(enc.View()), code, msgId, env)
    {
      if code == 16 || code == 17 {
        enc.CorrectTimeOffset(msgId, env.secs);
      } else if code == 32 || code == 33 {
        enc.ResetSession(env.random);
      }
    }

    method NewSession(salt: i64)
      requires Valid()
      modifies this`requests, enc`salt
      ensures Valid() && View() == SenderSteps.Dispatch(old(View()), SenderSteps.NewSession(salt), 0, SenderSteps.Env(0, 0))
    {
      enc.SetSalt(salt);
      RequeueAll();
    }

    method Acknowledge(id: i64)
      requires Valid()
      modifies this`pendingAck
      ensures Valid() && View() == SenderSteps.Acked(old(View()), id)
    {
      if id % 2 == 1 {
        pendingAck := pendingAck + [id];
      }
    }

    method DispatchResult(body: seq<byte>, z: Inflate)
      requires Valid() && |body| >= 12
      modifies this`requests, this`answers
      ensures Valid() && View() == SenderSteps.Resolve(old(View()), FromLe64(body[4..12]), ReadOutcome(z, body[12..]))
    {
      var result := body[12..];
      if Begins(result, GZIP_PACKED) {
        var inflated := Inflated(z, result[4..]);
        if inflated.Some? {
          result := inflated.value;
        }
      }
      var outcome := SenderSteps.Reply(result);
      if Begins(result, RPC_ERROR) && |result| >= 8 {
        outcome := SenderSteps.Failure(AsI32(FromLe32(result[4..8])));
      }
      Resolve(FromLe64(body[4..12]), outcome);
    }

    /** A notice about a message or the session, if it is long enough. */
    method DispatchNotice(body: seq<byte>, msgId: i64, env: SenderSteps.Env, ghost z: Inflate, ghost depth: nat)
      requires Valid()
      requires Begins(body, BAD_SERVER_SALT) || Begins(body, BAD_MSG_NOTIFICATION) || Begins(body, NEW_SESSION_CREATED)
      modifies this`requests, enc`salt, enc`offset, enc`last, enc`sessionId, enc`sequence
      ensures Valid() && View() == SenderSteps.Dispatch(old(View()), ReadIncoming(z, depth, body), msgId, env)
      ensures SenderSteps.UpdatesIn(ReadIncoming(z, depth, body)) == []
    {
      var id := FromLe32(body[..4]);
      if id == BAD_SERVER_SALT {
        if |body| >= 28 {
          enc.SetSalt(FromLe64(body[20..28]));
          QueueResend(FromLe64(body[4..12]));
        }
      } else if id == BAD_MSG_NOTIFICATION {
        if |body| >= 20 {
          CorrectSession(FromLe32(body[16..20]), msgId, env);
          QueueResend(FromLe64(body[4..12]));
        }
      } else if |body| >= 28 {
        NewSession(FromLe64(body[20..28]));
      }
    }

    /** Routes one message body; what is not for the sender itself is returned. `z` inflates
        what is compressed, within `depth` levels. */
    method Dispatch(body: seq<byte>, msgId: i64, env: SenderSteps.Env, z: Inflate, depth: nat)
      returns (updates: seq<seq<byte>>)
      requires Valid()
      modifies this, enc
      ensures Valid() && enc == old(enc) && enc.seen == old(enc.seen)
      ensures View() == SenderSteps.Dispatch(old(View()), ReadIncoming(z, depth, body), msgId, env)
      ensures updates == SenderSteps.UpdatesIn(ReadIncoming(z, depth, body)) && delivered == old(delivered) + updates
      decreases depth, |body|, 1
    {
      updates := [];
      if |body| < 4 {
        return;
      }
      var id := FromLe32(body[..4]);
      if id == RPC_RESULT {
        if |body| >= 12 {
          DispatchResult(body, z);
        }
      } else if id == MSG_CONTAINER {
        if |body| >= 8 {
          updates := DispatchContainer(body, env, z, depth);
        }
      } else if id == GZIP_PACKED {
        var inner := Inflated(z, body[4..]);
        if inner.Some? && depth > 0 {
          updates := Dispatch(inner.value, msgId, env, z, depth - 1);
        }
      } else if id == BAD_SERVER_SALT || id == BAD_MSG_NOTIFICATION || id == NEW_SESSION_CREATED {
        DispatchNotice(body, msgId, env, z, depth);
      } else if id == MSGS_ACK_ID {
      } else if id == PONG {
        if |body| >= 12 {
          Resolve(FromLe64(body[4..12]), SenderSteps.Reply(body));
        }
      } else {
        delivered := delivered + [body];
        updates := [body];
      }
    }

    method DispatchInner(m: Inner, env: SenderSteps.Env, z: Inflate, depth: nat) returns (updates: seq<seq<byte>>)
      requires Valid()
      modifies this, enc
      ensures Valid() && enc == old(enc) && enc.seen == old(enc.seen)
      ensures var msg := ReadIncoming(z, depth, m.body);
              && View() == SenderSteps.Dispatch(SenderSteps.Acked(old(View()), m.msgId), msg, m.msgId, env)
              && updates == SenderSteps.UpdatesIn(msg) && delivered == old(delivered) + updates
      decreases depth, |m.body|, 2
    {
      Acknowledge(m.msgId);
      updates := Dispatch(m.body, m.msgId, env, z, depth);
    }

    /** Acknowledges and dispatches the messages of a container, up to a cut-off one. */
    method DispatchContainer(body: seq<byte>, env: SenderSteps.Env, z: Inflate, depth: nat) returns (updates: seq<seq<byte>>)
      requires Valid() && |body| >= 8
      modifies this, enc
      ensures Valid() && enc == old(enc) && enc.seen == old(enc.seen)
      ensures var items := ReadItems(z, depth, FromLe32(body[4..8]), body, 8);
              && View() == SenderSteps.DispatchItems(old(View()), items, env)
              && updates == SenderSteps.UpdatesAmong(items) && delivered == old(delivered) + updates
      decreases depth, |body|, 0
    {
      updates := [];
      var count := FromLe32(body[4..8]);
      var pos: nat := 8;
      ghost var items := ReadItems(z, depth, count, body, 8);
      ghost var end, all := SenderSteps.DispatchItems(View(), items, env), SenderSteps.UpdatesAmong(items);
      DispatchStarts(View(), items, env);
      for i := 0 to count
        invariant Valid() && enc == old(enc) && enc.seen == old(enc.seen) && 8 <= pos <= |body|
        invariant items == ReadItems(z, depth, count - i, body, pos) && ToDispatch(View(), updates, items, env, end, all)
        invariant delivered == old(delivered) + updates
      {
        FirstItem(z, depth, count - i, body, pos);
        var m := NextAt(body, pos);
        if m.None? {
          break;
        }
        DispatchNext(View(), updates, items, env, end, all);
        pos := pos + 16 + |m.value.body|;
        var more := DispatchInner(m.value, env, z, depth);
        OneMoreBatch(old(delivered), updates, more);
        items, updates := items.rest, updates + more;
      }
      DispatchEnds(View(), updates, env, end, all);
    }

    /** Opens one frame in place, acknowledges its message and dispatches the body; a frame
        that is refused changes nothing but, at most, the ids seen. */
    method ProcessPayload(frame: array<byte>, env: SenderSteps.Env, z: Inflate, depth: nat)
      returns (r: Result<seq<seq<byte>>, UnpackError>)
      requires Valid()
      modifies this, enc, frame
      ensures Valid() && enc == old(enc)
      ensures enc.seen == SeenBy(enc.c, enc.auth, old(enc.View()), old(enc.seen), old(frame[..]), env.secs)
      ensures match OpenedMessage(enc.c, enc.auth, old(enc.View()), old(enc.seen), old(frame[..]), env.secs)
              case Err(e) => r == Err(e) && View() == old(View())
              case Ok(m) =>
                var msg := ReadIncoming(z, depth, m.body);
                && r == Ok(SenderSteps.UpdatesIn(msg)) && delivered == old(delivered) + r.value
                && View() == SenderSteps.Receive(old(View()), m.msgId, msg, env)
    {
      var m := enc.Unpack(frame, env.secs);
      if m.Err? {
        return Err(m.error);
      }
      Acknowledge(m.value.msgId);
      var updates := Dispatch(m.value.body, m.value.msgId, env, z, depth);
      return Ok(updates);
    }
  }
}
