/** A request all the way round: filled, written, read by the server; its reply, read by
    the client, answers it and no other. */
module RoundTrips {
  import opened Bytes
  import opened Transports
  import opened Seal
  import opened Sessions
  import opened Containers
  import opened Requests
  import opened SenderSteps
  import SenderRuns
  import opened SenderIds
  import opened SecureChannel
  import opened Inboxes
  import opened Desks
  import opened IncomingBodies
  import opened Correspondence
  import opened ClientFrames
  import opened ClientRuns

  /** Where the message of the `i`th request stands among those of its fill. */
  function PlaceOf(st: State, i: nat): nat
    requires i < |st.requests|
  {
    |AckMessages(st.acks)| + |PendingBodies(st.requests[..i])|
  }

  ghost function Filled(p: Packing): State
    requires IsPacking(p)
  {
    Fill(p.st, p.t, PackerOf(p.l, p.st.session))
  }

  /** The sender once the frame is written out. */
  ghost function Written(p: Packing): State
    requires IsPacking(p)
  {
    Wrote(Filled(p), |Filled(p).buf|)
  }

  /** The fill can be told apart: distinct ids, room for more, and no pending request that
      reads as the acknowledgement. */
  ghost predicate Answerable(p: Packing, i: nat) {
    && IsPacking(p) && SenderRuns.Inv(p.st) && Distinct(p.st) && RoomToFill(p.st, p.t)
    && (p.st.acks == [] || AckBody(p.st.acks) !in PendingBodies(p.st.requests))
    && i < |p.st.requests| && p.st.requests[i].state.Pending?
  }

  lemma ReplyIsFor(p: Packing, i: nat, outcome: Outcome)
    requires Answerable(p, i)
    ensures var ms := Messages(p.st, p.t).ms;
            && PlaceOf(p.st, i) < |ms| && ms[PlaceOf(p.st, i)].body == p.st.requests[i].body
            && i < |Written(p).requests| && Written(p).requests[i].tx == p.st.requests[i].tx
            && Resolve(Written(p), ms[PlaceOf(p.st, i)].msgId, outcome) == Answered(Written(p), i, outcome)
  {
    PackerPacks(p.l, p.st.session);
    ReplyReachesItsRequest(p.st, p.t, PackerOf(p.l, p.st.session), i, outcome);
  }

  /** The message made for the request, at its place among those the server finds. */
  ghost function MessageFor(p: Packing, i: nat): Inner
    requires Answerable(p, i)
  {
    ReplyIsFor(p, i, Failure(0));
    Messages(p.st, p.t).ms[PlaceOf(p.st, i)]
  }

  /** The server peels one frame off what was written, opens it, and finds the messages. */
  lemma ServerReads(p: Packing)
    requires IsPacking(p)
    ensures var d := Peeled(p.l, Filled(p).buf); !d.failed && |d.frames| == 1 && Reads(d.frames[0], p)
  {
    FillIsRead(p.st, p.t, p.l);
    FillPacks(p.st, p.t, PackerOf(p.l, p.st.session));
    FrameIsRead(p.l, p.st.session, Packed(p.st, p.t));
  }

  /** A result that is dispatched only answers. */
  lemma ResultAnswers(st: State, msgId: i64, id: i64, i: nat, outcome: Outcome, env: Env)
    requires i < |st.requests| && Resolve(st, id, outcome) == Answered(st, i, outcome)
    ensures var r := Receive(st, msgId, RpcResult(id, outcome), env);
            && r.answers == st.answers + [Answer(st.requests[i].tx, outcome)]
            && r.requests == st.requests[..i] + st.requests[i + 1..]
  {
    assert |Answered(st, i, outcome).answers| == |st.answers| + 1;
  }

  /** What the client makes of the server's reply. */
  predicate IsReply(o: Office, d: Desk, reply: Letter, id: i64, outcome: Outcome) {
    && Mailable(reply) && Acceptable(d.st.session, d.seen, reply.m, o.envs(d.count).secs)
    && o.parse(reply.m.body) == RpcResult(id, outcome)
  }

  /** From queue to answer over both ways: the frame written is read by the server as the
      messages collected, the request's body at its place among them; and the letter that
      carries a result for the id it has there answers that request, once, leaves every
      other request as it was, and returns no update. */
  lemma RequestIsAnswered(p: Packing, i: nat, o: Office, d: Desk, reply: Letter, outcome: Outcome)
    requires Answerable(p, i) && o.c == p.l.c && o.auth == p.l.auth && d.st == Written(p)
    requires IsReply(o, d, reply, MessageFor(p, i).msgId, outcome)
    ensures var found := Peeled(p.l, Filled(p).buf); |found.frames| == 1 && Reads(found.frames[0], p)
    ensures MessageFor(p, i) in Messages(p.st, p.t).ms && MessageFor(p, i).body == p.st.requests[i].body
    ensures var r := Handle(o, d, Body(p.l.kind, Post(o.c, o.auth, reply).data, reply.pad));
            && !r.refused && r.updates == [] && i < |d.st.requests|
            && r.state.st.answers == d.st.answers + [Answer(p.st.requests[i].tx, outcome)]
            && r.state.st.requests == d.st.requests[..i] + d.st.requests[i + 1..]
  {
    ServerReads(p);
    ReplyIsFor(p, i, outcome);
    LetterIsHandled(p.l.kind, o, d, reply);
    ResultAnswers(d.st, reply.m.msgId, MessageFor(p, i).msgId, i, outcome, o.envs(d.count));
  }

  /** A letter whose body is a result's bytes is such a reply, plain or compressed. */
  lemma ResultLetterIsReply(o: Office, d: Desk, reply: Letter, id: i64, result: seq<byte>, z: Inflate, depth: nat)
    requires o.parse == Reader(z, depth) && reply.m.body == ToLe32(RPC_RESULT) + Le64(id) + result
    requires Mailable(reply) && Acceptable(d.st.session, d.seen, reply.m, o.envs(d.count).secs)
    ensures IsReply(o, d, reply, id, ReadOutcome(z, result))
    ensures IsPlain(result) ==> IsReply(o, d, reply, id, Reply(result))
  {
    ResultIsRead(z, depth, id, result);
  }
}
