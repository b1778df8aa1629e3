/** Which reply answers which request: the ids in use are distinct, each request carries
    the id of the message made from it, and a reply to that id answers that request. */
module SenderIds {
  import opened Bytes
  import opened Sessions
  import opened Containers
  import opened Requests
  import opened SenderSteps
  import opened SenderRuns

  /** The ids in use are distinct, and none is above `top`. */
  ghost predicate DistinctUpTo(rs: seq<Request>, top: int) {
    && (forall i :: 0 <= i < |rs| && !rs[i].state.Pending? ==> rs[i].state.msgId <= top)
    && (forall i, j :: 0 <= i < j < |rs| && !rs[i].state.Pending? && !rs[j].state.Pending? ==>
          rs[i].state.msgId != rs[j].state.msgId)
  }

  ghost predicate Distinct(st: State) {
    st.session.last % 4 == 0 && DistinctUpTo(st.requests, st.session.last)
  }

  // Numbering

  /** The counter is not at its end at any of these allocations. */
  ghost predicate IdsLeft(s: Session, outs: seq<Outgoing>, t: Clocks, k: nat)
    requires AreClocks(t)
    decreases |outs|
  {
    outs == [] || (s.last < I64_MAX - 3 && IdsLeft(Alloc(s, outs[0].content, t(k)).s, outs[1..], t, k + 1))
  }

  ghost predicate Ascending(ms: seq<Inner>, low: int, high: int) {
    && (forall i :: 0 <= i < |ms| ==> low < ms[i].msgId <= high)
    && (forall i, j :: 0 <= i < j < |ms| ==> ms[i].msgId < ms[j].msgId)
  }

  lemma {:induction false} NumberAscends(s: Session, outs: seq<Outgoing>, t: Clocks, k: nat)
    requires AreClocks(t) && s.last % 4 == 0 && IdsLeft(s, outs, t, k)
    ensures var n := Number(s, outs, t, k);
            Ascending(n.ms, s.last, n.s.last) && n.s.last % 4 == 0 && s.last <= n.s.last
    decreases |outs|
  {
    if outs != [] {
      var a := Alloc(s, outs[0].content, t(k));
      NextMsgIdIncreases(s.last, t(k), s.offset);
      NumberAscends(a.s, outs[1..], t, k + 1);
    }
  }

  function ContentAmong(outs: seq<Outgoing>): nat {
    if outs == [] then 0 else (if outs[0].content then 1 else 0) + ContentAmong(outs[1..])
  }

  lemma ContentOfPrefix(outs: seq<Outgoing>, i: nat)
    requires 0 < i <= |outs|
    ensures ContentAmong(outs[..i]) == (if outs[0].content then 1 else 0) + ContentAmong(outs[1..][..i - 1])
  {
    assert outs[..i][1..] == outs[1..][..i - 1];
  }

  /** Sequence numbers: twice the content-related messages so far, and one more, an odd
      number, for those that are content-related themselves. */
  lemma {:induction false} SequenceNumbersCountContent(s: Session, outs: seq<Outgoing>, t: Clocks, k: nat, i: nat)
    requires AreClocks(t) && i <= |outs|
    ensures var n := Number(s, outs, t, k);
            && n.s.sequence == s.sequence + ContentAmong(outs)
            && (i < |outs| ==>
                  n.ms[i].seqno == 2 * (s.sequence + ContentAmong(outs[..i])) + if outs[i].content then 1 else 0)
    decreases |outs|
  {
    if outs != [] {
      SequenceNumbersCountContent(Alloc(s, outs[0].content, t(k)).s, outs[1..], t, k + 1, if i == 0 then 0 else i - 1);
      if i > 0 {
        ContentOfPrefix(outs, i);
      }
    }
  }

  function BodiesOut(outs: seq<Outgoing>): (r: seq<seq<byte>>)
    ensures |r| == |outs| && forall i :: 0 <= i < |outs| ==> r[i] == outs[i].body
  {
    seq(|outs|, i requires 0 <= i < |outs| => outs[i].body)
  }

  lemma {:induction false} NumberBodies(s: Session, outs: seq<Outgoing>, t: Clocks, k: nat)
    requires AreClocks(t)
    ensures BodiesOf(Number(s, outs, t, k).ms) == BodiesOut(outs)
    decreases |outs|
  {
    if outs != [] {
      NumberBodies(Alloc(s, outs[0].content, t(k)).s, outs[1..], t, k + 1);
      assert BodiesOut(outs) == [outs[0].body] + BodiesOut(outs[1..]);
    }
  }

  lemma {:induction false} ContentBodies(bodies: seq<seq<byte>>)
    ensures BodiesOut(AsContent(bodies)) == bodies
  {
    if bodies != [] {
      ContentBodies(bodies[1..]);
      assert BodiesOut(AsContent(bodies)) == [bodies[0]] + BodiesOut(AsContent(bodies[1..]));
    }
  }

  lemma {:induction false} BodiesSuffix(ms: seq<Inner>, n: nat)
    requires n <= |ms|
    ensures BodiesOf(ms[n..]) == BodiesOf(ms)[n..]
  {
    assert ms == ms[..n] + ms[n..];
    BodiesConcat(ms[..n], ms[n..]);
  }

  // One fill

  /** The messages of one fill, numbered. */
  ghost function Messages(st: State, t: Clocks): Numbered
    requires AreClocks(t)
  {
    Number(st.session, Collect(st), t, 0)
  }

  /** The messages made for the pending requests. */
  ghost function Own(st: State, t: Clocks): seq<Inner>
    requires AreClocks(t) && st.resends == []
  {
    Messages(st, t).ms[|AckMessages(st.acks)|..]
  }

  /** The container's id, or the lone message's. */
  ghost function FrameId(st: State, t: Clocks): i64
    requires AreClocks(t)
  {
    var n := Messages(st, t);
    if |n.ms| == 1 then n.ms[0].msgId else Alloc(n.s, false, t(|n.ms|)).id
  }

  lemma BodiesBehind(front: seq<Outgoing>, outs: seq<Outgoing>)
    ensures BodiesOut(front + outs)[|front|..] == BodiesOut(outs)
  {
  }

  lemma CollectEndsWithPending(st: State)
    requires st.resends == []
    ensures |AckMessages(st.acks)| <= |Collect(st)|
    ensures BodiesOut(Collect(st))[|AckMessages(st.acks)|..] == PendingBodies(st.requests)
  {
    var acks, own := AckMessages(st.acks), AsContent(PendingBodies(st.requests));
    assert acks + [] == acks;
    assert Collect(st) == acks + own;
    BodiesBehind(acks, own);
    ContentBodies(PendingBodies(st.requests));
  }

  lemma OwnBodies(st: State, t: Clocks)
    requires AreClocks(t) && st.resends == []
    ensures BodiesOf(Own(st, t)) == PendingBodies(st.requests)
  {
    CollectEndsWithPending(st);
    NumberBodies(st.session, Collect(st), t, 0);
    BodiesSuffix(Messages(st, t).ms, |AckMessages(st.acks)|);
  }

  lemma FillMarks(st: State, t: Clocks, pack: Packer)
    requires AreClocks(t) && st.head == |st.buf|
    ensures Fill(st, t, pack).requests == MarkAll(st.requests, Messages(st, t).ms, FrameId(st, t))
  {
    var outs := Collect(st);
    if |outs| == 1 {
      var a := Alloc(st.session, outs[0].content, t(0));
      var m := Inner(a.id, a.seqno, outs[0].body);
      assert Number(a.s, outs[1..], t, 1).ms == [];
      assert Messages(st, t).ms == [m];
      assert MarkAll(MarkFirst(st.requests, m, a.id), [m][1..], a.id) == MarkFirst(st.requests, m, a.id);
    }
  }

  /** When the last frame is out, a fill leaves no request pending. */
  lemma NoRequestIsLeftBehind(st: State, t: Clocks, pack: Packer)
    requires AreClocks(t) && st.head == |st.buf| && st.resends == []
    ensures NonePending(Fill(st, t, pack).requests)
  {
    var ms, k := Messages(st, t).ms, |AckMessages(st.acks)|;
    FillMarks(st, t, pack);
    OwnBodies(st, t);
    assert ms == ms[..k] + ms[k..];
    EveryoneIsMarked(st.requests, ms[..k], ms[k..], FrameId(st, t));
  }

  /** Each pending request gets the id of the message made from it, also when bodies
      repeat, exactly when none has the body of the acknowledgement sent along. */
  lemma MarkedByBodyIsMarkedByPosition(st: State, t: Clocks, pack: Packer)
    requires AreClocks(t) && st.head == |st.buf| && st.resends == []
    requires Distinct(st) && IdsLeft(st.session, Collect(st), t, 0)
    ensures |Own(st, t)| == |PendingBodies(st.requests)|
    ensures Fill(st, t, pack).requests == MarkInOrder(st.requests, Own(st, t), FrameId(st, t))
            <==> st.acks == [] || AckBody(st.acks) !in PendingBodies(st.requests)
  {
    var ms := Messages(st, t).ms;
    FillMarks(st, t, pack);
    OwnBodies(st, t);
    ByBodyIsByPosition(st.requests, Own(st, t), FrameId(st, t));
    if st.acks != [] {
      NumberAscends(st.session, Collect(st), t, 0);
      NumberBodies(st.session, Collect(st), t, 0);
      assert BodiesOf(ms)[0] == AckBody(st.acks);
      assert ms == [ms[0]] + ms[1..];
      AckInFront(st.requests, ms[0], ms[1..], FrameId(st, t));
    }
  }

  // Distinct ids

  /** At most one request is marked, a pending one. */
  lemma {:induction false} OneMarked(rs: seq<Request>, m: Inner, containerId: i64) returns (k: nat)
    ensures k <= |rs| && (k < |rs| ==> rs[k].state.Pending?)
    ensures MarkFirst(rs, m, containerId)
            == if k < |rs| then rs[k := rs[k].(state := Serialised(m.msgId, containerId))] else rs
  {
    k := 0;
    if rs != [] && !Takes(rs[0], m.body) {
      var j := OneMarked(rs[1..], m, containerId);
      k := j + 1;
      assert rs == [rs[0]] + rs[1..];
    }
  }

  lemma MarkFirstDistinct(rs: seq<Request>, m: Inner, containerId: i64, top: int)
    requires DistinctUpTo(rs, top) && top < m.msgId
    ensures DistinctUpTo(MarkFirst(rs, m, containerId), m.msgId)
  {
    var k := OneMarked(rs, m, containerId);
  }

  lemma {:induction false} MarkAllDistinct(rs: seq<Request>, ms: seq<Inner>, containerId: i64, top: int, high: int)
    requires DistinctUpTo(rs, top) && Ascending(ms, top, high) && top <= high
    ensures DistinctUpTo(MarkAll(rs, ms, containerId), high)
    decreases |ms|
  {
    if ms != [] {
      MarkFirstDistinct(rs, ms[0], containerId, top);
      MarkAllDistinct(MarkFirst(rs, ms[0], containerId), ms[1..], containerId, ms[0].msgId, high);
    }
  }

  /** Room for the messages of a fill and for its container. */
  ghost predicate RoomToFill(st: State, t: Clocks)
    requires AreClocks(t)
  {
    IdsLeft(st.session, Collect(st), t, 0) && Messages(st, t).s.last < I64_MAX - 3
  }

  lemma FillDistinct(st: State, t: Clocks, pack: Packer)
    requires AreClocks(t) && Distinct(st) && st.head == |st.buf| && RoomToFill(st, t)
    ensures Distinct(Fill(st, t, pack))
  {
    var outs, n := Collect(st), Messages(st, t);
    NumberAscends(st.session, outs, t, 0);
    FillMarks(st, t, pack);
    MarkAllDistinct(st.requests, n.ms, FrameId(st, t), st.session.last, n.s.last);
    if |outs| == 1 {
      assert Number(Alloc(st.session, outs[0].content, t(0)).s, outs[1..], t, 1).s
             == Alloc(st.session, outs[0].content, t(0)).s;
    } else if |outs| > 1 {
      NextMsgIdIncreases(n.s.last, t(|outs|), n.s.offset);
    }
  }

  // Acknowledgements

  /** The odd ids of the messages packed in `msg`, in the order they come. */
  function OwedIn(msg: Incoming): seq<i64>
    decreases msg
  {
    match msg
    case Container(items) => OwedAmong(items)
    case GzipPacked(Some(inner)) => OwedIn(inner)
    case _ => []
  }

  function OwedAmong(items: Items): seq<i64>
    decreases items
  {
    match items
    case Nil => []
    case Cons(id, msg, rest) => (if id % 2 == 1 then [id] else []) + OwedIn(msg) + OwedAmong(rest)
  }

  lemma {:induction false} DispatchOwes(st: State, msg: Incoming, msgId: i64, env: Env)
    ensures Dispatch(st, msg, msgId, env).acks == st.acks + OwedIn(msg)
    decreases msg
  {
    match msg
    case Container(items) => DispatchItemsOwes(st, items, env);
    case GzipPacked(Some(inner)) => DispatchOwes(st, inner, msgId, env);
    case _ => assert st.acks + [] == st.acks;
  }

  lemma {:induction false} DispatchItemsOwes(st: State, items: Items, env: Env)
    ensures DispatchItems(st, items, env).acks == st.acks + OwedAmong(items)
    decreases items
  {
    match items
    case Nil => assert st.acks + [] == st.acks;
    case Cons(id, msg, rest) =>
      var first := Dispatch(Acked(st, id), msg, id, env);
      DispatchOwes(Acked(st, id), msg, id, env);
      DispatchItemsOwes(first, rest, env);
      var own := if id % 2 == 1 then [id] else [];
      assert Acked(st, id).acks == st.acks + own;
      assert ((st.acks + own) + OwedIn(msg)) + OwedAmong(rest) == st.acks + (own + OwedIn(msg) + OwedAmong(rest));
  }

  /** A received message is acknowledged if its id is odd, and so is each message packed
      in it, in order and behind what is owed already. */
  lemma ReceivedIsOwed(st: State, msgId: i64, msg: Incoming, env: Env)
    ensures Receive(st, msgId, msg, env).acks == st.acks + (if msgId % 2 == 1 then [msgId] else []) + OwedIn(msg)
  {
    DispatchOwes(Acked(st, msgId), msg, msgId, env);
    assert st.acks + [] == st.acks;
  }

  /** No part of the message makes the session start over (codes 32 and 33). */
  predicate NoReset(msg: Incoming)
    decreases msg
  {
    match msg
    case Container(items) => NoResets(items)
    case GzipPacked(Some(inner)) => NoReset(inner)
    case BadMsgNotification(_, code) => code != 32 && code != 33
    case _ => true
  }

  predicate NoResets(items: Items)
    decreases items
  {
    match items
    case Nil => true
    case Cons(_, msg, rest) => NoReset(msg) && NoResets(rest)
  }

  lemma ResolveDistinct(st: State, id: i64, outcome: Outcome)
    requires Distinct(st)
    ensures Distinct(Resolve(st, id, outcome))
  {
    var i, j := FirstAwaiting(st.requests, id), FirstAwaitingIn(st.requests, id);
    if i < |st.requests| {
      DistinctWithout(st.requests, i, st.session.last);
    } else if j < |st.requests| {
      DistinctWithout(st.requests, j, st.session.last);
    }
  }

  lemma DistinctWithout(rs: seq<Request>, i: nat, top: int)
    requires DistinctUpTo(rs, top) && i < |rs|
    ensures DistinctUpTo(rs[..i] + rs[i + 1..], top)
  {
    var left := rs[..i] + rs[i + 1..];
    assert forall k :: 0 <= k < |left| ==> left[k] == rs[if k < i then k else k + 1];
  }

  lemma FewerInUse(rs: seq<Request>, fewer: seq<Request>, top: int)
    requires DistinctUpTo(rs, top) && |fewer| == |rs|
    requires forall i :: 0 <= i < |rs| ==> fewer[i] == rs[i] || fewer[i].state.Pending?
    ensures DistinctUpTo(fewer, top)
  {
  }

  lemma CorrectedIsLater(s: Session, code: nat, msgId: i64, env: Env)
    requires s.last % 4 == 0 && code != 32 && code != 33
    ensures Corrected(s, code, msgId, env).last >= s.last && Corrected(s, code, msgId, env).last % 4 == 0
  {
  }

  lemma {:induction false} DispatchDistinct(st: State, msg: Incoming, msgId: i64, env: Env)
    requires Distinct(st) && NoReset(msg)
    ensures Distinct(Dispatch(st, msg, msgId, env))
    decreases msg
  {
    match msg
    case Container(items) => DispatchItemsDistinct(st, items, env);
    case GzipPacked(Some(inner)) => DispatchDistinct(st, inner, msgId, env);
    case RpcResult(id, outcome) => ResolveDistinct(st, id, outcome);
    case Pong(id, body) => ResolveDistinct(st, id, Reply(body));
    case BadServerSalt(badId, _) => FewerInUse(st.requests, Requeue(st.requests, badId), st.session.last);
    case BadMsgNotification(badId, code) =>
      CorrectedIsLater(st.session, code, msgId, env);
      FewerInUse(st.requests, Requeue(st.requests, badId), st.session.last);
    case NewSession(_) => FewerInUse(st.requests, AllPending(st.requests), st.session.last);
    case _ =>
  }

  lemma {:induction false} DispatchItemsDistinct(st: State, items: Items, env: Env)
    requires Distinct(st) && NoResets(items)
    ensures Distinct(DispatchItems(st, items, env))
    decreases items
  {
    match items
    case Nil =>
    case Cons(id, msg, rest) =>
      DispatchDistinct(Acked(st, id), msg, id, env);
      DispatchItemsDistinct(Dispatch(Acked(st, id), msg, id, env), rest, env);
  }

  /** The steps that cannot make an id come back: the counter does not run out, the
      session does not start over, and a new session's counter is well formed. */
  ghost predicate Unrepeated(st: State, e: Event)
    requires Enabled(st, e)
  {
    match e
    case Filled(t, _) => st.head == |st.buf| ==> RoomToFill(st, t)
    case Received(_, msg, _) => NoReset(msg)
    case StreamSet(session) => session.last % 4 == 0
    case _ => true
  }

  lemma DoDistinct(st: State, e: Event)
    requires Distinct(st) && Inv(st) && Enabled(st, e) && Unrepeated(st, e)
    ensures Distinct(Do(st, e))
  {
    match e
    case Filled(t, pack) =>
      if st.head == |st.buf| {
        FillDistinct(st, t, pack);
      }
    case Received(msgId, msg, env) => DispatchDistinct(Acked(st, msgId), msg, msgId, env);
    case _ =>
  }

  ghost predicate NeverRepeats(st: State, es: seq<Event>)
    requires CanRun(st, es)
    decreases |es|
  {
    es == [] || (Unrepeated(st, es[0]) && NeverRepeats(Do(st, es[0]), es[1..]))
  }

  /** Over every run without a session reset the ids in use stay distinct. */
  lemma {:induction false} IdsStayDistinct(st: State, es: seq<Event>)
    requires Inv(st) && Distinct(st)
    requires CanRun(st, es) && NeverRepeats(st, es)
    ensures Distinct(Run(st, es))
    decreases |es|
  {
    if es != [] {
      DoKeeps(st, es[0]);
      DoDistinct(st, es[0]);
      IdsStayDistinct(Do(st, es[0]), es[1..]);
    }
  }

  // Replies

  /** A reply answers the one request that awaits its id. */
  lemma ReplyIsUnambiguous(st: State, i: nat, id: i64, outcome: Outcome)
    requires Distinct(st) && i < |st.requests| && Awaits(st.requests[i], id)
    ensures Resolve(st, id, outcome) == Answered(st, i, outcome)
  {
  }

  lemma {:induction false} InOrderAt(rs: seq<Request>, ms: seq<Inner>, containerId: i64, i: nat)
    requires |ms| == |PendingBodies(rs)| && i < |rs| && rs[i].state.Pending?
    ensures |PendingBodies(rs[..i])| < |ms| && |MarkInOrder(rs, ms, containerId)| == |rs|
    ensures MarkInOrder(rs, ms, containerId)[i]
            == rs[i].(state := Serialised(ms[|PendingBodies(rs[..i])|].msgId, containerId))
    decreases |rs|
  {
    InOrderLength(rs, ms, containerId);
    if i == 0 {
      assert rs[..i] == [];
    } else {
      assert rs[1..][..i - 1] == rs[..i][1..];
      InOrderAt(rs[1..], if rs[0].state.Pending? then ms[1..] else ms, containerId, i - 1);
    }
  }

  lemma {:induction false} InOrderLength(rs: seq<Request>, ms: seq<Inner>, containerId: i64)
    requires |ms| == |PendingBodies(rs)|
    ensures |MarkInOrder(rs, ms, containerId)| == |rs|
    decreases |rs|
  {
    if rs != [] {
      InOrderLength(rs[1..], if rs[0].state.Pending? then ms[1..] else ms, containerId);
    }
  }

  /** From queue to answer: fill, write the frame out, and a reply to the message made
      from a request answers that request and no other. */
  lemma ReplyReachesItsRequest(st: State, t: Clocks, pack: Packer, i: nat, outcome: Outcome)
    requires AreClocks(t) && PacksSomething(pack) && Inv(st) && Distinct(st)
    requires st.head == |st.buf| && RoomToFill(st, t)
    requires st.acks == [] || AckBody(st.acks) !in PendingBodies(st.requests)
    requires i < |st.requests| && st.requests[i].state.Pending?
    ensures var filled := Fill(st, t, pack);
            var sent := Wrote(filled, |filled.buf|);
            var k := |PendingBodies(st.requests[..i])|;
            && k < |Own(st, t)| && Own(st, t)[k].body == st.requests[i].body
            && i < |sent.requests| && sent.requests[i].tx == st.requests[i].tx
            && Resolve(sent, Own(st, t)[k].msgId, outcome) == Answered(sent, i, outcome)
  {
    var filled := Fill(st, t, pack);
    var sent := Wrote(filled, |filled.buf|);
    var k := |PendingBodies(st.requests[..i])|;
    FillKeeps(st, t, pack);
    FillDistinct(st, t, pack);
    MarkedByBodyIsMarkedByPosition(st, t, pack);
    InOrderAt(st.requests, Own(st, t), FrameId(st, t), i);
    OwnBodies(st, t);
    BodyAt(Own(st, t), k);
    PendingAt(st.requests, i);
    ReplyIsUnambiguous(sent, i, Own(st, t)[k].msgId, outcome);
  }

  lemma {:induction false} BodyAt(ms: seq<Inner>, k: nat)
    requires k < |ms|
    ensures BodiesOf(ms)[k] == ms[k].body
  {
    if k > 0 {
      BodyAt(ms[1..], k - 1);
    }
  }

  lemma {:induction false} PendingAt(rs: seq<Request>, i: nat)
    requires i < |rs| && rs[i].state.Pending?
    ensures |PendingBodies(rs[..i])| < |PendingBodies(rs)|
    ensures PendingBodies(rs)[|PendingBodies(rs[..i])|] == rs[i].body
    decreases |rs|
  {
    if i == 0 {
      assert rs[..i] == [];
    } else {
      assert rs[1..][..i - 1] == rs[..i][1..];
      PendingAt(rs[1..], i - 1);
    }
  }
}
