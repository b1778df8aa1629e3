/** The sender as a state machine: what each of its steps does to the requests, the
    buffers and the session (ferogram-mtsender's mtp_sender.rs). */
module SenderSteps {
  import opened Wrappers
  import opened Bytes
  import opened Sessions
  import opened Containers
  import opened Requests

  datatype Outcome = Reply(result: seq<byte>) | Failure(code: int)

  datatype Answer = Answer(tx: nat, outcome: Outcome)

  datatype State = State(
    requests: seq<Request>, acks: seq<i64>, resends: seq<seq<byte>>,
    buf: seq<byte>, head: nat, session: Session,
    enqueued: nat, answers: seq<Answer>, delivered: seq<seq<byte>>)

  /** One frame: a lone message, or several in a container with an id of its own. */
  datatype Outbound = Single(m: Inner) | Wrapped(id: i64, seqno: int, ms: seq<Inner>)

  /** How an outbound becomes wire bytes; no frame is empty. */
  type Packer = Outbound -> seq<byte>

  ghost predicate PacksSomething(pack: Packer) {
    forall o :: pack(o) != []
  }

  /** The clock readings of one step, in order. */
  type Clocks = nat -> Clock

  ghost predicate AreClocks(t: Clocks) {
    forall k :: IsClock(t(k))
  }

  // Filling the write buffer

  datatype Outgoing = Outgoing(body: seq<byte>, content: bool)

  const MSGS_ACK: seq<byte> := [0x59, 0xb4, 0xd6, 0x62, 0x15, 0xc4, 0xb5, 0x1c]

  function AllIds(ids: seq<i64>): seq<byte> {
    if ids == [] then [] else Le64(ids[0]) + AllIds(ids[1..])
  }

  function AckBody(ids: seq<i64>): seq<byte> {
    MSGS_ACK + ToLe32(|ids| % U32) + AllIds(ids)
  }

  function AsContent(bodies: seq<seq<byte>>): (r: seq<Outgoing>)
    ensures |r| == |bodies|
  {
    if bodies == [] then [] else [Outgoing(bodies[0], true)] + AsContent(bodies[1..])
  }

  function AckMessages(acks: seq<i64>): seq<Outgoing> {
    if acks == [] then [] else [Outgoing(AckBody(acks), false)]
  }

  /** What the next frame carries: acknowledgements, resends, pending requests. */
  function Collect(st: State): seq<Outgoing> {
    AckMessages(st.acks) + AsContent(st.resends) + AsContent(PendingBodies(st.requests))
  }

  datatype Numbered = Numbered(ms: seq<Inner>, s: Session)

  /** Ids and sequence numbers for a list of messages, from the `k`th clock reading on. */
  ghost function Number(s: Session, outs: seq<Outgoing>, t: Clocks, k: nat): (r: Numbered)
    requires AreClocks(t)
    ensures |r.ms| == |outs|
    decreases |outs|
  {
    if outs == [] then Numbered([], s)
    else
      var a := Alloc(s, outs[0].content, t(k));
      var rest := Number(a.s, outs[1..], t, k + 1);
      Numbered([Inner(a.id, a.seqno, outs[0].body)] + rest.ms, rest.s)
  }

  function Emptied(st: State): State {
    st.(buf := [], head := 0, acks := [], resends := [])
  }

  ghost function FillSingle(st: State, o: Outgoing, t: Clocks, pack: Packer): State
    requires AreClocks(t)
  {
    var a := Alloc(st.session, o.content, t(0));
    var m := Inner(a.id, a.seqno, o.body);
    Emptied(st).(session := a.s, requests := MarkFirst(st.requests, m, a.id), buf := pack(Single(m)))
  }

  ghost function FillWrapped(st: State, outs: seq<Outgoing>, t: Clocks, pack: Packer): State
    requires AreClocks(t)
  {
    var n := Number(st.session, outs, t, 0);
    var a := Alloc(n.s, false, t(|outs|));
    Emptied(st).(session := a.s, requests := MarkAll(st.requests, n.ms, a.id), buf := pack(Wrapped(a.id, a.seqno, n.ms)))
  }

  /** Packs everything waiting into one frame, once the last one is written. */
  ghost function Fill(st: State, t: Clocks, pack: Packer): State
    requires AreClocks(t)
  {
    if st.head < |st.buf| then st
    else
      var outs := Collect(st);
      if outs == [] then Emptied(st)
      else if |outs| == 1 then FillSingle(st, outs[0], t, pack)
      else FillWrapped(st, outs, t, pack)
  }

  // Writing

  function SentNow(r: Request): Request {
    if r.state.Serialised? then r.(state := Sent(r.state.msgId, r.state.containerId)) else r
  }

  function AllSent(rs: seq<Request>): (r: seq<Request>)
    ensures |r| == |rs| && forall i :: 0 <= i < |rs| ==> r[i] == SentNow(rs[i])
  {
    seq(|rs|, i requires 0 <= i < |rs| => SentNow(rs[i]))
  }

  function Wrote(st: State, n: nat): State {
    if st.head + n < |st.buf| then st.(head := st.head + n)
    else st.(buf := [], head := 0, requests := AllSent(st.requests))
  }

  // Answering

  predicate Awaits(r: Request, id: i64) {
    r.state.Sent? && r.state.msgId == id
  }

  predicate AwaitsIn(r: Request, id: i64) {
    r.state.Sent? && r.state.containerId == id
  }

  /** The first request that awaits `id`; if none, `|rs|`. */
  function FirstAwaiting(rs: seq<Request>, id: i64): (i: nat)
    ensures i <= |rs| && (i < |rs| ==> Awaits(rs[i], id))
    ensures forall j :: 0 <= j < i ==> !Awaits(rs[j], id)
  {
    if rs == [] || Awaits(rs[0], id) then 0 else 1 + FirstAwaiting(rs[1..], id)
  }

  function FirstAwaitingIn(rs: seq<Request>, id: i64): (i: nat)
    ensures i <= |rs| && (i < |rs| ==> AwaitsIn(rs[i], id))
    ensures forall j :: 0 <= j < i ==> !AwaitsIn(rs[j], id)
  {
    if rs == [] || AwaitsIn(rs[0], id) then 0 else 1 + FirstAwaitingIn(rs[1..], id)
  }

  function Answered(st: State, i: nat, outcome: Outcome): State
    requires i < |st.requests|
  {
    st.(requests := st.requests[..i] + st.requests[i + 1..],
        answers := st.answers + [Answer(st.requests[i].tx, outcome)])
  }

  function Resolve(st: State, id: i64, outcome: Outcome): State {
    var i := FirstAwaiting(st.requests, id);
    if i < |st.requests| then Answered(st, i, outcome)
    else
      var j := FirstAwaitingIn(st.requests, id);
      if j < |st.requests| then Answered(st, j, outcome) else st
  }

  /** The first request sent or written under `id` goes back to the queue. */
  function Requeue(rs: seq<Request>, id: i64): (r: seq<Request>)
    ensures |r| == |rs|
    ensures forall i :: 0 <= i < |rs| ==> r[i] == rs[i] || (Carries(rs[i], id) && r[i] == rs[i].(state := Pending))
  {
    if rs == [] then []
    else if Carries(rs[0], id) then [rs[0].(state := Pending)] + rs[1..]
    else [rs[0]] + Requeue(rs[1..], id)
  }

  function AllPending(rs: seq<Request>): (r: seq<Request>)
    ensures |r| == |rs| && forall i :: 0 <= i < |rs| ==> r[i] == rs[i].(state := Pending)
  {
    seq(|rs|, i requires 0 <= i < |rs| => rs[i].(state := Pending))
  }

  // Received messages, parsed

  datatype Incoming =
    | Short
    | RpcResult(reqId: i64, outcome: Outcome)
    | Container(items: Items)
    | GzipPacked(inner: Option<Incoming>)
    | BadServerSalt(badId: i64, salt: i64)
    | BadMsgNotification(badId: i64, code: nat)
    | NewSession(salt: i64)
    | MsgsAck
    | Pong(reqId: i64, body: seq<byte>)
    | Other(body: seq<byte>)

  datatype Items = Nil | Cons(id: i64, msg: Incoming, rest: Items)

  /** The updates in a message: what of it is not for the sender itself, in order. */
  function UpdatesIn(msg: Incoming): seq<seq<byte>>
    decreases msg
  {
    match msg
    case Container(items) => UpdatesAmong(items)
    case GzipPacked(Some(inner)) => UpdatesIn(inner)
    case Other(body) => [body]
    case _ => []
  }

  function UpdatesAmong(items: Items): seq<seq<byte>>
    decreases items
  {
    match items
    case Nil => []
    case Cons(_, msg, rest) => UpdatesIn(msg) + UpdatesAmong(rest)
  }

  /** The wall clock and the random number a dispatch draws. */
  datatype Env = Env(secs: nat, random: i64)

  function Acked(st: State, id: i64): State {
    if id % 2 == 1 then st.(acks := st.acks + [id]) else st
  }

  function Resent(st: State, badId: i64): State {
    st.(requests := Requeue(st.requests, badId))
  }

  function Corrected(s: Session, code: nat, msgId: i64, env: Env): Session {
    if code == 16 || code == 17 then CorrectTimeOffset(s, msgId, env.secs)
    else if code == 32 || code == 33 then ResetSession(s, env.random)
    else s
  }

  function Dispatch(st: State, msg: Incoming, msgId: i64, env: Env): State
    decreases msg
  {
    match msg
    case Short => st
    case RpcResult(id, outcome) => Resolve(st, id, outcome)
    case Container(items) => DispatchItems(st, items, env)
    case GzipPacked(None) => st
    case GzipPacked(Some(inner)) => Dispatch(st, inner, msgId, env)
    case BadServerSalt(badId, salt) => Resent(st.(session := st.session.(salt := salt)), badId)
    case BadMsgNotification(badId, code) =>
      Resent(st.(session := Corrected(st.session, code, msgId, env)), badId)
    case NewSession(salt) => st.(session := st.session.(salt := salt), requests := AllPending(st.requests))
    case MsgsAck => st
    case Pong(id, body) => Resolve(st, id, Reply(body))
    case Other(body) => st.(delivered := st.delivered + [body])
  }

  function DispatchItems(st: State, items: Items, env: Env): State
    decreases items
  {
    match items
    case Nil => st
    case Cons(id, msg, rest) => DispatchItems(Dispatch(Acked(st, id), msg, id, env), rest, env)
  }

  function Receive(st: State, msgId: i64, msg: Incoming, env: Env): State {
    Dispatch(Acked(st, msgId), msg, msgId, env)
  }

  // The other steps

  function Enqueue(st: State, body: seq<byte>): State {
    st.(requests := st.requests + [Request(body, Pending, st.enqueued)], enqueued := st.enqueued + 1)
  }

  function FailedAnswers(rs: seq<Request>, code: int): (r: seq<Answer>)
    ensures |r| == |rs| && forall i :: 0 <= i < |rs| ==> r[i] == Answer(rs[i].tx, Failure(code))
  {
    seq(|rs|, i requires 0 <= i < |rs| => Answer(rs[i].tx, Failure(code)))
  }

  function FailAll(st: State, code: int): State {
    Emptied(st).(requests := [], answers := st.answers + FailedAnswers(st.requests, code))
  }

  function SetStream(st: State, session: Session): State {
    Emptied(st).(session := session, requests := AllPending(st.requests))
  }

  function Fresh(session: Session): State {
    State([], [], [], [], 0, session, 0, [], [])
  }
}
