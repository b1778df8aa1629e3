/** What every run of the sender keeps: each request is answered at most once and never
    lost, the queue stays in order, and nothing written out is still called serialised. */
module SenderRuns {
  import opened Bytes
  import opened Sessions
  import opened Containers
  import opened Requests
  import opened SenderSteps

  datatype Event =
    | Enqueued(body: seq<byte>)
    | Filled(t: Clocks, pack: Packer)
    | Written(n: nat)
    | Received(msgId: i64, msg: Incoming, env: Env)
    | Failed(code: int)
    | StreamSet(session: Session)

  /** A write moves at most the bytes that were left; a fill has readings of the clock,
      and a packer, which may differ from fill to fill. */
  ghost predicate Enabled(st: State, e: Event) {
    match e
    case Filled(t, pack) => AreClocks(t) && PacksSomething(pack)
    case Written(n) => st.head < |st.buf| && st.head + n <= |st.buf|
    case _ => true
  }

  ghost function Do(st: State, e: Event): State
    requires Enabled(st, e)
  {
    match e
    case Enqueued(body) => Enqueue(st, body)
    case Filled(t, pack) => Fill(st, t, pack)
    case Written(n) => Wrote(st, n)
    case Received(msgId, msg, env) => Receive(st, msgId, msg, env)
    case Failed(code) => FailAll(st, code)
    case StreamSet(session) => SetStream(st, session)
  }

  // The invariant

  ghost predicate Queued(rs: seq<Request>, tx: nat) {
    exists i :: 0 <= i < |rs| && rs[i].tx == tx
  }

  ghost predicate HasAnswer(answers: seq<Answer>, tx: nat) {
    exists i :: 0 <= i < |answers| && answers[i].tx == tx
  }

  ghost predicate InOrder(rs: seq<Request>) {
    forall i, j :: 0 <= i < j < |rs| ==> rs[i].tx < rs[j].tx
  }

  ghost predicate AtMostOnce(answers: seq<Answer>) {
    forall i, j :: 0 <= i < j < |answers| ==> answers[i].tx != answers[j].tx
  }

  /** Every request ever enqueued is either still queued, in order of arrival, or was
      answered, once. */
  ghost predicate Conserved(rs: seq<Request>, answers: seq<Answer>, enqueued: nat) {
    && InOrder(rs) && AtMostOnce(answers)
    && (forall tx: nat :: Queued(rs, tx) || HasAnswer(answers, tx) <==> tx < enqueued)
    && (forall tx: nat :: !(Queued(rs, tx) && HasAnswer(answers, tx)))
  }

  predicate NoneSerialised(rs: seq<Request>) {
    forall i :: 0 <= i < |rs| ==> !rs[i].state.Serialised?
  }

  ghost predicate Inv(st: State) {
    && Conserved(st.requests, st.answers, st.enqueued)
    && st.head <= |st.buf| && (st.head == |st.buf| ==> NoneSerialised(st.requests))
    && st.resends == []
  }

  /** The same calls in the same places; only their states may differ. */
  ghost predicate SameCalls(a: seq<Request>, b: seq<Request>) {
    |a| == |b| && forall i :: 0 <= i < |a| ==> a[i].tx == b[i].tx && a[i].body == b[i].body
  }

  lemma SameCallsConserved(a: seq<Request>, b: seq<Request>, answers: seq<Answer>, enqueued: nat)
    requires SameCalls(a, b) && Conserved(a, answers, enqueued)
    ensures Conserved(b, answers, enqueued)
  {
    assert forall tx: nat :: Queued(a, tx) <==> Queued(b, tx) by {
      forall tx: nat
        ensures Queued(a, tx) <==> Queued(b, tx)
      {
        if Queued(a, tx) {
          var i :| 0 <= i < |a| && a[i].tx == tx;
          assert b[i].tx == tx;
        }
        if Queued(b, tx) {
          var i :| 0 <= i < |b| && b[i].tx == tx;
          assert a[i].tx == tx;
        }
      }
    }
  }

  lemma HasMore(answers: seq<Answer>, a: Answer, tx: nat)
    ensures HasAnswer(answers + [a], tx) <==> HasAnswer(answers, tx) || a.tx == tx
  {
    if HasAnswer(answers, tx) {
      var i :| 0 <= i < |answers| && answers[i].tx == tx;
      assert (answers + [a])[i].tx == tx;
    }
    assert (answers + [a])[|answers|] == a;
  }

  lemma QueuedWithout(rs: seq<Request>, i: nat, tx: nat)
    requires i < |rs| && InOrder(rs)
    ensures Queued(rs[..i] + rs[i + 1..], tx) <==> Queued(rs, tx) && tx != rs[i].tx
  {
    var left := rs[..i] + rs[i + 1..];
    if Queued(rs, tx) && tx != rs[i].tx {
      var k :| 0 <= k < |rs| && rs[k].tx == tx;
      assert left[if k < i then k else k - 1].tx == tx;
    }
    if Queued(left, tx) {
      var k :| 0 <= k < |left| && left[k].tx == tx;
      assert rs[if k < i then k else k + 1].tx == tx;
    }
  }

  lemma WithoutInOrder(rs: seq<Request>, i: nat)
    requires i < |rs| && InOrder(rs)
    ensures InOrder(rs[..i] + rs[i + 1..])
  {
    var left := rs[..i] + rs[i + 1..];
    assert forall k :: 0 <= k < |left| ==> left[k] == rs[if k < i then k else k + 1];
  }

  lemma OneMoreAtMostOnce(answers: seq<Answer>, a: Answer)
    requires AtMostOnce(answers) && !HasAnswer(answers, a.tx)
    ensures AtMostOnce(answers + [a])
  {
    forall k | 0 <= k < |answers|
      ensures answers[k].tx != a.tx
    {
      assert answers[k].tx == a.tx ==> HasAnswer(answers, a.tx);
    }
  }

  /** For each call, before and after one request is answered. */
  lemma AnsweredAt(rs: seq<Request>, answers: seq<Answer>, i: nat, a: Answer, tx: nat)
    requires i < |rs| && InOrder(rs) && a.tx == rs[i].tx
    requires !(Queued(rs, tx) && HasAnswer(answers, tx))
    ensures var left, more := rs[..i] + rs[i + 1..], answers + [a];
            && (Queued(left, tx) || HasAnswer(more, tx) <==> Queued(rs, tx) || HasAnswer(answers, tx))
            && !(Queued(left, tx) && HasAnswer(more, tx))
  {
    HasMore(answers, a, tx);
    QueuedWithout(rs, i, tx);
    assert tx == rs[i].tx ==> Queued(rs, tx);
  }

  /** Answering one request moves it from the queue to the answers. */
  lemma AnsweredConserves(rs: seq<Request>, answers: seq<Answer>, enqueued: nat, i: nat, outcome: Outcome)
    requires Conserved(rs, answers, enqueued) && i < |rs|
    ensures Conserved(rs[..i] + rs[i + 1..], answers + [Answer(rs[i].tx, outcome)], enqueued)
  {
    var a := Answer(rs[i].tx, outcome);
    assert Queued(rs, rs[i].tx);
    WithoutInOrder(rs, i);
    OneMoreAtMostOnce(answers, a);
    forall tx: nat
      ensures var left, more := rs[..i] + rs[i + 1..], answers + [a];
              && (Queued(left, tx) || HasAnswer(more, tx) <==> Queued(rs, tx) || HasAnswer(answers, tx))
              && !(Queued(left, tx) && HasAnswer(more, tx))
    {
      AnsweredAt(rs, answers, i, a, tx);
    }
  }

  lemma EnqueueConserves(rs: seq<Request>, answers: seq<Answer>, enqueued: nat, body: seq<byte>)
    requires Conserved(rs, answers, enqueued)
    ensures Conserved(rs + [Request(body, Pending, enqueued)], answers, enqueued + 1)
  {
    var r := Request(body, Pending, enqueued);
    forall i | 0 <= i < |rs|
      ensures rs[i].tx < enqueued
    {
      assert Queued(rs, rs[i].tx);
    }
    forall tx: nat
      ensures Queued(rs + [r], tx) <==> Queued(rs, tx) || tx == enqueued
    {
      if Queued(rs, tx) {
        var i :| 0 <= i < |rs| && rs[i].tx == tx;
        assert (rs + [r])[i].tx == tx;
      }
      assert (rs + [r])[|rs|] == r;
    }
  }

  /** Failing everything answers the whole queue. */
  lemma FailAllConserves(rs: seq<Request>, answers: seq<Answer>, enqueued: nat, code: int)
    requires Conserved(rs, answers, enqueued)
    ensures Conserved([], answers + FailedAnswers(rs, code), enqueued)
  {
    var more := FailedAnswers(rs, code);
    forall tx: nat
      ensures HasAnswer(answers + more, tx) <==> HasAnswer(answers, tx) || Queued(rs, tx)
    {
      if HasAnswer(answers, tx) {
        var i :| 0 <= i < |answers| && answers[i].tx == tx;
        assert (answers + more)[i].tx == tx;
      }
      if Queued(rs, tx) {
        var i :| 0 <= i < |rs| && rs[i].tx == tx;
        assert (answers + more)[|answers| + i].tx == tx;
      }
    }
    forall i, k | 0 <= i < |answers| && 0 <= k < |rs|
      ensures answers[i].tx != more[k].tx
    {
      assert HasAnswer(answers, answers[i].tx) && Queued(rs, rs[k].tx);
    }
  }

  // Each step keeps the invariant

  lemma {:induction false} MarkFirstSameCalls(rs: seq<Request>, m: Inner, containerId: i64)
    ensures SameCalls(rs, MarkFirst(rs, m, containerId))
  {
    if rs != [] {
      MarkFirstSameCalls(rs[1..], m, containerId);
    }
  }

  lemma {:induction false} MarkAllSameCalls(rs: seq<Request>, ms: seq<Inner>, containerId: i64)
    ensures SameCalls(rs, MarkAll(rs, ms, containerId))
    decreases |ms|
  {
    if ms != [] {
      MarkFirstSameCalls(rs, ms[0], containerId);
      MarkAllSameCalls(MarkFirst(rs, ms[0], containerId), ms[1..], containerId);
    }
  }

  lemma FillKeeps(st: State, t: Clocks, pack: Packer)
    requires Inv(st) && AreClocks(t) && PacksSomething(pack)
    ensures Inv(Fill(st, t, pack))
  {
    var outs := Collect(st);
    var next := Fill(st, t, pack);
    if st.head == |st.buf| && |outs| == 1 {
      var a := Alloc(st.session, outs[0].content, t(0));
      MarkFirstSameCalls(st.requests, Inner(a.id, a.seqno, outs[0].body), a.id);
    } else if st.head == |st.buf| && |outs| > 1 {
      var n := Number(st.session, outs, t, 0);
      MarkAllSameCalls(st.requests, n.ms, Alloc(n.s, false, t(|outs|)).id);
    }
    assert SameCalls(st.requests, next.requests);
    SameCallsConserved(st.requests, next.requests, st.answers, st.enqueued);
  }

  lemma AnsweredKeeps(st: State, i: nat, outcome: Outcome)
    requires Inv(st) && i < |st.requests|
    ensures Inv(Answered(st, i, outcome))
  {
    AnsweredConserves(st.requests, st.answers, st.enqueued, i, outcome);
  }

  lemma ResolveKeeps(st: State, id: i64, outcome: Outcome)
    requires Inv(st)
    ensures Inv(Resolve(st, id, outcome))
  {
    var i, j := FirstAwaiting(st.requests, id), FirstAwaitingIn(st.requests, id);
    if i < |st.requests| {
      AnsweredKeeps(st, i, outcome);
    } else if j < |st.requests| {
      AnsweredKeeps(st, j, outcome);
    }
  }

  lemma RelabelKeeps(st: State, next: State)
    requires Inv(st) && SameCalls(st.requests, next.requests)
    requires next.answers == st.answers && next.enqueued == st.enqueued && next.resends == st.resends
    requires next.head <= |next.buf| && (next.head == |next.buf| ==> NoneSerialised(next.requests))
    ensures Inv(next)
  {
    SameCallsConserved(st.requests, next.requests, st.answers, st.enqueued);
  }

  lemma {:induction false} DispatchKeeps(st: State, msg: Incoming, msgId: i64, env: Env)
    requires Inv(st)
    ensures Inv(Dispatch(st, msg, msgId, env))
    decreases msg
  {
    match msg
    case Short =>
    case RpcResult(id, outcome) => ResolveKeeps(st, id, outcome);
    case Container(items) => DispatchItemsKeeps(st, items, env);
    case GzipPacked(None) =>
    case GzipPacked(Some(inner)) => DispatchKeeps(st, inner, msgId, env);
    case BadServerSalt(badId, salt) => RelabelKeeps(st, Dispatch(st, msg, msgId, env));
    case BadMsgNotification(badId, code) => RelabelKeeps(st, Dispatch(st, msg, msgId, env));
    case NewSession(salt) => RelabelKeeps(st, Dispatch(st, msg, msgId, env));
    case MsgsAck =>
    case Pong(id, body) => ResolveKeeps(st, id, Reply(body));
    case Other(body) =>
  }

  lemma {:induction false} DispatchItemsKeeps(st: State, items: Items, env: Env)
    requires Inv(st)
    ensures Inv(DispatchItems(st, items, env))
    decreases items
  {
    match items
    case Nil =>
    case Cons(id, msg, rest) =>
      DispatchKeeps(Acked(st, id), msg, id, env);
      DispatchItemsKeeps(Dispatch(Acked(st, id), msg, id, env), rest, env);
  }

  lemma DoKeeps(st: State, e: Event)
    requires Inv(st) && Enabled(st, e)
    ensures Inv(Do(st, e))
  {
    match e
    case Enqueued(body) => EnqueueConserves(st.requests, st.answers, st.enqueued, body);
    case Filled(t, pack) => FillKeeps(st, t, pack);
    case Written(n) => RelabelKeeps(st, Wrote(st, n));
    case Received(msgId, msg, env) => DispatchKeeps(Acked(st, msgId), msg, msgId, env);
    case Failed(code) => FailAllConserves(st.requests, st.answers, st.enqueued, code);
    case StreamSet(session) => RelabelKeeps(st, SetStream(st, session));
  }

  // Runs

  ghost predicate CanRun(st: State, es: seq<Event>)
    decreases |es|
  {
    es == [] || (Enabled(st, es[0]) && CanRun(Do(st, es[0]), es[1..]))
  }

  ghost function Run(st: State, es: seq<Event>): State
    requires CanRun(st, es)
    decreases |es|
  {
    if es == [] then st else Run(Do(st, es[0]), es[1..])
  }

  lemma {:induction false} RunKeeps(st: State, es: seq<Event>)
    requires Inv(st) && CanRun(st, es)
    ensures Inv(Run(st, es))
    decreases |es|
  {
    if es != [] {
      DoKeeps(st, es[0]);
      RunKeeps(Do(st, es[0]), es[1..]);
    }
  }

  /** After any run from a new sender: every request enqueued is queued or answered, not
      both; answered at most once; queued in order of arrival; and with no bytes left to
      write, no request is still marked as serialised. */
  lemma RequestsAreConserved(session: Session, es: seq<Event>)
    requires CanRun(Fresh(session), es)
    ensures var st := Run(Fresh(session), es);
            && Conserved(st.requests, st.answers, st.enqueued)
            && (st.head == |st.buf| ==> NoneSerialised(st.requests))
  {
    assert Inv(Fresh(session)) by {
      assert forall tx: nat :: !Queued([], tx) && !HasAnswer([], tx);
    }
    RunKeeps(Fresh(session), es);
  }
}
