/** Handling one received payload (ferogram-mtsender's mtp_sender.rs): it is opened and
    checked, and its message acknowledged and dispatched; one that fails is refused. */
module Desks {
  import opened Wrappers
  import opened Bytes
  import opened Seal
  import opened Sessions
  import opened EncryptedSessions
  import opened SenderSteps
  import opened Inboxes

  /** What stays the same: the key, how bodies are read, and what the clock and the random
      source give when each payload is handled. */
  datatype Office = Office(c: Primitives, auth: AuthKey, parse: seq<byte> -> Incoming, envs: nat -> Env)

  /** The sender, the ids it has seen, and how many payloads it was given. */
  datatype Desk = Desk(st: State, seen: seq<i64>, count: nat)

  /** The message's body, read and dispatched. */
  function Admitted(o: Office, d: Desk, m: Message, seen: seq<i64>): Handled<Desk> {
    var env, msg := o.envs(d.count), o.parse(m.body);
    Handled(Desk(Receive(d.st, m.msgId, msg, env), seen, d.count + 1), UpdatesIn(msg), false)
  }

  function TurnedAway(d: Desk, seen: seq<i64>): Handled<Desk> {
    Handled(Desk(d.st, seen, d.count + 1), [], true)
  }

  function Handle(o: Office, d: Desk, frame: seq<byte>): Handled<Desk> {
    var secs := o.envs(d.count).secs;
    var seen := SeenBy(o.c, o.auth, d.st.session, d.seen, frame, secs);
    match OpenedMessage(o.c, o.auth, d.st.session, d.seen, frame, secs)
    case Err(_) => TurnedAway(d, seen)
    case Ok(m) => Admitted(o, d, m, seen)
  }

  function Handler(o: Office): Handling<Desk> {
    (d: Desk, frame: seq<byte>) => Handle(o, d, frame)
  }

  /** `h` handles as the office does, for use where what handling does is not looked at. */
  ghost predicate Does(h: Handling<Desk>, o: Office) {
    forall d, frame {:trigger Handle(o, d, frame)} :: h(d, frame) == Handle(o, d, frame)
  }

  // Messages by themselves

  /** What handling a message comes to, without the layers it came through. */
  function MessageTurn(o: Office, d: Desk, m: Message): Handled<Desk> {
    var secs := o.envs(d.count).secs;
    if Acceptable(d.st.session, d.seen, m, secs) then Admitted(o, d, m, Remember(d.seen, m.msgId))
    else TurnedAway(d, if Remembered(d.st.session, d.seen, m, secs) then Remember(d.seen, m.msgId) else d.seen)
  }

  function MessageHandler(o: Office): (Desk, Message) -> Handled<Desk> {
    (d: Desk, m: Message) => MessageTurn(o, d, m)
  }

  /** The desk after messages were handled in order. */
  function DeskAfter(o: Office, d: Desk, ms: seq<Message>): Desk {
    Fold(MessageHandler(o), d, ms).state
  }

  /** The `i`th message is acceptable when its turn comes. */
  predicate AcceptableAt(o: Office, d: Desk, ms: seq<Message>, i: nat)
    requires i < |ms|
  {
    var at := DeskAfter(o, d, ms[..i]);
    Acceptable(at.st.session, at.seen, ms[i], o.envs(at.count).secs)
  }

  predicate AllAcceptable(o: Office, d: Desk, ms: seq<Message>) {
    forall i :: 0 <= i < |ms| ==> AcceptableAt(o, d, ms, i)
  }

  /** `k` messages are acceptable in turn, and the next, if there is one, is not. */
  ghost predicate FirstRefused(o: Office, d: Desk, ms: seq<Message>, k: nat) {
    && k <= |ms| && (forall i :: 0 <= i < k ==> AcceptableAt(o, d, ms, i))
    && (k < |ms| ==> !AcceptableAt(o, d, ms, k))
  }

  lemma FoldSnoc<S, F>(h: (S, F) -> Handled<S>, s: S, items: seq<F>, x: F)
    ensures var f := Fold(h, s, items);
            Fold(h, s, items + [x])
            == if f.refused then f
               else var r := h(f.state, x);
                    if r.refused then Folded(|items|, r.state, f.updates, true)
                    else Folded(|items| + 1, r.state, f.updates + r.updates, false)
  {
    var f := Fold(h, s, items);
    FoldConcat(h, s, items, [x]);
    var r := h(f.state, x);
    assert [x][1..] == [];
    assert r.updates + [] == r.updates && f.updates + [] == f.updates;
  }

  /** The messages taken are those in front of the first that is not acceptable in turn. */
  lemma {:induction false} TakenExactlyWhen(o: Office, d: Desk, ms: seq<Message>)
    ensures FirstRefused(o, d, ms, Fold(MessageHandler(o), d, ms).taken)
    decreases |ms|
  {
    if ms != [] {
      var init, m := ms[..|ms| - 1], ms[|ms| - 1];
      assert ms == init + [m];
      TakenExactlyWhen(o, d, init);
      FoldSnoc(MessageHandler(o), d, init, m);
      forall i | 0 <= i < |init|
        ensures AcceptableAt(o, d, ms, i) <==> AcceptableAt(o, d, init, i)
      {
        assert ms[..i] == init[..i];
      }
    }
  }

  lemma AllTakenExactlyWhen(o: Office, d: Desk, ms: seq<Message>)
    ensures !Fold(MessageHandler(o), d, ms).refused <==> AllAcceptable(o, d, ms)
  {
    TakenExactlyWhen(o, d, ms);
  }

  function IdsOf(ms: seq<Message>): (r: seq<i64>)
    ensures |r| == |ms| && forall i :: 0 <= i < |ms| ==> r[i] == ms[i].msgId
  {
    seq(|ms|, i requires 0 <= i < |ms| => ms[i].msgId)
  }

  lemma {:induction false} RememberAllSnoc(seen: seq<i64>, ids: seq<i64>, id: i64)
    ensures RememberAll(seen, ids + [id]) == Remember(RememberAll(seen, ids), id)
    decreases |ids|
  {
    if ids == [] {
      assert [] + [id] == [id] && [id][1..] == [];
    } else {
      assert (ids + [id])[1..] == ids[1..] + [id];
      RememberAllSnoc(Remember(seen, ids[0]), ids[1..], id);
    }
  }

  /** The updates in messages, in order. */
  function UpdatesInAll(o: Office, ms: seq<Message>): seq<seq<byte>>
    decreases |ms|
  {
    if ms == [] then [] else UpdatesInAll(o, ms[..|ms| - 1]) + UpdatesIn(o.parse(ms[|ms| - 1].body))
  }

  /** Each message taken is remembered, once, in order, and so its updates come out. */
  lemma {:induction false} TakenAreRemembered(o: Office, d: Desk, ms: seq<Message>)
    requires AllAcceptable(o, d, ms)
    ensures Fold(MessageHandler(o), d, ms).updates == UpdatesInAll(o, ms)
    ensures DeskAfter(o, d, ms).seen == RememberAll(d.seen, IdsOf(ms)) && DeskAfter(o, d, ms).count == d.count + |ms|
    decreases |ms|
  {
    if ms != [] {
      var init, m := ms[..|ms| - 1], ms[|ms| - 1];
      assert ms == init + [m];
      forall i | 0 <= i < |init|
        ensures AcceptableAt(o, d, init, i)
      {
        assert ms[..i] == init[..i] && AcceptableAt(o, d, ms, i);
      }
      TakenAreRemembered(o, d, init);
      AllTakenExactlyWhen(o, d, init);
      FoldSnoc(MessageHandler(o), d, init, m);
      assert AcceptableAt(o, d, ms, |init|);
      assert IdsOf(ms) == IdsOf(init) + [m.msgId];
      RememberAllSnoc(d.seen, IdsOf(init), m.msgId);
    }
  }

  // Messages that leave session and clock alone

  /** No part of the message corrects the clock or starts the session over. */
  predicate Steady(msg: Incoming)
    decreases msg
  {
    match msg
    case Container(items) => SteadyItems(items)
    case GzipPacked(Some(inner)) => Steady(inner)
    case BadMsgNotification(_, code) => code !in {16, 17, 32, 33}
    case _ => true
  }

  predicate SteadyItems(items: Items)
    decreases items
  {
    match items
    case Nil => true
    case Cons(_, msg, rest) => Steady(msg) && SteadyItems(rest)
  }

  predicate SameChecks(s: Session, t: Session) {
    s.sessionId == t.sessionId && s.offset == t.offset
  }

  lemma {:induction false} SteadyKeeps(st: State, msg: Incoming, msgId: i64, env: Env)
    requires Steady(msg)
    ensures SameChecks(Dispatch(st, msg, msgId, env).session, st.session)
    decreases msg
  {
    match msg
    case Container(items) => SteadyItemsKeep(st, items, env);
    case GzipPacked(Some(inner)) => SteadyKeeps(st, inner, msgId, env);
    case _ =>
  }

  lemma {:induction false} SteadyItemsKeep(st: State, items: Items, env: Env)
    requires SteadyItems(items)
    ensures SameChecks(DispatchItems(st, items, env).session, st.session)
    decreases items
  {
    match items
    case Nil =>
    case Cons(id, msg, rest) =>
      SteadyKeeps(Acked(st, id), msg, id, env);
      SteadyItemsKeep(Dispatch(Acked(st, id), msg, id, env), rest, env);
  }

  /** The test on session, ids, lengths and clock readings alone. */
  predicate PlainlyAcceptable(o: Office, d: Desk, ms: seq<Message>) {
    forall i :: 0 <= i < |ms| ==>
      Acceptable(d.st.session, RememberAll(d.seen, IdsOf(ms[..i])), ms[i], o.envs(d.count + i).secs)
  }

  /** Where the desk stands before the `i`th message, if all before it are steady and taken. */
  lemma {:induction false} SteadyDesk(o: Office, d: Desk, ms: seq<Message>)
    requires AllAcceptable(o, d, ms) && forall i :: 0 <= i < |ms| ==> Steady(o.parse(ms[i].body))
    ensures SameChecks(DeskAfter(o, d, ms).st.session, d.st.session)
    decreases |ms|
  {
    if ms != [] {
      var init, m := ms[..|ms| - 1], ms[|ms| - 1];
      assert ms == init + [m];
      forall i | 0 <= i < |init|
        ensures AcceptableAt(o, d, init, i)
      {
        assert ms[..i] == init[..i] && AcceptableAt(o, d, ms, i);
      }
      SteadyDesk(o, d, init);
      AllTakenExactlyWhen(o, d, init);
      FoldSnoc(MessageHandler(o), d, init, m);
      assert AcceptableAt(o, d, ms, |init|);
      var at := DeskAfter(o, d, init);
      SteadyKeeps(Acked(at.st, m.msgId), o.parse(m.body), m.msgId, o.envs(at.count));
    }
  }

  lemma SteadyTurn(o: Office, d: Desk, ms: seq<Message>, i: nat)
    requires i < |ms| && AllAcceptable(o, d, ms[..i]) && forall j :: 0 <= j < |ms| ==> Steady(o.parse(ms[j].body))
    ensures AcceptableAt(o, d, ms, i)
            <==> Acceptable(d.st.session, RememberAll(d.seen, IdsOf(ms[..i])), ms[i], o.envs(d.count + i).secs)
  {
    SteadyDesk(o, d, ms[..i]);
    TakenAreRemembered(o, d, ms[..i]);
  }

  /** When no message corrects the clock or restarts the session, that test decides. */
  lemma SteadyTest(o: Office, d: Desk, ms: seq<Message>)
    requires forall j :: 0 <= j < |ms| ==> Steady(o.parse(ms[j].body))
    ensures AllAcceptable(o, d, ms) <==> PlainlyAcceptable(o, d, ms)
  {
    if AllAcceptable(o, d, ms) {
      forall i | 0 <= i < |ms|
        ensures Acceptable(d.st.session, RememberAll(d.seen, IdsOf(ms[..i])), ms[i], o.envs(d.count + i).secs)
      {
        StartAcceptable(o, d, ms, i);
        SteadyTurn(o, d, ms, i);
        assert AcceptableAt(o, d, ms, i);
      }
    }
    if PlainlyAcceptable(o, d, ms) {
      PlainSteps(o, d, ms, |ms|);
    }
  }

  lemma StartAcceptable(o: Office, d: Desk, ms: seq<Message>, n: nat)
    requires n <= |ms| && forall i :: 0 <= i < n ==> AcceptableAt(o, d, ms, i)
    ensures AllAcceptable(o, d, ms[..n])
  {
    forall i | 0 <= i < n
      ensures AcceptableAt(o, d, ms[..n], i)
    {
      assert ms[..n][..i] == ms[..i] && AcceptableAt(o, d, ms, i);
    }
  }

  lemma {:induction false} PlainSteps(o: Office, d: Desk, ms: seq<Message>, n: nat)
    requires n <= |ms| && PlainlyAcceptable(o, d, ms) && forall j :: 0 <= j < |ms| ==> Steady(o.parse(ms[j].body))
    ensures forall i :: 0 <= i < n ==> AcceptableAt(o, d, ms, i)
  {
    if n > 0 {
      PlainSteps(o, d, ms, n - 1);
      StartAcceptable(o, d, ms, n - 1);
      SteadyTurn(o, d, ms, n - 1);
    }
  }

  /** A message that comes again is refused, whatever the first one did. */
  lemma RepeatedIsRefused(o: Office, d: Desk, m: Message, later: seq<Message>)
    requires IsRing(d.seen) && Acceptable(d.st.session, d.seen, m, o.envs(d.count).secs)
    ensures Fold(MessageHandler(o), d, [m, m] + later).taken == 1
  {
    var r := MessageTurn(o, d, m);
    assert ([m, m] + later)[1..] == [m] + later && ([m] + later)[1..] == later;
    var ring := Remember(d.seen, m.msgId);
    assert ring[|ring| - 1] == m.msgId;
    assert m.msgId in r.state.seen;
    assert Fold(MessageHandler(o), r.state, [m] + later).taken == 0;
  }
}
