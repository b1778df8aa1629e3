/** The sender's request queue (ferogram-mtsender's mtp_sender.rs): how requests get
    their message ids, are sent, answered, and queued again. */
module Requests {
  import opened Bytes
  import opened Sessions
  import opened Containers

  datatype MsgState = Pending | Serialised(msgId: i64, containerId: i64) | Sent(msgId: i64, containerId: i64)

  /** `tx` tells the callers' channels apart: the number of requests enqueued before. */
  datatype Request = Request(body: seq<byte>, state: MsgState, tx: nat)

  predicate Takes(r: Request, body: seq<byte>) {
    r.state.Pending? && r.body == body
  }

  /** Marks the first pending request with the message's body. */
  function MarkFirst(rs: seq<Request>, m: Inner, containerId: i64): seq<Request> {
    if rs == [] then []
    else if Takes(rs[0], m.body) then [rs[0].(state := Serialised(m.msgId, containerId))] + rs[1..]
    else [rs[0]] + MarkFirst(rs[1..], m, containerId)
  }

  function MarkAll(rs: seq<Request>, ms: seq<Inner>, containerId: i64): seq<Request>
    decreases |ms|
  {
    if ms == [] then rs else MarkAll(MarkFirst(rs, ms[0], containerId), ms[1..], containerId)
  }

  function PendingBodies(rs: seq<Request>): seq<seq<byte>> {
    if rs == [] then []
    else if rs[0].state.Pending? then [rs[0].body] + PendingBodies(rs[1..])
    else PendingBodies(rs[1..])
  }

  function BodiesOf(ms: seq<Inner>): (r: seq<seq<byte>>)
    ensures |r| == |ms|
  {
    if ms == [] then [] else [ms[0].body] + BodiesOf(ms[1..])
  }

  /** The reference: the pending requests take the messages in order. */
  function MarkInOrder(rs: seq<Request>, ms: seq<Inner>, containerId: i64): seq<Request>
    requires |ms| == |PendingBodies(rs)|
    decreases |rs|
  {
    if rs == [] then []
    else if rs[0].state.Pending? then
      [rs[0].(state := Serialised(ms[0].msgId, containerId))] + MarkInOrder(rs[1..], ms[1..], containerId)
    else [rs[0]] + MarkInOrder(rs[1..], ms, containerId)
  }

  lemma {:induction false} HeadStays(r: Request, rs: seq<Request>, ms: seq<Inner>, containerId: i64)
    requires !r.state.Pending?
    ensures MarkAll([r] + rs, ms, containerId) == [r] + MarkAll(rs, ms, containerId)
    decreases |ms|
  {
    if ms != [] {
      assert ([r] + rs)[1..] == rs;
      HeadStays(r, MarkFirst(rs, ms[0], containerId), ms[1..], containerId);
    }
  }

  /** Marking by body gives every request the message made for it, even when several
      requests have the same body. */
  lemma {:induction false} ByBodyIsByPosition(rs: seq<Request>, ms: seq<Inner>, containerId: i64)
    requires BodiesOf(ms) == PendingBodies(rs)
    ensures |ms| == |PendingBodies(rs)| && MarkAll(rs, ms, containerId) == MarkInOrder(rs, ms, containerId)
    decreases |rs|
  {
    assert |BodiesOf(ms)| == |ms|;
    if rs == [] {
      assert ms == [];
    } else if rs[0].state.Pending? {
      var marked := rs[0].(state := Serialised(ms[0].msgId, containerId));
      assert BodiesOf(ms[1..]) == BodiesOf(ms)[1..] == PendingBodies(rs[1..]);
      HeadStays(marked, rs[1..], ms[1..], containerId);
      ByBodyIsByPosition(rs[1..], ms[1..], containerId);
    } else {
      assert rs == [rs[0]] + rs[1..];
      HeadStays(rs[0], rs[1..], ms, containerId);
      ByBodyIsByPosition(rs[1..], ms, containerId);
    }
  }

  lemma {:induction false} NothingTakes(rs: seq<Request>, m: Inner, containerId: i64)
    requires m.body !in PendingBodies(rs)
    ensures MarkFirst(rs, m, containerId) == rs
  {
    if rs != [] {
      if rs[0].state.Pending? {
        assert PendingBodies(rs)[0] == rs[0].body;
      }
      assert forall b :: b in PendingBodies(rs[1..]) ==> b in PendingBodies(rs);
      NothingTakes(rs[1..], m, containerId);
      assert rs == [rs[0]] + rs[1..];
    }
  }

  // Which requests carry an id

  predicate Carries(r: Request, id: i64) {
    !r.state.Pending? && r.state.msgId == id
  }

  ghost predicate HasId(rs: seq<Request>, id: i64) {
    exists i :: 0 <= i < |rs| && Carries(rs[i], id)
  }

  lemma {:induction false} MarkFirstCarries(rs: seq<Request>, m: Inner, containerId: i64)
    ensures |MarkFirst(rs, m, containerId)| == |rs|
    ensures forall i :: 0 <= i < |rs| && !rs[i].state.Pending? ==> MarkFirst(rs, m, containerId)[i] == rs[i]
    ensures m.body in PendingBodies(rs) ==> HasId(MarkFirst(rs, m, containerId), m.msgId)
  {
    if rs != [] {
      MarkFirstCarries(rs[1..], m, containerId);
      var rest := MarkFirst(rs[1..], m, containerId);
      if Takes(rs[0], m.body) {
        assert Carries(MarkFirst(rs, m, containerId)[0], m.msgId);
      } else if m.body in PendingBodies(rs) {
        assert m.body in PendingBodies(rs[1..]);
        var i :| 0 <= i < |rest| && Carries(rest[i], m.msgId);
        assert Carries(([rs[0]] + rest)[i + 1], m.msgId);
      }
    }
  }

  lemma {:induction false} MarkAllKeeps(rs: seq<Request>, ms: seq<Inner>, containerId: i64, id: i64)
    requires HasId(rs, id)
    ensures HasId(MarkAll(rs, ms, containerId), id)
    decreases |ms|
  {
    if ms != [] {
      MarkFirstCarries(rs, ms[0], containerId);
      var i :| 0 <= i < |rs| && Carries(rs[i], id);
      assert Carries(MarkFirst(rs, ms[0], containerId)[i], id);
      MarkAllKeeps(MarkFirst(rs, ms[0], containerId), ms[1..], containerId, id);
    }
  }

  lemma {:induction false} InOrderCarries(rs: seq<Request>, ms: seq<Inner>, containerId: i64, id: i64)
    requires |ms| == |PendingBodies(rs)| && !HasId(rs, id)
    requires forall k :: 0 <= k < |ms| ==> ms[k].msgId != id
    ensures !HasId(MarkInOrder(rs, ms, containerId), id)
    decreases |rs|
  {
    if rs != [] {
      assert forall i :: 0 <= i < |rs[1..]| ==> rs[1..][i] == rs[i + 1];
      assert !Carries(rs[0], id);
      InOrderCarries(rs[1..], if rs[0].state.Pending? then ms[1..] else ms, containerId, id);
    }
  }

  /** With an acknowledgement in front, the ids end up on the right requests exactly when
      no pending request has the acknowledgement's own body. */
  lemma AckInFront(rs: seq<Request>, ack: Inner, ms: seq<Inner>, containerId: i64)
    requires BodiesOf(ms) == PendingBodies(rs) && !HasId(rs, ack.msgId)
    requires forall k :: 0 <= k < |ms| ==> ms[k].msgId != ack.msgId
    ensures |ms| == |PendingBodies(rs)|
    ensures MarkAll(rs, [ack] + ms, containerId) == MarkInOrder(rs, ms, containerId) <==> ack.body !in PendingBodies(rs)
  {
    assert |BodiesOf(ms)| == |ms|;
    assert ([ack] + ms)[1..] == ms;
    var marked := MarkFirst(rs, ack, containerId);
    assert MarkAll(rs, [ack] + ms, containerId) == MarkAll(marked, ms, containerId);
    if ack.body in PendingBodies(rs) {
      MarkFirstCarries(rs, ack, containerId);
      MarkAllKeeps(marked, ms, containerId, ack.msgId);
      InOrderCarries(rs, ms, containerId, ack.msgId);
    } else {
      NothingTakes(rs, ack, containerId);
      ByBodyIsByPosition(rs, ms, containerId);
    }
  }

  // Nothing stays pending

  lemma {:induction false} MarkFirstTakesOne(rs: seq<Request>, m: Inner, containerId: i64)
    ensures multiset(PendingBodies(MarkFirst(rs, m, containerId)))
            == multiset(PendingBodies(rs)) - multiset{m.body}
  {
    if rs != [] {
      MarkFirstTakesOne(rs[1..], m, containerId);
      PendingSplits(rs[0], rs[1..]);
      if Takes(rs[0], m.body) {
        PendingSplits(rs[0].(state := Serialised(m.msgId, containerId)), rs[1..]);
      } else {
        PendingSplits(rs[0], MarkFirst(rs[1..], m, containerId));
      }
      assert rs == [rs[0]] + rs[1..];
    }
  }

  lemma PendingSplits(r: Request, rs: seq<Request>)
    ensures multiset(PendingBodies([r] + rs))
            == (if r.state.Pending? then multiset{r.body} else multiset{}) + multiset(PendingBodies(rs))
  {
    assert ([r] + rs)[1..] == rs;
  }

  lemma {:induction false} MarkAllTakes(rs: seq<Request>, ms: seq<Inner>, containerId: i64)
    ensures multiset(PendingBodies(MarkAll(rs, ms, containerId)))
            == multiset(PendingBodies(rs)) - multiset(BodiesOf(ms))
    decreases |ms|
  {
    if ms == [] {
      assert multiset(BodiesOf(ms)) == multiset{};
    } else {
      MarkFirstTakesOne(rs, ms[0], containerId);
      MarkAllTakes(MarkFirst(rs, ms[0], containerId), ms[1..], containerId);
      assert BodiesOf(ms) == [ms[0].body] + BodiesOf(ms[1..]);
    }
  }

  predicate NonePending(rs: seq<Request>) {
    forall i :: 0 <= i < |rs| ==> !rs[i].state.Pending?
  }

  lemma {:induction false} NoBodyNonePending(rs: seq<Request>)
    ensures PendingBodies(rs) == [] <==> NonePending(rs)
  {
    if rs != [] {
      NoBodyNonePending(rs[1..]);
      if PendingBodies(rs) == [] {
        assert forall i :: 1 <= i < |rs| ==> rs[i] == rs[1..][i - 1];
      }
    }
  }

  /** Once a message was made for every pending body, no request is pending, whatever
      else is among the messages. */
  lemma EveryoneIsMarked(rs: seq<Request>, front: seq<Inner>, ms: seq<Inner>, containerId: i64)
    requires BodiesOf(ms) == PendingBodies(rs)
    ensures NonePending(MarkAll(rs, front + ms, containerId))
  {
    MarkAllTakes(rs, front + ms, containerId);
    BodiesConcat(front, ms);
    var left := PendingBodies(MarkAll(rs, front + ms, containerId));
    assert multiset(left) == multiset{};
    assert |left| == |multiset(left)| == 0;
    NoBodyNonePending(MarkAll(rs, front + ms, containerId));
  }

  lemma {:induction false} BodiesConcat(a: seq<Inner>, b: seq<Inner>)
    ensures BodiesOf(a + b) == BodiesOf(a) + BodiesOf(b)
  {
    if a == [] {
      assert a + b == b;
    } else {
      assert (a + b)[1..] == a[1..] + b;
      BodiesConcat(a[1..], b);
    }
  }
}
