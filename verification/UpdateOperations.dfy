/** What the remaining operations of the box leave behind, entry by entry. */
module UpdateOperations {
  import opened Wrappers
  import opened UpdateDefs
  import opened UpdateBox
  import opened UpdateInvariants
  import opened UpdateReordering
  import opened UpdateAccounts

  /** A check with nothing queued, when one is due, queues the keys whose deadline or gap
      deadline has passed, in key order, and no other; their gaps are forgotten. */
  lemma CheckQueuesTheExpired(b: Box, now: nat)
    requires Structure(b) && b.queue == [] && b.nextDeadline <= now
    ensures var r := CheckDeadlines(b, now);
            && (forall k :: k in r.queue <==> k in b.live && b.live[k].EffectiveDeadline() <= now)
            && StrictlySorted(r.queue) && r.live.Keys == b.live.Keys
            && (forall k :: k in b.live ==>
                  r.live[k] == if k in r.queue then b.live[k].(possibleGap := None) else b.live[k])
  {
    assert forall k :: k in Expired(b, now) <==> k in b.live && b.live[k].EffectiveDeadline() <= now;
  }

  /** The channel handed out next is the first queued one that is not under way. */
  lemma {:induction false} NextChannelIsFirst(queue: seq<Key>, inFlight: Option<int>) returns (i: nat)
    ensures i <= |queue|
    ensures forall j :: 0 <= j < i ==> !queue[j].Channel? || inFlight == Some(queue[j].id)
    ensures NextChannel(queue, inFlight) == if i < |queue| && queue[i].Channel? then Some(queue[i].id) else None
    ensures i < |queue| ==> queue[i].Channel? && inFlight != Some(queue[i].id)
  {
    i := 0;
    if queue != [] && !(queue[0].Channel? && inFlight != Some(queue[0].id)) {
      var j := NextChannelIsFirst(queue[1..], inFlight);
      i := j + 1;
      assert forall m :: 1 <= m < i ==> queue[m] == queue[1..][m - 1];
    }
  }

  /** The wait of one key is given up, with what it held back. */
  ghost predicate GivenUp(b: Box, r: Box, keys: set<Key>) {
    && Structure(r) && (forall k :: k in r.queue <==> k in b.queue && k !in keys)
    && r.live.Keys == b.live.Keys && (forall k :: k in b.live ==> r.live[k].pts == b.live[k].pts)
    && (forall k :: k in b.live ==> Buffered(r.live[k]) == if k in keys then [] else Buffered(b.live[k]))
    && r.date == b.date && r.seqNo == b.seqNo && r.inFlight == b.inFlight
  }

  lemma OneIsGivenUp(b: Box, key: Key, now: nat)
    requires Structure(b)
    ensures GivenUp(b, EndDiff(WithoutGap(b, key), key, now), {key})
  {
    EndDiffKeeps(WithoutGap(b, key), key, now);
  }

  lemma BothGivenUp(b: Box, r: Box, q: Box, j: Key, k: Key)
    requires GivenUp(b, r, {j}) && GivenUp(r, q, {k})
    ensures GivenUp(b, q, {j, k})
  {
  }

  /** Giving up the account's wait ends it for both counters and moves neither. */
  lemma AbortEndsTheWait(b: Box, now: nat)
    requires Structure(b)
    ensures GivenUp(b, AbortDifference(b, now), {Common, Secondary})
  {
    var b1 := EndDiff(WithoutGap(b, Common), Common, now);
    OneIsGivenUp(b, Common, now);
    OneIsGivenUp(b1, Secondary, now);
    BothGivenUp(b, b1, AbortDifference(b, now), Common, Secondary);
  }

  /** A channel request that failed: its wait ends with the counter as it was, and a
      banned channel is forgotten. */
  lemma FailedChannelEndsItsWait(b: Box, now: nat, reason: PrematureEndReason, id: int)
    requires Structure(b) && b.inFlight == Some(id) && Channel(id) in b.queue
    ensures var r, key := EndChannelDifference(b, now, reason), Channel(id);
            && r.inFlight == None && (forall k :: k in r.queue <==> k in b.queue && k != key)
            && r.live.Keys == (if reason == Banned then b.live.Keys - {key} else b.live.Keys)
            && (forall k :: k in r.live ==> r.live[k].pts == b.live[k].pts)
  {
    EndDiffKeeps(WithoutGap(b.(inFlight := None), Channel(id)), Channel(id), now);
  }

  /** The account as the server's state names it, with everything else as it was. */
  ghost predicate AccountIs(b: Box, r: Box, s: State) {
    && r.date == s.date && r.seqNo == s.seqNo && r.queue == b.queue && r.inFlight == b.inFlight
    && r.live.Keys == b.live.Keys + {Common, Secondary}
    && (forall key :: IsAccount(key) ==> key in r.live && r.live[key].pts == CounterIn(s, key))
    && (forall k: Key :: k in b.live && k.Channel? ==> r.live[k] == b.live[k])
  }

  lemma ForcedAndInitialState(b: Box, now: nat, s: State)
    ensures AccountIs(b, ForceResetCommonPts(b, now, s), s) && AccountIs(b, SetState(b, now, s), s)
    ensures forall key :: IsAccount(key) && key in b.live ==>
              ForceResetCommonPts(b, now, s).live[key].possibleGap == b.live[key].possibleGap
    ensures forall key :: IsAccount(key) ==> SetState(b, now, s).live[key].possibleGap.None?
  {
  }

  /** A channel not known yet is tracked from the counter given; a known one stays. */
  lemma ChannelIsTracked(b: Box, now: nat, id: int, pts: int)
    ensures var r := TrySetChannelState(b, now, id, pts);
            && Channel(id) in r.live && r == b.(live := r.live)
            && (Channel(id) in b.live ==> r == b)
            && (Channel(id) !in b.live ==>
                  r.live[Channel(id)].pts == pts && r.live == b.live[Channel(id) := r.live[Channel(id)]])
  {
  }
}
