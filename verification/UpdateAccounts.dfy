/** What the answer to an account request leaves of the two account counters, for the one
    that was asked for and for the other one, whatever it held back at the time. */
module UpdateAccounts {
  import opened Wrappers
  import opened UpdateDefs
  import opened UpdateBox
  import opened UpdateInvariants
  import opened UpdateDelivery
  import opened UpdateDifferences
  import opened UpdateReordering
  import opened StableSort

  predicate Forward(us: seq<Update>) {
    forall u :: u in us ==> PtsInfoOf(u).Some? && PtsInfoOf(u).value.count >= 0
  }

  // Draining keeps what lies above the counter

  /** Of the updates in `all`, what came out and what is left with the counter at `to`:
      everything above it is left, nothing else is, and what starts there came out. */
  ghost predicate Kept(all: seq<Update>, out: seq<Update>, left: seq<Update>, to: int) {
    && (forall v :: v in out ==> v in all)
    && (forall v :: v in all && SortKey(v) == to ==> v in out)
    && (forall v :: multiset(left)[v] == if SortKey(v) > to then multiset(all)[v] else 0)
  }

  lemma {:induction false} DrainKeeps(pts: int, pending: seq<Update>)
    requires Forward(pending) && SortedBy(pending, NegatedSortKey)
    ensures var d := Drain(pts, pending); pts <= d.pts && Kept(pending, d.delivered, d.rest, d.pts)
    decreases |pending|
  {
    if pending != [] {
      var init, u := pending[..|pending| - 1], pending[|pending| - 1];
      assert u in pending && pending == init + [u];
      if SortKey(u) > pts {
        NoneLower(pending, pts);
      } else {
        DrainKeeps(if SortKey(u) == pts then PtsOf(u) else pts, init);
      }
    }
  }

  lemma NoneLower(pending: seq<Update>, pts: int)
    requires pending != [] && SortedBy(pending, NegatedSortKey) && SortKey(pending[|pending| - 1]) > pts
    ensures forall v :: v in pending ==> SortKey(v) > pts
    ensures Kept(pending, [], pending, pts)
  {
    forall v | v in pending
      ensures SortKey(v) > pts
    {
      var i :| 0 <= i < |pending| && pending[i] == v;
      assert NegatedSortKey(pending[i]) <= NegatedSortKey(pending[|pending| - 1]);
    }
    assert forall v :: multiset(pending)[v] > 0 <==> v in pending;
  }

  lemma DrainGapKeeps(e: LiveEntry)
    requires Forward(Buffered(e))
    ensures var a := DrainGap(e); e.pts <= a.entry.pts && Kept(Buffered(e), a.delivered, Buffered(a.entry), a.entry.pts)
  {
    if e.possibleGap.Some? {
      var us := Buffered(e);
      var sorted := Sort(us, NegatedSortKey);
      SortPermutes(us, NegatedSortKey);
      SortSorts(us, NegatedSortKey);
      SameElements(us, NegatedSortKey);
      DrainKeeps(e.pts, sorted);
      SameKept(sorted, us, DrainGap(e).delivered, Buffered(DrainGap(e).entry), DrainGap(e).entry.pts);
    }
  }

  lemma SameKept(all: seq<Update>, other: seq<Update>, out: seq<Update>, left: seq<Update>, to: int)
    requires Kept(all, out, left, to) && multiset(all) == multiset(other)
    ensures Kept(other, out, left, to)
  {
    SameMembers(all, other);
  }

  lemma AbsorbKeeps(e: LiveEntry, u: Update, info: PtsInfo, now: nat)
    requires PtsInfoOf(u) == Some(info) && Forward(Buffered(e) + [u])
    ensures var a := Absorb(e, u, info, now);
            e.pts <= a.entry.pts && Kept(Buffered(e) + [u], a.delivered, Buffered(a.entry), a.entry.pts)
  {
    var first := Take(e, u, info, now);
    assert u in Buffered(e) + [u];
    assert forall v :: v in Buffered(e) ==> v in Buffered(e) + [u];
    DrainGapKeeps(first.entry);
    var second := DrainGap(first.entry);
    if SortKey(u) <= e.pts {
      OneMoreKept(Buffered(e), u, first.delivered, second.delivered, Buffered(second.entry), second.entry.pts);
    } else {
      assert [] + second.delivered == second.delivered;
    }
  }

  /** An update that came out or was dropped in front of the rest. */
  lemma OneMoreKept(all: seq<Update>, u: Update, first: seq<Update>, out: seq<Update>, left: seq<Update>, to: int)
    requires Kept(all, out, left, to) && SortKey(u) <= to
    requires first == [u] || (first == [] && SortKey(u) < to)
    ensures Kept(all + [u], first + out, left, to)
  {
  }

  /** One more update on top of what was kept before it. */
  lemma KeptOn(all: seq<Update>, u: Update, out: seq<Update>, held: seq<Update>, at: int,
               more: seq<Update>, left: seq<Update>, to: int)
    requires Kept(all, out, held, at) && Kept(held + [u], more, left, to) && at <= to
    ensures Kept(all + [u], out + more, left, to)
  {
    assert forall v :: multiset(held)[v] > 0 <==> v in held;
    assert forall v :: multiset(all)[v] > 0 <==> v in all;
  }

  // A counter off the queue

  /** What the updates of `key` in `us` leave of an entry that held back `had`. */
  ghost predicate Caught(had: seq<Update>, us: seq<Update>, key: Key, out: seq<Update>, e: LiveEntry, from: int) {
    if OfKey(us, key) == [] then e.pts == from && Buffered(e) == had && OfKey(out, key) == []
    else Kept(had + OfKey(us, key), OfKey(out, key), Buffered(e), e.pts) && from <= e.pts
  }

  lemma AbsorbCatches(e: LiveEntry, now: nat, had: seq<Update>, us: seq<Update>, out: seq<Update>, key: Key,
          from: int, u: Update)
    requires PtsInfoOf(u).Some? && Forward(had + OfKey(us, key) + [u]) && Caught(had, us, key, out, e, from)
    ensures var a := Absorb(e, u, PtsInfoOf(u).value, now);
            && Kept(had + OfKey(us, key) + [u], OfKey(out, key) + a.delivered, Buffered(a.entry), a.entry.pts)
            && from <= a.entry.pts
  {
    var info := PtsInfoOf(u).value;
    HeldIsForward(had, us, key, out, e, from, u);
    AbsorbKeeps(e, u, info, now);
    var a := Absorb(e, u, info, now);
    if OfKey(us, key) == [] {
      assert had + [] == had && [] + a.delivered == a.delivered;
    } else {
      KeptOn(had + OfKey(us, key), u, OfKey(out, key), Buffered(e), e.pts, a.delivered, Buffered(a.entry), a.entry.pts);
    }
  }

  lemma HeldIsForward(had: seq<Update>, us: seq<Update>, key: Key, out: seq<Update>, e: LiveEntry, from: int, u: Update)
    requires Forward(had + OfKey(us, key) + [u]) && Caught(had, us, key, out, e, from)
    ensures Forward(Buffered(e) + [u])
  {
    var all := had + OfKey(us, key);
    assert forall v :: v in all ==> v in all + [u];
    assert u in all + [u];
    assert forall v :: multiset(Buffered(e))[v] > 0 <==> v in Buffered(e);
    assert forall v :: multiset(all)[v] > 0 <==> v in all;
    if OfKey(us, key) == [] {
      assert had + [] == had;
    }
  }

  /** Off the queue and without a too-long notice, the updates of `key` are caught up with. */
  ghost predicate CaughtUp(b: Box, us: seq<Update>, key: Key, o: Outcome)
    requires key in b.live
  {
    && key in o.box.live && key !in o.box.queue
    && Caught(Buffered(b.live[key]), us, key, o.delivered, o.box.live[key], b.live[key].pts)
  }

  lemma OwnStepCatches(b: Box, now: nat, us: seq<Update>, key: Key, before: Outcome, u: Update)
    requires Structure(before.box) && key in b.live && CaughtUp(b, us, key, before) && Bears(u, key)
    requires Forward(Buffered(b.live[key]) + OfKey(us, key) + [u])
    ensures var last := Step(before.box, now, u);
            && key in last.box.live && key !in last.box.queue
            && Kept(Buffered(b.live[key]) + OfKey(us, key) + [u], OfKey(before.delivered,
                key) + OfKey(last.delivered, key),
                    Buffered(last.box.live[key]), last.box.live[key].pts)
            && b.live[key].pts <= last.box.live[key].pts
  {
    OwnStepIsAbsorb(before.box, now, u, key);
    AbsorbCatches(before.box.live[key], now, Buffered(b.live[key]), us, before.delivered, key, b.live[key].pts, u);
  }

  lemma OwnJoins(had: seq<Update>, init: seq<Update>, u: Update, key: Key, x: seq<Update>, y: seq<Update>,
          e: LiveEntry, from: int)
    requires Kept(had + OfKey(init, key) + [u], OfKey(x, key) + OfKey(y, key), Buffered(e), e.pts) && from <= e.pts
    requires Bears(u, key)
    ensures Caught(had, init + [u], key, x + y, e, from)
  {
    assert (init + [u])[..|init|] == init;
    OfKeyConcat(x, y, key);
    Joined(had, OfKey(init, key), [u]);
  }

  lemma OtherJoins(had: seq<Update>, init: seq<Update>, u: Update, key: Key, x: seq<Update>, y: seq<Update>,
          e: LiveEntry, from: int)
    requires Caught(had, init, key, x, e, from) && !Bears(u, key) && OfKey(y, key) == []
    ensures Caught(had, init + [u], key, x + y, e, from)
  {
    assert (init + [u])[..|init|] == init;
    OfKeyConcat(x, y, key);
    assert OfKey(x, key) + [] == OfKey(x, key);
  }

  lemma OneMoreCaught(b: Box, now: nat, init: seq<Update>, u: Update, key: Key, before: Outcome, last: Outcome)
    requires Structure(before.box) && key in b.live && CaughtUp(b, init, key, before) && !Resets(u, key)
    requires Forward(Buffered(b.live[key]) + OfKey(init + [u], key)) && last == Step(before.box, now, u)
    ensures key in last.box.live && key !in last.box.queue
    ensures Caught(Buffered(b.live[key]), init + [u], key, before.delivered + last.delivered, last.box.live[key],
        b.live[key].pts)
  {
    var had, from := Buffered(b.live[key]), b.live[key].pts;
    if Bears(u, key) {
      assert (init + [u])[..|init|] == init;
      Joined(had, OfKey(init, key), [u]);
      OwnStepCatches(b, now, init, key, before, u);
      OwnJoins(had, init, u, key, before.delivered, last.delivered, last.box.live[key], from);
    } else {
      OtherStep(before.box, now, u, key);
      OtherJoins(had, init, u, key, before.delivered, last.delivered, last.box.live[key], from);
    }
  }

  lemma {:induction false} StepAllCatchesUp(b: Box, now: nat, us: seq<Update>, key: Key)
    requires Structure(b) && key in b.live && key !in b.queue
    requires NeverReset(us, key) && Forward(Buffered(b.live[key]) + OfKey(us, key))
    ensures CaughtUp(b, us, key, StepAll(b, now, us))
  {
    if us != [] {
      var init, u := us[..|us| - 1], us[|us| - 1];
      assert u in us && us == init + [u];
      var had := Buffered(b.live[key]);
      assert forall v :: v in had + OfKey(init, key) ==> v in had + OfKey(us, key);
      StepAllCatchesUp(b, now, init, key);
      StepAllKeepsStructure(b, now, init);
      var before := StepAll(b, now, init);
      OneMoreCaught(b, now, init, u, key, before, Step(before.box, now, u));
    }
  }

  // The two account counters after an answer

  /** What `key` holds back behind a hole. */
  function HeldBack(b: Box, key: Key): seq<Update> {
    if key in b.live then Buffered(b.live[key]) else []
  }

  predicate IsAccount(key: Key) {
    key == Common || key == Secondary
  }

  /** The counter of `key` in the server's state. */
  function CounterIn(s: State, key: Key): int {
    if key == Common then s.pts else s.qts
  }

  predicate BringsUpdates(d: Difference) {
    d.Difference? || d.DifferenceSlice?
  }

  function FromUpdates(r: Answered, d: FullDifference): seq<Update>
    requires |AccountMessages(d)| <= |r.delivered|
  {
    r.delivered[|AccountMessages(d)|..]
  }

  lemma AdoptedEntry(b: Box, s: State, now: nat, key: Key)
    requires Structure(b) && IsAccount(key)
    ensures var r := AdoptState(b, s, now);
            && Structure(r) && key in r.live && r.live[key].pts == CounterIn(s, key)
            && Buffered(r.live[key]) == HeldBack(b, key) && r.queue == b.queue
  {
    AdoptStateKeepsStructure(b, s, now);
  }

  lemma SameOwn(us: seq<Update>, key: Key)
    ensures multiset(OfKey(Sort(us, SortKey), key)) == multiset(OfKey(us, key))
  {
    SortPermutes(us, SortKey);
    forall v
      ensures multiset(OfKey(Sort(us, SortKey), key))[v] == multiset(OfKey(us, key))[v]
    {
      OfKeyCounts(Sort(us, SortKey), key, v);
      OfKeyCounts(us, key, v);
    }
  }

  lemma SameSize(x: seq<Update>, y: seq<Update>)
    requires multiset(x) == multiset(y)
    ensures |x| == |y|
  {
    assert |multiset(x)| == |x| && |multiset(y)| == |y|;
  }

  /** Where the counter of `key` stands after a difference that names `from`, with `had`
      held back before: if updates of its own came along, those and the held back ones
      take it as far as they reach without a hole, and what lies above stays held back. */
  ghost predicate Resumed(had: seq<Update>, own: seq<Update>, key: Key, out: seq<Update>, e: LiveEntry, from: int) {
    && Tiles(out, key, from, e.pts)
    && (own == [] ==> e.pts == from && Buffered(e) == had)
    && (own != [] ==> Kept(had + own, OfKey(out, key), Buffered(e), e.pts))
  }

  lemma CaughtIsResumed(had: seq<Update>, us: seq<Update>, key: Key, out: seq<Update>, e: LiveEntry, from: int)
    requires Caught(had, Sort(us, SortKey), key, out, e, from) && Tiles(out, key, from, e.pts)
    ensures Resumed(had, OfKey(us, key), key, out, e, from)
  {
    var sorted := OfKey(Sort(us, SortKey), key);
    SameOwn(us, key);
    SameSize(sorted, OfKey(us, key));
    if sorted != [] {
      assert multiset(had + sorted) == multiset(had + OfKey(us, key));
      SameKept(had + sorted, had + OfKey(us, key), OfKey(out, key), Buffered(e), e.pts);
    }
  }

  lemma ForwardSorted(had: seq<Update>, us: seq<Update>, key: Key)
    requires Forward(had + OfKey(us, key))
    ensures Forward(had + OfKey(Sort(us, SortKey), key))
  {
    SameOwn(us, key);
    SameMembers(OfKey(us, key), OfKey(Sort(us, SortKey), key));
    forall v | v in had + OfKey(Sort(us, SortKey), key)
      ensures v in had + OfKey(us, key)
    {
    }
  }

  lemma AccountNeverReset(us: seq<Update>, key: Key)
    requires IsAccount(key)
    ensures NeverReset(us, key)
  {
  }

  lemma ResumesInBox(b: Box, now: nat, us: seq<Update>, key: Key)
    requires Structure(b) && IsAccount(key) && key in b.live && key !in b.queue
    requires Forward(Buffered(b.live[key]) + OfKey(us, key))
    ensures var o := StepAll(b, now, Sort(us, SortKey));
            && key in o.box.live && key !in o.box.queue
            && Resumed(Buffered(b.live[key]), OfKey(us, key), key, o.delivered, o.box.live[key], b.live[key].pts)
  {
    var sorted := Sort(us, SortKey);
    AccountNeverReset(sorted, key);
    ForwardSorted(Buffered(b.live[key]), us, key);
    StepAllCatchesUp(b, now, sorted, key);
    StepAllTiles(b, now, sorted, key);
    var o := StepAll(b, now, sorted);
    CaughtIsResumed(Buffered(b.live[key]), us, key, o.delivered, o.box.live[key], b.live[key].pts);
  }

  /** A counter not asked for, when the difference brings updates. */
  lemma FullResumes(b: Box, now: nat, d: FullDifference, key: Key)
    requires Structure(b) && IsAccount(key) && key !in b.queue
    requires Forward(HeldBack(b, key) + OfKey(d.otherUpdates, key))
    ensures ProcessUpdates(AdoptState(b, d.state, now), now, Bare(d.otherUpdates)).result.Ok?
    ensures var r := ApplyFull(b, now, d);
            && Structure(r.box) && key in r.box.live && key !in r.box.queue && |AccountMessages(d)| <= |r.delivered|
            && Resumed(HeldBack(b, key), OfKey(d.otherUpdates, key), key, FromUpdates(r, d), r.box.live[key],
                CounterIn(d.state, key))
  {
    var b1 := AdoptState(b, d.state, now);
    AdoptedEntry(b, d.state, now, key);
    BareProcess(b1, now, d.otherUpdates);
    ResumesInBox(b1, now, d.otherUpdates, key);
    ApplyFullKeepsStructure(b, now, d);
    Prepended(AccountMessages(d), StepAll(b1, now, Sort(d.otherUpdates, SortKey)).delivered);
  }

  /** A counter asked for. */
  lemma FullPassesThrough(b: Box, now: nat, d: FullDifference, key: Key)
    requires Structure(b) && IsAccount(key) && key in b.queue
    ensures ProcessUpdates(AdoptState(b, d.state, now), now, Bare(d.otherUpdates)).result.Ok?
    ensures var r := ApplyFull(b, now, d);
            && Structure(r.box) && key in r.box.live && key in r.box.queue && |AccountMessages(d)| <= |r.delivered|
            && r.box.live[key].pts == CounterIn(d.state, key)
            && OwnInOrder(OfKey(FromUpdates(r, d), key), d.otherUpdates, key)
  {
    var b1, us := AdoptState(b, d.state, now), Sort(d.otherUpdates, SortKey);
    AdoptedEntry(b, d.state, now, key);
    AccountNeverReset(us, key);
    QueuedKeyPassesThrough(b1, now, us, key);
    SortedOwn(d.otherUpdates, key);
    ApplyFullKeepsStructure(b, now, d);
    BareProcess(b1, now, d.otherUpdates);
    Prepended(AccountMessages(d), StepAll(b1, now, us).delivered);
  }

  lemma FinishKeepsEntries(b: Box, now: nat)
    requires Structure(b)
    ensures var r := Finish(b, now);
            && r.live.Keys == b.live.Keys && (forall k :: k in b.live ==> r.live[k].pts == b.live[k].pts)
            && forall k :: k in b.live ==> Buffered(r.live[k]) == Buffered(b.live[k])
  {
  }

  /** The account counter `key` after `r`, the answer to a difference with updates: asked
      for, it is the server's and its updates all came out in order; otherwise it goes on
      from the server's with what it held back. */
  ghost predicate CounterExact(b: Box, r: Answered, d: FullDifference, key: Key) {
    && key in r.box.live && |AccountMessages(d)| <= |r.delivered|
    && if key in b.queue then
         r.box.live[key].pts == CounterIn(d.state, key)
         && OwnInOrder(OfKey(FromUpdates(r, d), key), d.otherUpdates, key)
       else
         key !in r.box.queue
         && Resumed(HeldBack(b, key), OfKey(d.otherUpdates, key), key, FromUpdates(r, d), r.box.live[key],
             CounterIn(d.state, key))
  }

  lemma FullIsExact(b: Box, now: nat, d: FullDifference, key: Key)
    requires Structure(b) && IsAccount(key)
    requires key !in b.queue ==> Forward(HeldBack(b, key) + OfKey(d.otherUpdates, key))
    ensures ProcessUpdates(AdoptState(b, d.state, now), now, Bare(d.otherUpdates)).result.Ok?
    ensures var r := ApplyFull(b, now, d);
            Structure(r.box) && CounterExact(b, r, d, key) && (key in r.box.queue <==> key in b.queue)
  {
    if key in b.queue {
      FullPassesThrough(b, now, d, key);
    } else {
      FullResumes(b, now, d, key);
    }
  }

  /** Either account counter after a full or partial difference. */
  lemma CounterAfterDifference(b: Box, now: nat, d: Difference, key: Key)
    requires Structure(b) && IsAccount(key) && BringsUpdates(d) && (Common in b.queue || Secondary in b.queue)
    requires key !in b.queue ==> Forward(HeldBack(b, key) + OfKey(d.full.otherUpdates, key))
    ensures var r := ApplyDifference(b, now, d);
            CounterExact(b, r, d.full, key) && (key in r.box.queue <==> key in b.queue && d.DifferenceSlice?)
  {
    FullIsExact(b, now, d.full, key);
    var a := ApplyFull(b, now, d.full);
    FinishLeavesNothingQueued(a.box, now);
    FinishKeepsEntries(a.box, now);
    if d.Difference? {
      assert ApplyDifference(b, now, d) == a.(box := Finish(a.box, now));
    } else {
      assert ApplyDifference(b, now, d) == a;
    }
  }

  // The second counter, whose updates count one each

  lemma SecondaryCountsOne(us: seq<Update>)
    requires forall u :: u in us ==> Bears(u, Secondary)
    ensures Forward(us) && forall u :: u in us ==> PtsOf(u) == SortKey(u) + 1
  {
  }

  lemma {:induction false} TilesBelow(us: seq<Update>, key: Key, from: int, to: int)
    requires Tiles(us, key, from, to) && Forward(OfKey(us, key))
    ensures from <= to && forall v :: v in OfKey(us, key) ==> PtsOf(v) <= to
    decreases |us|
  {
    if us != [] {
      var init, u := us[..|us| - 1], us[|us| - 1];
      assert forall v :: v in OfKey(init, key) ==> v in OfKey(us, key);
      if Bears(u, key) {
        assert u in OfKey(us, key);
        TilesBelow(init, key, from, SortKey(u));
      } else {
        TilesBelow(init, key, from, to);
      }
    }
  }

  lemma HeldBackBears(b: Box, us: seq<Update>, key: Key)
    requires Structure(b)
    ensures forall v :: v in HeldBack(b, key) + OfKey(us, key) ==> Bears(v, key)
  {
    OwnBear(us, key);
  }

  /** The next number is missing: no update at hand takes the counter further. */
  ghost predicate NextIsMissing(us: seq<Update>, pts: int) {
    forall u :: u in us ==> PtsInfoOf(u).Some? && PtsOf(u) != pts + 1
  }

  lemma ResumedIsFirstMissing(had: seq<Update>, own: seq<Update>, out: seq<Update>, e: LiveEntry, from: int)
    requires forall v :: v in had + own ==> Bears(v, Secondary)
    requires own != [] && Resumed(had, own, Secondary, out, e, from)
    ensures from <= e.pts && NextIsMissing(had + own, e.pts)
  {
    SecondaryCountsOne(had + own);
    assert forall v :: v in OfKey(out, Secondary) ==> v in had + own;
    TilesBelow(out, Secondary, from, e.pts);
  }

  /** After a full or partial difference the second counter is tracked. If it was asked
      for it is the server's; otherwise its own updates and those held back take it
      from the server's to the first missing number, and the rest stays held back. */
  lemma SecondaryAfterDifference(b: Box, now: nat, d: Difference)
    requires Structure(b) && BringsUpdates(d) && (Common in b.queue || Secondary in b.queue)
    ensures var r, own := ApplyDifference(b, now, d), OfKey(d.full.otherUpdates, Secondary);
            && CounterExact(b, r, d.full, Secondary)
            && (Secondary in r.box.queue <==> Secondary in b.queue && d.DifferenceSlice?)
            && (Secondary !in b.queue && own != [] ==>
                  d.full.state.qts <= r.box.live[Secondary].pts
                  && NextIsMissing(HeldBack(b, Secondary) + own, r.box.live[Secondary].pts))
  {
    var own := OfKey(d.full.otherUpdates, Secondary);
    HeldBackBears(b, d.full.otherUpdates, Secondary);
    SecondaryCountsOne(HeldBack(b, Secondary) + own);
    CounterAfterDifference(b, now, d, Secondary);
    if Secondary !in b.queue && own != [] {
      var r := ApplyDifference(b, now, d);
      ResumedIsFirstMissing(HeldBack(b, Secondary), own, FromUpdates(r, d.full), r.box.live[Secondary],
          d.full.state.qts);
    }
  }

  // Answers without updates

  /** The answer without updates: the server's date and number are taken over, both waits
      end, and every counter and every held back update stays. The answer that the
      difference is too long moves the first account counter and nothing else. */
  lemma AnswerWithoutUpdates(b: Box, now: nat, d: Difference)
    requires Structure(b) && !BringsUpdates(d) && (Common in b.queue || Secondary in b.queue)
    ensures var r := ApplyDifference(b, now, d);
            && r.delivered == [] && Common !in r.box.queue && Secondary !in r.box.queue
            && (forall k: Key :: k.Channel? ==> (k in r.box.queue <==> k in b.queue))
            && (forall k :: k in b.live ==> k in r.box.live && Buffered(r.box.live[k]) == Buffered(b.live[k]))
            && (forall k :: k in r.box.live && k != Common ==> k in b.live && r.box.live[k].pts == b.live[k].pts)
            && (if d.DifferenceEmpty? then
                  r.box.date == d.date && r.box.seqNo == d.seqNo && (Common in r.box.live <==> Common in b.live)
                  && (Common in b.live ==> r.box.live[Common].pts == b.live[Common].pts)
                else
                  r.box.date == b.date && r.box.seqNo == b.seqNo && Common in r.box.live
                      && r.box.live[Common].pts == d.pts)
  {
    var before := match d
      case DifferenceEmpty(date, s) => b.(date := date, seqNo := s)
      case DifferenceTooLong(pts) => SetPts(b, Common, pts, now);
    assert Structure(before);
    FinishLeavesNothingQueued(before, now);
    FinishKeepsEntries(before, now);
    assert ApplyDifference(b, now, d) == Answered(Finish(before, now), []);
  }

  /** After a partial difference the next request goes on from the state it named. */
  lemma NextRequestGoesOn(b: Box, now: nat, d: Difference)
    requires Structure(b) && Common in b.queue && d.DifferenceSlice?
    ensures var r, s := ApplyDifference(b, now, d).box, d.full.state;
            && Common in r.queue && Common in r.live && Secondary in r.live
            && GetDifference(r) == Some(DifferenceRequest(s.pts, if s.date < 1 then 1 else s.date,
                r.live[Secondary].pts))
            && (Secondary in b.queue ==> r.live[Secondary].pts == s.qts)
  {
    AccountDifferenceIsExact(b, now, d);
    SecondaryAfterDifference(b, now, d);
  }
}
