/** What applying the answer to a difference request does to the counter it is for,
    and which of the updates it carries come out. */
module UpdateDifferences {
  import opened Wrappers
  import opened UpdateDefs
  import opened UpdateBox
  import opened UpdateInvariants
  import opened UpdateDelivery
  import opened UpdateReordering
  import opened StableSort

  ghost predicate NeverReset(us: seq<Update>, key: Key) {
    forall u :: u in us ==> !(u.ChannelTooLong? && Channel(u.channelId) == key)
  }

  /** While `key` awaits a difference, its updates pass through and its counter stands still. */
  lemma {:induction false} QueuedKeyPassesThrough(b: Box, now: nat, us: seq<Update>, key: Key)
    requires Structure(b) && key in b.queue && NeverReset(us, key)
    ensures var o := StepAll(b, now, us);
            && key in o.box.queue && key in o.box.live && o.box.live[key].pts == b.live[key].pts
            && OfKey(o.delivered, key) == OfKey(us, key)
  {
    if us != [] {
      var init, u := us[..|us| - 1], us[|us| - 1];
      assert u in us;
      QueuedKeyPassesThrough(b, now, init, key);
      StepAllKeepsStructure(b, now, init);
      var before := StepAll(b, now, init);
      StepPassesThrough(before.box, now, u, key);
      OfKeyConcat(before.delivered, Step(before.box, now, u).delivered, key);
    }
  }

  lemma StepPassesThrough(b: Box, now: nat, u: Update, key: Key)
    requires Structure(b) && key in b.queue && !(u.ChannelTooLong? && Channel(u.channelId) == key)
    ensures var o := Step(b, now, u);
            && key in o.box.queue && key in o.box.live && o.box.live[key].pts == b.live[key].pts
            && OfKey(o.delivered, key) == if Bears(u, key) then [u] else []
  {
    var info := PtsInfoOf(u);
    OfKeyAllOrNone([u], key);
    OfKeyAllOrNone([], key);
    if !u.ChannelTooLong? && info.Some? && info.value.key !in b.queue {
      OfferedElsewhere(b, now, u, info.value, key);
    }
  }

  lemma OfferedElsewhere(b: Box, now: nat, u: Update, info: PtsInfo, key: Key)
    requires Structure(b) && PtsInfoOf(u) == Some(info) && Bears(u, info.key) && info.key != key && key in b.live
    ensures var o := Offer(b, u, info, now);
            OfKey(o.delivered, key) == [] && o.box.queue == b.queue && key in o.box.live && o.box.live[key] == b.live[key]
  {
    AbsorbElements(EntryFor(b, info, now), u, info, now);
    OfKeyAllOrNone(Offer(b, u, info, now).delivered, key);
  }

  lemma {:induction false} OfKeyCounts(us: seq<Update>, key: Key, v: Update)
    ensures multiset(OfKey(us, key))[v] == if Bears(v, key) then multiset(us)[v] else 0
  {
    if us != [] {
      OfKeyCounts(us[..|us| - 1], key, v);
      assert us == us[..|us| - 1] + [us[|us| - 1]];
    }
  }

  lemma SortedSnoc(us: seq<Update>, u: Update)
    requires SortedBy(us, SortKey) && forall v :: v in us ==> SortKey(v) <= SortKey(u)
    ensures SortedBy(us + [u], SortKey)
  {
    assert forall i :: 0 <= i < |us| ==> us[i] in us;
  }

  lemma BelowLast(us: seq<Update>)
    requires us != [] && SortedBy(us, SortKey)
    ensures SortedBy(us[..|us| - 1], SortKey) && forall v :: v in us[..|us| - 1] ==> SortKey(v) <= SortKey(us[|us| - 1])
  {
    var init := us[..|us| - 1];
    forall v | v in init
      ensures SortKey(v) <= SortKey(us[|us| - 1])
    {
      var i :| 0 <= i < |init| && init[i] == v;
      assert us[i] == v;
    }
  }

  lemma {:induction false} OfKeySorted(us: seq<Update>, key: Key)
    requires SortedBy(us, SortKey)
    ensures SortedBy(OfKey(us, key), SortKey) && forall u :: u in OfKey(us, key) ==> u in us
  {
    if us != [] {
      var init, u := us[..|us| - 1], us[|us| - 1];
      OfKeySorted(init, key);
      BelowLast(us);
      assert us == init + [u];
      SortedSnoc(OfKey(init, key), u);
    }
  }

  /** The updates of `key` in `us`, each as often as in `us`, in sort-key order. */
  ghost predicate OwnInOrder(delivered: seq<Update>, us: seq<Update>, key: Key) {
    && SortedBy(delivered, SortKey)
    && forall v :: multiset(delivered)[v] == if Bears(v, key) then multiset(us)[v] else 0
  }

  lemma SortedOwn(us: seq<Update>, key: Key)
    ensures OwnInOrder(OfKey(Sort(us, SortKey), key), us, key)
  {
    var sorted := Sort(us, SortKey);
    SortSorts(us, SortKey);
    OfKeySorted(sorted, key);
    forall v
      ensures multiset(OfKey(sorted, key))[v] == if Bears(v, key) then multiset(us)[v] else 0
    {
      OfKeyCounts(sorted, key, v);
      SortPermutes(us, SortKey);
    }
  }

  // The account difference

  /** The account stands where the server says, and out came the new messages and
      then every account update once in counter order. */
  ghost predicate AccountExact(r: Answered, d: FullDifference) {
    var first := |AccountMessages(d)|;
    && Common in r.box.live && r.box.live[Common].pts == d.state.pts
    && r.box.date == d.state.date && r.box.seqNo == d.state.seqNo
    && first <= |r.delivered| && r.delivered[..first] == AccountMessages(d)
    && OwnInOrder(OfKey(r.delivered[first..], Common), d.otherUpdates, Common)
  }

  lemma FullDifferenceIsExact(b: Box, now: nat, d: FullDifference)
    requires Structure(b) && Common in b.queue
    ensures ProcessUpdates(AdoptState(b, d.state, now), now, Bare(d.otherUpdates)).result.Ok?
    ensures AccountExact(ApplyFull(b, now, d), d)
    ensures Structure(ApplyFull(b, now, d).box) && Common in ApplyFull(b, now, d).box.queue
  {
    var b1, us := AdoptState(b, d.state, now), Sort(d.otherUpdates, SortKey);
    AdoptStateKeepsStructure(b, d.state, now);
    SameElements(d.otherUpdates, SortKey);
    QueuedKeyPassesThrough(b1, now, us, Common);
    SortedOwn(d.otherUpdates, Common);
    ApplyFullKeepsStructure(b, now, d);
    BareProcess(b1, now, d.otherUpdates);
    Prepended(AccountMessages(d), StepAll(b1, now, us).delivered);
  }

  lemma Prepended(x: seq<Update>, y: seq<Update>)
    ensures (x + y)[..|x|] == x && (x + y)[|x|..] == y
  {
  }

  /** A container without date and sequence number is never refused and restamps nothing. */
  lemma BareProcess(b: Box, now: nat, us: seq<Update>)
    ensures var p, o := ProcessUpdates(b, now, Bare(us)), StepAll(b, now, Sort(us, SortKey));
            && p.result == Ok(o.delivered) && p.box.live == o.box.live && p.box.queue == o.box.queue
            && p.box.date == b.date && p.box.seqNo == b.seqNo && p.box.inFlight == b.inFlight
  {
    DateStands(b, now, Sort(us, SortKey));
    InFlightStands(b, now, Sort(us, SortKey));
  }

  lemma {:induction false} DateStands(b: Box, now: nat, us: seq<Update>)
    ensures StepAll(b, now, us).box.date == b.date && StepAll(b, now, us).box.seqNo == b.seqNo
  {
    if us != [] {
      DateStands(b, now, us[..|us| - 1]);
    }
  }

  lemma FinishLeavesNothingQueued(b: Box, now: nat)
    requires Structure(b)
    ensures Common !in Finish(b, now).queue && Secondary !in Finish(b, now).queue
    ensures forall k: Key :: k.Channel? ==> (k in Finish(b, now).queue <==> k in b.queue)
    ensures Finish(b, now).live.Keys == b.live.Keys
    ensures forall k :: k in b.live ==> Finish(b, now).live[k].pts == b.live[k].pts
    ensures Finish(b, now).date == b.date && Finish(b, now).seqNo == b.seqNo
  {
    EndDiffKeeps(b, Common, now);
    EndDiffKeeps(EndDiff(b, Common, now), Secondary, now);
  }

  /** With the account queued, a full or partial difference sets its counter to the
      server's, whatever updates it carries: new messages come out first, then every
      account update once in counter order. A full one ends the wait, a slice does not. */
  lemma AccountDifferenceIsExact(b: Box, now: nat, d: Difference)
    requires Structure(b) && Common in b.queue && (d.Difference? || d.DifferenceSlice?)
    ensures ProcessUpdates(AdoptState(b, d.full.state, now), now, Bare(d.full.otherUpdates)).result.Ok?
    ensures var r := ApplyDifference(b, now, d);
            && AccountExact(r, d.full) && (Common in r.box.queue <==> d.DifferenceSlice?)
            && (d.Difference? ==> Secondary !in r.box.queue)
  {
    FullDifferenceIsExact(b, now, d.full);
    var a := ApplyFull(b, now, d.full);
    FinishLeavesNothingQueued(a.box, now);
    if d.Difference? {
      assert ApplyDifference(b, now, d) == a.(box := Finish(a.box, now));
    } else {
      assert ApplyDifference(b, now, d) == a;
    }
  }

  lemma OfKeyWithin(us: seq<Update>, key: Key, v: Update)
    requires Bears(v, key)
    ensures multiset(us)[v] == multiset(OfKey(us, key))[v]
  {
    OfKeyCounts(us, key, v);
  }

  // The channel difference

  /** What becomes of sorted updates of one counter: those below it are dropped, one at it
      comes out and moves it, and from the first one above it on all are buffered. */
  datatype Sifted = Sifted(pts: int, delivered: seq<Update>, buffered: seq<Update>)

  function Sift(own: seq<Update>, pts: int): Sifted
    requires forall u :: u in own ==> PtsInfoOf(u).Some?
  {
    if own == [] then Sifted(pts, [], []) else SiftOne(Sift(own[..|own| - 1], pts), own[|own| - 1])
  }

  function SiftOne(s: Sifted, u: Update): Sifted
    requires PtsInfoOf(u).Some?
  {
    if SortKey(u) < s.pts then s
    else if SortKey(u) == s.pts then Sifted(PtsOf(u), s.delivered + [u], s.buffered)
    else s.(buffered := s.buffered + [u])
  }

  /** The updates take the counter on from `pts` without a hole. */
  ghost predicate Continues(own: seq<Update>, key: Key, pts: int) {
    exists end :: Tiles(own, key, pts, end)
  }

  predicate AllBear(us: seq<Update>, key: Key) {
    forall u :: u in us ==> Bears(u, key)
  }

  lemma OwnBear(us: seq<Update>, key: Key)
    ensures AllBear(OfKey(us, key), key)
  {
    forall u | u in OfKey(us, key)
      ensures Bears(u, key)
    {
      OfKeyCounts(us, key, u);
      assert multiset(OfKey(us, key))[u] > 0;
    }
  }

  /** What comes out tiles the counter from `pts` to where it ends up, and what is
      buffered lies above that. */
  lemma {:induction false} SiftedTiles(own: seq<Update>, key: Key, pts: int)
    requires AllBear(own, key) && SortedBy(own, SortKey)
    ensures var s := Sift(own, pts);
            && Tiles(s.delivered, key, pts, s.pts)
            && (forall v :: v in s.buffered ==> v in own && SortKey(v) > s.pts)
  {
    if own != [] {
      var init, u := own[..|own| - 1], own[|own| - 1];
      assert u in own;
      SiftedTiles(init, key, pts);
      var s := Sift(init, pts);
      forall v | v in s.buffered
        ensures SortKey(v) <= SortKey(u)
      {
        var i :| 0 <= i < |init| && init[i] == v;
        assert own[i] == v;
      }
      TilesOne(u, key);
      if SortKey(u) == s.pts {
        TilesConcat(s.delivered, [u], key, pts, s.pts, PtsOf(u));
      }
    }
  }

  lemma {:induction false} AllSifted(own: seq<Update>, key: Key, pts: int)
    requires AllBear(own, key)
    ensures |Sift(own, pts).delivered| <= |own|
    ensures |Sift(own, pts).delivered| == |own| ==> Sift(own, pts).delivered == own && Tiles(own, key, pts, Sift(own, pts).pts)
  {
    if own != [] {
      assert own == own[..|own| - 1] + [own[|own| - 1]];
      AllSifted(own[..|own| - 1], key, pts);
    }
  }

  lemma {:induction false} TiledIsSifted(own: seq<Update>, key: Key, pts: int, end: int)
    requires AllBear(own, key) && Tiles(own, key, pts, end)
    ensures Sift(own, pts) == Sifted(end, own, [])
  {
    if own != [] {
      var init, u := own[..|own| - 1], own[|own| - 1];
      assert u in own && own == init + [u];
      TiledIsSifted(init, key, pts, SortKey(u));
    }
  }

  /** They all come out exactly when they continue the counter. */
  lemma AllComeOutExactlyWhen(own: seq<Update>, key: Key, pts: int)
    requires AllBear(own, key)
    ensures |Sift(own, pts).delivered| == |own| <==> Continues(own, key, pts)
    ensures Continues(own, key, pts) ==> Sift(own, pts).delivered == own
  {
    AllSifted(own, key, pts);
    if Continues(own, key, pts) {
      var end :| Tiles(own, key, pts, end);
      TiledIsSifted(own, key, pts, end);
    }
  }

  /** The entry after the sorted updates that sift to `s`. */
  ghost predicate Holds(e: LiveEntry, key: Key, s: Sifted) {
    && e.key == key && GapFits(e) && e.pts == s.pts && multiset(Buffered(e)) == multiset(s.buffered)
    && forall v :: v in s.buffered ==> SortKey(v) > s.pts
  }

  lemma SameMembers(x: seq<Update>, y: seq<Update>)
    requires multiset(x) == multiset(y)
    ensures forall v :: v in x <==> v in y
  {
    forall v
      ensures v in x <==> v in y
    {
      assert v in x <==> v in multiset(x);
      assert v in y <==> v in multiset(y);
    }
  }

  lemma DrainsNothing(e: LiveEntry)
    requires GapFits(e) && forall v :: v in Buffered(e) ==> SortKey(v) > e.pts
    ensures DrainGap(e).delivered == [] && DrainGap(e).entry.pts == e.pts
    ensures multiset(Buffered(DrainGap(e).entry)) == multiset(Buffered(e))
  {
    if e.possibleGap.Some? {
      var us := Buffered(e);
      var sorted := Sort(us, NegatedSortKey);
      SortPermutes(us, NegatedSortKey);
      SameElements(us, NegatedSortKey);
      assert |multiset(sorted)| == |multiset(us)|;
      assert sorted[|sorted| - 1] in us;
    }
  }

  lemma SomeMember(us: seq<Update>)
    requires us != []
    ensures exists v :: v in us
  {
    assert us[0] in us;
  }

  lemma NothingHeld(e: LiveEntry, key: Key, s: Sifted, at: int)
    requires Holds(e, key, s) && at <= s.pts && forall v :: v in s.buffered ==> SortKey(v) <= at
    ensures s.buffered == [] && e.possibleGap.None?
  {
    if s.buffered != [] {
      SomeMember(s.buffered);
      assert false;
    }
    assert |multiset(Buffered(e))| == |multiset(s.buffered)|;
  }

  lemma BufferSifts(e: LiveEntry, u: Update, key: Key, s: Sifted, now: nat)
    requires Holds(e, key, s) && Bears(u, key) && SortKey(u) > s.pts
    ensures var a := Absorb(e, u, PtsInfoOf(u).value, now);
            a.delivered == [] && Holds(a.entry, key, s.(buffered := s.buffered + [u]))
  {
    var info := PtsInfoOf(u).value;
    var first := Take(e, u, info, now).entry;
    SameMembers(Buffered(e), s.buffered);
    TakeFits(e, u, info, now);
    assert Buffered(first) == Buffered(e) + [u];
    DrainsNothing(first);
    DrainGapFits(first);
  }

  /** The next update in sort-key order. */
  lemma AbsorbSifts(e: LiveEntry, u: Update, key: Key, s: Sifted, now: nat)
    requires Holds(e, key, s) && Bears(u, key) && forall v :: v in s.buffered ==> SortKey(v) <= SortKey(u)
    ensures var a := Absorb(e, u, PtsInfoOf(u).value, now);
            Holds(a.entry, key, SiftOne(s, u)) && s.delivered + a.delivered == SiftOne(s, u).delivered
  {
    if SortKey(u) <= s.pts {
      NothingHeld(e, key, s, SortKey(u));
    } else {
      BufferSifts(e, u, key, s, now);
    }
  }

  ghost predicate Sifts(b: Box, key: Key, s: Sifted) {
    key in b.live && key !in b.queue && Holds(b.live[key], key, s)
  }

  lemma OwnStepSifts(b: Box, now: nat, u: Update, key: Key, s: Sifted)
    requires Structure(b) && Bears(u, key) && Sifts(b, key, s) && forall v :: v in s.buffered ==> SortKey(v) <= SortKey(u)
    ensures var o := Step(b, now, u);
            Sifts(o.box, key, SiftOne(s, u)) && s.delivered + OfKey(o.delivered, key) == SiftOne(s, u).delivered
  {
    AbsorbSifts(b.live[key], u, key, s, now);
    OwnStepIsAbsorb(b, now, u, key);
  }

  /** `u` moves or drops the counter of `key` and asks for a difference. */
  predicate Resets(u: Update, key: Key) {
    u.ChannelTooLong? && Channel(u.channelId) == key
  }

  /** What processing updates for `key` comes to: sifted by its counter, or, while it
      awaits a difference, let through. */
  datatype Course = Course(waiting: bool, s: Sifted)

  function GoOn(c: Course, u: Update, key: Key): Course {
    if Resets(u, key) then
      Course(true, Sifted(if u.knownPts.Some? then u.knownPts.value else c.s.pts, c.s.delivered, []))
    else if !Bears(u, key) then c
    else if c.waiting then c.(s := c.s.(delivered := c.s.delivered + [u]))
    else c.(s := SiftOne(c.s, u))
  }

  function Follow(c: Course, us: seq<Update>, key: Key): Course {
    if us == [] then c else GoOn(Follow(c, us[..|us| - 1], key), us[|us| - 1], key)
  }

  /** The box stands where the course does. */
  ghost predicate On(b: Box, key: Key, c: Course) {
    && key in b.live && (key in b.queue <==> c.waiting) && Holds(b.live[key], key, c.s)
    && (c.waiting ==> c.s.buffered == [])
  }

  lemma ResetStep(b: Box, now: nat, u: Update, key: Key, c: Course)
    requires Structure(b) && On(b, key, c) && Resets(u, key)
    ensures On(Step(b, now, u).box, key, GoOn(c, u, key)) && Step(b, now, u).delivered == []
  {
  }

  lemma WaitingStep(b: Box, now: nat, u: Update, key: Key, c: Course)
    requires Structure(b) && On(b, key, c) && c.waiting && !Resets(u, key)
    ensures On(Step(b, now, u).box, key, GoOn(c, u, key))
    ensures c.s.delivered + OfKey(Step(b, now, u).delivered, key) == GoOn(c, u, key).s.delivered
  {
    StepPassesThrough(b, now, u, key);
    StepKeepsStructure(b, now, u);
  }

  lemma SiftingStep(b: Box, now: nat, u: Update, key: Key, c: Course)
    requires Structure(b) && On(b, key, c) && !c.waiting && !Resets(u, key)
    requires forall v :: v in c.s.buffered ==> SortKey(v) <= SortKey(u)
    ensures On(Step(b, now, u).box, key, GoOn(c, u, key))
    ensures c.s.delivered + OfKey(Step(b, now, u).delivered, key) == GoOn(c, u, key).s.delivered
  {
    if Bears(u, key) {
      OwnStepSifts(b, now, u, key, c.s);
    } else {
      OtherStep(b, now, u, key);
    }
  }

  lemma OneStep(b: Box, now: nat, u: Update, key: Key, c: Course)
    requires Structure(b) && On(b, key, c) && forall v :: v in c.s.buffered ==> SortKey(v) <= SortKey(u)
    ensures On(Step(b, now, u).box, key, GoOn(c, u, key))
    ensures c.s.delivered + OfKey(Step(b, now, u).delivered, key) == GoOn(c, u, key).s.delivered
  {
    if Resets(u, key) {
      ResetStep(b, now, u, key, c);
    } else if c.waiting {
      WaitingStep(b, now, u, key, c);
    } else {
      SiftingStep(b, now, u, key, c);
    }
  }

  lemma {:induction false} FollowedBuffers(c: Course, us: seq<Update>, key: Key)
    requires c.s.buffered == []
    ensures forall v :: v in Follow(c, us, key).s.buffered ==> v in us
  {
    if us != [] {
      FollowedBuffers(c, us[..|us| - 1], key);
      assert us == us[..|us| - 1] + [us[|us| - 1]];
    }
  }

  lemma {:induction false} StepAllFollows(b: Box, now: nat, us: seq<Update>, key: Key, c: Course)
    requires Structure(b) && On(b, key, c) && c.s.buffered == [] && SortedBy(us, SortKey)
    ensures var o := StepAll(b, now, us);
            On(o.box, key, Follow(c, us, key)) && c.s.delivered + OfKey(o.delivered, key) == Follow(c, us, key).s.delivered
  {
    if us == [] {
      assert c.s.delivered + [] == c.s.delivered;
    } else {
      var init, u := us[..|us| - 1], us[|us| - 1];
      BelowLast(us);
      StepAllFollows(b, now, init, key, c);
      StepAllKeepsStructure(b, now, init);
      FollowedBuffers(c, init, key);
      OneMoreFollows(StepAll(b, now, init), now, us, key, c);
    }
  }

  lemma OneMoreFollows(before: Outcome, now: nat, us: seq<Update>, key: Key, c: Course)
    requires us != [] && Structure(before.box) && On(before.box, key, Follow(c, us[..|us| - 1], key))
    requires c.s.delivered + OfKey(before.delivered, key) == Follow(c, us[..|us| - 1], key).s.delivered
    requires forall v :: v in Follow(c, us[..|us| - 1], key).s.buffered ==> SortKey(v) <= SortKey(us[|us| - 1])
    ensures var last := Step(before.box, now, us[|us| - 1]);
            && On(last.box, key, Follow(c, us, key))
            && c.s.delivered + OfKey(before.delivered + last.delivered, key) == Follow(c, us, key).s.delivered
  {
    var u := us[|us| - 1];
    OneStep(before.box, now, u, key, Follow(c, us[..|us| - 1], key));
    OfKeyConcat(before.delivered, Step(before.box, now, u).delivered, key);
    Joined(c.s.delivered, OfKey(before.delivered, key), OfKey(Step(before.box, now, u).delivered, key));
  }

  lemma Joined(x: seq<Update>, y: seq<Update>, z: seq<Update>)
    ensures (x + y) + z == x + (y + z)
  {
  }

  // What comes out on the course

  /** The updates in front of the first that resets the counter. */
  function UpToReset(us: seq<Update>, key: Key): (n: nat)
    ensures n <= |us| && (n < |us| ==> Resets(us[n], key)) && forall i :: 0 <= i < n ==> !Resets(us[i], key)
  {
    if us == [] || Resets(us[0], key) then 0 else 1 + UpToReset(us[1..], key)
  }

  lemma {:induction false} FollowConcat(c: Course, x: seq<Update>, y: seq<Update>, key: Key)
    ensures Follow(c, x + y, key) == Follow(Follow(c, x, key), y, key)
  {
    if y == [] {
      assert x + y == x;
    } else {
      assert (x + y)[..|x + y| - 1] == x + y[..|y| - 1];
      FollowConcat(c, x, y[..|y| - 1], key);
    }
  }

  /** Once waiting, everything comes out. */
  lemma {:induction false} WaitingDelivers(c: Course, us: seq<Update>, key: Key)
    requires c.waiting
    ensures Follow(c, us, key).waiting && Follow(c, us, key).s.delivered == c.s.delivered + OfKey(us, key)
  {
    if us == [] {
      assert c.s.delivered + [] == c.s.delivered;
    } else {
      WaitingDelivers(c, us[..|us| - 1], key);
    }
  }

  lemma {:induction false} SiftsWithoutReset(us: seq<Update>, key: Key, pts: int)
    requires forall u :: u in us ==> !Resets(u, key)
    ensures AllBear(OfKey(us, key), key)
    ensures Follow(Course(false, Sifted(pts, [], [])), us, key) == Course(false, Sift(OfKey(us, key), pts))
  {
    OwnBear(us, key);
    if us != [] {
      var init, u := us[..|us| - 1], us[|us| - 1];
      assert u in us;
      SiftsWithoutReset(init, key, pts);
      if Bears(u, key) {
        SiftSnoc(OfKey(init, key), u, pts);
      } else {
        assert OfKey(us, key) == OfKey(init, key);
      }
    }
  }

  lemma ResetDelivers(c: Course, us: seq<Update>, key: Key)
    requires us == [] || Resets(us[0], key)
    ensures Follow(c, us, key).s.delivered == c.s.delivered + OfKey(us, key)
  {
    if us == [] {
      assert c.s.delivered + [] == c.s.delivered;
    } else {
      assert us == [us[0]] + us[1..] && [us[0]][..0] == [];
      FollowConcat(c, [us[0]], us[1..], key);
      OfKeyConcat([us[0]], us[1..], key);
      assert Follow(c, [us[0]], key) == GoOn(c, us[0], key);
      WaitingDelivers(GoOn(c, us[0], key), us[1..], key);
      OfKeyAllOrNone([us[0]], key);
    }
  }

  /** From a counter on, all come out exactly when those in front of the first reset
      continue it; what comes out is theirs, sifted, and all behind. */
  lemma CourseDelivers(us: seq<Update>, key: Key, pts: int)
    ensures var n, c := UpToReset(us, key), Follow(Course(false, Sifted(pts, [], [])), us, key);
            && AllBear(OfKey(us[..n], key), key)
            && c.s.delivered == Sift(OfKey(us[..n], key), pts).delivered + OfKey(us[n..], key)
            && (|c.s.delivered| == |OfKey(us, key)| <==> Continues(OfKey(us[..n], key), key, pts))
            && (Continues(OfKey(us[..n], key), key, pts) ==> c.s.delivered == OfKey(us, key))
  {
    var n := UpToReset(us, key);
    var start := Course(false, Sifted(pts, [], []));
    assert us == us[..n] + us[n..];
    FollowConcat(start, us[..n], us[n..], key);
    OfKeyConcat(us[..n], us[n..], key);
    SiftsWithoutReset(us[..n], key, pts);
    ResetDelivers(Follow(start, us[..n], key), us[n..], key);
    AllComeOutExactlyWhen(OfKey(us[..n], key), key, pts);
  }

  lemma SiftSnoc(own: seq<Update>, u: Update, pts: int)
    requires forall v :: v in own + [u] ==> PtsInfoOf(v).Some?
    ensures u in own + [u]
    ensures (forall v :: v in own ==> PtsInfoOf(v).Some?) && Sift(own + [u], pts) == SiftOne(Sift(own, pts), u)
  {
    assert (own + [u])[..|own + [u]| - 1] == own;
  }

  /** What a channel difference leaves and delivers: the sorted updates take the course
      that starts at the counter it names, waiting if it is a partial one. */
  ghost predicate ChannelExact(r: Answered, key: Key, d: ChannelDiff) {
    var first, c := |d.newMessages|, Follow(Course(!d.isFinal, Sifted(d.pts, [], [])), Sort(d.otherUpdates, SortKey), key);
    && key in r.box.live && r.box.inFlight == None && (key in r.box.queue <==> c.waiting)
    && first <= |r.delivered| && r.delivered[..first] == ChannelMessages(d)
    && OfKey(r.delivered[first..], key) == c.s.delivered && r.box.live[key].pts == c.s.pts
    && multiset(Buffered(r.box.live[key])) == multiset(c.s.buffered)
  }

  lemma AnswerIsExact(b: Box, now: nat, key: Key, d: ChannelDiff)
    requires Structure(b) && key in b.live && b.inFlight == None && b.live[key].pts == d.pts
    requires b.live[key].possibleGap.None? && (key in b.queue <==> !d.isFinal)
    ensures var p := ProcessUpdates(b, now, Bare(d.otherUpdates));
            p.result.Ok? && ChannelExact(Answered(p.box, ChannelMessages(d) + p.result.value), key, d)
  {
    var us := Sort(d.otherUpdates, SortKey);
    SortSorts(d.otherUpdates, SortKey);
    BareProcess(b, now, d.otherUpdates);
    StepAllFollows(b, now, us, key, Course(!d.isFinal, Sifted(d.pts, [], [])));
    Prepended(ChannelMessages(d), StepAll(b, now, us).delivered);
  }

  /** A channel difference, whatever updates it carries. */
  lemma ChannelDifferenceIsExact(b: Box, now: nat, d: ChannelDifference, id: int)
    requires Structure(b) && b.inFlight == Some(id) && Channel(id) in b.queue
    requires AdaptChannelDifference(d).Ok?
    ensures ChannelExact(ApplyChannelDifference(b, now, d), Channel(id), AdaptChannelDifference(d).value)
  {
    var key, diff := Channel(id), AdaptChannelDifference(d).value;
    var b2 := WithoutGap(b.(inFlight := None), key);
    EndDiffKeeps(b2, key, now);
    var b3 := SetPts(if diff.isFinal then EndDiff(b2, key, now) else b2, key, diff.pts, now);
    assert Structure(b3);
    AnswerIsExact(b3, now, key, diff);
    assert ApplyChannelDifference(b, now, d) == ApplyChannelDiff(b2, now, key, diff);
  }

  lemma SameCounts(x: seq<Update>, y: seq<Update>, us: seq<Update>, key: Key)
    requires OwnInOrder(x, us, key) && OwnInOrder(y, us, key)
    ensures |x| == |y|
  {
    assert multiset(x) == multiset(y);
    assert |multiset(x)| == |x| && |multiset(y)| == |y|;
  }

  /** A channel difference delivers its own updates, each once and in counter order,
      exactly when it is a partial one or those in front of the first too-long notice
      continue the counter it names. A final one ends the wait before its updates are
      processed, so one below that counter is taken for a duplicate and one behind a hole
      waits in the buffer; a too-long notice for the channel takes the wait up again. */
  lemma ChannelDifferenceDeliversExactlyWhen(b: Box, now: nat, d: ChannelDifference, id: int)
    requires Structure(b) && b.inFlight == Some(id) && Channel(id) in b.queue
    requires AdaptChannelDifference(d).Ok?
    ensures var r, diff := ApplyChannelDifference(b, now, d), AdaptChannelDifference(d).value;
            var sorted := Sort(diff.otherUpdates, SortKey);
            && ChannelExact(r, Channel(id), diff)
            && (OwnInOrder(OfKey(r.delivered[|diff.newMessages|..], Channel(id)), diff.otherUpdates, Channel(id))
                <==>
                !diff.isFinal
                || Continues(OfKey(sorted[..UpToReset(sorted, Channel(id))], Channel(id)), Channel(id), diff.pts))
  {
    var r, key, diff := ApplyChannelDifference(b, now, d), Channel(id), AdaptChannelDifference(d).value;
    var sorted, out := Sort(diff.otherUpdates, SortKey), OfKey(r.delivered[|diff.newMessages|..], key);
    ChannelDifferenceIsExact(b, now, d, id);
    SortedOwn(diff.otherUpdates, key);
    if diff.isFinal {
      CourseDelivers(sorted, key, diff.pts);
      if OwnInOrder(out, diff.otherUpdates, key) {
        SameCounts(out, OfKey(sorted, key), diff.otherUpdates, key);
      }
    } else {
      WaitingDelivers(Course(true, Sifted(diff.pts, [], [])), sorted, key);
      assert [] + OfKey(sorted, key) == OfKey(sorted, key);
    }
  }

  lemma {:induction false} InFlightStands(b: Box, now: nat, us: seq<Update>)
    ensures StepAll(b, now, us).box.inFlight == b.inFlight
  {
    if us != [] {
      InFlightStands(b, now, us[..|us| - 1]);
    }
  }

  lemma InOwn(us: seq<Update>, key: Key, u: Update)
    requires Bears(u, key)
    ensures u in OfKey(us, key) <==> u in us
  {
    OfKeyCounts(us, key, u);
    assert u in OfKey(us, key) <==> multiset(OfKey(us, key))[u] > 0;
    assert u in us <==> multiset(us)[u] > 0;
  }

  /** The same deletion in channel 5 comes out of a partial difference and not of a final one. */
  lemma AFinalDifferenceLosesAnUpdate()
    ensures var b := Box(map[Channel(5) := LiveEntry(Channel(5), 10, 900_000, None)], 0, 0, [Channel(5)], Some(5), 900_000);
            var u := ChannelUpdate(Some(5), 11, 1, 77);
            && Structure(b)
            && u in ApplyChannelDifference(b, 0, ChannelDifferenceFull(ChannelDiff(false, 12, None, [], [u]))).delivered
            && u !in ApplyChannelDifference(b, 0, ChannelDifferenceFull(ChannelDiff(true, 12, None, [], [u]))).delivered
  {
    var b := Box(map[Channel(5) := LiveEntry(Channel(5), 10, 900_000, None)], 0, 0, [Channel(5)], Some(5), 900_000);
    OneDelivered(b, 5, ChannelUpdate(Some(5), 11, 1, 77), false, 12);
    OneDelivered(b, 5, ChannelUpdate(Some(5), 11, 1, 77), true, 12);
  }

  /** A difference with one own update delivers it if it is partial, or if the update is
      next after the counter it names. */
  lemma OneDelivered(b: Box, id: int, u: Update, isFinal: bool, pts: int)
    requires Structure(b) && b.inFlight == Some(id) && Channel(id) in b.queue && Bears(u, Channel(id))
    ensures u in ApplyChannelDifference(b, 0, ChannelDifferenceFull(ChannelDiff(isFinal, pts, None, [], [u]))).delivered
            <==> !isFinal || SortKey(u) == pts
  {
    var d := ChannelDifferenceFull(ChannelDiff(isFinal, pts, None, [], [u]));
    var r := ApplyChannelDifference(b, 0, d).delivered;
    ChannelDifferenceIsExact(b, 0, d, id);
    OneOwn(u, Channel(id), !isFinal, pts);
    assert r[0..] == r;
    InOwn(r, Channel(id), u);
  }

  lemma OneOwn(u: Update, key: Key, waiting: bool, pts: int)
    requires Bears(u, key)
    ensures Follow(Course(waiting, Sifted(pts, [], [])), Sort([u], SortKey), key).s.delivered
            == if waiting || SortKey(u) == pts then [u] else []
  {
    assert [u][..0] == [];
    assert Sort([u], SortKey) == [u];
  }
}
