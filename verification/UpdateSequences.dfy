/** The sequence number of update containers: which containers are taken, which are
    refused or skipped, and where number and date stand after one container and after
    a run of them. */
module UpdateSequences {
  import opened Wrappers
  import opened UpdateDefs
  import opened UpdateBox
  import opened UpdateInvariants
  import opened UpdateDelivery
  import opened UpdateDifferences
  import opened UpdateReordering
  import opened StableSort

  // The fields of a container

  predicate IsContainer(input: UpdatesLike) {
    input.FromSocket? && (input.raw.Updates? || input.raw.UpdatesCombined?)
  }

  /** A plain container bears one number, a combined one a first and a last. */
  function FirstSeq(input: UpdatesLike): int
    requires IsContainer(input)
  {
    match input.raw
    case Updates(_, _, s) => s
    case UpdatesCombined(Combined(_, first, _, _)) => first
  }

  function LastSeq(input: UpdatesLike): int
    requires IsContainer(input)
  {
    match input.raw
    case Updates(_, _, s) => s
    case UpdatesCombined(Combined(_, _, last, _)) => last
  }

  function DateOf(input: UpdatesLike): int
    requires IsContainer(input)
  {
    match input.raw
    case Updates(_, date, _) => date
    case UpdatesCombined(Combined(date, _, _, _)) => date
  }

  function ContentOf(input: UpdatesLike): seq<Update>
    requires IsContainer(input)
  {
    match input.raw
    case Updates(us, _, _) => us
    case UpdatesCombined(Combined(_, _, _, us)) => us
  }

  // Open gaps

  ghost predicate HasGap(b: Box, key: Key) {
    key in b.live && b.live[key].possibleGap.Some?
  }

  ghost predicate LeavesOpen(b: Box, u: Update) {
    exists key :: Bears(u, key) && HasGap(b, key)
  }

  /** Once the update at `i` is taken, its counter has updates waiting behind a hole. */
  ghost predicate OpenAfter(b: Box, now: nat, us: seq<Update>, i: nat)
    requires i < |us|
  {
    LeavesOpen(StepAll(b, now, us[..i + 1]).box, us[i])
  }

  ghost predicate LeavesAGap(b: Box, now: nat, us: seq<Update>) {
    exists i: nat :: i < |us| && OpenAfter(b, now, us, i)
  }

  lemma OpenOfKey(b: Box, u: Update, key: Key)
    requires Bears(u, key)
    ensures LeavesOpen(b, u) <==> HasGap(b, key)
  {
  }

  lemma StepLeavesOpen(b: Box, now: nat, u: Update)
    requires Structure(b)
    ensures Step(b, now, u).unresolved <==> LeavesOpen(Step(b, now, u).box, u)
  {
    var info := PtsInfoOf(u);
    if !u.ChannelTooLong? && info.Some? {
      var key := info.value.key;
      OpenOfKey(Step(b, now, u).box, u, key);
    }
  }

  /** The batch is marked unresolved exactly when one of its updates leaves a gap open. */
  lemma {:induction false} UnresolvedExactlyWhen(b: Box, now: nat, us: seq<Update>)
    requires Structure(b)
    ensures StepAll(b, now, us).unresolved <==> LeavesAGap(b, now, us)
  {
    if us != [] {
      var n := |us| - 1;
      UnresolvedExactlyWhen(b, now, us[..n]);
      StepAllKeepsStructure(b, now, us[..n]);
      StepLeavesOpen(StepAll(b, now, us[..n]).box, now, us[n]);
      assert us[..n + 1] == us;
      GapsOfPrefix(b, now, us);
    }
  }

  lemma GapsOfPrefix(b: Box, now: nat, us: seq<Update>)
    requires us != []
    ensures LeavesAGap(b, now, us) <==> LeavesAGap(b, now, us[..|us| - 1]) || OpenAfter(b, now, us, |us| - 1)
  {
    var n := |us| - 1;
    forall i: nat | i < n
      ensures OpenAfter(b, now, us, i) <==> OpenAfter(b, now, us[..n], i)
    {
      assert us[..n][..i + 1] == us[..i + 1];
    }
  }

  // One container

  /** Something comes out of the container and none of its updates leaves a gap open. */
  ghost predicate Settles(b: Box, now: nat, input: UpdatesLike)
    requires IsContainer(input)
  {
    var us := Sort(ContentOf(input), SortKey);
    StepAll(b, now, us).delivered != [] && !LeavesAGap(b, now, us)
  }

  function Stamp(new_: int, none: int, old_: int): int {
    if new_ == none then old_ else new_
  }

  /** A container past the next number is refused: the account is due for a difference,
      its gap is forgotten, and nothing else changes. */
  ghost predicate Refused(b: Box, p: Processed) {
    && p.result == Err(Gap)
    && p.box.queue == b.queue + (if Common in b.live && Common !in b.queue then [Common] else [])
    && p.box.live.Keys == b.live.Keys
    && (forall k :: k in b.live && k != Common ==> p.box.live[k] == b.live[k])
    && (Common in b.live ==> p.box.live[Common] == b.live[Common].(possibleGap := None))
    && p.box.date == b.date && p.box.seqNo == b.seqNo
    && p.box.inFlight == b.inFlight && p.box.nextDeadline == b.nextDeadline
  }

  lemma GateOfContainer(b: Box, now: nat, input: UpdatesLike)
    requires Structure(b) && IsContainer(input)
    ensures var p := ProcessUpdates(b, now, input);
            && (FirstSeq(input) != NO_SEQ && FirstSeq(input) > b.seqNo + 1 ==> Refused(b, p))
            && (FirstSeq(input) != NO_SEQ && FirstSeq(input) <= b.seqNo ==> p == Processed(b, Ok([])))
  {
  }

  lemma TakenIsApplied(b: Box, now: nat, input: UpdatesLike)
    requires IsContainer(input)
    requires FirstSeq(input) == NO_SEQ || FirstSeq(input) == b.seqNo + 1
    ensures ProcessUpdates(b, now, input)
            == Apply(b, now, Combined(DateOf(input), FirstSeq(input), LastSeq(input), ContentOf(input)))
  {
  }

  lemma AppliedIsStamped(b: Box, now: nat, c: Combined, o: Outcome)
    requires o == StepAll(b, now, Sort(c.updates, SortKey)) && o.box.date == b.date && o.box.seqNo == b.seqNo
    ensures var p, moves := Apply(b, now, c), o.delivered != [] && !o.unresolved;
            && p.result == Ok(o.delivered) && p.box.live == o.box.live && p.box.queue == o.box.queue
            && p.box.seqNo == (if moves then Stamp(c.seqNo, NO_SEQ, b.seqNo) else b.seqNo)
            && p.box.date == (if moves then Stamp(c.date, NO_DATE, b.date) else b.date)
  {
  }

  /** A container that is next, or bears no number, is taken. Number and date move to
      its own exactly when it settles, where a zero stands for none. */
  lemma TakenContainer(b: Box, now: nat, input: UpdatesLike)
    requires Structure(b) && IsContainer(input)
    requires FirstSeq(input) == NO_SEQ || FirstSeq(input) == b.seqNo + 1
    ensures var p, o := ProcessUpdates(b, now, input), StepAll(b, now, Sort(ContentOf(input), SortKey));
            && p.result == Ok(o.delivered) && p.box.live == o.box.live && p.box.queue == o.box.queue
            && p.box.seqNo == (if Settles(b, now, input) then Stamp(LastSeq(input), NO_SEQ, b.seqNo) else b.seqNo)
            && p.box.date == (if Settles(b, now, input) then Stamp(DateOf(input), NO_DATE, b.date) else b.date)
  {
    var us := Sort(ContentOf(input), SortKey);
    UnresolvedExactlyWhen(b, now, us);
    DateStands(b, now, us);
    TakenIsApplied(b, now, input);
    AppliedIsStamped(b, now, Combined(DateOf(input), FirstSeq(input), LastSeq(input), ContentOf(input)), StepAll(b,
        now, us));
  }

  /** The container behind one that is next is refused exactly when the one in front
      of it brought nothing out or left a gap open. */
  lemma NextIsRefusedExactlyWhen(b: Box, now: nat, input: UpdatesLike, later: nat, next: UpdatesLike)
    requires Structure(b) && IsContainer(input) && IsContainer(next)
    requires NO_SEQ != FirstSeq(input) == b.seqNo + 1 && NO_SEQ != LastSeq(input) > b.seqNo
    requires NO_SEQ != FirstSeq(next) == LastSeq(input) + 1
    ensures var after := ProcessUpdates(b, now, input).box;
            ProcessUpdates(after, later, next).result.Err? <==> !Settles(b, now, input)
  {
    var after := ProcessUpdates(b, now, input).box;
    TakenContainer(b, now, input);
    ProcessKeepsStructure(b, now, input);
    GateOfContainer(after, later, next);
    if Settles(b, now, input) {
      TakenContainer(after, later, next);
    }
  }

  // Runs

  /** The last number that is not zero. */
  function LastSeqOf(batches: seq<Batch>, from: int): int
    requires forall x :: x in batches ==> IsContainer(x.input)
  {
    if batches == [] then from
    else Stamp(LastSeq(batches[|batches| - 1].input), NO_SEQ, LastSeqOf(batches[..|batches| - 1], from))
  }

  function LastDateOf(batches: seq<Batch>, from: int): int
    requires forall x :: x in batches ==> IsContainer(x.input)
  {
    if batches == [] then from
    else Stamp(DateOf(batches[|batches| - 1].input), NO_DATE, LastDateOf(batches[..|batches| - 1], from))
  }

  predicate AllContainers(batches: seq<Batch>) {
    forall x :: x in batches ==> IsContainer(x.input)
  }

  /** Each container starts one past the last number in front of it. */
  predicate InLine(batches: seq<Batch>, from: int) {
    && AllContainers(batches)
    && (batches != [] ==>
          var n := |batches| - 1;
          InLine(batches[..n], from) && FirstSeq(batches[n].input) == LastSeqOf(batches[..n], from) + 1)
  }

  /** Each container settles in its turn. */
  ghost predicate AllSettle(b: Box, batches: seq<Batch>)
    requires AllContainers(batches)
  {
    batches != [] ==>
      var n := |batches| - 1;
      AllSettle(b, batches[..n]) && Settles(RunBatches(b, batches[..n]).box, batches[n].now, batches[n].input)
  }

  ghost predicate TakenAt(b: Box, batches: seq<Batch>, i: nat)
    requires i < |batches|
  {
    ProcessUpdates(RunBatches(b, batches[..i]).box, batches[i].now, batches[i].input).result.Ok?
  }

  lemma TakenInPrefix(b: Box, batches: seq<Batch>, i: nat)
    requires i < |batches| - 1
    ensures TakenAt(b, batches, i) == TakenAt(b, batches[..|batches| - 1], i)
  {
    assert batches[..|batches| - 1][..i] == batches[..i];
  }

  lemma LastTaken(b: Box, batches: seq<Batch>, init: seq<Batch>)
    requires batches != [] && init == batches[..|batches| - 1] && TakenAt(b, batches, |batches| - 1)
    requires forall i: nat :: i < |init| ==> TakenAt(b, init, i)
    ensures forall i: nat :: i < |batches| ==> TakenAt(b, batches, i)
  {
    forall i: nat | i < |batches| - 1
      ensures TakenAt(b, batches, i)
    {
      TakenInPrefix(b, batches, i);
    }
  }

  lemma OneMoreTaken(b: Box, batches: seq<Batch>)
    requires batches != [] && InLine(batches, b.seqNo) && AllSettle(b, batches)
    requires var r := RunBatches(b, batches[..|batches| - 1]).box;
             && Structure(r) && r.seqNo == LastSeqOf(batches[..|batches| - 1], b.seqNo)
             && r.date == LastDateOf(batches[..|batches| - 1], b.date)
    ensures TakenAt(b, batches, |batches| - 1)
    ensures RunBatches(b, batches).box.seqNo == LastSeqOf(batches, b.seqNo)
    ensures RunBatches(b, batches).box.date == LastDateOf(batches, b.date)
  {
    var n := |batches| - 1;
    TakenContainer(RunBatches(b, batches[..n]).box, batches[n].now, batches[n].input);
  }

  /** Over any run of containers in line that settle, every one is taken, and number and
      date end at the last container's. */
  lemma {:induction false} ContainersInLineAreTaken(b: Box, batches: seq<Batch>)
    requires Structure(b) && InLine(batches, b.seqNo) && AllSettle(b, batches)
    ensures forall i: nat :: i < |batches| ==> TakenAt(b, batches, i)
    ensures RunBatches(b, batches).box.seqNo == LastSeqOf(batches, b.seqNo)
    ensures RunBatches(b, batches).box.date == LastDateOf(batches, b.date)
  {
    if batches != [] {
      var n := |batches| - 1;
      ContainersInLineAreTaken(b, batches[..n]);
      RunKeepsStructure(b, batches[..n]);
      OneMoreTaken(b, batches);
      LastTaken(b, batches, batches[..n]);
    }
  }

  // Gaps in a box that had none

  /** What waits for `key` lies above its counter and not above `limit`. */
  ghost predicate WaitsBelow(b: Box, key: Key, limit: int) {
    key in b.live ==>
      forall v :: v in Buffered(b.live[key]) ==> b.live[key].pts < SortKey(v) <= limit
  }

  lemma GapIsBuffered(b: Box, key: Key)
    requires Structure(b) && key in b.live
    ensures HasGap(b, key) <==> Buffered(b.live[key]) != []
  {
  }

  lemma OwnStepStaysOpen(b: Box, now: nat, u: Update, key: Key)
    requires Structure(b) && Bears(u, key) && key in b.live && key !in b.queue && WaitsBelow(b, key, SortKey(u))
    ensures var o := Step(b, now, u).box;
            WaitsBelow(o, key, SortKey(u)) && (HasGap(b, key) ==> HasGap(o, key))
  {
    var e, o := b.live[key], Step(b, now, u).box;
    var s := Sifted(e.pts, [], Buffered(e));
    OwnStepSifts(b, now, u, key, s);
    SameMembers(Buffered(o.live[key]), SiftOne(s, u).buffered);
    GapIsBuffered(b, key);
    if HasGap(b, key) {
      SomeMember(Buffered(e));
      assert u in SiftOne(s, u).buffered;
    }
  }

  lemma FirstOfKey(b: Box, now: nat, u: Update, key: Key)
    requires Structure(b) && Bears(u, key) && key !in b.live
    ensures var o := Step(b, now, u);
            o.delivered == [u] && o.box.live == b.live[key := LiveEntry(key, PtsOf(u), now + NO_UPDATES_TIMEOUT, None)]
            && !o.unresolved
  {
  }

  lemma QueuedHasNoGap(b: Box, now: nat, u: Update, key: Key)
    requires Structure(b) && key in b.queue
    ensures var o := Step(b, now, u).box; !HasGap(b, key) && !HasGap(o, key) && WaitsBelow(o, key, SortKey(u))
  {
    StepKeepsStructure(b, now, u);
    StepQueueGrows(b, now, u);
  }

  /** In sort-key order a gap once open stays open. */
  lemma StepStaysOpen(b: Box, now: nat, u: Update, key: Key, limit: int)
    requires Structure(b) && !Resets(u, key) && WaitsBelow(b, key, limit) && limit <= SortKey(u)
    ensures var o := Step(b, now, u).box;
            WaitsBelow(o, key, SortKey(u)) && (HasGap(b, key) ==> HasGap(o, key))
  {
    if key in b.queue {
      QueuedHasNoGap(b, now, u, key);
    } else if key !in b.live {
      if Bears(u, key) {
        FirstOfKey(b, now, u, key);
      } else {
        StillUntracked(b, now, u, key);
      }
    } else if Bears(u, key) {
      OwnStepStaysOpen(b, now, u, key);
    } else {
      OtherStep(b, now, u, key);
    }
  }

  lemma StillUntracked(b: Box, now: nat, u: Update, key: Key)
    requires Structure(b) && !Resets(u, key) && !Bears(u, key) && key !in b.live
    ensures key !in Step(b, now, u).box.live
  {
    var info := PtsInfoOf(u);
    if !u.ChannelTooLong? && info.Some? && info.value.key !in b.queue {
      AbsorbFits(EntryFor(b, info.value, now), u, info.value, now);
    }
  }

  lemma NothingWaits(b: Box, key: Key, limit: int)
    requires Structure(b) && !HasGap(b, key)
    ensures WaitsBelow(b, key, limit)
  {
  }

  lemma {:induction false} WaitsInOrder(b: Box, now: nat, us: seq<Update>, key: Key, limit: int)
    requires Structure(b) && !HasGap(b, key) && SortedBy(us, SortKey)
    requires forall u :: u in us ==> !Resets(u, key) && SortKey(u) <= limit
    ensures WaitsBelow(StepAll(b, now, us).box, key, limit)
  {
    if us == [] {
      NothingWaits(b, key, limit);
    } else {
      var init, u := us[..|us| - 1], us[|us| - 1];
      assert u in us;
      BelowLast(us);
      WaitsInOrder(b, now, init, key, SortKey(u));
      StepAllKeepsStructure(b, now, init);
      StepStaysOpen(StepAll(b, now, init).box, now, u, key, SortKey(u));
    }
  }

  lemma {:induction false} GapsStayOpen(b: Box, now: nat, us: seq<Update>, key: Key, n: nat)
    requires Structure(b) && !HasGap(b, key) && SortedBy(us, SortKey) && n <= |us|
    requires forall u :: u in us ==> !Resets(u, key)
    requires HasGap(StepAll(b, now, us[..n]).box, key)
    ensures HasGap(StepAll(b, now, us).box, key)
    decreases |us|
  {
    if n == |us| {
      assert us[..n] == us;
    } else {
      var init, u := us[..|us| - 1], us[|us| - 1];
      assert u in us && init[..n] == us[..n];
      BelowLast(us);
      GapsStayOpen(b, now, init, key, n);
      WaitsInOrder(b, now, init, key, SortKey(u));
      StepAllKeepsStructure(b, now, init);
      StepStaysOpen(StepAll(b, now, init).box, now, u, key, SortKey(u));
    }
  }

  lemma {:induction false} UntouchedKeepNone(b: Box, now: nat, us: seq<Update>, key: Key)
    requires Structure(b) && !HasGap(b, key) && !LeavesAGap(b, now, us)
    ensures !HasGap(StepAll(b, now, us).box, key)
  {
    if us != [] {
      var n := |us| - 1;
      GapsOfPrefix(b, now, us);
      UntouchedKeepNone(b, now, us[..n], key);
      StepAllKeepsStructure(b, now, us[..n]);
      assert us[..n + 1] == us;
      NoNewGap(StepAll(b, now, us[..n]).box, now, us[n], key);
    }
  }

  lemma NoNewGap(b: Box, now: nat, u: Update, key: Key)
    requires Structure(b) && !HasGap(b, key) && !LeavesOpen(Step(b, now, u).box, u)
    ensures !HasGap(Step(b, now, u).box, key)
  {
    if key in b.queue {
      QueuedHasNoGap(b, now, u, key);
    } else if !Bears(u, key) && !Resets(u, key) {
      if key in b.live {
        OtherStep(b, now, u, key);
      } else {
        StillUntracked(b, now, u, key);
      }
    }
  }

  ghost predicate NoGaps(b: Box) {
    forall key :: !HasGap(b, key)
  }

  lemma GapIsLeft(b: Box, now: nat, us: seq<Update>, i: nat, after: Box)
    requires Structure(b) && NoGaps(b) && SortedBy(us, SortKey)
    requires forall u :: u in us ==> !u.ChannelTooLong?
    requires i < |us| && OpenAfter(b, now, us, i) && after == StepAll(b, now, us).box
    ensures !NoGaps(after)
  {
    var key :| Bears(us[i], key) && HasGap(StepAll(b, now, us[..i + 1]).box, key);
    GapsStayOpen(b, now, us, key, i + 1);
  }

  lemma NoneIsLeft(b: Box, now: nat, us: seq<Update>, after: Box)
    requires Structure(b) && NoGaps(b) && !LeavesAGap(b, now, us) && after == StepAll(b, now, us).box
    ensures NoGaps(after)
  {
    forall key
      ensures !HasGap(after, key)
    {
      UntouchedKeepNone(b, now, us, key);
    }
  }

  /** In a box without gaps, a batch without too-long notices leaves one open exactly when
      some counter has one in the end. */
  lemma GapsShowAtTheEnd(b: Box, now: nat, us: seq<Update>, after: Box)
    requires Structure(b) && NoGaps(b) && SortedBy(us, SortKey)
    requires forall u :: u in us ==> !u.ChannelTooLong?
    requires after == StepAll(b, now, us).box
    ensures LeavesAGap(b, now, us) <==> !NoGaps(after)
  {
    if LeavesAGap(b, now, us) {
      var i: nat :| i < |us| && OpenAfter(b, now, us, i);
      GapIsLeft(b, now, us, i, after);
    } else {
      NoneIsLeft(b, now, us, after);
    }
  }

  // A gap that closes late

  const DUPLICATE := CommonUpdate(10, 1, 0)
  const MISSING := CommonUpdate(11, 1, 1)
  const HELD := CommonUpdate(12, 1, 2)
  const HOLDING := LiveEntry(Common, 10, 900_000, Some(PossibleGap(500, [HELD])))

  /** The account stands at 10 and holds back the update from 11 to 12. */
  function HoldingBox(): Box {
    Box(map[Common := HOLDING], 7, 4, [], None, 500)
  }

  /** One container brings a repeated update and then the missing one: all comes out and
      no gap is left, but the repeated one found the gap open, so the number stays and
      the next container is refused. */
  lemma AClosedGapHoldsTheNumberBack() returns (b: Box, us: seq<Update>, p: Processed)
    ensures b == HoldingBox() && us == [DUPLICATE, MISSING] && Structure(b)
    ensures p == ProcessUpdates(b, 0, FromSocket(Updates(us, 8, 5))) && p.result == Ok([MISSING, HELD])
    ensures NoGaps(p.box) && p.box.seqNo == 4 && p.box.date == 7
    ensures ProcessUpdates(p.box, 0, FromSocket(Updates([Plain(3)], 9, 6))).result.Err?
  {
    var o;
    b, us, o := BothSteps();
    p := ProcessUpdates(b, 0, FromSocket(Updates(us, 8, 5)));
    UnresolvedStays(b, 0, us, o, 8, 5, [Plain(3)], 9);
    SameGaps(o.box, p.box);
  }

  lemma SameGaps(b: Box, r: Box)
    requires b.live == r.live
    ensures NoGaps(b) ==> NoGaps(r)
  {
    assert forall key :: HasGap(b, key) <==> HasGap(r, key);
  }

  lemma UnresolvedStays(b: Box, now: nat, us: seq<Update>, o: Outcome, date: int, s: int, more: seq<Update>, later: int)
    requires Structure(b) && SortedBy(us, SortKey) && o == StepAll(b, now, us) && o.unresolved
        && NO_SEQ < s == b.seqNo + 1
    ensures var p := ProcessUpdates(b, now, FromSocket(Updates(us, date, s)));
            && p.result == Ok(o.delivered) && p.box.live == o.box.live
            && p.box.seqNo == b.seqNo && p.box.date == b.date
            && ProcessUpdates(p.box, now, FromSocket(Updates(more, later, s + 1))).result.Err?
  {
    var input := FromSocket(Updates(us, date, s));
    SortLeavesSorted(us, SortKey);
    TakenContainer(b, now, input);
    UnresolvedExactlyWhen(b, now, us);
    NextIsRefusedExactlyWhen(b, now, input, now, FromSocket(Updates(more, later, s + 1)));
  }

  lemma TwoSteps(b: Box, now: nat, x: Update, y: Update, first: Outcome, second: Outcome)
    requires first == Step(b, now, x) && second == Step(first.box, now, y)
    ensures StepAll(b, now, [x, y])
            == Outcome(second.box, first.delivered + second.delivered, first.unresolved || second.unresolved)
  {
    assert [x, y][..1] == [x] && [x][..0] == [];
    assert StepAll(b, now, [x]) == Outcome(first.box, [] + first.delivered, first.unresolved);
    assert [] + first.delivered == first.delivered;
  }

  lemma InOrder(x: Update, y: Update)
    requires SortKey(x) <= SortKey(y)
    ensures SortedBy([x, y], SortKey)
  {
  }

  lemma HoldingHasStructure(b: Box)
    requires b == HoldingBox()
    ensures Structure(b)
  {
    assert Bears(HELD, Common);
  }

  lemma BothSteps() returns (b: Box, us: seq<Update>, o: Outcome)
    ensures b == HoldingBox() && Structure(b) && b.seqNo == 4 && b.date == 7
    ensures us == [DUPLICATE, MISSING] && SortedBy(us, SortKey)
    ensures o == StepAll(b, 0, us) && o.delivered == [MISSING, HELD] && o.unresolved && NoGaps(o.box)
  {
    b, us := HoldingBox(), [DUPLICATE, MISSING];
    HoldingHasStructure(b);
    InOrder(DUPLICATE, MISSING);
    FirstStep(b);
    SecondStep(b);
    TwoSteps(b, 0, DUPLICATE, MISSING, Step(b, 0, DUPLICATE), Step(b, 0, MISSING));
    o := StepAll(b, 0, us);
    assert [] + [MISSING, HELD] == [MISSING, HELD];
  }

  lemma OneHeld(pts: int)
    ensures Sort([HELD], NegatedSortKey) == [HELD]
    ensures Drain(pts, [HELD])
            == if pts < 11 then Drained(pts, [], [HELD])
               else if pts == 11 then Drained(12, [HELD], [])
               else Drained(pts, [], [])
  {
    assert [HELD][..0] == [];
  }

  lemma FirstStep(b: Box)
    requires b == HoldingBox()
    ensures Step(b, 0, DUPLICATE) == Outcome(b, [], true)
  {
    OneHeld(10);
    assert Absorb(HOLDING, DUPLICATE, PtsInfo(Common, 10, 1), 0) == Absorbed(HOLDING, []);
    assert b.live[Common := HOLDING] == b.live;
  }

  lemma SecondStep(b: Box)
    requires b == HoldingBox()
    ensures var o := Step(b, 0, MISSING);
            o.delivered == [MISSING, HELD] && NoGaps(o.box)
  {
    OneHeld(11);
    assert Absorb(HOLDING, MISSING, PtsInfo(Common, 11, 1), 0)
           == Absorbed(LiveEntry(Common, 12, 900_000, None), [MISSING] + [HELD]);
  }
}
