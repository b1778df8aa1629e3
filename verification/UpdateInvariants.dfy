/** Two invariants of the update box, kept by every public operation: its
    structure, and a bound on how late the cached deadline can be. */
module UpdateInvariants {
  import opened Wrappers
  import opened UpdateDefs
  import opened UpdateBox
  import opened StableSort

  /** A stored gap is never empty and holds updates of its own counter only. */
  ghost predicate GapFits(e: LiveEntry) {
    e.possibleGap.Some? ==>
      && e.possibleGap.value.updates != []
      && forall u :: u in e.possibleGap.value.updates ==> Bears(u, e.key)
  }

  ghost predicate EntriesFit(live: map<Key, LiveEntry>) {
    forall k :: k in live ==> live[k].key == k && GapFits(live[k])
  }

  ghost predicate NoRepeats(q: seq<Key>) {
    forall i, j :: 0 <= i < j < |q| ==> q[i] != q[j]
  }

  ghost predicate Structure(b: Box) {
    && EntriesFit(b.live)
    && NoRepeats(b.queue)
    && forall k :: k in b.queue ==> k in b.live && b.live[k].possibleGap.None?
  }

  /** `slack` bounds every timeout a server may ask for, and the default one. */
  ghost predicate Bound(b: Box, now: nat, slack: nat) {
    && slack >= NO_UPDATES_TIMEOUT
    && b.nextDeadline <= now + slack
    && forall k :: k in b.live ==> b.nextDeadline <= b.live[k].EffectiveDeadline() + slack
  }

  // Operations

  datatype Op =
    | Process(input: UpdatesLike)
    | Check
    | NextChannelRequest
    | ApplyAccount(d: Difference)
    | ApplyOneChannel(c: ChannelDifference)
    | EndOneChannel(reason: PrematureEndReason)
    | Abort
    | ForceReset(forced: State)
    | Login(initial: State)
    | TrackChannel(id: int, pts: int)

  /** `set_state` may only be called on an empty box. */
  predicate Enabled(b: Box, op: Op) {
    op.Login? ==> b.live == map[]
  }

  ghost function Do(b: Box, now: nat, op: Op): Box {
    match op
    case Process(input) => ProcessUpdates(b, now, input).box
    case Check => CheckDeadlines(b, now)
    case NextChannelRequest => GetChannelDifference(b)
    case ApplyAccount(d) => ApplyDifference(b, now, d).box
    case ApplyOneChannel(c) => ApplyChannelDifference(b, now, c).box
    case EndOneChannel(reason) => EndChannelDifference(b, now, reason)
    case Abort => AbortDifference(b, now)
    case ForceReset(s) => ForceResetCommonPts(b, now, s)
    case Login(s) => SetState(b, now, s)
    case TrackChannel(id, pts) => TrySetChannelState(b, now, id, pts)
  }

  predicate TimeoutWithin(op: Op, slack: nat) {
    op.ApplyOneChannel? && AdaptChannelDifference(op.c).Ok? ==>
      var t := AdaptChannelDifference(op.c).value.timeout;
      t.Some? ==> t.value <= slack
  }

  // Structure

  lemma DrainSplits(pts: int, pending: seq<Update>)
    ensures forall u :: u in Drain(pts, pending).rest ==> u in pending
    ensures forall u :: u in Drain(pts, pending).delivered ==> u in pending
    decreases |pending|
  {
    if pending != [] {
      var init, u := pending[..|pending| - 1], pending[|pending| - 1];
      var info := PtsInfoOf(u);
      if info.Some? && pts + info.value.count >= info.value.pts {
        DrainSplits(if pts + info.value.count == info.value.pts then info.value.pts else pts, init);
      }
    }
  }

  lemma DrainGapFits(e: LiveEntry)
    requires GapFits(e)
    ensures GapFits(DrainGap(e).entry) && DrainGap(e).entry.key == e.key
    ensures DrainGap(e).entry.deadline == e.deadline
    ensures DrainGap(e).entry.possibleGap.Some? ==>
              e.possibleGap.Some? && DrainGap(e).entry.possibleGap.value.deadline == e.possibleGap.value.deadline
  {
    if e.possibleGap.Some? {
      var us := e.possibleGap.value.updates;
      SameElements(us, NegatedSortKey);
      DrainSplits(e.pts, Sort(us, NegatedSortKey));
    }
  }

  lemma TakeFits(e: LiveEntry, u: Update, info: PtsInfo, now: nat)
    requires GapFits(e) && Bears(u, e.key) && PtsInfoOf(u) == Some(info)
    ensures GapFits(Take(e, u, info, now).entry) && Take(e, u, info, now).entry.key == e.key
  {
  }

  lemma AbsorbFits(e: LiveEntry, u: Update, info: PtsInfo, now: nat)
    requires GapFits(e) && Bears(u, e.key) && PtsInfoOf(u) == Some(info)
    ensures GapFits(Absorb(e, u, info, now).entry) && Absorb(e, u, info, now).entry.key == e.key
  {
    TakeFits(e, u, info, now);
    DrainGapFits(Take(e, u, info, now).entry);
  }

  lemma RemoveFirstKeeps(q: seq<Key>, key: Key)
    requires NoRepeats(q)
    ensures NoRepeats(RemoveFirst(q, key))
    ensures forall k :: k in RemoveFirst(q, key) <==> k in q && k != key
  {
    if q != [] {
      RemoveFirstKeeps(q[1..], key);
      assert forall k :: k in q <==> k == q[0] || k in q[1..];
      assert q[0] !in q[1..];
      var r := RemoveFirst(q[1..], key);
      assert forall i :: 0 <= i < |r| ==> r[i] in r;
      assert NoRepeats([q[0]] + r) by {
        assert forall i :: 1 <= i <= |r| ==> ([q[0]] + r)[i] in r;
      }
    }
  }

  lemma EndDiffKeeps(b: Box, key: Key, now: nat)
    requires Structure(b)
    ensures Structure(EndDiff(b, key, now))
    ensures forall k :: k in EndDiff(b, key, now).queue <==> k in b.queue && k != key
  {
    RemoveFirstKeeps(b.queue, key);
  }

  lemma SetPtsKeepsStructure(b: Box, key: Key, pts: int, now: nat)
    requires Structure(b)
    ensures Structure(SetPts(b, key, pts, now))
  {
  }

  lemma ResetKeepsStructure(b: Box, key: Key, deadline: nat)
    requires Structure(b)
    ensures Structure(ResetDeadline(b, key, deadline))
  {
  }

  lemma OpenTooLongKeepsStructure(b: Box, u: Update, now: nat)
    requires Structure(b) && u.ChannelTooLong?
    ensures Structure(OpenTooLong(b, u, now))
  {
  }

  lemma OfferKeepsStructure(b: Box, u: Update, info: PtsInfo, now: nat)
    requires Structure(b) && Bears(u, info.key) && PtsInfoOf(u) == Some(info) && info.key !in b.queue
    ensures Structure(Offer(b, u, info, now).box)
  {
    var e := EntryFor(b, info, now);
    AbsorbFits(e, u, info, now);
    EntryKeepsStructure(b, Absorb(e, u, info, now).entry, Offer(b, u, info, now).box.nextDeadline);
  }

  lemma EntryKeepsStructure(b: Box, e: LiveEntry, nextDeadline: nat)
    requires Structure(b) && GapFits(e) && e.key !in b.queue
    ensures Structure(b.(live := b.live[e.key := e], nextDeadline := nextDeadline))
  {
  }

  lemma StepKeepsStructure(b: Box, now: nat, u: Update)
    requires Structure(b)
    ensures Structure(Step(b, now, u).box)
  {
    var info := PtsInfoOf(u);
    if u.ChannelTooLong? {
      OpenTooLongKeepsStructure(b, u, now);
    } else if info.Some? {
      if info.value.key in b.queue {
        ResetKeepsStructure(b, info.value.key, now + NO_UPDATES_TIMEOUT);
      } else {
        OfferKeepsStructure(b, u, info.value, now);
      }
    }
  }

  lemma {:induction false} StepAllKeepsStructure(b: Box, now: nat, us: seq<Update>)
    requires Structure(b)
    ensures Structure(StepAll(b, now, us).box)
  {
    if us != [] {
      StepAllKeepsStructure(b, now, us[..|us| - 1]);
      StepKeepsStructure(StepAll(b, now, us[..|us| - 1]).box, now, us[|us| - 1]);
    }
  }

  lemma RestampKeepsStructure(b: Box, date: int, seqNo: int)
    requires Structure(b)
    ensures Structure(b.(date := date, seqNo := seqNo))
  {
  }

  lemma ApplyKeepsStructure(b: Box, now: nat, c: Combined)
    requires Structure(b)
    ensures Structure(Apply(b, now, c).box)
  {
    var us := Sort(c.updates, SortKey);
    StepAllKeepsStructure(b, now, us);
    RestampKeepsStructure(StepAll(b, now, us).box, Apply(b, now, c).box.date, Apply(b, now, c).box.seqNo);
  }

  lemma BeginDiffKeepsStructure(b: Box, key: Key)
    requires Structure(b)
    ensures Structure(BeginDiff(b, key))
  {
  }

  lemma ProcessKeepsStructure(b: Box, now: nat, input: UpdatesLike)
    requires Structure(b)
    ensures Structure(ProcessUpdates(b, now, input).box)
  {
    BeginDiffKeepsStructure(b, Common);
    if Adapt(input).Ok? {
      ApplyKeepsStructure(b, now, Adapt(input).value);
    }
  }

  lemma CheckKeepsStructure(b: Box, now: nat)
    requires Structure(b)
    ensures Structure(CheckDeadlines(b, now))
  {
    if b.queue == [] {
      var q := InKeyOrder(Expired(b, now));
      assert NoRepeats(q) by {
        assert forall i, j :: 0 <= i < j < |q| ==> KeyLess(q[i], q[j]);
      }
    }
  }

  lemma AdoptStateKeepsStructure(b: Box, s: State, now: nat)
    requires Structure(b)
    ensures Structure(AdoptState(b, s, now))
  {
    var b1 := b.(date := s.date, seqNo := s.seqNo);
    SetPtsKeepsStructure(b1, Common, s.pts, now);
    SetPtsKeepsStructure(SetPts(b1, Common, s.pts, now), Secondary, s.qts, now);
  }

  lemma ApplyFullKeepsStructure(b: Box, now: nat, d: FullDifference)
    requires Structure(b)
    ensures Structure(ApplyFull(b, now, d).box)
  {
    AdoptStateKeepsStructure(b, d.state, now);
    ProcessKeepsStructure(AdoptState(b, d.state, now), now, Bare(d.otherUpdates));
  }

  lemma FinishKeepsStructure(b: Box, now: nat)
    requires Structure(b)
    ensures Structure(Finish(b, now))
  {
    EndDiffKeeps(b, Common, now);
    EndDiffKeeps(EndDiff(b, Common, now), Secondary, now);
  }

  lemma ApplyDifferenceKeepsStructure(b: Box, now: nat, d: Difference)
    requires Structure(b)
    ensures Structure(ApplyDifference(b, now, d).box)
  {
    match d
    case DifferenceEmpty(date, seqNo) =>
      RestampKeepsStructure(b, date, seqNo);
      FinishKeepsStructure(b.(date := date, seqNo := seqNo), now);
    case Difference(full) =>
      ApplyFullKeepsStructure(b, now, full);
      FinishKeepsStructure(ApplyFull(b, now, full).box, now);
    case DifferenceSlice(full) =>
      ApplyFullKeepsStructure(b, now, full);
    case DifferenceTooLong(pts) =>
      SetPtsKeepsStructure(b, Common, pts, now);
      FinishKeepsStructure(SetPts(b, Common, pts, now), now);
  }

  lemma EndChannelKeepsStructure(b: Box, now: nat, reason: PrematureEndReason)
    requires Structure(b)
    ensures Structure(EndChannelDifference(b, now, reason))
  {
    if b.inFlight.Some? {
      var key := Channel(b.inFlight.value);
      EndDiffKeeps(WithoutGap(b.(inFlight := None), key), key, now);
    }
  }

  lemma AdoptKeepsStructure(b: Box, now: nat, key: Key, d: ChannelDiff)
    requires Structure(b)
    ensures Structure(AdoptAndProcess(b, now, key, d).box)
  {
    var b1 := SetPts(b, key, d.pts, now);
    SetPtsKeepsStructure(b, key, d.pts, now);
    ProcessKeepsStructure(b1, now, Bare(d.otherUpdates));
  }

  lemma ApplyChannelDiffKeepsStructure(b: Box, now: nat, key: Key, d: ChannelDiff)
    requires Structure(b)
    ensures Structure(ApplyChannelDiff(b, now, key, d).box)
  {
    EndDiffKeeps(b, key, now);
    var b1 := if d.isFinal then EndDiff(b, key, now) else b;
    AdoptKeepsStructure(b1, now, key, d);
    ResetKeepsStructure(AdoptAndProcess(b1, now, key, d).box, key,
                        now + if d.timeout.Some? then d.timeout.value else NO_UPDATES_TIMEOUT);
  }

  lemma ApplyChannelDifferenceKeepsStructure(b: Box, now: nat, d: ChannelDifference)
    requires Structure(b)
    ensures Structure(ApplyChannelDifference(b, now, d).box)
  {
    if b.inFlight.Some? && Channel(b.inFlight.value) in b.queue {
      var key := Channel(b.inFlight.value);
      var b2 := WithoutGap(b.(inFlight := None), key);
      assert Structure(b2);
      match AdaptChannelDifference(d)
      case Err(_) => EndChannelKeepsStructure(b2.(inFlight := b.inFlight), now, TemporaryServerIssues);
      case Ok(diff) => ApplyChannelDiffKeepsStructure(b2, now, key, diff);
    }
  }

  lemma AbortKeepsStructure(b: Box, now: nat)
    requires Structure(b)
    ensures Structure(AbortDifference(b, now))
  {
    var b1 := WithoutGap(b, Common);
    EndDiffKeeps(b1, Common, now);
    EndDiffKeeps(WithoutGap(EndDiff(b1, Common, now), Secondary), Secondary, now);
  }

  /** Every public operation keeps the structure. */
  lemma DoKeepsStructure(b: Box, now: nat, op: Op)
    requires Structure(b) && Enabled(b, op)
    ensures Structure(Do(b, now, op))
  {
    match op
    case Process(input) => ProcessKeepsStructure(b, now, input);
    case Check => CheckKeepsStructure(b, now);
    case ApplyAccount(d) => ApplyDifferenceKeepsStructure(b, now, d);
    case ApplyOneChannel(c) => ApplyChannelDifferenceKeepsStructure(b, now, c);
    case EndOneChannel(reason) => EndChannelKeepsStructure(b, now, reason);
    case Abort => AbortKeepsStructure(b, now);
    case ForceReset(s) => AdoptStateKeepsStructure(b, s, now);
    case NextChannelRequest =>
    case Login(_) =>
    case TrackChannel(_, _) =>
  }

  // Deadlines

  lemma ResetKeepsBound(b: Box, key: Key, deadline: nat, now: nat, slack: nat)
    requires Bound(b, now, slack) && now <= deadline <= now + slack
    ensures Bound(ResetDeadline(b, key, deadline), now, slack)
  {
  }

  lemma EndDiffKeepsBound(b: Box, key: Key, now: nat, slack: nat)
    requires Bound(b, now, slack)
    ensures Bound(EndDiff(b, key, now), now, slack)
  {
    ResetKeepsBound(b.(queue := RemoveFirst(b.queue, key)), key, now + NO_UPDATES_TIMEOUT, now, slack);
  }

  /** Absorbing an update moves the entry's deadlines forward only. */
  lemma AbsorbedDeadlines(e: LiveEntry, u: Update, info: PtsInfo, now: nat)
    requires GapFits(e) && Bears(u, e.key) && PtsInfoOf(u) == Some(info)
    ensures var a := Absorb(e, u, info, now).entry;
            && (a.deadline == e.deadline || a.deadline == now + NO_UPDATES_TIMEOUT)
            && (a.possibleGap.Some? ==>
                  var d := a.possibleGap.value.deadline;
                  d == now + POSSIBLE_GAP_TIMEOUT || (e.possibleGap.Some? && d == e.possibleGap.value.deadline))
  {
    TakeFits(e, u, info, now);
    DrainGapFits(Take(e, u, info, now).entry);
  }

  lemma EntryKeepsBound(b: Box, before: LiveEntry, a: LiveEntry, nextDeadline: nat, now: nat, slack: nat)
    requires Bound(b, now, slack) && nextDeadline <= b.nextDeadline
    requires b.nextDeadline <= before.EffectiveDeadline() + slack
    requires a.deadline == before.deadline || a.deadline >= now
    requires a.possibleGap.Some? ==>
               var d := a.possibleGap.value.deadline;
               d >= now || (before.possibleGap.Some? && d == before.possibleGap.value.deadline)
    ensures Bound(b.(live := b.live[a.key := a], nextDeadline := nextDeadline), now, slack)
  {
  }

  lemma OfferKeepsBound(b: Box, u: Update, info: PtsInfo, now: nat, slack: nat)
    requires Structure(b) && Bound(b, now, slack) && Bears(u, info.key) && PtsInfoOf(u) == Some(info)
    ensures Bound(Offer(b, u, info, now).box, now, slack)
  {
    var e := EntryFor(b, info, now);
    AbsorbFits(e, u, info, now);
    AbsorbedDeadlines(e, u, info, now);
    EntryKeepsBound(b, e, Absorb(e, u, info, now).entry, Offer(b, u, info, now).box.nextDeadline, now, slack);
  }

  lemma StepKeepsBound(b: Box, now: nat, u: Update, slack: nat)
    requires Structure(b) && Bound(b, now, slack)
    ensures Bound(Step(b, now, u).box, now, slack)
  {
    var info := PtsInfoOf(u);
    if !u.ChannelTooLong? && info.Some? {
      if info.value.key in b.queue {
        ResetKeepsBound(b, info.value.key, now + NO_UPDATES_TIMEOUT, now, slack);
      } else {
        OfferKeepsBound(b, u, info.value, now, slack);
      }
    }
  }

  lemma {:induction false} ProcessKeepsBound(b: Box, now: nat, input: UpdatesLike, slack: nat)
    requires Structure(b) && Bound(b, now, slack)
    ensures Bound(ProcessUpdates(b, now, input).box, now, slack)
  {
    var c := Adapt(input);
    if c.Ok? {
      StepAllKeepsBound(b, now, Sort(c.value.updates, SortKey), slack);
    }
  }

  lemma {:induction false} StepAllKeepsBound(b: Box, now: nat, us: seq<Update>, slack: nat)
    requires Structure(b) && Bound(b, now, slack)
    ensures Bound(StepAll(b, now, us).box, now, slack)
  {
    if us != [] {
      StepAllKeepsStructure(b, now, us[..|us| - 1]);
      StepAllKeepsBound(b, now, us[..|us| - 1], slack);
      StepKeepsBound(StepAll(b, now, us[..|us| - 1]).box, now, us[|us| - 1], slack);
    }
  }

  lemma ApplyFullKeepsBound(b: Box, now: nat, d: FullDifference, slack: nat)
    requires Structure(b) && Bound(b, now, slack)
    ensures Bound(ApplyFull(b, now, d).box, now, slack)
  {
    AdoptStateKeepsStructure(b, d.state, now);
    ProcessKeepsBound(AdoptState(b, d.state, now), now, Bare(d.otherUpdates), slack);
  }

  lemma FinishKeepsBound(b: Box, now: nat, slack: nat)
    requires Bound(b, now, slack)
    ensures Bound(Finish(b, now), now, slack)
  {
    EndDiffKeepsBound(b, Common, now, slack);
    EndDiffKeepsBound(EndDiff(b, Common, now), Secondary, now, slack);
  }

  lemma ApplyDifferenceKeepsBound(b: Box, now: nat, d: Difference, slack: nat)
    requires Structure(b) && Bound(b, now, slack)
    ensures Bound(ApplyDifference(b, now, d).box, now, slack)
  {
    match d
    case DifferenceEmpty(date, seqNo) => FinishKeepsBound(b.(date := date, seqNo := seqNo), now, slack);
    case Difference(full) =>
      ApplyFullKeepsBound(b, now, full, slack);
      FinishKeepsBound(ApplyFull(b, now, full).box, now, slack);
    case DifferenceSlice(full) => ApplyFullKeepsBound(b, now, full, slack);
    case DifferenceTooLong(pts) => FinishKeepsBound(SetPts(b, Common, pts, now), now, slack);
  }

  lemma EndChannelKeepsBound(b: Box, now: nat, reason: PrematureEndReason, slack: nat)
    requires Bound(b, now, slack)
    ensures Bound(EndChannelDifference(b, now, reason), now, slack)
  {
    if b.inFlight.Some? {
      var key := Channel(b.inFlight.value);
      EndDiffKeepsBound(WithoutGap(b.(inFlight := None), key), key, now, slack);
    }
  }

  lemma ApplyChannelDiffKeepsBound(b: Box, now: nat, key: Key, d: ChannelDiff, slack: nat)
    requires Structure(b) && Bound(b, now, slack) && key in b.live && b.live[key].possibleGap.None?
    requires d.timeout.Some? ==> d.timeout.value <= slack
    ensures Bound(ApplyChannelDiff(b, now, key, d).box, now, slack)
  {
    EndDiffKeeps(b, key, now);
    EndDiffKeepsBound(b, key, now, slack);
    var b0 := if d.isFinal then EndDiff(b, key, now) else b;
    var b1 := SetPts(b0, key, d.pts, now);
    SetPtsKeepsStructure(b0, key, d.pts, now);
    ProcessKeepsBound(b1, now, Bare(d.otherUpdates), slack);
    var deadline := now + if d.timeout.Some? then d.timeout.value else NO_UPDATES_TIMEOUT;
    ResetKeepsBound(ProcessUpdates(b1, now, Bare(d.otherUpdates)).box, key, deadline, now, slack);
  }

  lemma ApplyChannelDifferenceKeepsBound(b: Box, now: nat, d: ChannelDifference, slack: nat)
    requires Structure(b) && Bound(b, now, slack)
    requires TimeoutWithin(ApplyOneChannel(d), slack)
    ensures Bound(ApplyChannelDifference(b, now, d).box, now, slack)
  {
    if b.inFlight.Some? && Channel(b.inFlight.value) in b.queue {
      var key := Channel(b.inFlight.value);
      var b2 := WithoutGap(b.(inFlight := None), key);
      match AdaptChannelDifference(d)
      case Err(_) => EndChannelKeepsBound(b2.(inFlight := b.inFlight), now, TemporaryServerIssues, slack);
      case Ok(diff) => ApplyChannelDiffKeepsBound(b2, now, key, diff, slack);
    }
  }

  lemma CheckKeepsBound(b: Box, now: nat, slack: nat)
    requires Bound(b, now, slack)
    ensures Bound(CheckDeadlines(b, now), now, slack)
  {
    assert forall k :: k in b.live ==> k in Expired(b, now) || b.live[k].EffectiveDeadline() > now;
  }

  lemma AbortKeepsBound(b: Box, now: nat, slack: nat)
    requires Bound(b, now, slack)
    ensures Bound(AbortDifference(b, now), now, slack)
  {
    var b1 := WithoutGap(b, Common);
    EndDiffKeepsBound(b1, Common, now, slack);
    EndDiffKeepsBound(WithoutGap(EndDiff(b1, Common, now), Secondary), Secondary, now, slack);
  }

  lemma SetPtsKeepsBound(b: Box, key: Key, pts: int, now: nat, slack: nat)
    requires Bound(b, now, slack)
    ensures Bound(SetPts(b, key, pts, now), now, slack)
  {
  }

  lemma LoginIsBounded(b: Box, now: nat, s: State, slack: nat)
    requires b.live == map[] && slack >= NO_UPDATES_TIMEOUT
    ensures Bound(SetState(b, now, s), now, slack)
  {
  }

  /** Every public operation keeps the cached deadline within `slack` of every entry's own. */
  lemma DoKeepsBound(b: Box, now: nat, op: Op, slack: nat)
    requires Structure(b) && Enabled(b, op)
    requires Bound(b, now, slack) && TimeoutWithin(op, slack)
    ensures Bound(Do(b, now, op), now, slack)
  {
    match op
    case Process(input) => ProcessKeepsBound(b, now, input, slack);
    case ApplyAccount(d) => ApplyDifferenceKeepsBound(b, now, d, slack);
    case ApplyOneChannel(c) => ApplyChannelDifferenceKeepsBound(b, now, c, slack);
    case EndOneChannel(reason) => EndChannelKeepsBound(b, now, reason, slack);
    case Abort => AbortKeepsBound(b, now, slack);
    case Check => CheckKeepsBound(b, now, slack);
    case NextChannelRequest =>
    case ForceReset(s) =>
      SetPtsKeepsBound(b, Common, s.pts, now, slack);
      SetPtsKeepsBound(SetPts(b, Common, s.pts, now), Secondary, s.qts, now, slack);
    case Login(s) => LoginIsBounded(b, now, s, slack);
    case TrackChannel(id, pts) => SetPtsKeepsBound(b, Channel(id), pts, now, slack);
  }
}
