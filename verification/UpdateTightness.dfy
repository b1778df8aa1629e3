/** When the cached deadline is no later than any entry's own: exactly which operations
    keep it so, on any box and over whole runs. */
module UpdateTightness {
  import opened Wrappers
  import opened UpdateDefs
  import opened UpdateBox
  import opened UpdateInvariants
  import opened UpdateRuns
  import opened StableSort

  /** A box that wakes at the cached deadline misses no entry. */
  ghost predicate Tight(b: Box) {
    forall k :: k in b.live ==> b.nextDeadline <= b.live[k].EffectiveDeadline()
  }

  /** Moving one entry's deadline keeps the cached minimum exact only if that entry
      was the minimum or its new deadline is no earlier than the cached one. */
  lemma ResetIsTightExactlyWhen(b: Box, key: Key, deadline: nat)
    requires Tight(b) && key in b.live
    ensures Tight(ResetDeadline(b, key, deadline))
            <==> b.nextDeadline == b.live[key].deadline || b.nextDeadline <= deadline
  {
    var r := ResetDeadline(b, key, deadline);
    assert r.live[key].EffectiveDeadline() <= deadline;
  }

  // What an operation does to deadlines

  /** Whether the cached deadline is brought down to one period from now or less, and
      which entries start a period of their own without that. */
  datatype Effect = Effect(lowers: bool, restarts: set<Key>) {
    function Then(next: Effect): Effect {
      Effect(lowers || next.lowers, restarts + next.restarts)
    }
  }

  const NEUTRAL := Effect(false, {})

  /** The test: the cached deadline is at most a period away, or is lowered, or nothing
      restarts. */
  predicate Keeping(f: Effect, nextDeadline: nat, now: nat) {
    nextDeadline <= now + NO_UPDATES_TIMEOUT || f.lowers || f.restarts == {}
  }

  /** Where the deadlines stand after an effect, if the cached one was tight at `before`. */
  ghost predicate Tracks(b: Box, f: Effect, before: nat, now: nat) {
    && (forall k :: k in b.live && k !in f.restarts ==> b.nextDeadline <= b.live[k].EffectiveDeadline())
    && (forall k :: k in f.restarts ==> k in b.live && Restarted(b.live[k], b.nextDeadline, now))
    && (if f.lowers then b.nextDeadline <= now + NO_UPDATES_TIMEOUT else b.nextDeadline == before)
  }

  predicate Restarted(e: LiveEntry, nextDeadline: nat, now: nat) {
    e.deadline == now + NO_UPDATES_TIMEOUT && (e.possibleGap.Some? ==> nextDeadline <= e.possibleGap.value.deadline)
  }

  lemma TightStart(b: Box, now: nat)
    requires Tight(b)
    ensures Tracks(b, NEUTRAL, b.nextDeadline, now)
  {
  }

  lemma TrackedIsTightExactlyWhen(b: Box, f: Effect, before: nat, now: nat)
    requires Tracks(b, f, before, now)
    ensures Tight(b) <==> Keeping(f, before, now)
  {
    if f.restarts != {} {
      var k :| k in f.restarts;
      assert b.live[k].EffectiveDeadline() <= now + NO_UPDATES_TIMEOUT;
    }
  }

  // Effects of the steps

  function StartEffect(b: Box, key: Key): Effect {
    if key in b.live then NEUTRAL else Effect(false, {key})
  }

  lemma SetPtsTracks(b: Box, f: Effect, before: nat, key: Key, pts: int, now: nat)
    requires Tracks(b, f, before, now)
    ensures Tracks(SetPts(b, key, pts, now), f.Then(StartEffect(b, key)), before, now)
  {
  }

  function RestartEffect(b: Box, key: Key): Effect {
    if key !in b.live || b.nextDeadline == b.live[key].deadline then Effect(true, {}) else Effect(false, {key})
  }

  lemma RestartTracks(b: Box, f: Effect, before: nat, key: Key, now: nat)
    requires Tracks(b, f, before, now)
    ensures Tracks(ResetDeadline(b, key, now + NO_UPDATES_TIMEOUT), f.Then(RestartEffect(b, key)), before, now)
  {
    if RestartEffect(b, key).lowers {
      LoweredTracks(b, f, before, key, now);
    } else {
      MovedTracks(b, f, before, key, now);
    }
  }

  lemma LoweredTracks(b: Box, f: Effect, before: nat, key: Key, now: nat)
    requires Tracks(b, f, before, now) && (key !in b.live || b.nextDeadline == b.live[key].deadline)
    ensures Tracks(ResetDeadline(b, key, now + NO_UPDATES_TIMEOUT), f.Then(Effect(true, {})), before, now)
  {
    var r := ResetDeadline(b, key, now + NO_UPDATES_TIMEOUT);
    assert IsEarliest(r.live, now + NO_UPDATES_TIMEOUT, r.nextDeadline);
    assert forall k :: k in f.restarts ==> r.nextDeadline <= r.live[k].EffectiveDeadline();
  }

  lemma MovedTracks(b: Box, f: Effect, before: nat, key: Key, now: nat)
    requires Tracks(b, f, before, now) && key in b.live && b.nextDeadline != b.live[key].deadline
    ensures Tracks(ResetDeadline(b, key, now + NO_UPDATES_TIMEOUT), f.Then(Effect(false, {key})), before, now)
  {
    GapIsLater(b, f, before, key, now);
  }

  function EndEffect(b: Box, key: Key): Effect {
    if key in b.queue then RestartEffect(b, key) else NEUTRAL
  }

  lemma EndTracks(b: Box, f: Effect, before: nat, key: Key, now: nat)
    requires Tracks(b, f, before, now)
    ensures Tracks(EndDiff(b, key, now), f.Then(EndEffect(b, key)), before, now)
  {
    if key in b.queue {
      RestartTracks(b.(queue := RemoveFirst(b.queue, key)), f, before, key, now);
    } else {
      assert f.Then(NEUTRAL) == f;
    }
  }

  lemma GapDroppedTracks(b: Box, f: Effect, before: nat, key: Key, now: nat)
    requires Tracks(b, f, before, now)
    ensures Tracks(WithoutGap(b, key), f, before, now) && Tracks(BeginDiff(b, key), f, before, now)
  {
  }

  // Effects of updates

  ghost function OfferEffect(b: Box, u: Update, info: PtsInfo, now: nat): Effect {
    var e := EntryFor(b, info, now);
    Effect(e.possibleGap.None? || Absorb(e, u, info, now).entry.possibleGap.None?,
           if e.pts + info.count == info.pts then {info.key} else {})
  }

  /** A gap that stays keeps its deadline, a new one is due soon; a fitting update
      restarts the entry. */
  lemma AbsorbedDeadline(e: LiveEntry, u: Update, info: PtsInfo, now: nat)
    requires GapFits(e) && Bears(u, e.key) && PtsInfoOf(u) == Some(info)
    ensures var a := Absorb(e, u, info, now).entry;
            && a.deadline == (if e.pts + info.count == info.pts then now + NO_UPDATES_TIMEOUT else e.deadline)
            && (a.possibleGap.Some? ==>
                  a.possibleGap.value.deadline
                  == if e.possibleGap.Some? then e.possibleGap.value.deadline else now + POSSIBLE_GAP_TIMEOUT)
  {
    TakeFits(e, u, info, now);
    DrainGapFits(Take(e, u, info, now).entry);
  }

  lemma OfferTracks(b: Box, f: Effect, before: nat, u: Update, info: PtsInfo, now: nat)
    requires Structure(b) && Tracks(b, f, before, now) && Bears(u, info.key) && PtsInfoOf(u) == Some(info)
    ensures Tracks(Offer(b, u, info, now).box, f.Then(OfferEffect(b, u, info, now)), before, now)
  {
    var e := EntryFor(b, info, now);
    AbsorbedDeadline(e, u, info, now);
    EntryTracks(b, f, before, info.key, e, Absorb(e, u, info, now).entry, e.pts + info.count == info.pts, now);
  }

  function Limit(a: LiveEntry, now: nat): nat {
    if a.possibleGap.Some? then a.possibleGap.value.deadline else now + NO_UPDATES_TIMEOUT
  }

  lemma EntryTracks(b: Box, f: Effect, before: nat, key: Key, e: LiveEntry, a: LiveEntry, fits: bool, now: nat)
    requires Tracks(b, f, before, now)
    requires if key in b.live then e == b.live[key] else fits && e.possibleGap.None?
    requires a.deadline == if fits then now + NO_UPDATES_TIMEOUT else e.deadline
    requires a.possibleGap.Some? ==>
               a.possibleGap.value.deadline
               == if e.possibleGap.Some? then e.possibleGap.value.deadline else now + POSSIBLE_GAP_TIMEOUT
    ensures Tracks(b.(live := b.live[key := a], nextDeadline := Min(b.nextDeadline, Limit(a, now))),
                   f.Then(Effect(e.possibleGap.None? || a.possibleGap.None?, if fits then {key} else {})), before, now)
  {
  }

  ghost function StepEffect(b: Box, now: nat, u: Update): Effect {
    if u.ChannelTooLong? then (if u.knownPts.Some? then Effect(false, {Channel(u.channelId)}) else NEUTRAL)
    else
      match PtsInfoOf(u)
      case None => NEUTRAL
      case Some(info) => if info.key in b.queue then RestartEffect(b, info.key) else OfferEffect(b, u, info, now)
  }

  lemma OpenTooLongTracks(b: Box, f: Effect, before: nat, u: Update, now: nat)
    requires Tracks(b, f, before, now) && u.ChannelTooLong?
    ensures Tracks(OpenTooLong(b, u, now), f.Then(StepEffect(b, now, u)), before, now)
  {
    var key := Channel(u.channelId);
    assert f.Then(NEUTRAL) == f;
    if u.knownPts.Some? {
      var b1 := WithEntry(b, FreshEntry(key, u.knownPts.value, now + NO_UPDATES_TIMEOUT));
      assert Tracks(b1, f.Then(Effect(false, {key})), before, now);
      GapDroppedTracks(b1, f.Then(Effect(false, {key})), before, key, now);
    } else {
      GapDroppedTracks(b, f, before, key, now);
    }
  }

  lemma StepTracks(b: Box, f: Effect, before: nat, now: nat, u: Update)
    requires Structure(b) && Tracks(b, f, before, now)
    ensures Tracks(Step(b, now, u).box, f.Then(StepEffect(b, now, u)), before, now)
  {
    var info := PtsInfoOf(u);
    if u.ChannelTooLong? {
      OpenTooLongTracks(b, f, before, u, now);
    } else if info.None? {
      assert f.Then(NEUTRAL) == f;
    } else if info.value.key in b.queue {
      RestartTracks(b, f, before, info.value.key, now);
    } else {
      OfferTracks(b, f, before, u, info.value, now);
    }
  }

  ghost function BatchEffect(b: Box, now: nat, us: seq<Update>): Effect {
    if us == [] then NEUTRAL
    else BatchEffect(b, now, us[..|us| - 1]).Then(StepEffect(StepAll(b, now, us[..|us| - 1]).box, now, us[|us| - 1]))
  }

  lemma ThenIsAssociative(f: Effect, g: Effect, h: Effect)
    ensures f.Then(g.Then(h)) == f.Then(g).Then(h)
  {
  }

  lemma {:induction false} BatchTracks(b: Box, f: Effect, before: nat, now: nat, us: seq<Update>)
    requires Structure(b) && Tracks(b, f, before, now)
    ensures Tracks(StepAll(b, now, us).box, f.Then(BatchEffect(b, now, us)), before, now)
  {
    if us == [] {
      assert f.Then(NEUTRAL) == f;
    } else {
      var init, u := us[..|us| - 1], us[|us| - 1];
      var at := StepAll(b, now, init).box;
      BatchTracks(b, f, before, now, init);
      StepAllKeepsStructure(b, now, init);
      StepTracks(at, f.Then(BatchEffect(b, now, init)), before, now, u);
      ThenIsAssociative(f, BatchEffect(b, now, init), StepEffect(at, now, u));
    }
  }

  /** Only a batch that is applied has an effect; a gap or an old batch has none. */
  ghost function ProcessEffect(b: Box, now: nat, input: UpdatesLike): Effect {
    match Adapt(input)
    case Err(_) => NEUTRAL
    case Ok(c) =>
      if c.seqStart != NO_SEQ && b.seqNo + 1 != c.seqStart then NEUTRAL
      else BatchEffect(b, now, Sort(c.updates, SortKey))
  }

  lemma ApplyTracks(b: Box, f: Effect, before: nat, now: nat, c: Combined)
    requires Structure(b) && Tracks(b, f, before, now)
    ensures Tracks(Apply(b, now, c).box, f.Then(BatchEffect(b, now, Sort(c.updates, SortKey))), before, now)
  {
    var us := Sort(c.updates, SortKey);
    BatchTracks(b, f, before, now, us);
    SameDeadlines(StepAll(b, now, us).box, Apply(b, now, c).box, f.Then(BatchEffect(b, now, us)), before, now);
  }

  lemma SameDeadlines(a: Box, b: Box, f: Effect, before: nat, now: nat)
    requires Tracks(a, f, before, now) && a.live == b.live && a.nextDeadline == b.nextDeadline
    ensures Tracks(b, f, before, now)
  {
  }

  lemma ProcessTracks(b: Box, f: Effect, before: nat, now: nat, input: UpdatesLike)
    requires Structure(b) && Tracks(b, f, before, now)
    ensures Tracks(ProcessUpdates(b, now, input).box, f.Then(ProcessEffect(b, now, input)), before, now)
  {
    assert f.Then(NEUTRAL) == f;
    GapDroppedTracks(b, f, before, Common, now);
    var c := Adapt(input);
    if c.Ok? && (c.value.seqStart == NO_SEQ || b.seqNo + 1 == c.value.seqStart) {
      ApplyTracks(b, f, before, now, c.value);
    }
  }

  // Effects of answers

  function AdoptEffect(b: Box): Effect {
    StartEffect(b, Common).Then(StartEffect(b, Secondary))
  }

  lemma AdoptTracks(b: Box, f: Effect, before: nat, s: State, now: nat)
    requires Tracks(b, f, before, now)
    ensures Tracks(AdoptState(b, s, now), f.Then(AdoptEffect(b)), before, now)
  {
    var b1 := b.(date := s.date, seqNo := s.seqNo);
    SetPtsTracks(b1, f, before, Common, s.pts, now);
    SetPtsTracks(SetPts(b1, Common, s.pts, now), f.Then(StartEffect(b, Common)), before, Secondary, s.qts, now);
    ThenIsAssociative(f, StartEffect(b, Common), StartEffect(b, Secondary));
  }

  ghost function FullEffect(b: Box, now: nat, d: FullDifference): Effect {
    AdoptEffect(b).Then(ProcessEffect(AdoptState(b, d.state, now), now, Bare(d.otherUpdates)))
  }

  lemma FullTracks(b: Box, f: Effect, before: nat, now: nat, d: FullDifference)
    requires Structure(b) && Tracks(b, f, before, now)
    ensures Tracks(ApplyFull(b, now, d).box, f.Then(FullEffect(b, now, d)), before, now)
  {
    var adopted, other := AdoptState(b, d.state, now), Bare(d.otherUpdates);
    AdoptTracks(b, f, before, d.state, now);
    AdoptStateKeepsStructure(b, d.state, now);
    ProcessTracks(adopted, f.Then(AdoptEffect(b)), before, now, other);
    ThenIsAssociative(f, AdoptEffect(b), ProcessEffect(adopted, now, other));
  }

  ghost function FinishEffect(b: Box, now: nat): Effect {
    EndEffect(b, Common).Then(EndEffect(EndDiff(b, Common, now), Secondary))
  }

  lemma FinishTracks(b: Box, f: Effect, before: nat, now: nat)
    requires Tracks(b, f, before, now)
    ensures Tracks(Finish(b, now), f.Then(FinishEffect(b, now)), before, now)
  {
    var mid := EndDiff(b, Common, now);
    EndTracks(b, f, before, Common, now);
    EndTracks(mid, f.Then(EndEffect(b, Common)), before, Secondary, now);
    ThenIsAssociative(f, EndEffect(b, Common), EndEffect(mid, Secondary));
  }

  ghost function AccountEffect(b: Box, now: nat, d: Difference): Effect {
    if Common !in b.queue && Secondary !in b.queue then NEUTRAL
    else
      match d
      case DifferenceEmpty(_, _) => FinishEffect(b, now)
      case Difference(full) => FullEffect(b, now, full).Then(FinishEffect(ApplyFull(b, now, full).box, now))
      case DifferenceSlice(full) => FullEffect(b, now, full)
      case DifferenceTooLong(pts) => StartEffect(b, Common).Then(FinishEffect(SetPts(b, Common, pts, now), now))
  }

  lemma AccountTracks(b: Box, now: nat, d: Difference)
    requires Structure(b) && Tight(b)
    ensures Tracks(ApplyDifference(b, now, d).box, AccountEffect(b, now, d), b.nextDeadline, now)
  {
    TightStart(b, now);
    assert forall f: Effect :: NEUTRAL.Then(f) == f;
    if Common in b.queue || Secondary in b.queue {
      match d
      case DifferenceEmpty(date, seqNo) =>
        FinishTracks(b.(date := date, seqNo := seqNo), NEUTRAL, b.nextDeadline, now);
      case Difference(full) =>
        FullTracks(b, NEUTRAL, b.nextDeadline, now, full);
        FinishTracks(ApplyFull(b, now, full).box, FullEffect(b, now, full), b.nextDeadline, now);
      case DifferenceSlice(full) =>
        FullTracks(b, NEUTRAL, b.nextDeadline, now, full);
      case DifferenceTooLong(pts) =>
        SetPtsTracks(b, NEUTRAL, b.nextDeadline, Common, pts, now);
        FinishTracks(SetPts(b, Common, pts, now), StartEffect(b, Common), b.nextDeadline, now);
    }
  }

  ghost function AbortEffect(b: Box, now: nat): Effect {
    EndEffect(WithoutGap(b, Common), Common)
    .Then(EndEffect(WithoutGap(EndDiff(WithoutGap(b, Common), Common, now), Secondary), Secondary))
  }

  lemma AbortTracks(b: Box, now: nat)
    requires Tight(b)
    ensures Tracks(AbortDifference(b, now), AbortEffect(b, now), b.nextDeadline, now)
  {
    TightStart(b, now);
    assert forall f: Effect :: NEUTRAL.Then(f) == f;
    var b1 := WithoutGap(b, Common);
    GapDroppedTracks(b, NEUTRAL, b.nextDeadline, Common, now);
    EndTracks(b1, NEUTRAL, b.nextDeadline, Common, now);
    var b2, f := EndDiff(b1, Common, now), EndEffect(b1, Common);
    GapDroppedTracks(b2, f, b.nextDeadline, Secondary, now);
    EndTracks(WithoutGap(b2, Secondary), f, b.nextDeadline, Secondary, now);
  }

  /** Ending the wait of the channel in flight; a banned channel is dropped with it. */
  function EndChannelEffect(b: Box, reason: PrematureEndReason): Effect {
    if b.inFlight.None? || Channel(b.inFlight.value) !in b.queue then NEUTRAL
    else
      var key := Channel(b.inFlight.value);
      var f := RestartEffect(WithoutGap(b, key), key);
      if reason == Banned then f.(restarts := f.restarts - {key}) else f
  }

  lemma DroppedTracks(b: Box, f: Effect, before: nat, key: Key, now: nat)
    requires Tracks(b, f, before, now)
    ensures Tracks(b.(live := b.live - {key}), f.(restarts := f.restarts - {key}), before, now)
  {
  }

  lemma EndChannelTracks(b: Box, now: nat, reason: PrematureEndReason)
    requires Tight(b)
    ensures Tracks(EndChannelDifference(b, now, reason), EndChannelEffect(b, reason), b.nextDeadline, now)
  {
    TightStart(b, now);
    assert forall f: Effect :: NEUTRAL.Then(f) == f;
    if b.inFlight.Some? && Channel(b.inFlight.value) in b.queue {
      var key := Channel(b.inFlight.value);
      var b1 := b.(inFlight := None);
      GapDroppedTracks(b1, NEUTRAL, b.nextDeadline, key, now);
      EndTracks(WithoutGap(b1, key), NEUTRAL, b.nextDeadline, key, now);
      DroppedTracks(EndDiff(WithoutGap(b1, key), key, now), RestartEffect(WithoutGap(b, key), key), b.nextDeadline, key, now);
    }
  }

  // A channel answer, whose timeout is the server's

  function WaitEnded(b: Box, key: Key, isFinal: bool): Effect {
    if isFinal then EndEffect(b, key) else NEUTRAL
  }

  ghost function AfterWait(b: Box, now: nat, key: Key, isFinal: bool): Box {
    if isFinal then EndDiff(b, key, now) else b
  }

  /** The effect of a channel answer before its timeout is set. */
  ghost function AnswerEffect(b: Box, now: nat, key: Key, d: ChannelDiff): Effect {
    var at := AfterWait(b, now, key, d.isFinal);
    WaitEnded(b, key, d.isFinal).Then(StartEffect(at, key))
    .Then(ProcessEffect(SetPts(at, key, d.pts, now), now, Bare(d.otherUpdates)))
  }

  ghost function Answer(b: Box, now: nat, key: Key, d: ChannelDiff): Box {
    AdoptAndProcess(AfterWait(b, now, key, d.isFinal), now, key, d).box
  }

  lemma AnswerTracks(b: Box, now: nat, key: Key, d: ChannelDiff)
    requires Structure(b) && Tight(b)
    ensures Tracks(Answer(b, now, key, d), AnswerEffect(b, now, key, d), b.nextDeadline, now)
    ensures Structure(Answer(b, now, key, d))
  {
    TightStart(b, now);
    assert forall f: Effect :: NEUTRAL.Then(f) == f;
    EndTracks(b, NEUTRAL, b.nextDeadline, key, now);
    EndDiffKeeps(b, key, now);
    var at, f := AfterWait(b, now, key, d.isFinal), WaitEnded(b, key, d.isFinal);
    SetPtsTracks(at, f, b.nextDeadline, key, d.pts, now);
    SetPtsKeepsStructure(at, key, d.pts, now);
    ProcessTracks(SetPts(at, key, d.pts, now), f.Then(StartEffect(at, key)), b.nextDeadline, now, Bare(d.otherUpdates));
    AdoptKeepsStructure(at, now, key, d);
  }

  lemma {:induction false} BatchKeepsEntry(b: Box, now: nat, us: seq<Update>, key: Key)
    requires key in b.live
    ensures key in StepAll(b, now, us).box.live
  {
    if us != [] {
      BatchKeepsEntry(b, now, us[..|us| - 1], key);
    }
  }

  lemma AnswerKeepsEntry(b: Box, now: nat, key: Key, d: ChannelDiff)
    requires key in b.live
    ensures key in Answer(b, now, key, d).live
  {
    var at := SetPts(AfterWait(b, now, key, d.isFinal), key, d.pts, now);
    BatchKeepsEntry(at, now, Sort(d.otherUpdates, SortKey), key);
  }

  function AskedTimeout(d: ChannelDiff): nat {
    if d.timeout.Some? then d.timeout.value else NO_UPDATES_TIMEOUT
  }

  /** The test where one entry gets a deadline of its own at the end: its old one was the
      cached one, or the new one is no earlier and the rest passes the test. */
  predicate TimedKeeping(b: Box, f: Effect, before: nat, key: Key, deadline: nat, now: nat)
    requires key in b.live
  {
    || b.nextDeadline == b.live[key].deadline
    || (b.nextDeadline <= deadline && Keeping(f.(restarts := f.restarts - {key}), before, now))
  }

  lemma ResetTracked(b: Box, f: Effect, before: nat, key: Key, deadline: nat, now: nat)
    requires Tracks(b, f, before, now) && key in b.live
    ensures Tight(ResetDeadline(b, key, deadline)) <==> TimedKeeping(b, f, before, key, deadline, now)
  {
    if b.nextDeadline != b.live[key].deadline {
      var rest, left := b.(live := b.live - {key}), f.(restarts := f.restarts - {key});
      DroppedTracks(b, f, before, key, now);
      TrackedIsTightExactlyWhen(rest, left, before, now);
      GapIsLater(b, f, before, key, now);
      OneMoved(b, key, deadline);
    }
  }

  lemma GapIsLater(b: Box, f: Effect, before: nat, key: Key, now: nat)
    requires Tracks(b, f, before, now) && key in b.live
    ensures b.live[key].possibleGap.Some? ==> b.nextDeadline <= b.live[key].possibleGap.value.deadline
  {
  }

  lemma OneMoved(b: Box, key: Key, deadline: nat)
    requires key in b.live && b.nextDeadline != b.live[key].deadline
    requires b.live[key].possibleGap.Some? ==> b.nextDeadline <= b.live[key].possibleGap.value.deadline
    ensures Tight(ResetDeadline(b, key, deadline)) <==> b.nextDeadline <= deadline && Tight(b.(live := b.live - {key}))
  {
    var r, rest := ResetDeadline(b, key, deadline), b.(live := b.live - {key});
    assert r.live[key].EffectiveDeadline() <= deadline;
    assert forall k :: k in rest.live <==> k in r.live && k != key;
    assert forall k :: k in rest.live ==> r.live[k] == rest.live[k];
  }

  ghost predicate AnswerKeeps(b: Box, now: nat, key: Key, d: ChannelDiff)
    requires key in b.live
  {
    AnswerKeepsEntry(b, now, key, d);
    TimedKeeping(Answer(b, now, key, d), AnswerEffect(b, now, key, d), b.nextDeadline, key, now + AskedTimeout(d), now)
  }

  ghost predicate ChannelKeeps(b: Box, now: nat, c: ChannelDifference)
    requires Structure(b)
  {
    if b.inFlight.None? || Channel(b.inFlight.value) !in b.queue then true
    else
      var key := Channel(b.inFlight.value);
      match AdaptChannelDifference(c)
      case Err(_) => Keeping(EndChannelEffect(b, TemporaryServerIssues), b.nextDeadline, now)
      case Ok(d) => AnswerKeeps(WithoutGap(b.(inFlight := None), key), now, key, d)
  }

  lemma AnsweredThenTimed(b: Box, now: nat, key: Key, d: ChannelDiff)
    ensures ApplyChannelDiff(b, now, key, d).box == ResetDeadline(Answer(b, now, key, d), key, now + AskedTimeout(d))
  {
  }

  lemma AnswerIsTightExactlyWhen(b: Box, now: nat, key: Key, d: ChannelDiff)
    requires Structure(b) && Tight(b) && key in b.live
    ensures Tight(ApplyChannelDiff(b, now, key, d).box) <==> AnswerKeeps(b, now, key, d)
  {
    AnswerTracks(b, now, key, d);
    AnswerKeepsEntry(b, now, key, d);
    AnsweredThenTimed(b, now, key, d);
    ResetTracked(Answer(b, now, key, d), AnswerEffect(b, now, key, d), b.nextDeadline, key, now + AskedTimeout(d), now);
  }

  lemma ChannelIsTightExactlyWhen(b: Box, now: nat, c: ChannelDifference)
    requires Structure(b) && Tight(b)
    ensures Tight(ApplyChannelDifference(b, now, c).box) <==> ChannelKeeps(b, now, c)
  {
    if b.inFlight.Some? && Channel(b.inFlight.value) in b.queue {
      var key := Channel(b.inFlight.value);
      var b2 := WithoutGap(b.(inFlight := None), key);
      assert b2.live == b.live;
      match AdaptChannelDifference(c)
      case Err(_) =>
        assert b2.(inFlight := b.inFlight) == b;
        EndChannelTracks(b, now, TemporaryServerIssues);
        TrackedIsTightExactlyWhen(EndChannelDifference(b, now, TemporaryServerIssues),
                                  EndChannelEffect(b, TemporaryServerIssues), b.nextDeadline, now);
      case Ok(d) =>
        AnswerIsTightExactlyWhen(b2, now, key, d);
    }
  }

  // Channel answers without updates

  /** When the box wakes after a wait is over, that stood at `b`. */
  ghost function WakesAfterWait(b: Box, now: nat, key: Key): nat
    requires key in b.live
  {
    if b.nextDeadline == b.live[key].deadline then Earliest(b.live - {key}, now + NO_UPDATES_TIMEOUT) else b.nextDeadline
  }

  /** The test on the box before the call alone. */
  ghost predicate PlainAnswerKeeps(b: Box, now: nat, key: Key, isFinal: bool, due: nat)
    requires key in b.live
  {
    if isFinal then
      WakesAfterWait(b, now, key) == now + NO_UPDATES_TIMEOUT || WakesAfterWait(b, now, key) <= due
    else b.nextDeadline == b.live[key].deadline || b.nextDeadline <= due
  }

  lemma EarliestIs(live: map<Key, LiveEntry>, limit: nat, m: nat)
    requires IsEarliest(live, limit, m)
    ensures Earliest(live, limit) == m
  {
  }

  /** An entry due at the limit does not count. */
  lemma DueAtLimit(live: map<Key, LiveEntry>, key: Key, limit: nat)
    requires key in live && live[key].EffectiveDeadline() == limit
    ensures Earliest(live, limit) == Earliest(live - {key}, limit)
  {
    var m := Earliest(live, limit);
    var rest := live - {key};
    assert forall k :: k in rest ==> k in live && rest[k] == live[k];
    if m != limit {
      var k :| k in live && m == live[k].EffectiveDeadline();
      assert k in rest;
    }
    EarliestIs(live - {key}, limit, m);
  }

  lemma WaitIsOver(b: Box, now: nat, key: Key)
    requires Structure(b) && key in b.queue
    ensures var at := EndDiff(b, key, now);
            && key in at.live && at.nextDeadline == WakesAfterWait(b, now, key)
            && at.live[key].deadline == now + NO_UPDATES_TIMEOUT
  {
    var due := now + NO_UPDATES_TIMEOUT;
    var live := b.live[key := b.live[key].(deadline := due)];
    DueAtLimit(live, key, due);
    assert live - {key} == b.live - {key};
  }

  lemma NothingProcessed(b: Box, now: nat, key: Key, d: ChannelDiff)
    requires d.otherUpdates == []
    ensures AdoptAndProcess(b, now, key, d).box == SetPts(b, key, d.pts, now)
  {
    assert Sort(d.otherUpdates, SortKey) == [];
  }

  lemma NothingRestarts(b: Box, now: nat, key: Key, d: ChannelDiff)
    requires Structure(b) && key in b.queue && d.otherUpdates == []
    ensures AnswerEffect(b, now, key, d).restarts <= {key}
  {
    assert Sort(d.otherUpdates, SortKey) == [];
  }

  /** A channel answer that carries no updates: whether the cached deadline stays tight
      depends on it, the channel's own, the other entries' and the timeout asked for. */
  lemma PlainAnswerIsTightExactlyWhen(b: Box, now: nat, c: ChannelDifference, key: Key)
    requires Structure(b) && Tight(b) && b.inFlight.Some? && key == Channel(b.inFlight.value) && key in b.queue
    requires AdaptChannelDifference(c).Ok? && AdaptChannelDifference(c).value.otherUpdates == []
    ensures var d := AdaptChannelDifference(c).value;
            Tight(ApplyChannelDifference(b, now, c).box) <==> PlainAnswerKeeps(b, now, key, d.isFinal, now + AskedTimeout(d))
  {
    var d, b2 := AdaptChannelDifference(c).value, WithoutGap(b.(inFlight := None), key);
    assert b2.live == b.live;
    AnswerIsTightExactlyWhen(b2, now, key, d);
    NothingProcessed(AfterWait(b2, now, key, d.isFinal), now, key, d);
    NothingRestarts(b2, now, key, d);
    WaitIsOver(b2, now, key);
  }

  // The check

  /** A check that finds nothing due pushes the cached deadline a period ahead, so every
      entry must be due no sooner. */
  ghost predicate CheckKeeps(b: Box, now: nat) {
    || b.queue != [] || now < b.nextDeadline || Expired(b, now) != {}
    || forall k :: k in b.live ==> now + NO_UPDATES_TIMEOUT <= b.live[k].EffectiveDeadline()
  }

  lemma CheckIsTightExactlyWhen(b: Box, now: nat)
    requires Tight(b)
    ensures Tight(CheckDeadlines(b, now)) <==> CheckKeeps(b, now)
  {
  }

  // Every operation

  ghost function EffectOf(b: Box, now: nat, op: Op): Effect
    requires !op.Check? && !op.ApplyOneChannel?
  {
    match op
    case Process(input) => ProcessEffect(b, now, input)
    case NextChannelRequest => NEUTRAL
    case ApplyAccount(d) => AccountEffect(b, now, d)
    case EndOneChannel(reason) => EndChannelEffect(b, reason)
    case Abort => AbortEffect(b, now)
    case ForceReset(_) => AdoptEffect(b)
    case Login(_) => Effect(true, {})
    case TrackChannel(id, _) => StartEffect(b, Channel(id))
  }

  ghost predicate Keeps(b: Box, now: nat, op: Op)
    requires Structure(b)
  {
    match op
    case Check => CheckKeeps(b, now)
    case ApplyOneChannel(c) => ChannelKeeps(b, now, c)
    case _ => Keeping(EffectOf(b, now, op), b.nextDeadline, now)
  }

  lemma OpTracks(b: Box, now: nat, op: Op)
    requires Structure(b) && Enabled(b, op) && Tight(b) && !op.Check? && !op.ApplyOneChannel?
    ensures Tracks(Do(b, now, op), EffectOf(b, now, op), b.nextDeadline, now)
  {
    TightStart(b, now);
    assert forall f: Effect :: NEUTRAL.Then(f) == f;
    match op
    case Process(input) => ProcessTracks(b, NEUTRAL, b.nextDeadline, now, input);
    case ApplyAccount(d) => AccountTracks(b, now, d);
    case EndOneChannel(reason) => EndChannelTracks(b, now, reason);
    case Abort => AbortTracks(b, now);
    case ForceReset(s) =>
      AdoptTracks(b, NEUTRAL, b.nextDeadline, s, now);
      assert ForceResetCommonPts(b, now, s) == AdoptState(b, s, now);
    case NextChannelRequest =>
    case Login(_) =>
    case TrackChannel(id, pts) => SetPtsTracks(b, NEUTRAL, b.nextDeadline, Channel(id), pts, now);
  }

  /** Every operation: a tight box stays tight exactly when the test on the box and the
      operation says so. */
  lemma TightExactlyWhen(b: Box, now: nat, op: Op)
    requires Structure(b) && Enabled(b, op) && Tight(b)
    ensures Tight(Do(b, now, op)) <==> Keeps(b, now, op)
  {
    match op
    case Check => CheckIsTightExactlyWhen(b, now);
    case ApplyOneChannel(c) => ChannelIsTightExactlyWhen(b, now, c);
    case _ =>
      OpTracks(b, now, op);
      TrackedIsTightExactlyWhen(Do(b, now, op), EffectOf(b, now, op), b.nextDeadline, now);
  }

  // Whole runs

  ghost predicate TightThroughout(b: Box, ops: seq<Timed>) {
    forall n :: 0 <= n <= |ops| ==> Tight(RunOps(b, ops[..n]))
  }

  /** Every operation of the run passes the test in the box it finds. */
  ghost predicate KeepsThroughout(b: Box, ops: seq<Timed>) {
    forall n :: 0 <= n < |ops| ==>
      Structure(RunOps(b, ops[..n])) && Keeps(RunOps(b, ops[..n]), ops[n].now, ops[n].op)
  }

  lemma InitialIsTight(b: Box, start: nat)
    requires Initial(b, start)
    ensures Tight(b)
  {
  }

  lemma RunPrefix(b: Box, start: nat, ops: seq<Timed>, n: nat)
    requires Initial(b, start) && CanRun(b, start, ops) && n < |ops|
    ensures Structure(RunOps(b, ops[..n])) && Enabled(RunOps(b, ops[..n]), ops[n].op)
    ensures RunOps(b, ops[..n + 1]) == Do(RunOps(b, ops[..n]), ops[n].now, ops[n].op)
    ensures CanRun(b, start, ops[..n]) && LastInstant(start, ops[..n]) <= ops[n].now
  {
    PrefixRuns(b, start, ops, n + 1);
    assert ops[..n + 1][..n] == ops[..n];
    ReachableHasStructure(b, start, ops[..n]);
  }

  lemma {:induction false} PrefixRuns(b: Box, start: nat, ops: seq<Timed>, n: nat)
    requires CanRun(b, start, ops) && n <= |ops|
    ensures CanRun(b, start, ops[..n])
  {
    if n == |ops| {
      assert ops[..n] == ops;
    } else {
      PrefixRuns(b, start, ops[..|ops| - 1], n);
      assert ops[..|ops| - 1][..n] == ops[..n];
    }
  }

  lemma {:induction false} TightUpTo(b: Box, start: nat, ops: seq<Timed>, n: nat)
    requires Initial(b, start) && CanRun(b, start, ops) && n <= |ops|
    requires forall m :: 0 <= m < n ==> Structure(RunOps(b, ops[..m])) && Keeps(RunOps(b, ops[..m]), ops[m].now, ops[m].op)
    ensures Tight(RunOps(b, ops[..n]))
  {
    if n == 0 {
      InitialIsTight(b, start);
    } else {
      TightUpTo(b, start, ops, n - 1);
      RunPrefix(b, start, ops, n - 1);
      TightExactlyWhen(RunOps(b, ops[..n - 1]), ops[n - 1].now, ops[n - 1].op);
    }
  }

  /** A run keeps the cached deadline tight at every step exactly when each operation
      passes its test. */
  lemma TightThroughoutExactlyWhen(b: Box, start: nat, ops: seq<Timed>)
    requires Initial(b, start) && CanRun(b, start, ops)
    ensures TightThroughout(b, ops) <==> KeepsThroughout(b, ops)
  {
    if KeepsThroughout(b, ops) {
      forall n | 0 <= n <= |ops|
        ensures Tight(RunOps(b, ops[..n]))
      {
        TightUpTo(b, start, ops, n);
      }
    }
    if TightThroughout(b, ops) {
      forall n | 0 <= n < |ops|
        ensures Structure(RunOps(b, ops[..n])) && Keeps(RunOps(b, ops[..n]), ops[n].now, ops[n].op)
      {
        RunPrefix(b, start, ops, n);
        TightExactlyWhen(RunOps(b, ops[..n]), ops[n].now, ops[n].op);
      }
    }
  }

  // Servers that ask for at most the default period

  /** The timeout may not lie before the cached deadline, unless the channel's own old
      deadline was the cached one. */
  ghost predicate TimeoutKeeps(answered: Box, key: Key, deadline: nat)
    requires key in answered.live
  {
    answered.nextDeadline == answered.live[key].deadline || answered.nextDeadline <= deadline
  }

  /** What is left of the test while the cached deadline is at most a period away: empty
      checks, and the timeouts of channel answers. */
  ghost predicate KeepsNear(b: Box, now: nat, op: Op)
    requires Structure(b)
  {
    match op
    case Check => CheckKeeps(b, now)
    case ApplyOneChannel(c) =>
      var d := AdaptChannelDifference(c);
      b.inFlight.Some? && Channel(b.inFlight.value) in b.queue && d.Ok? ==>
        var key := Channel(b.inFlight.value);
        var b2 := WithoutGap(b.(inFlight := None), key);
        AnswerKeepsEntry(b2, now, key, d.value);
        TimeoutKeeps(Answer(b2, now, key, d.value), key, now + AskedTimeout(d.value))
    case _ => true
  }

  lemma NearTest(b: Box, now: nat, op: Op)
    requires Structure(b) && b.nextDeadline <= now + NO_UPDATES_TIMEOUT
    ensures Keeps(b, now, op) <==> KeepsNear(b, now, op)
  {
  }

  ghost predicate KeepsNearThroughout(b: Box, ops: seq<Timed>) {
    forall n :: 0 <= n < |ops| ==>
      Structure(RunOps(b, ops[..n])) && KeepsNear(RunOps(b, ops[..n]), ops[n].now, ops[n].op)
  }

  lemma NearAt(b: Box, start: nat, ops: seq<Timed>, n: nat)
    requires Initial(b, start) && CanRun(b, start, ops) && n < |ops| && TimeoutsWithin(ops, NO_UPDATES_TIMEOUT)
    ensures Structure(RunOps(b, ops[..n]))
    ensures Keeps(RunOps(b, ops[..n]), ops[n].now, ops[n].op) <==> KeepsNear(RunOps(b, ops[..n]), ops[n].now, ops[n].op)
  {
    RunPrefix(b, start, ops, n);
    ReachableIsBounded(b, start, ops[..n], NO_UPDATES_TIMEOUT);
    NearTest(RunOps(b, ops[..n]), ops[n].now, ops[n].op);
  }

  /** If no answer asks for more than the default period, only those two can make the
      cached deadline late. */
  lemma TightUnderShortTimeoutsExactlyWhen(b: Box, start: nat, ops: seq<Timed>)
    requires Initial(b, start) && CanRun(b, start, ops) && TimeoutsWithin(ops, NO_UPDATES_TIMEOUT)
    ensures TightThroughout(b, ops) <==> KeepsNearThroughout(b, ops)
  {
    TightThroughoutExactlyWhen(b, start, ops);
    forall n | 0 <= n < |ops|
      ensures Structure(RunOps(b, ops[..n]))
      ensures Keeps(RunOps(b, ops[..n]), ops[n].now, ops[n].op) <==> KeepsNear(RunOps(b, ops[..n]), ops[n].now, ops[n].op)
    {
      NearAt(b, start, ops, n);
    }
  }

  // Runs that break it

  const FIRST_UPDATE := CommonUpdate(1, 1, 7)

  function LateRun(): seq<Timed> {
    [Timed(1, Process(FromSocket(Short(FIRST_UPDATE, NO_DATE)))), Timed(900_000, Check)]
  }

  /** Two operations on a new box: the account entry is due after 900.001 s, the box wakes after 1800 s. */
  lemma TheCachedDeadlineCanBeLate()
    ensures Initial(NewBox(0), 0) && CanRun(NewBox(0), 0, LateRun())
    ensures !Tight(RunOps(NewBox(0), LateRun()))
    ensures RunOps(NewBox(0), LateRun()).nextDeadline == 1_800_000
    ensures Common in RunOps(NewBox(0), LateRun()).live
    ensures RunOps(NewBox(0), LateRun()).live[Common].EffectiveDeadline() == 900_001
  {
    var b, ops := NewBox(0), LateRun();
    var first := Process(FromSocket(Short(FIRST_UPDATE, NO_DATE)));
    assert ops[..1] == [Timed(1, first)] && ops[..1][..0] == [];
    assert Sort([FIRST_UPDATE], SortKey) == [FIRST_UPDATE] by {
      assert [FIRST_UPDATE][..0] == [];
      assert Sort([FIRST_UPDATE], SortKey) == Insert(Sort([], SortKey), FIRST_UPDATE, SortKey);
    }
    assert StepAll(b, 1, [FIRST_UPDATE]).box == Step(b, 1, FIRST_UPDATE).box by {
      assert [FIRST_UPDATE][..0] == [];
    }
    var b1 := Do(b, 1, first);
    assert RunOps(b, ops[..1]) == b1;
    assert CanRun(b, 0, []);
    assert CanRun(b, 0, ops[..1]);
    assert b1.live.Keys == {Common};
    assert Common !in Expired(b1, 900_000);
    assert Expired(b1, 900_000) == {};
  }

  const ONE_CHANNEL := Snapshot(NO_PTS, NO_PTS, NO_DATE, NO_SEQ, [ChannelState(5, 3)])

  const AN_HOUR := 3_600_000

  function LongTimeoutRun(): seq<Timed> {
    [Timed(0, NextChannelRequest), Timed(0, ApplyOneChannel(ChannelDifferenceEmpty(true, 10, Some(AN_HOUR)))),
     Timed(0, TrackChannel(7, 10))]
  }

  lemma OneChannelLoaded()
    ensures LoadBox(ONE_CHANNEL, 0)
            == Box(map[Channel(5) := FreshEntry(Channel(5), 3, NO_UPDATES_TIMEOUT)], NO_DATE, NO_SEQ, [Channel(5)], None,
                   NO_UPDATES_TIMEOUT)
  {
    var cs := set c | c in ONE_CHANNEL.channels;
    assert cs == {ChannelState(5, 3)};
    assert LoadedPts(ONE_CHANNEL, cs) == map[Channel(5) := 3];
    assert Lists([Channel(5)], {Channel(5)});
    ListingIsUnique(InKeyOrder({Channel(5)}), [Channel(5)], {Channel(5)});
    var live := LoadBox(ONE_CHANNEL, 0).live;
    assert live == map[Channel(5) := FreshEntry(Channel(5), 3, NO_UPDATES_TIMEOUT)];
    assert live.Keys == {Channel(5)};
  }

  /** After a timeout of an hour, a channel tracked afresh is due before the box wakes. */
  lemma AFreshEntryCanBeEarlier()
    ensures var b, ops := LoadBox(ONE_CHANNEL, 0), LongTimeoutRun();
            && Initial(b, 0) && CanRun(b, 0, ops)
            && Tight(RunOps(b, ops[..2])) && !Tight(RunOps(b, ops))
            && RunOps(b, ops).nextDeadline == AN_HOUR
            && Channel(7) in RunOps(b, ops).live && RunOps(b, ops).live[Channel(7)].deadline == NO_UPDATES_TIMEOUT
  {
    OneChannelLoaded();
    ThreeSteps(LoadBox(ONE_CHANNEL, 0), LongTimeoutRun());
    LateAfterLongTimeout(LoadBox(ONE_CHANNEL, 0));
  }

  lemma LateAfterLongTimeout(b: Box)
    requires b.live == map[Channel(5) := FreshEntry(Channel(5), 3, NO_UPDATES_TIMEOUT)]
    requires b.queue == [Channel(5)] && b.inFlight.None? && b.nextDeadline == NO_UPDATES_TIMEOUT
    ensures var b1 := Do(b, 0, NextChannelRequest);
            var b2 := Do(b1, 0, ApplyOneChannel(ChannelDifferenceEmpty(true, 10, Some(AN_HOUR))));
            var b3 := Do(b2, 0, TrackChannel(7, 10));
            && Tight(b2) && !Tight(b3) && b3.nextDeadline == AN_HOUR
            && Channel(7) in b3.live && b3.live[Channel(7)].deadline == NO_UPDATES_TIMEOUT
  {
    var b1 := b.(inFlight := Some(5));
    LongAnswer(b1);
    EarlierThanTheBox(Do(b1, 0, ApplyOneChannel(ChannelDifferenceEmpty(true, 10, Some(AN_HOUR)))));
  }

  lemma ThreeSteps(b: Box, ops: seq<Timed>)
    requires |ops| == 3 && forall i :: 0 <= i < 3 ==> ops[i].now == 0 && !ops[i].op.Login?
    ensures CanRun(b, 0, ops)
    ensures RunOps(b, ops[..2]) == Do(Do(b, 0, ops[0].op), 0, ops[1].op)
    ensures RunOps(b, ops) == Do(RunOps(b, ops[..2]), 0, ops[2].op)
  {
    assert ops[..1][..0] == [] && ops[..2][..1] == ops[..1];
    assert RunOps(b, ops[..1]) == Do(b, 0, ops[0].op);
    assert CanRun(b, 0, []) && CanRun(b, 0, ops[..1]) && CanRun(b, 0, ops[..2]);
  }

  lemma EarlierThanTheBox(b: Box)
    requires b.live == map[Channel(5) := FreshEntry(Channel(5), 10, AN_HOUR)] && b.nextDeadline == AN_HOUR
    ensures Tight(b) && !Tight(TrySetChannelState(b, 0, 7, 10))
  {
    var r := TrySetChannelState(b, 0, 7, 10);
    assert r.live[Channel(7)].EffectiveDeadline() == NO_UPDATES_TIMEOUT;
  }

  lemma LongAnswer(b: Box)
    requires b.live == map[Channel(5) := FreshEntry(Channel(5), 3, NO_UPDATES_TIMEOUT)]
    requires b.queue == [Channel(5)] && b.inFlight == Some(5) && b.nextDeadline == NO_UPDATES_TIMEOUT
    ensures var r := Do(b, 0, ApplyOneChannel(ChannelDifferenceEmpty(true, 10, Some(AN_HOUR))));
            r.live == map[Channel(5) := FreshEntry(Channel(5), 10, AN_HOUR)] && r.nextDeadline == AN_HOUR
  {
    var key, d := Channel(5), ChannelDiff(true, 10, Some(AN_HOUR), [], []);
    var b1 := b.(inFlight := None);
    var b2 := EndDiff(b1, key, 0);
    assert b2.live == b.live && b2.nextDeadline == NO_UPDATES_TIMEOUT;
    var b3 := SetPts(b2, key, 10, 0);
    assert Sort([], SortKey) == [];
    var b4 := AdoptAndProcess(b2, 0, key, d).box;
    assert b4.live == b3.live == map[key := FreshEntry(key, 10, NO_UPDATES_TIMEOUT)] && b4.nextDeadline == NO_UPDATES_TIMEOUT;
    var r := ResetDeadline(b4, key, AN_HOUR);
    assert r.live == map[key := FreshEntry(key, 10, AN_HOUR)];
    assert r.nextDeadline == AN_HOUR;
    assert WithoutGap(b1, key) == b1;
  }
}
