/** Runs of the update box: any public operations, in any order, under a clock that
    never goes back, from a new box or a loaded one. */
module UpdateRuns {
  import opened Wrappers
  import opened UpdateDefs
  import opened UpdateBox
  import opened UpdateInvariants
  import opened StableSort

  datatype Timed = Timed(now: nat, op: Op)

  ghost function RunOps(b: Box, ops: seq<Timed>): Box {
    if ops == [] then b
    else Do(RunOps(b, ops[..|ops| - 1]), ops[|ops| - 1].now, ops[|ops| - 1].op)
  }

  /** The instant of the last operation, or of the start. */
  function LastInstant(start: nat, ops: seq<Timed>): nat {
    if ops == [] then start else ops[|ops| - 1].now
  }

  ghost predicate CanRun(b: Box, start: nat, ops: seq<Timed>) {
    ops == [] ||
    var before, last := ops[..|ops| - 1], ops[|ops| - 1];
    && CanRun(b, start, before)
    && LastInstant(start, before) <= last.now
    && Enabled(RunOps(b, before), last.op)
  }

  ghost predicate Initial(b: Box, start: nat) {
    || b == NewBox(start)
    || exists s: Snapshot :: DistinctChannels(s.channels) && b == LoadBox(s, start)
  }

  predicate TimeoutsWithin(ops: seq<Timed>, slack: nat) {
    slack >= NO_UPDATES_TIMEOUT && forall i :: 0 <= i < |ops| ==> TimeoutWithin(ops[i].op, slack)
  }

  lemma InitialHolds(b: Box, start: nat, slack: nat)
    requires Initial(b, start) && slack >= NO_UPDATES_TIMEOUT
    ensures Structure(b) && Bound(b, start, slack)
  {
    assert forall i, j :: 0 <= i < j < |b.queue| ==> KeyLess(b.queue[i], b.queue[j]);
  }

  /** Safety over whole runs: the structure holds in every reachable box. */
  lemma {:induction false} ReachableHasStructure(b: Box, start: nat, ops: seq<Timed>)
    requires Initial(b, start) && CanRun(b, start, ops)
    ensures Structure(RunOps(b, ops))
  {
    if ops == [] {
      InitialHolds(b, start, NO_UPDATES_TIMEOUT);
    } else {
      var before, last := ops[..|ops| - 1], ops[|ops| - 1];
      ReachableHasStructure(b, start, before);
      DoKeepsStructure(RunOps(b, before), last.now, last.op);
    }
  }

  lemma {:induction false} ReachableIsBounded(b: Box, start: nat, ops: seq<Timed>, slack: nat)
    requires Initial(b, start) && CanRun(b, start, ops) && TimeoutsWithin(ops, slack)
    ensures Bound(RunOps(b, ops), LastInstant(start, ops), slack)
  {
    if ops == [] {
      InitialHolds(b, start, slack);
    } else {
      var before, last := ops[..|ops| - 1], ops[|ops| - 1];
      ReachableHasStructure(b, start, before);
      assert forall i :: 0 <= i < |before| ==> before[i] == ops[i];
      ReachableIsBounded(b, start, before, slack);
      DoKeepsBound(RunOps(b, before), last.now, last.op, slack);
    }
  }

  /** No entry waits for ever: a check made `slack` after an entry's own deadline queues it. */
  lemma ExpiredEntryIsQueued(b: Box, start: nat, ops: seq<Timed>, slack: nat, now: nat, key: Key)
    requires Initial(b, start) && CanRun(b, start, ops) && TimeoutsWithin(ops, slack)
    requires LastInstant(start, ops) <= now
    requires RunOps(b, ops).queue == [] && key in RunOps(b, ops).live
    requires RunOps(b, ops).live[key].EffectiveDeadline() + slack <= now
    ensures key in CheckDeadlines(RunOps(b, ops), now).queue
  {
    ReachableIsBounded(b, start, ops, slack);
    assert key in Expired(RunOps(b, ops), now);
  }

  /** The account entry is never removed, so a later account request finds it. */
  lemma {:induction false} CommonEntryStays(b: Box, start: nat, before: seq<Timed>, after: seq<Timed>)
    requires Initial(b, start) && CanRun(b, start, before + after)
    requires Common in RunOps(b, before).live
    ensures Common in RunOps(b, before + after).live
  {
    if after == [] {
      assert before + after == before;
    } else {
      var all := before + after;
      var init, last := after[..|after| - 1], after[|after| - 1];
      assert all[..|all| - 1] == before + init;
      CommonEntryStays(b, start, before, init);
      DoKeepsCommon(RunOps(b, before + init), last.now, last.op);
    }
  }

  lemma {:induction false} StepAllKeepsCommon(b: Box, now: nat, us: seq<Update>)
    requires Common in b.live
    ensures Common in StepAll(b, now, us).box.live
  {
    if us != [] {
      StepAllKeepsCommon(b, now, us[..|us| - 1]);
    }
  }

  lemma ProcessKeepsCommon(b: Box, now: nat, input: UpdatesLike)
    requires Common in b.live
    ensures Common in ProcessUpdates(b, now, input).box.live
  {
    var c := Adapt(input);
    if c.Ok? {
      StepAllKeepsCommon(b, now, Sort(c.value.updates, SortKey));
    }
  }

  lemma DoKeepsCommon(b: Box, now: nat, op: Op)
    requires Common in b.live
    ensures Common in Do(b, now, op).live
  {
    match op
    case Process(input) => ProcessKeepsCommon(b, now, input);
    case ApplyAccount(d) =>
      if d.Difference? || d.DifferenceSlice? {
        ProcessKeepsCommon(AdoptState(b, d.full.state, now), now, Bare(d.full.otherUpdates));
      }
    case ApplyOneChannel(c) =>
      var diff := AdaptChannelDifference(c);
      if b.inFlight.Some? && diff.Ok? {
        var key := Channel(b.inFlight.value);
        var b2 := WithoutGap(b.(inFlight := None), key);
        var b3 := SetPts(if diff.value.isFinal then EndDiff(b2, key, now) else b2, key, diff.value.pts, now);
        ProcessKeepsCommon(b3, now, Bare(diff.value.otherUpdates));
      }
    case _ =>
  }
}
