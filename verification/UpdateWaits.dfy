/** While the account awaits its difference: over runs of any operations, an account
    update comes out as often as the batches and differences that arrive hold it. */
module UpdateWaits {
  import opened Wrappers
  import opened UpdateDefs
  import opened UpdateBox
  import opened UpdateInvariants
  import opened UpdateRuns
  import opened UpdateReordering
  import opened UpdateDifferences
  import opened StableSort

  /** The operations that take the account off the queue. */
  predicate EndsTheWait(op: Op) {
    op.Abort? || (op.ApplyAccount? && !op.d.DifferenceSlice?)
  }

  /** A batch is taken unless it is malformed or its sequence number is not the next. */
  predicate InSequence(b: Box, c: Combined) {
    c.seqStart == NO_SEQ || b.seqNo + 1 == c.seqStart
  }

  /** What the operation returns. */
  ghost function Out(b: Box, now: nat, op: Op): seq<Update> {
    match op
    case Process(input) =>
      var p := ProcessUpdates(b, now, input);
      if p.result.Ok? then p.result.value else []
    case ApplyAccount(d) => ApplyDifference(b, now, d).delivered
    case ApplyOneChannel(c) => ApplyChannelDifference(b, now, c).delivered
    case _ => []
  }

  /** The updates it brings, when they are taken at all. */
  function Brought(b: Box, op: Op): seq<Update> {
    match op
    case Process(input) => if Adapt(input).Ok? && InSequence(b, Adapt(input).value) then Adapt(input).value.updates else []
    case ApplyAccount(d) => if d.Difference? || d.DifferenceSlice? then d.full.otherUpdates else []
    case ApplyOneChannel(c) =>
      if b.inFlight.Some? && Channel(b.inFlight.value) in b.queue && AdaptChannelDifference(c).Ok?
      then AdaptChannelDifference(c).value.otherUpdates else []
    case _ => []
  }

  /** Processed updates come out as often as they are in the batch. */
  lemma SortedPassThrough(b: Box, now: nat, us: seq<Update>, v: Update)
    requires Structure(b) && Common in b.queue && Bears(v, Common)
    ensures var o := StepAll(b, now, Sort(us, SortKey));
            Common in o.box.queue && multiset(o.delivered)[v] == multiset(us)[v]
  {
    QueuedKeyPassesThrough(b, now, Sort(us, SortKey), Common);
    SortPermutes(us, SortKey);
    OfKeyWithin(Sort(us, SortKey), Common, v);
    OfKeyWithin(StepAll(b, now, Sort(us, SortKey)).delivered, Common, v);
  }

  lemma ProcessPassesThrough(b: Box, now: nat, input: UpdatesLike, v: Update)
    requires Structure(b) && Common in b.queue && Bears(v, Common)
    ensures Common in ProcessUpdates(b, now, input).box.queue
    ensures multiset(Out(b, now, Process(input)))[v] == multiset(Brought(b, Process(input)))[v]
  {
    if Adapt(input).Ok? {
      SortedPassThrough(b, now, Adapt(input).value.updates, v);
    }
  }

  lemma BarePassesThrough(b: Box, now: nat, us: seq<Update>, v: Update)
    requires Structure(b) && Common in b.queue && Bears(v, Common)
    ensures var p := ProcessUpdates(b, now, Bare(us));
            p.result.Ok? && Common in p.box.queue && multiset(p.result.value)[v] == multiset(us)[v]
  {
    BareProcess(b, now, us);
    SortedPassThrough(b, now, us, v);
  }

  // Answers

  /** New messages carry no counter. */
  lemma MessagesBearNothing(us: seq<Update>, key: Key, v: Update)
    requires Bears(v, key) && forall u :: u in us ==> PtsInfoOf(u).None?
    ensures multiset(us)[v] == 0
  {
    assert v !in us;
  }

  lemma SlicePassesThrough(b: Box, now: nat, d: FullDifference, v: Update)
    requires Structure(b) && Common in b.queue && Bears(v, Common)
    ensures Common in ApplyFull(b, now, d).box.queue
    ensures multiset(ApplyFull(b, now, d).delivered)[v] == multiset(d.otherUpdates)[v]
  {
    AdoptStateKeepsStructure(b, d.state, now);
    BarePassesThrough(AdoptState(b, d.state, now), now, d.otherUpdates, v);
    MessagesBearNothing(AccountMessages(d), Common, v);
  }

  lemma ChannelPassesThrough(b: Box, now: nat, key: Key, d: ChannelDiff, v: Update)
    requires Structure(b) && Common in b.queue && Bears(v, Common) && key != Common
    ensures Common in ApplyChannelDiff(b, now, key, d).box.queue
    ensures multiset(ApplyChannelDiff(b, now, key, d).delivered)[v] == multiset(d.otherUpdates)[v]
  {
    EndDiffKeeps(b, key, now);
    var b1 := if d.isFinal then EndDiff(b, key, now) else b;
    SetPtsKeepsStructure(b1, key, d.pts, now);
    BarePassesThrough(SetPts(b1, key, d.pts, now), now, d.otherUpdates, v);
    MessagesBearNothing(ChannelMessages(d), Common, v);
  }

  lemma ChannelAnswerPassesThrough(b: Box, now: nat, c: ChannelDifference, v: Update)
    requires Structure(b) && Common in b.queue && Bears(v, Common)
    ensures Common in ApplyChannelDifference(b, now, c).box.queue
    ensures multiset(Out(b, now, ApplyOneChannel(c)))[v] == multiset(Brought(b, ApplyOneChannel(c)))[v]
  {
    if b.inFlight.Some? && Channel(b.inFlight.value) in b.queue {
      var key := Channel(b.inFlight.value);
      var b2 := WithoutGap(b.(inFlight := None), key);
      assert Structure(b2) && Common in b2.queue;
      match AdaptChannelDifference(c)
      case Err(_) => EndChannelStays(b2.(inFlight := b.inFlight), now, TemporaryServerIssues);
      case Ok(diff) => ChannelPassesThrough(b2, now, key, diff, v);
    }
  }

  lemma EndChannelStays(b: Box, now: nat, reason: PrematureEndReason)
    requires Structure(b) && Common in b.queue
    ensures Common in EndChannelDifference(b, now, reason).queue
  {
    if b.inFlight.Some? {
      var key := Channel(b.inFlight.value);
      EndDiffKeeps(WithoutGap(b.(inFlight := None), key), key, now);
    }
  }

  /** One operation during the wait: what comes out of an account update is what it brings. */
  lemma WaitStep(b: Box, now: nat, op: Op, v: Update)
    requires Structure(b) && Common in b.queue && Bears(v, Common) && Enabled(b, op) && !EndsTheWait(op)
    ensures Structure(Do(b, now, op)) && Common in Do(b, now, op).queue
    ensures multiset(Out(b, now, op))[v] == multiset(Brought(b, op))[v]
  {
    DoKeepsStructure(b, now, op);
    match op
    case Process(input) => ProcessPassesThrough(b, now, input, v);
    case ApplyAccount(d) => SlicePassesThrough(b, now, d.full, v);
    case ApplyOneChannel(c) => ChannelAnswerPassesThrough(b, now, c, v);
    case EndOneChannel(reason) => EndChannelStays(b, now, reason);
    case _ =>
  }

  // Runs

  ghost function OutOf(b: Box, ops: seq<Timed>): seq<Update> {
    if ops == [] then []
    else
      var before, last := ops[..|ops| - 1], ops[|ops| - 1];
      OutOf(b, before) + Out(RunOps(b, before), last.now, last.op)
  }

  ghost function BroughtBy(b: Box, ops: seq<Timed>): seq<Update> {
    if ops == [] then []
    else
      var before, last := ops[..|ops| - 1], ops[|ops| - 1];
      BroughtBy(b, before) + Brought(RunOps(b, before), last.op)
  }

  /** Any operations but those that end the wait. */
  ghost predicate Waiting(b: Box, start: nat, ops: seq<Timed>) {
    CanRun(b, start, ops) && forall i :: 0 <= i < |ops| ==> !EndsTheWait(ops[i].op)
  }

  lemma {:induction false} WaitCounts(b: Box, start: nat, ops: seq<Timed>, v: Update)
    requires Structure(b) && Common in b.queue && Bears(v, Common) && Waiting(b, start, ops)
    ensures Structure(RunOps(b, ops)) && Common in RunOps(b, ops).queue
    ensures multiset(OutOf(b, ops))[v] == multiset(BroughtBy(b, ops))[v]
  {
    if ops != [] {
      var before, last := ops[..|ops| - 1], ops[|ops| - 1];
      WaitCounts(b, start, before, v);
      WaitStep(RunOps(b, before), last.now, last.op, v);
    }
  }

  /** Any batches, slices and other operations while the account awaits its difference, and
      then the full difference: an account update comes out as often as they hold it
      together, so exactly once exactly when they hold it once. */
  lemma LiveAndDifferencesCount(b: Box, start: nat, ops: seq<Timed>, now: nat, d: FullDifference, v: Update)
    requires Structure(b) && Common in b.queue && Bears(v, Common) && Waiting(b, start, ops)
    ensures var r := ApplyDifference(RunOps(b, ops), now, Difference(d));
            && Common !in r.box.queue
            && multiset(OutOf(b, ops) + r.delivered)[v] == multiset(BroughtBy(b, ops) + d.otherUpdates)[v]
            && (multiset(OutOf(b, ops) + r.delivered)[v] == 1
                <==> multiset(BroughtBy(b, ops))[v] + multiset(d.otherUpdates)[v] == 1)
  {
    WaitCounts(b, start, ops, v);
    var at := RunOps(b, ops);
    SlicePassesThrough(at, now, d, v);
    ApplyFullKeepsStructure(at, now, d);
    FinishLeavesNothingQueued(ApplyFull(at, now, d).box, now);
  }
}
