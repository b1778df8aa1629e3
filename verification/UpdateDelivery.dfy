/** What a run of batches delivers for one counter: updates that follow each other
    without a hole, and, for updates cut from one chain, the same prefix of the
    chain whatever order, repetition or batching they arrive in. */
module UpdateDelivery {
  import opened Wrappers
  import opened UpdateDefs
  import opened UpdateBox
  import opened UpdateInvariants
  import opened StableSort

  datatype Batch = Batch(now: nat, input: UpdatesLike)

  ghost function RunBatches(b: Box, batches: seq<Batch>): Answered {
    if batches == [] then Answered(b, [])
    else
      var before := RunBatches(b, batches[..|batches| - 1]);
      var last := batches[|batches| - 1];
      var p := ProcessUpdates(before.box, last.now, last.input);
      Answered(p.box, before.delivered + if p.result.Ok? then p.result.value else [])
  }

  // Tiling

  function PtsOf(u: Update): int
    requires PtsInfoOf(u).Some?
  {
    PtsInfoOf(u).value.pts
  }

  /** The updates of `key` in `us` take the counter from `from` to `to` without a hole. */
  ghost predicate Tiles(us: seq<Update>, key: Key, from: int, to: int)
    decreases |us|
  {
    if us == [] then from == to
    else
      var init, u := us[..|us| - 1], us[|us| - 1];
      if Bears(u, key) then PtsOf(u) == to && Tiles(init, key, from, SortKey(u))
      else Tiles(init, key, from, to)
  }

  function TotalCount(us: seq<Update>, key: Key): int {
    if us == [] then 0
    else
      var u := us[|us| - 1];
      TotalCount(us[..|us| - 1], key) + if Bears(u, key) then PtsInfoOf(u).value.count else 0
  }

  ghost predicate BuffersAbove(e: LiveEntry) {
    e.possibleGap.Some? ==> forall u :: u in e.possibleGap.value.updates ==> SortKey(u) > e.pts
  }

  lemma {:induction false} TilesConcat(a: seq<Update>, c: seq<Update>, key: Key, from: int, mid: int, to: int)
    requires Tiles(a, key, from, mid) && Tiles(c, key, mid, to)
    ensures Tiles(a + c, key, from, to)
    decreases |c|
  {
    if c == [] {
      assert a + c == a;
    } else {
      var init, u := c[..|c| - 1], c[|c| - 1];
      assert (a + c)[..|a + c| - 1] == a + init;
      TilesConcat(a, init, key, from, mid, if Bears(u, key) then SortKey(u) else to);
    }
  }

  lemma {:induction false} TilesTotal(us: seq<Update>, key: Key, from: int, to: int)
    requires Tiles(us, key, from, to)
    ensures TotalCount(us, key) == to - from
    decreases |us|
  {
    if us != [] {
      var u := us[|us| - 1];
      TilesTotal(us[..|us| - 1], key, from, if Bears(u, key) then SortKey(u) else to);
    }
  }

  lemma TilesOne(u: Update, key: Key)
    requires Bears(u, key)
    ensures Tiles([u], key, SortKey(u), PtsOf(u))
  {
    assert [u][..0] == [];
  }

  lemma {:induction false} DrainTiles(pts: int, pending: seq<Update>, key: Key)
    requires forall u :: u in pending ==> Bears(u, key)
    requires SortedBy(pending, NegatedSortKey)
    ensures Tiles(Drain(pts, pending).delivered, key, pts, Drain(pts, pending).pts)
    ensures forall u :: u in Drain(pts, pending).rest ==> SortKey(u) > Drain(pts, pending).pts
    decreases |pending|
  {
    if pending != [] {
      var init, u := pending[..|pending| - 1], pending[|pending| - 1];
      assert u in pending;
      var info := PtsInfoOf(u).value;
      if pts + info.count == info.pts {
        DrainTiles(info.pts, init, key);
        TilesOne(u, key);
        TilesConcat([u], Drain(info.pts, init).delivered, key, pts, info.pts, Drain(info.pts, init).pts);
      } else if pts + info.count > info.pts {
        DrainTiles(pts, init, key);
      } else {
        forall v | v in pending
          ensures SortKey(v) > pts
        {
          var i :| 0 <= i < |pending| && pending[i] == v;
          assert NegatedSortKey(pending[i]) <= NegatedSortKey(u);
        }
      }
    }
  }

  lemma DrainGapTiles(e: LiveEntry)
    requires GapFits(e)
    ensures Tiles(DrainGap(e).delivered, e.key, e.pts, DrainGap(e).entry.pts)
    ensures BuffersAbove(DrainGap(e).entry)
  {
    if e.possibleGap.Some? {
      var us := e.possibleGap.value.updates;
      SameElements(us, NegatedSortKey);
      SortSorts(us, NegatedSortKey);
      DrainTiles(e.pts, Sort(us, NegatedSortKey), e.key);
    }
  }

  lemma AbsorbTiles(e: LiveEntry, u: Update, info: PtsInfo, now: nat)
    requires GapFits(e) && Bears(u, e.key) && PtsInfoOf(u) == Some(info)
    ensures Tiles(Absorb(e, u, info, now).delivered, e.key, e.pts, Absorb(e, u, info, now).entry.pts)
    ensures BuffersAbove(Absorb(e, u, info, now).entry)
  {
    var first := Take(e, u, info, now);
    assert GapFits(first.entry) && first.entry.key == e.key by { TakeFits(e, u, info, now); }
    assert Tiles(first.delivered, e.key, e.pts, first.entry.pts) by { TilesOne(u, e.key); }
    var second := DrainGap(first.entry);
    DrainGapTiles(first.entry);
    TilesConcat(first.delivered, second.delivered, e.key, e.pts, first.entry.pts, second.entry.pts);
  }

  ghost predicate Advances(b: Box, o: Box, delivered: seq<Update>, key: Key)
    requires key in b.live
  {
    && key in o.live
    && Tiles(delivered, key, b.live[key].pts, o.live[key].pts)
    && (BuffersAbove(b.live[key]) ==> BuffersAbove(o.live[key]))
  }

  lemma StepTiles(b: Box, now: nat, u: Update, key: Key)
    requires Structure(b) && key in b.live
    ensures key !in Step(b, now, u).box.queue ==> Advances(b, Step(b, now, u).box, Step(b, now, u).delivered, key)
  {
    assert [u][..0] == [];
    var info := PtsInfoOf(u);
    if !u.ChannelTooLong? && info.Some? && info.value.key !in b.queue {
      AbsorbFits(EntryFor(b, info.value, now), u, info.value, now);
      if info.value.key == key {
        AbsorbTiles(b.live[key], u, info.value, now);
      } else {
        AbsorbOther(EntryFor(b, info.value, now), u, info.value, now, key, b.live[key].pts);
      }
    }
  }

  lemma {:induction false} TilesNone(us: seq<Update>, key: Key, at: int)
    requires forall u :: u in us ==> !Bears(u, key)
    ensures Tiles(us, key, at, at)
    decreases |us|
  {
    if us != [] {
      assert us[|us| - 1] in us;
      TilesNone(us[..|us| - 1], key, at);
    }
  }

  lemma AbsorbElements(e: LiveEntry, u: Update, info: PtsInfo, now: nat)
    requires GapFits(e) && Bears(u, e.key) && PtsInfoOf(u) == Some(info)
    ensures forall v :: v in Absorb(e, u, info, now).delivered ==> Bears(v, e.key)
  {
    TakeFits(e, u, info, now);
    var first := Take(e, u, info, now);
    if first.entry.possibleGap.Some? {
      var us := first.entry.possibleGap.value.updates;
      SameElements(us, NegatedSortKey);
      DrainSplits(first.entry.pts, Sort(us, NegatedSortKey));
    }
  }

  lemma AbsorbOther(e: LiveEntry, u: Update, info: PtsInfo, now: nat, key: Key, at: int)
    requires GapFits(e) && Bears(u, e.key) && PtsInfoOf(u) == Some(info) && e.key != key
    ensures Tiles(Absorb(e, u, info, now).delivered, key, at, at)
  {
    AbsorbElements(e, u, info, now);
    TilesNone(Absorb(e, u, info, now).delivered, key, at);
  }

  lemma StepQueueGrows(b: Box, now: nat, u: Update)
    ensures forall k :: k in b.queue ==> k in Step(b, now, u).box.queue
  {
  }

  lemma {:induction false} StepAllQueueGrows(b: Box, now: nat, us: seq<Update>)
    ensures forall k :: k in b.queue ==> k in StepAll(b, now, us).box.queue
  {
    if us != [] {
      StepAllQueueGrows(b, now, us[..|us| - 1]);
      StepQueueGrows(StepAll(b, now, us[..|us| - 1]).box, now, us[|us| - 1]);
    }
  }

  lemma ProcessQueueGrows(b: Box, now: nat, input: UpdatesLike)
    ensures forall k :: k in b.queue ==> k in ProcessUpdates(b, now, input).box.queue
  {
    var c := Adapt(input);
    if c.Ok? {
      StepAllQueueGrows(b, now, Sort(c.value.updates, SortKey));
    }
  }

  lemma {:induction false} StepAllTiles(b: Box, now: nat, us: seq<Update>, key: Key)
    requires Structure(b) && key in b.live && key !in StepAll(b, now, us).box.queue
    ensures Advances(b, StepAll(b, now, us).box, StepAll(b, now, us).delivered, key)
  {
    if us != [] {
      var before := StepAll(b, now, us[..|us| - 1]);
      StepQueueGrows(before.box, now, us[|us| - 1]);
      StepAllTiles(b, now, us[..|us| - 1], key);
      StepAllKeepsStructure(b, now, us[..|us| - 1]);
      StepTiles(before.box, now, us[|us| - 1], key);
      var last := Step(before.box, now, us[|us| - 1]);
      TilesConcat(before.delivered, last.delivered, key,
                  b.live[key].pts, before.box.live[key].pts, last.box.live[key].pts);
    }
  }

  lemma ProcessTiles(b: Box, now: nat, input: UpdatesLike, key: Key)
    requires Structure(b) && key in b.live && key !in ProcessUpdates(b, now, input).box.queue
    ensures var p := ProcessUpdates(b, now, input);
            Advances(b, p.box, if p.result.Ok? then p.result.value else [], key)
  {
    var c := Adapt(input);
    if c.Ok? && (c.value.seqStart == NO_SEQ || b.seqNo + 1 == c.value.seqStart) {
      StepAllTiles(b, now, Sort(c.value.updates, SortKey), key);
    }
  }

  lemma {:induction false} RunKeepsStructure(b: Box, batches: seq<Batch>)
    requires Structure(b)
    ensures Structure(RunBatches(b, batches).box)
  {
    if batches != [] {
      var last := batches[|batches| - 1];
      RunKeepsStructure(b, batches[..|batches| - 1]);
      ProcessKeepsStructure(RunBatches(b, batches[..|batches| - 1]).box, last.now, last.input);
    }
  }

  /** On any input: while `key` never becomes due for a difference, what is delivered
      for it starts exactly where the last delivery ended, so the delivered counts add
      up to the growth of the counter, and what stays buffered lies above the counter. */
  lemma {:induction false} DeliveredUpdatesTile(b: Box, batches: seq<Batch>, key: Key)
    requires Structure(b) && key in b.live
    requires key !in RunBatches(b, batches).box.queue
    ensures Advances(b, RunBatches(b, batches).box, RunBatches(b, batches).delivered, key)
    ensures TotalCount(RunBatches(b, batches).delivered, key)
            == RunBatches(b, batches).box.live[key].pts - b.live[key].pts
  {
    var r := RunBatches(b, batches);
    if batches != [] {
      var before, last := RunBatches(b, batches[..|batches| - 1]), batches[|batches| - 1];
      RunKeepsStructure(b, batches[..|batches| - 1]);
      ProcessQueueGrows(before.box, last.now, last.input);
      DeliveredUpdatesTile(b, batches[..|batches| - 1], key);
      ProcessTiles(before.box, last.now, last.input, key);
      var p := ProcessUpdates(before.box, last.now, last.input);
      TilesConcat(before.delivered, if p.result.Ok? then p.result.value else [], key,
                  b.live[key].pts, before.box.live[key].pts, p.box.live[key].pts);
    }
    TilesTotal(r.delivered, key, b.live[key].pts, r.box.live[key].pts);
  }
}
