/** Reordering is invisible: updates cut from one chain may arrive in any order, any
    number of times and in any batches; what comes out is the chain's longest
    complete prefix, in order, each update once. */
module UpdateReordering {
  import opened Wrappers
  import opened UpdateDefs
  import opened UpdateBox
  import opened UpdateInvariants
  import opened UpdateDelivery
  import opened StableSort

  /** Updates and the counter values between them: update `i` moves the counter from
      `edges[i]` to `edges[i + 1]`. */
  datatype Chain = Chain(updates: seq<Update>, edges: seq<int>)

  /** The updates tile the counter of `key` from the first edge, each moving it forward. */
  ghost predicate IsChain(c: Chain, key: Key) {
    && |c.edges| == |c.updates| + 1
    && (forall i, j :: 0 <= i < j < |c.edges| ==> c.edges[i] < c.edges[j])
    && (forall i :: 0 <= i < |c.updates| ==> Links(c.updates[i], key, c.edges[i], c.edges[i + 1]))
  }

  ghost predicate Links(u: Update, key: Key, from: int, to: int) {
    Bears(u, key) && SortKey(u) == from && PtsOf(u) == to
  }

  /** `us` consists of exactly the chain positions in `at`. */
  ghost predicate Positions(us: seq<Update>, c: Chain, at: set<nat>) {
    && (forall i :: i in at ==> i < |c.updates| && c.updates[i] in us)
    && (forall u :: u in us ==> exists i :: i in at && i < |c.updates| && c.updates[i] == u)
  }

  ghost function Above(at: set<nat>, m: nat): set<nat> {
    set i | i in at && i > m
  }

  /** All positions below `m` have arrived, `m` itself has not. */
  ghost predicate FirstMissing(at: set<nat>, m: nat) {
    (forall i: nat :: i < m ==> i in at) && m !in at
  }

  /** Where the last buffered update sits in the chain: nothing buffered sits before it. */
  lemma LastPosition(c: Chain, key: Key, pending: seq<Update>, at: set<nat>) returns (i: nat, left: set<nat>)
    requires IsChain(c, key) && Positions(pending, c, at) && SortedBy(pending, NegatedSortKey)
    requires pending != []
    ensures i in at && i < |c.updates| && c.updates[i] == pending[|pending| - 1]
    ensures at == left + {i} && Positions(pending[..|pending| - 1], c, left)
    ensures forall j :: j in at ==> i <= j
  {
    var init, u := pending[..|pending| - 1], pending[|pending| - 1];
    assert u in pending;
    i :| i in at && i < |c.updates| && c.updates[i] == u;
    left := set j | j in at && c.updates[j] in init;
    forall v | v in init
      ensures exists k :: k in left && k < |c.updates| && c.updates[k] == v
    {
      assert v in pending;
      var k :| k in at && k < |c.updates| && c.updates[k] == v;
      assert k in left;
    }
    forall j | j in at
      ensures (j in left || j == i) && i <= j
    {
      NotBelowLast(c, key, pending, i, j);
    }
  }

  /** A buffered position is the last update's, or is buffered before it and lies higher. */
  lemma NotBelowLast(c: Chain, key: Key, pending: seq<Update>, i: nat, j: nat)
    requires IsChain(c, key) && SortedBy(pending, NegatedSortKey) && pending != []
    requires i < |c.updates| && j < |c.updates| && c.updates[i] == pending[|pending| - 1] && c.updates[j] in pending
    ensures i <= j && (j == i || c.updates[j] in pending[..|pending| - 1])
  {
    var q :| 0 <= q < |pending| && pending[q] == c.updates[j];
    assert Links(c.updates[j], key, c.edges[j], c.edges[j + 1]) && Links(c.updates[i], key, c.edges[i], c.edges[i + 1]);
    assert q < |pending| - 1 ==> NegatedSortKey(pending[q]) <= NegatedSortKey(pending[|pending| - 1]);
    assert q < |pending| - 1 ==> pending[q] in pending[..|pending| - 1];
  }

  /** What draining from edge `m` gives when the positions `at` are buffered: the chain up
      to its first missing position `n`, and the rest still buffered. */
  ghost predicate DrainsTo(d: Drained, c: Chain, at: set<nat>, m: nat, n: nat) {
    && m <= n <= |c.updates| && |c.edges| == |c.updates| + 1
    && d.pts == c.edges[n] && d.delivered == c.updates[m..n] && Positions(d.rest, c, Above(at, n))
    && n !in at && forall i: nat :: m <= i < n ==> i in at
  }

  lemma NextFits(d: Drained, c: Chain, at: set<nat>, left: set<nat>, m: nat, n: nat)
    requires m < |c.updates| && DrainsTo(d, c, left, m + 1, n) && at == left + {m}
    ensures DrainsTo(d.(delivered := [c.updates[m]] + d.delivered), c, at, m, n)
  {
    assert Above(at, n) == Above(left, n);
    assert c.updates[m..n] == [c.updates[m]] + c.updates[m + 1..n];
  }

  lemma OldDropped(d: Drained, c: Chain, at: set<nat>, left: set<nat>, i: nat, m: nat, n: nat)
    requires DrainsTo(d, c, left, m, n) && at == left + {i} && i < m
    ensures DrainsTo(d, c, at, m, n)
  {
    assert Above(at, n) == Above(left, n);
  }

  lemma HoleStops(pending: seq<Update>, c: Chain, at: set<nat>, m: nat)
    requires m <= |c.updates| && |c.edges| == |c.updates| + 1 && Positions(pending, c, at) && forall j :: j in at ==> m < j
    ensures DrainsTo(Drained(c.edges[m], [], pending), c, at, m, m)
  {
    assert Above(at, m) == at;
  }

  /** One step of the drain, by where its update sits in the chain. */
  lemma DrainStep(c: Chain, key: Key, pending: seq<Update>, i: nat, m: nat)
    requires IsChain(c, key) && m <= |c.updates| && i < |c.updates|
    requires pending != [] && pending[|pending| - 1] == c.updates[i]
    ensures var init := pending[..|pending| - 1];
            Drain(c.edges[m], pending)
            == if i == m then var d := Drain(c.edges[m + 1], init); d.(delivered := [c.updates[m]] + d.delivered)
               else if i < m then Drain(c.edges[m], init)
               else Drained(c.edges[m], [], pending)
  {
    assert Links(c.updates[i], key, c.edges[i], c.edges[i + 1]);
  }

  lemma {:induction false} DrainFollowsChain(c: Chain, key: Key, m: nat,
                                             pending: seq<Update>, at: set<nat>) returns (n: nat)
    requires IsChain(c, key) && m <= |c.updates|
    requires Positions(pending, c, at) && SortedBy(pending, NegatedSortKey)
    ensures DrainsTo(Drain(c.edges[m], pending), c, at, m, n)
    decreases |pending|
  {
    if pending == [] {
      n := m;
      HoleStops(pending, c, at, m);
    } else {
      var init := pending[..|pending| - 1];
      var i, left := LastPosition(c, key, pending, at);
      DrainStep(c, key, pending, i, m);
      if i == m {
        n := DrainFollowsChain(c, key, m + 1, init, left);
        NextFits(Drain(c.edges[m + 1], init), c, at, left, m, n);
      } else if i < m {
        n := DrainFollowsChain(c, key, m, init, left);
        OldDropped(Drain(c.edges[m], init), c, at, left, i, m, n);
      } else {
        n := m;
        HoleStops(pending, c, at, m);
      }
    }
  }

  // One entry

  function Buffered(e: LiveEntry): seq<Update> {
    if e.possibleGap.Some? then e.possibleGap.value.updates else []
  }

  /** The entry after the positions `at` of the chain have arrived. */
  ghost predicate Follows(e: LiveEntry, c: Chain, key: Key, at: set<nat>, m: nat) {
    && e.key == key && GapFits(e) && m <= |c.updates|
    && IsChain(c, key)
    && e.pts == c.edges[m]
    && FirstMissing(at, m)
    && (forall i :: i in at ==> i < |c.updates|)
    && Positions(Buffered(e), c, Above(at, m))
  }

  lemma DrainGapIsDrain(e: LiveEntry)
    ensures var d, r := Drain(e.pts, Sort(Buffered(e), NegatedSortKey)), DrainGap(e);
            r.delivered == d.delivered && r.entry.pts == d.pts && Buffered(r.entry) == d.rest
  {
  }

  /** After the positions below `m` and those in `held`, the next hole is at `n`. */
  lemma HoleMoves(at: set<nat>, held: set<nat>, m: nat, n: nat)
    requires held == (set i | i in at && i >= m) && m <= n
    requires forall i: nat :: i < m ==> i in at
    requires n !in held && forall i: nat :: m <= i < n ==> i in held
    ensures FirstMissing(at, n) && Above(held, n) == Above(at, n)
  {
    forall i: nat | i < n
      ensures i in at
    {
      assert i < m || i in held;
    }
  }

  lemma DrainGapFollows(e: LiveEntry, c: Chain, key: Key, at: set<nat>, m: nat, held: set<nat>)
    returns (n: nat)
    requires e.key == key && GapFits(e) && m <= |c.updates|
    requires IsChain(c, key) && e.pts == c.edges[m]
    requires forall i :: i in at ==> i < |c.updates|
    requires forall i: nat :: i < m ==> i in at
    requires held == (set i | i in at && i >= m)
    requires Positions(Buffered(e), c, held)
    ensures m <= n <= |c.updates| && DrainGap(e).delivered == c.updates[m..n]
    ensures Follows(DrainGap(e).entry, c, key, at, n)
  {
    var us := Buffered(e);
    var pending := Sort(us, NegatedSortKey);
    SameElements(us, NegatedSortKey);
    assert Positions(pending, c, held);
    SortSorts(us, NegatedSortKey);
    n := DrainFollowsChain(c, key, m, pending, held);
    HoleMoves(at, held, m, n);
    DrainGapIsDrain(e);
    DrainGapFits(e);
  }

  /** Taking position `j`: a fitting update moves the counter on, one from below is
      dropped, one from above is buffered. */
  lemma TakeFollows(e: LiveEntry, c: Chain, key: Key, at: set<nat>, m: nat, j: nat, info: PtsInfo, now: nat, held: set<nat>)
    requires Follows(e, c, key, at, m) && j < |c.updates| && PtsInfoOf(c.updates[j]) == Some(info)
    requires held == set i | i in at + {j} && i >= if j == m then m + 1 else m
    ensures var first, m1 := Take(e, c.updates[j], info, now), if j == m then m + 1 else m;
            && first.entry.key == key && GapFits(first.entry) && first.entry.pts == c.edges[m1]
            && first.delivered == c.updates[m..m1] && Positions(Buffered(first.entry), c, held)
  {
    assert Links(c.updates[j], key, c.edges[j], c.edges[j + 1]);
    TakeFits(e, c.updates[j], info, now);
    assert held == if j > m then Above(at, m) + {j} else Above(at, m);
    if j > m {
      assert Buffered(Take(e, c.updates[j], info, now).entry) == Buffered(e) + [c.updates[j]];
      OneMorePosition(Buffered(e), c, Above(at, m), j);
    }
  }

  lemma OneMorePosition(us: seq<Update>, c: Chain, at: set<nat>, j: nat)
    requires Positions(us, c, at) && j < |c.updates|
    ensures Positions(us + [c.updates[j]], c, at + {j})
  {
    assert c.updates[j] in us + [c.updates[j]];
    forall u | u in us + [c.updates[j]]
      ensures exists i :: i in at + {j} && i < |c.updates| && c.updates[i] == u
    {
      if u in us {
        var i :| i in at && i < |c.updates| && c.updates[i] == u;
        assert i in at + {j};
      } else {
        assert j in at + {j};
      }
    }
  }

  lemma SliceJoins(c: Chain, m: nat, k: nat, n: nat)
    requires m <= k <= n <= |c.updates|
    ensures c.updates[m..n] == c.updates[m..k] + c.updates[k..n]
  {
  }

  lemma AbsorbFollows(e: LiveEntry, c: Chain, key: Key, at: set<nat>, m: nat, j: nat,
                      info: PtsInfo, now: nat)
    returns (n: nat)
    requires Follows(e, c, key, at, m) && j < |c.updates| && PtsInfoOf(c.updates[j]) == Some(info)
    ensures var a := Absorb(e, c.updates[j], info, now);
            && m <= n <= |c.updates| && a.delivered == c.updates[m..n]
            && Follows(a.entry, c, key, at + {j}, n)
  {
    var first, m1 := Take(e, c.updates[j], info, now), if j == m then m + 1 else m;
    var held := set i | i in at + {j} && i >= m1;
    TakeFollows(e, c, key, at, m, j, info, now, held);
    n := DrainGapFollows(first.entry, c, key, at + {j}, m1, held);
    SliceJoins(c, m, m1, n);
  }

  // Whole runs

  function OfKey(us: seq<Update>, key: Key): seq<Update> {
    if us == [] then []
    else OfKey(us[..|us| - 1], key) + if Bears(us[|us| - 1], key) then [us[|us| - 1]] else []
  }

  lemma {:induction false} OfKeyConcat(x: seq<Update>, y: seq<Update>, key: Key)
    ensures OfKey(x + y, key) == OfKey(x, key) + OfKey(y, key)
  {
    if y == [] {
      assert x + y == x;
    } else {
      assert (x + y)[..|x + y| - 1] == x + y[..|y| - 1];
      OfKeyConcat(x, y[..|y| - 1], key);
    }
  }

  lemma {:induction false} OfKeyAllOrNone(us: seq<Update>, key: Key)
    ensures (forall u :: u in us ==> Bears(u, key)) ==> OfKey(us, key) == us
    ensures (forall u :: u in us ==> !Bears(u, key)) ==> OfKey(us, key) == []
  {
    if us != [] {
      assert us[|us| - 1] in us && us == us[..|us| - 1] + [us[|us| - 1]];
      OfKeyAllOrNone(us[..|us| - 1], key);
    }
  }

  /** The chain positions found in `us`. */
  ghost function Arrived(us: seq<Update>, c: Chain): set<nat> {
    set i | 0 <= i < |c.updates| && c.updates[i] in us
  }

  /** Every update of `key` is one of the chain's, and nothing resets its counter. */
  ghost predicate FromChain(us: seq<Update>, c: Chain, key: Key) {
    forall u :: u in us ==>
      && (Bears(u, key) ==> u in c.updates)
      && !(u.ChannelTooLong? && Channel(u.channelId) == key)
  }

  ghost predicate Tracks(b: Box, c: Chain, key: Key, at: set<nat>, m: nat) {
    key in b.live && key !in b.queue && Follows(b.live[key], c, key, at, m)
  }

  lemma OwnPosition(c: Chain, key: Key, u: Update) returns (j: nat)
    requires IsChain(c, key) && u in c.updates
    ensures j < |c.updates| && c.updates[j] == u && Arrived([u], c) == {j}
  {
    j :| 0 <= j < |c.updates| && c.updates[j] == u;
    forall i | 0 <= i < |c.updates|
      ensures c.updates[i] in [u] <==> i == j
    {
      assert Links(c.updates[i], key, c.edges[i], c.edges[i + 1]);
      assert Links(u, key, c.edges[j], c.edges[j + 1]);
    }
  }

  lemma OwnStepIsAbsorb(b: Box, now: nat, u: Update, key: Key)
    requires Structure(b) && key in b.live && key !in b.queue && Bears(u, key)
    ensures var a, o := Absorb(b.live[key], u, PtsInfoOf(u).value, now), Step(b, now, u);
            && o.delivered == a.delivered && OfKey(a.delivered, key) == a.delivered
            && key in o.box.live && o.box.live[key] == a.entry && o.box.queue == b.queue
  {
    var info := PtsInfoOf(u).value;
    AbsorbElements(b.live[key], u, info, now);
    OfKeyAllOrNone(Absorb(b.live[key], u, info, now).delivered, key);
  }

  lemma OwnStepTracks(b: Box, now: nat, u: Update, c: Chain, key: Key, at: set<nat>, m: nat) returns (n: nat)
    requires Structure(b) && Tracks(b, c, key, at, m)
    requires Bears(u, key) && u in c.updates
    ensures m <= n <= |c.updates| && OfKey(Step(b, now, u).delivered, key) == c.updates[m..n]
    ensures Tracks(Step(b, now, u).box, c, key, at + Arrived([u], c), n)
  {
    var j := OwnPosition(c, key, u);
    n := AbsorbFollows(b.live[key], c, key, at, m, j, PtsInfoOf(u).value, now);
    OwnStepIsAbsorb(b, now, u, key);
  }

  lemma OtherStep(b: Box, now: nat, u: Update, key: Key)
    requires Structure(b) && key in b.live && key !in b.queue
    requires !Bears(u, key) && !(u.ChannelTooLong? && Channel(u.channelId) == key)
    ensures OfKey(Step(b, now, u).delivered, key) == []
    ensures var r := Step(b, now, u).box; key in r.live && r.live[key] == b.live[key] && key !in r.queue
  {
    var info := PtsInfoOf(u);
    if !u.ChannelTooLong? && info.Some? && info.value.key !in b.queue {
      AbsorbElements(EntryFor(b, info.value, now), u, info.value, now);
    }
    OfKeyAllOrNone(Step(b, now, u).delivered, key);
  }

  lemma StepTracks(b: Box, now: nat, u: Update, c: Chain, key: Key, at: set<nat>, m: nat) returns (n: nat)
    requires Structure(b) && Tracks(b, c, key, at, m) && FromChain([u], c, key)
    ensures m <= n <= |c.updates| && OfKey(Step(b, now, u).delivered, key) == c.updates[m..n]
    ensures Tracks(Step(b, now, u).box, c, key, at + Arrived([u], c), n)
  {
    assert u in [u];
    if Bears(u, key) {
      n := OwnStepTracks(b, now, u, c, key, at, m);
    } else {
      n := m;
      OtherStep(b, now, u, key);
      forall i | 0 <= i < |c.updates|
        ensures c.updates[i] !in [u]
      {
        assert Links(c.updates[i], key, c.edges[i], c.edges[i + 1]);
      }
      assert at + Arrived([u], c) == at;
    }
  }

  lemma ArrivedSnoc(us: seq<Update>, u: Update, c: Chain)
    ensures Arrived(us + [u], c) == Arrived(us, c) + Arrived([u], c)
  {
  }

  lemma SliceGrows(c: Chain, key: Key, x: seq<Update>, y: seq<Update>, m: nat, k: nat, n: nat)
    requires m <= k <= n <= |c.updates| && OfKey(x, key) == c.updates[m..k] && OfKey(y, key) == c.updates[k..n]
    ensures OfKey(x + y, key) == c.updates[m..n]
  {
    OfKeyConcat(x, y, key);
    assert c.updates[m..n] == c.updates[m..k] + c.updates[k..n];
  }

  lemma {:induction false} StepAllTracks(b: Box, now: nat, us: seq<Update>, c: Chain, key: Key, at: set<nat>, m: nat)
    returns (n: nat)
    requires Structure(b) && Tracks(b, c, key, at, m) && FromChain(us, c, key)
    ensures m <= n <= |c.updates| && OfKey(StepAll(b, now, us).delivered, key) == c.updates[m..n]
    ensures Tracks(StepAll(b, now, us).box, c, key, at + Arrived(us, c), n)
  {
    n := m;
    if us == [] {
      assert at + Arrived(us, c) == at;
    } else {
      var init, u := us[..|us| - 1], us[|us| - 1];
      assert us == init + [u];
      var k := StepAllTracks(b, now, init, c, key, at, m);
      StepAllKeepsStructure(b, now, init);
      var before := StepAll(b, now, init);
      n := StepTracks(before.box, now, u, c, key, at + Arrived(init, c), k);
      ArrivedSnoc(init, u, c);
      assert at + Arrived(us, c) == at + Arrived(init, c) + Arrived([u], c);
      SliceGrows(c, key, before.delivered, Step(before.box, now, u).delivered, m, k, n);
    }
  }

  /** A container without a sequence number whose updates of `key` come from the chain. */
  ghost predicate Carries(batch: Batch, c: Chain, key: Key) {
    var a := Adapt(batch.input);
    a.Ok? && a.value.seqStart == NO_SEQ && FromChain(a.value.updates, c, key)
  }

  ghost function ArrivedIn(batches: seq<Batch>, c: Chain): set<nat> {
    if batches == [] then {}
    else
      var a := Adapt(batches[|batches| - 1].input);
      ArrivedIn(batches[..|batches| - 1], c) + if a.Ok? then Arrived(a.value.updates, c) else {}
  }

  lemma ProcessTracks(b: Box, batch: Batch, c: Chain, key: Key, at: set<nat>, m: nat) returns (n: nat)
    requires Structure(b) && Tracks(b, c, key, at, m) && Carries(batch, c, key)
    ensures var p := ProcessUpdates(b, batch.now, batch.input);
            && m <= n <= |c.updates| && p.result.Ok? && OfKey(p.result.value, key) == c.updates[m..n]
            && Tracks(p.box, c, key, at + Arrived(Adapt(batch.input).value.updates, c), n)
  {
    var us := Adapt(batch.input).value.updates;
    SameElements(us, SortKey);
    assert Arrived(Sort(us, SortKey), c) == Arrived(us, c);
    n := StepAllTracks(b, batch.now, Sort(us, SortKey), c, key, at, m);
  }

  lemma OneMoreTracks(before: Answered, last: Batch, c: Chain, key: Key, at: set<nat>, k: nat) returns (m: nat)
    requires Structure(before.box) && Tracks(before.box, c, key, at, k) && Carries(last, c, key)
    requires k <= |c.updates| && OfKey(before.delivered, key) == c.updates[..k]
    ensures var p := ProcessUpdates(before.box, last.now, last.input);
            && p.result.Ok? && m <= |c.updates| && OfKey(before.delivered + p.result.value, key) == c.updates[..m]
            && Tracks(p.box, c, key, at + Arrived(Adapt(last.input).value.updates, c), m)
  {
    m := ProcessTracks(before.box, last, c, key, at, k);
    SliceGrows(c, key, before.delivered, ProcessUpdates(before.box, last.now, last.input).result.value, 0, k, m);
  }

  lemma {:induction false} RunTracks(b: Box, batches: seq<Batch>, c: Chain, key: Key) returns (m: nat)
    requires Structure(b) && Tracks(b, c, key, {}, 0)
    requires forall i :: 0 <= i < |batches| ==> Carries(batches[i], c, key)
    ensures m <= |c.updates| && OfKey(RunBatches(b, batches).delivered, key) == c.updates[..m]
    ensures Tracks(RunBatches(b, batches).box, c, key, ArrivedIn(batches, c), m)
  {
    if batches == [] {
      m := 0;
    } else {
      var init, last := batches[..|batches| - 1], batches[|batches| - 1];
      var k := RunTracks(b, init, c, key);
      RunKeepsStructure(b, init);
      m := OneMoreTracks(RunBatches(b, init), last, c, key, ArrivedIn(init, c), k);
    }
  }

  /** What has come out for `key` is the longest complete prefix of what arrived, in
      chain order and each update once; what is buffered is the rest of what arrived. */
  lemma ReorderingIsInvisible(b: Box, batches: seq<Batch>, c: Chain, key: Key) returns (m: nat)
    requires Structure(b) && IsChain(c, key)
    requires key in b.live && key !in b.queue && b.live[key].pts == c.edges[0] && b.live[key].possibleGap.None?
    requires forall i :: 0 <= i < |batches| ==> Carries(batches[i], c, key)
    ensures m <= |c.updates| && FirstMissing(ArrivedIn(batches, c), m)
    ensures OfKey(RunBatches(b, batches).delivered, key) == c.updates[..m]
    ensures var r := RunBatches(b, batches).box;
            && key in r.live && key !in r.queue && r.live[key].pts == c.edges[m]
            && forall u :: u in Buffered(r.live[key])
                 <==> exists i :: i in ArrivedIn(batches, c) && m < i < |c.updates| && c.updates[i] == u
  {
    m := RunTracks(b, batches, c, key);
    var e, at := RunBatches(b, batches).box.live[key], ArrivedIn(batches, c);
    forall i | i in at && m < i < |c.updates|
      ensures c.updates[i] in Buffered(e)
    {
      assert i in Above(at, m);
    }
  }

  /** Two histories that bring the same chain updates deliver the same. */
  lemma OrderAndBatchingDoNotMatter(b: Box, xs: seq<Batch>, ys: seq<Batch>, c: Chain, key: Key)
    requires Structure(b) && IsChain(c, key)
    requires key in b.live && key !in b.queue && b.live[key].pts == c.edges[0] && b.live[key].possibleGap.None?
    requires forall i :: 0 <= i < |xs| ==> Carries(xs[i], c, key)
    requires forall i :: 0 <= i < |ys| ==> Carries(ys[i], c, key)
    requires ArrivedIn(xs, c) == ArrivedIn(ys, c)
    ensures OfKey(RunBatches(b, xs).delivered, key) == OfKey(RunBatches(b, ys).delivered, key)
    ensures var x, y := RunBatches(b, xs).box, RunBatches(b, ys).box;
            && key in x.live && key in y.live && x.live[key].pts == y.live[key].pts
            && forall u :: u in Buffered(x.live[key]) <==> u in Buffered(y.live[key])
  {
    var m := ReorderingIsInvisible(b, xs, c, key);
    var n := ReorderingIsInvisible(b, ys, c, key);
    assert m == n;
  }
}
