/** What every operation of the update box computes, on values: the entries are a
    map from keys, and each operation is a function of the box and the clock.
    The class in MessageBoxes.dfy is proved to compute these functions. */
module UpdateBox {
  import opened Wrappers
  import opened UpdateDefs
  import opened StableSort

  datatype Box = Box(live: map<Key, LiveEntry>, date: int, seqNo: int,
                     queue: seq<Key>, inFlight: Option<int>, nextDeadline: nat)

  // Entries

  function FreshEntry(key: Key, pts: int, deadline: nat): LiveEntry {
    LiveEntry(key, pts, deadline, None)
  }

  function Min(a: nat, b: nat): nat {
    if b < a then b else a
  }

  ghost predicate IsEarliest(live: map<Key, LiveEntry>, limit: nat, m: nat) {
    && m <= limit
    && (forall k :: k in live ==> m <= live[k].EffectiveDeadline())
    && (m == limit || exists k :: k in live && m == live[k].EffectiveDeadline())
  }

  lemma EarliestExists(live: map<Key, LiveEntry>, limit: nat)
    ensures exists m: nat :: IsEarliest(live, limit, m)
    decreases |live|
  {
    if live == map[] {
      assert IsEarliest(live, limit, limit);
    } else {
      var k :| k in live;
      var rest := live - {k};
      assert rest.Keys == live.Keys - {k};
      assert |rest.Keys| == |live.Keys| - 1;
      EarliestExists(rest, limit);
      var m: nat :| IsEarliest(rest, limit, m);
      assert forall j :: j in live ==> j == k || j in rest;
      assert IsEarliest(live, limit, Min(m, live[k].EffectiveDeadline()));
    }
  }

  /** The earliest of `limit` and all effective deadlines. */
  ghost function Earliest(live: map<Key, LiveEntry>, limit: nat): (m: nat)
    ensures IsEarliest(live, limit, m)
  {
    EarliestExists(live, limit);
    var m: nat :| IsEarliest(live, limit, m);
    m
  }

  function WithEntry(b: Box, e: LiveEntry): Box {
    b.(live := b.live[e.key := e])
  }

  function WithoutGap(b: Box, key: Key): Box {
    if key in b.live then b.(live := b.live[key := b.live[key].(possibleGap := None)]) else b
  }

  function SetPts(b: Box, key: Key, pts: int, now: nat): Box {
    if key in b.live then b.(live := b.live[key := b.live[key].(pts := pts)])
    else b.(live := b.live[key := FreshEntry(key, pts, now + NO_UPDATES_TIMEOUT)])
  }

  ghost function ResetDeadline(b: Box, key: Key, deadline: nat): Box {
    var old_ := if key in b.live then b.live[key].deadline else b.nextDeadline;
    var live := if key in b.live then b.live[key := b.live[key].(deadline := deadline)] else b.live;
    b.(live := live, nextDeadline := if b.nextDeadline == old_ then Earliest(live, deadline) else b.nextDeadline)
  }

  ghost function ResetTimeout(b: Box, key: Key, timeout: Option<nat>, now: nat): Box {
    ResetDeadline(b, key, now + if timeout.Some? then timeout.value else NO_UPDATES_TIMEOUT)
  }

  // The queue of keys that await a difference

  function BeginDiff(b: Box, key: Key): Box {
    if key in b.queue || key !in b.live then b
    else WithoutGap(b, key).(queue := b.queue + [key])
  }

  function RemoveFirst(queue: seq<Key>, key: Key): seq<Key> {
    if queue == [] then []
    else if queue[0] == key then queue[1..]
    else [queue[0]] + RemoveFirst(queue[1..], key)
  }

  ghost function EndDiff(b: Box, key: Key, now: nat): Box {
    if key !in b.queue then b
    else ResetDeadline(b.(queue := RemoveFirst(b.queue, key)), key, now + NO_UPDATES_TIMEOUT)
  }

  predicate StrictlySorted(keys: seq<Key>) {
    forall i, j :: 0 <= i < j < |keys| ==> KeyLess(keys[i], keys[j])
  }

  ghost predicate Lists(q: seq<Key>, keys: set<Key>) {
    StrictlySorted(q) && forall k :: k in q <==> k in keys
  }

  lemma SmallestKey(keys: set<Key>) returns (k: Key)
    requires keys != {}
    ensures k in keys && forall j :: j in keys && j != k ==> KeyLess(k, j)
  {
    var x :| x in keys;
    k := x;
    if keys != {x} {
      var j := SmallestKey(keys - {x});
      k := if KeyLess(j, x) then j else x;
      assert forall y :: y in keys ==> y == x || y in keys - {x};
    } else {
      assert forall y :: y in keys ==> y == x;
    }
  }

  lemma CanBeListed(keys: set<Key>)
    ensures exists q :: Lists(q, keys)
  {
    if keys == {} {
      assert Lists([], keys);
    } else {
      var k := SmallestKey(keys);
      CanBeListed(keys - {k});
      var q :| Lists(q, keys - {k});
      assert Lists([k] + q, keys);
    }
  }

  /** A set of keys has one listing in key order. */
  lemma {:induction false} ListingIsUnique(p: seq<Key>, q: seq<Key>, keys: set<Key>)
    requires Lists(p, keys) && Lists(q, keys)
    ensures p == q
  {
    assert p != [] ==> p[0] in q;
    assert q != [] ==> q[0] in p;
    if p != [] && q != [] {
      assert p[0] == q[0];
      forall x
        ensures x in p[1..] <==> x in keys - {p[0]}
        ensures x in q[1..] <==> x in keys - {p[0]}
      {
        assert x in p <==> x == p[0] || x in p[1..];
        assert x in q <==> x == p[0] || x in q[1..];
      }
      ListingIsUnique(p[1..], q[1..], keys - {p[0]});
    }
  }

  ghost function InKeyOrder(keys: set<Key>): (q: seq<Key>)
    ensures Lists(q, keys)
  {
    CanBeListed(keys);
    var q :| Lists(q, keys);
    q
  }

  // One update

  datatype Drained = Drained(pts: int, delivered: seq<Update>, rest: seq<Update>)

  /** Takes buffered updates from the end as long as they continue the counter. */
  function Drain(pts: int, pending: seq<Update>): Drained
    decreases |pending|
  {
    if pending == [] then Drained(pts, [], [])
    else
      var init, u := pending[..|pending| - 1], pending[|pending| - 1];
      match PtsInfoOf(u)
      case None => Drained(pts, [], pending)  // never buffered
      case Some(info) =>
        if pts + info.count == info.pts then
          var d := Drain(info.pts, init);
          d.(delivered := [u] + d.delivered)
        else if pts + info.count > info.pts then Drain(pts, init)
        else Drained(pts, [], pending)
  }

  datatype Absorbed = Absorbed(entry: LiveEntry, delivered: seq<Update>)

  function Buffer(e: LiveEntry, u: Update, now: nat): LiveEntry {
    var gap := if e.possibleGap.Some? then e.possibleGap.value
               else PossibleGap(now + POSSIBLE_GAP_TIMEOUT, []);
    e.(possibleGap := Some(gap.(updates := gap.updates + [u])))
  }

  function DrainGap(e: LiveEntry): Absorbed {
    match e.possibleGap
    case None => Absorbed(e, [])
    case Some(gap) =>
      var d := Drain(e.pts, Sort(gap.updates, NegatedSortKey));
      Absorbed(e.(pts := d.pts, possibleGap := if d.rest == [] then None else Some(gap.(updates := d.rest))),
               d.delivered)
  }

  function Take(e: LiveEntry, u: Update, info: PtsInfo, now: nat): Absorbed {
    if e.pts + info.count == info.pts then
      Absorbed(e.(pts := info.pts, deadline := now + NO_UPDATES_TIMEOUT), [u])
    else if e.pts + info.count > info.pts then Absorbed(e, [])
    else Absorbed(Buffer(e, u, now), [])
  }

  function Absorb(e: LiveEntry, u: Update, info: PtsInfo, now: nat): Absorbed {
    var first := Take(e, u, info, now);
    var second := DrainGap(first.entry);
    second.(delivered := first.delivered + second.delivered)
  }

  datatype Outcome = Outcome(box: Box, delivered: seq<Update>, unresolved: bool)

  function OpenTooLong(b: Box, u: Update, now: nat): Box
    requires u.ChannelTooLong?
  {
    var key := Channel(u.channelId);
    var b1 := if u.knownPts.Some?
              then WithEntry(b, FreshEntry(key, u.knownPts.value, now + NO_UPDATES_TIMEOUT)) else b;
    BeginDiff(b1, key)
  }

  function EntryFor(b: Box, info: PtsInfo, now: nat): LiveEntry {
    if info.key in b.live then b.live[info.key]
    else FreshEntry(info.key, info.pts - info.count, now + NO_UPDATES_TIMEOUT)
  }

  function Offer(b: Box, u: Update, info: PtsInfo, now: nat): Outcome {
    var a := Absorb(EntryFor(b, info, now), u, info, now);
    var limit := if a.entry.possibleGap.Some? then a.entry.possibleGap.value.deadline
                 else now + NO_UPDATES_TIMEOUT;
    Outcome(b.(live := b.live[info.key := a.entry], nextDeadline := Min(b.nextDeadline, limit)),
            a.delivered, a.entry.possibleGap.Some?)
  }

  ghost function Step(b: Box, now: nat, u: Update): Outcome {
    if u.ChannelTooLong? then Outcome(OpenTooLong(b, u, now), [], false)
    else
      match PtsInfoOf(u)
      case None => Outcome(b, [u], false)
      case Some(info) =>
        if info.key in b.queue then
          Outcome(ResetDeadline(b, info.key, now + NO_UPDATES_TIMEOUT), [u], false)
        else Offer(b, u, info, now)
  }

  ghost function StepAll(b: Box, now: nat, us: seq<Update>): Outcome {
    if us == [] then Outcome(b, [], false)
    else
      var before := StepAll(b, now, us[..|us| - 1]);
      var last := Step(before.box, now, us[|us| - 1]);
      Outcome(last.box, before.delivered + last.delivered, before.unresolved || last.unresolved)
  }

  // One batch

  datatype Processed = Processed(box: Box, result: Result<seq<Update>, Gap>)

  ghost function Apply(b: Box, now: nat, c: Combined): Processed {
    var o := StepAll(b, now, Sort(c.updates, SortKey));
    var box := if o.delivered != [] && !o.unresolved
               then o.box.(date := if c.date == NO_DATE then b.date else c.date,
                           seqNo := if c.seqNo == NO_SEQ then b.seqNo else c.seqNo)
               else o.box;
    Processed(box, Ok(o.delivered))
  }

  ghost function ProcessUpdates(b: Box, now: nat, input: UpdatesLike): Processed {
    match Adapt(input)
    case Err(gap) => Processed(BeginDiff(b, Common), Err(gap))
    case Ok(c) =>
      if c.seqStart != NO_SEQ && b.seqNo + 1 > c.seqStart then Processed(b, Ok([]))
      else if c.seqStart != NO_SEQ && b.seqNo + 1 < c.seqStart then Processed(BeginDiff(b, Common), Err(Gap))
      else Apply(b, now, c)
  }

  // Deadlines and requests

  ghost function Expired(b: Box, now: nat): set<Key> {
    set k | k in b.live && b.live[k].EffectiveDeadline() <= now
  }

  function ClearGaps(live: map<Key, LiveEntry>, keys: set<Key>): map<Key, LiveEntry> {
    map k | k in live :: if k in keys then live[k].(possibleGap := None) else live[k]
  }

  ghost function CheckDeadlines(b: Box, now: nat): Box {
    if b.queue != [] || now < b.nextDeadline then b
    else
      var expired := Expired(b, now);
      if expired == {} then b.(nextDeadline := now + NO_UPDATES_TIMEOUT)
      else b.(queue := InKeyOrder(expired), live := ClearGaps(b.live, expired))
  }

  datatype DifferenceRequest = DifferenceRequest(pts: int, date: int, qts: int)

  function GetDifference(b: Box): Option<DifferenceRequest>
    requires Common in b.queue || Secondary in b.queue ==> Common in b.live
  {
    if Common !in b.queue && Secondary !in b.queue then None
    else Some(DifferenceRequest(b.live[Common].pts,
                                if b.date < 1 then 1 else b.date,
                                if Secondary in b.live then b.live[Secondary].pts else NO_PTS))
  }

  /** The first queued channel other than the one in flight. */
  function NextChannel(queue: seq<Key>, inFlight: Option<int>): Option<int> {
    if queue == [] then None
    else if queue[0].Channel? && inFlight != Some(queue[0].id) then Some(queue[0].id)
    else NextChannel(queue[1..], inFlight)
  }

  function GetChannelDifference(b: Box): Box {
    var next := NextChannel(b.queue, b.inFlight);
    if next.Some? then b.(inFlight := next) else b
  }

  // Answers

  function AccountMessages(d: FullDifference): seq<Update> {
    seq(|d.newMessages|, i requires 0 <= i < |d.newMessages| => CommonUpdate(NO_PTS, 0, d.newMessages[i]))
    + seq(|d.newEncrypted|, i requires 0 <= i < |d.newEncrypted| => QtsUpdate(NO_PTS, d.newEncrypted[i]))
  }

  datatype Answered = Answered(box: Box, delivered: seq<Update>)

  function Bare(us: seq<Update>): UpdatesLike {
    FromSocket(Updates(us, NO_DATE, NO_SEQ))
  }

  function AdoptState(b: Box, s: State, now: nat): Box {
    SetPts(SetPts(b.(date := s.date, seqNo := s.seqNo), Common, s.pts, now), Secondary, s.qts, now)
  }

  ghost function ApplyFull(b: Box, now: nat, d: FullDifference): Answered {
    var p := ProcessUpdates(AdoptState(b, d.state, now), now, Bare(d.otherUpdates));
    Answered(p.box, AccountMessages(d) + p.result.value)
  }

  ghost function Finish(b: Box, now: nat): Box {
    EndDiff(EndDiff(b, Common, now), Secondary, now)
  }

  ghost function ApplyDifference(b: Box, now: nat, d: Difference): Answered {
    if Common !in b.queue && Secondary !in b.queue then Answered(b, [])
    else
      match d
      case DifferenceEmpty(date, seqNo) => Answered(Finish(b.(date := date, seqNo := seqNo), now), [])
      case Difference(full) => var a := ApplyFull(b, now, full); a.(box := Finish(a.box, now))
      case DifferenceSlice(full) => ApplyFull(b, now, full)
      case DifferenceTooLong(pts) => Answered(Finish(SetPts(b, Common, pts, now), now), [])
  }

  ghost function EndChannelDifference(b: Box, now: nat, reason: PrematureEndReason): Box {
    if b.inFlight.None? then b
    else
      var key := Channel(b.inFlight.value);
      var b1 := b.(inFlight := None);
      if key !in b.queue then b1
      else
        var b2 := EndDiff(WithoutGap(b1, key), key, now);
        if reason == Banned then b2.(live := b2.live - {key}) else b2
  }

  function ChannelMessages(d: ChannelDiff): seq<Update> {
    seq(|d.newMessages|, i requires 0 <= i < |d.newMessages| =>
      ChannelUpdate(d.newMessages[i].peer, NO_PTS, 0, d.newMessages[i].body))
  }

  ghost function AdoptAndProcess(b: Box, now: nat, key: Key, d: ChannelDiff): Answered {
    var p := ProcessUpdates(SetPts(b, key, d.pts, now), now, Bare(d.otherUpdates));
    Answered(p.box, ChannelMessages(d) + p.result.value)
  }

  ghost function ApplyChannelDiff(b: Box, now: nat, key: Key, d: ChannelDiff): Answered {
    var a := AdoptAndProcess(if d.isFinal then EndDiff(b, key, now) else b, now, key, d);
    Answered(ResetTimeout(a.box, key, d.timeout, now), a.delivered)
  }

  ghost function ApplyChannelDifference(b: Box, now: nat, d: ChannelDifference): Answered {
    if b.inFlight.None? then Answered(b, [])
    else
      var key := Channel(b.inFlight.value);
      var b1 := b.(inFlight := None);
      if key !in b.queue then Answered(b1, [])
      else
        var b2 := WithoutGap(b1, key);
        match AdaptChannelDifference(d)
        case Err(_) =>
          Answered(EndChannelDifference(b2.(inFlight := b.inFlight), now, TemporaryServerIssues), [])
        case Ok(diff) => ApplyChannelDiff(b2, now, key, diff)
  }

  ghost function AbortDifference(b: Box, now: nat): Box {
    var b1 := EndDiff(WithoutGap(b, Common), Common, now);
    EndDiff(WithoutGap(b1, Secondary), Secondary, now)
  }

  function ForceResetCommonPts(b: Box, now: nat, s: State): Box {
    SetPts(SetPts(b, Common, s.pts, now), Secondary, s.qts, now).(date := s.date, seqNo := s.seqNo)
  }

  // Creation

  function NewBox(now: nat): Box {
    Box(map[], NO_DATE, NO_SEQ, [], None, now + NO_UPDATES_TIMEOUT)
  }

  function SetState(b: Box, now: nat, s: State): Box {
    var deadline := now + NO_UPDATES_TIMEOUT;
    WithEntry(WithEntry(b, FreshEntry(Common, s.pts, deadline)), FreshEntry(Secondary, s.qts, deadline))
    .(date := s.date, seqNo := s.seqNo, nextDeadline := deadline)
  }

  function TrySetChannelState(b: Box, now: nat, id: int, pts: int): Box {
    if Channel(id) in b.live then b
    else WithEntry(b, FreshEntry(Channel(id), pts, now + NO_UPDATES_TIMEOUT))
  }

  predicate DistinctChannels(cs: seq<ChannelState>) {
    forall i, j :: 0 <= i < j < |cs| ==> cs[i].id != cs[j].id
  }

  function LoadedPts(s: Snapshot, cs: set<ChannelState>): map<Key, int>
    requires cs == set c | c in s.channels
    requires DistinctChannels(s.channels)
  {
    (if s.pts != NO_PTS then map[Common := s.pts] else map[])
    + (if s.qts != NO_PTS then map[Secondary := s.qts] else map[])
    + map c | c in cs :: Channel(c.id) := c.pts
  }

  ghost function LoadBox(s: Snapshot, now: nat): Box
    requires DistinctChannels(s.channels)
  {
    var pts := LoadedPts(s, set c | c in s.channels);
    var deadline := now + NO_UPDATES_TIMEOUT;
    var live := map k | k in pts :: FreshEntry(k, pts[k], deadline);
    Box(live, s.date, s.seqNo, InKeyOrder(live.Keys), None, deadline)
  }

  /** `s` lists the counters of `b`, channels by rising id. */
  ghost predicate IsSnapshot(b: Box, s: Snapshot) {
    && s.pts == (if Common in b.live then b.live[Common].pts else NO_PTS)
    && s.qts == (if Secondary in b.live then b.live[Secondary].pts else NO_PTS)
    && s.date == b.date && s.seqNo == b.seqNo
    && RisingIds(s.channels)
    && forall c :: c in s.channels <==> Channel(c.id) in b.live && b.live[Channel(c.id)].pts == c.pts
  }

  predicate RisingIds(cs: seq<ChannelState>) {
    forall i, j :: 0 <= i < j < |cs| ==> cs[i].id < cs[j].id
  }
}
