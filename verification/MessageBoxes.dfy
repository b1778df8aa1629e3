/** `MessageBoxes` as the source writes it: a list of entries kept sorted by key, a
    queue of keys, counters and a cached deadline, all updated in place. Each method
    is proved to compute its function in UpdateBox.dfy. */
module MessageBoxes {
  import opened Wrappers
  import opened UpdateDefs
  import opened UpdateBox
  import opened UpdateInvariants
  import opened StableSort
  import opened UpdateSnapshots

  ghost predicate Ascending(es: seq<LiveEntry>) {
    forall i, j :: 0 <= i < j < |es| ==> KeyLess(es[i].key, es[j].key)
  }

  ghost function LiveMap(es: seq<LiveEntry>): map<Key, LiveEntry>
    requires Ascending(es)
  {
    map e | e in es :: e.key := e
  }

  lemma LookedUp(es: seq<LiveEntry>, i: nat)
    requires Ascending(es) && i < |es|
    ensures es[i].key in LiveMap(es) && LiveMap(es)[es[i].key] == es[i]
  {
    assert es[i] in es;
  }

  lemma Replaced(es: seq<LiveEntry>, i: nat, e: LiveEntry)
    requires Ascending(es) && i < |es| && e.key == es[i].key
    ensures Ascending(es[i := e]) && LiveMap(es[i := e]) == LiveMap(es)[e.key := e]
  {
    var r := es[i := e];
    assert r[i] in r;
    forall x
      ensures x in r <==> x == e || (x in es && x != es[i])
    {
      if x in es && x != es[i] {
        var j :| 0 <= j < |es| && es[j] == x;
        assert r[j] == x;
      }
    }
    assert es[i] in es;
  }

  lemma Absent(es: seq<LiveEntry>, i: nat, key: Key)
    requires Ascending(es) && i <= |es|
    requires forall j :: 0 <= j < i ==> KeyLess(es[j].key, key)
    requires forall j :: i <= j < |es| ==> KeyLess(key, es[j].key)
    ensures key !in LiveMap(es)
  {
    forall e | e in es
      ensures e.key != key
    {
      var j :| 0 <= j < |es| && es[j] == e;
    }
  }

  lemma Inserted(es: seq<LiveEntry>, i: nat, e: LiveEntry)
    requires Ascending(es) && i <= |es|
    requires forall j :: 0 <= j < i ==> KeyLess(es[j].key, e.key)
    requires forall j :: i <= j < |es| ==> KeyLess(e.key, es[j].key)
    ensures Ascending(es[..i] + [e] + es[i..])
    ensures e.key !in LiveMap(es) && LiveMap(es[..i] + [e] + es[i..]) == LiveMap(es)[e.key := e]
    ensures forall x :: x in es[..i] + [e] + es[i..] <==> x == e || x in es
  {
    var r := es[..i] + [e] + es[i..];
    InsertedAscends(es, i, e);
    Absent(es, i, e.key);
    assert es == es[..i] + es[i..];
    assert forall x :: x in r <==> x == e || x in es;
  }

  lemma InsertedAscends(es: seq<LiveEntry>, i: nat, e: LiveEntry)
    requires Ascending(es) && i <= |es|
    requires forall j :: 0 <= j < i ==> KeyLess(es[j].key, e.key)
    requires forall j :: i <= j < |es| ==> KeyLess(e.key, es[j].key)
    ensures Ascending(es[..i] + [e] + es[i..])
  {
  }

  lemma WithoutOne(es: seq<LiveEntry>, i: nat, x: LiveEntry)
    requires Ascending(es) && i < |es|
    ensures x in es[..i] + es[i + 1..] <==> x in es && x.key != es[i].key
  {
    var r := es[..i] + es[i + 1..];
    if x in es && x.key != es[i].key {
      var j :| 0 <= j < |es| && es[j] == x;
      assert r[if j < i then j else j - 1] == x;
    }
    if x in r {
      var j :| 0 <= j < |r| && r[j] == x;
      assert x == es[if j < i then j else j + 1];
    }
  }

  lemma Removed(es: seq<LiveEntry>, i: nat)
    requires Ascending(es) && i < |es|
    ensures Ascending(es[..i] + es[i + 1..])
    ensures LiveMap(es[..i] + es[i + 1..]) == LiveMap(es) - {es[i].key}
  {
    var r, live := es[..i] + es[i + 1..], LiveMap(es) - {es[i].key};
    forall x
      ensures x in r <==> x.key in live && live[x.key] == x
    {
      WithoutOne(es, i, x);
    }
    RemovedAscends(es, i);
    MapOf(r, live);
  }

  lemma RemovedAscends(es: seq<LiveEntry>, i: nat)
    requires Ascending(es) && i < |es|
    ensures Ascending(es[..i] + es[i + 1..])
  {
  }

  lemma MapOf(es: seq<LiveEntry>, live: map<Key, LiveEntry>)
    requires Ascending(es)
    requires forall e :: e in es <==> e.key in live && live[e.key] == e
    requires forall k :: k in live ==> live[k].key == k
    ensures LiveMap(es) == live
  {
  }

  method InsertEntry(r: seq<LiveEntry>, e: LiveEntry) returns (s: seq<LiveEntry>)
    requires Ascending(r) && forall j :: 0 <= j < |r| ==> r[j].key != e.key
    ensures Ascending(s) && forall x :: x in s <==> x == e || x in r
  {
    var i := |r|;
    while i > 0 && KeyLess(e.key, r[i - 1].key)
      invariant 0 <= i <= |r| && forall j :: i <= j < |r| ==> KeyLess(e.key, r[j].key)
    {
      i := i - 1;
    }
    s := r[..i] + [e] + r[i..];
    Inserted(r, i, e);
  }

  /** Stands for the library sort; keys are distinct. */
  method SortEntries(es: seq<LiveEntry>) returns (r: seq<LiveEntry>)
    requires forall i, j :: 0 <= i < j < |es| ==> es[i].key != es[j].key
    ensures Ascending(r) && forall e :: e in r <==> e in es
  {
    r := [];
    for n := 0 to |es|
      invariant Ascending(r) && forall e :: e in r <==> e in es[..n]
    {
      forall j | 0 <= j < |r|
        ensures r[j].key != es[n].key
      {
        assert r[j] in es[..n];
      }
      r := InsertEntry(r, es[n]);
      assert es[..n + 1] == es[..n] + [es[n]];
    }
    assert es[..|es|] == es;
  }

  class MessageBoxes {
    var entries: seq<LiveEntry>
    var date: int
    var seqNo: int
    var gettingDiffFor: seq<Key>
    var channelDiffInFlight: Option<int>
    var nextDeadline: nat

    ghost predicate Sorted()
      reads this
    {
      Ascending(entries)
    }

    ghost function View(): Box
      reads this
      requires Sorted()
    {
      Box(LiveMap(entries), date, seqNo, gettingDiffFor, channelDiffInFlight, nextDeadline)
    }

    ghost predicate Valid()
      reads this
    {
      Sorted() && Structure(View())
    }

    constructor (now: nat)
      ensures Valid() && View() == NewBox(now)
    {
      entries, date, seqNo := [], NO_DATE, NO_SEQ;
      gettingDiffFor, channelDiffInFlight := [], None;
      nextDeadline := now + NO_UPDATES_TIMEOUT;
    }

    constructor Load(now: nat, state: Snapshot)
      requires DistinctChannels(state.channels)
      ensures Valid() && View() == LoadBox(state, now)
    {
      var deadline := now + NO_UPDATES_TIMEOUT;
      var es: seq<LiveEntry> := [];
      if state.pts != NO_PTS {
        es := es + [LiveEntry(Common, state.pts, deadline, None)];
      }
      if state.qts != NO_PTS {
        es := es + [LiveEntry(Secondary, state.qts, deadline, None)];
      }
      ghost var fixed := es;
      for i := 0 to |state.channels|
        invariant |es| == |fixed| + i && forall j :: 0 <= j < |fixed| ==> es[j] == fixed[j]
        invariant forall j :: |fixed| <= j < |es| ==>
          es[j] == LiveEntry(Channel(state.channels[j - |fixed|].id), state.channels[j - |fixed|].pts, deadline, None)
      {
        es := es + [LiveEntry(Channel(state.channels[i].id), state.channels[i].pts, deadline, None)];
      }
      LoadedKeysDiffer(state, fixed, es, deadline);
      var sorted := SortEntries(es);
      var keys: seq<Key> := [];
      for i := 0 to |sorted|
        invariant |keys| == i && forall j :: 0 <= j < i ==> keys[j] == sorted[j].key
      {
        keys := keys + [sorted[i].key];
      }
      entries, date, seqNo := sorted, state.date, state.seqNo;
      gettingDiffFor, channelDiffInFlight, nextDeadline := keys, None, deadline;
      new;
      LoadedIs(state, now, fixed, es, sorted, keys);
    }

    method BinarySearch(key: Key) returns (found: bool, i: nat)
      requires Sorted()
      ensures found <==> key in LiveMap(entries)
      ensures found ==> i < |entries| && entries[i].key == key && LiveMap(entries)[key] == entries[i]
      ensures !found ==> i <= |entries|
      ensures !found ==> forall j :: 0 <= j < i ==> KeyLess(entries[j].key, key)
      ensures !found ==> forall j :: i <= j < |entries| ==> KeyLess(key, entries[j].key)
    {
      var lo, hi := 0, |entries|;
      while lo < hi
        invariant 0 <= lo <= hi <= |entries|
        invariant forall j :: 0 <= j < lo ==> KeyLess(entries[j].key, key)
        invariant forall j :: hi <= j < |entries| ==> KeyLess(key, entries[j].key)
      {
        var mid := (lo + hi) / 2;
        if entries[mid].key == key {
          LookedUp(entries, mid);
          return true, mid;
        } else if KeyLess(entries[mid].key, key) {
          lo := mid + 1;
        } else {
          hi := mid;
        }
      }
      Absent(entries, lo, key);
      return false, lo;
    }

    method Entry(key: Key) returns (e: Option<LiveEntry>)
      requires Sorted()
      ensures e == if key in View().live then Some(View().live[key]) else None
    {
      var found, i := BinarySearch(key);
      e := if found then Some(entries[i]) else None;
    }

    method UpdateEntry(key: Key, f: LiveEntry -> LiveEntry) returns (found: bool)
      requires Sorted() && forall e :: f(e).key == e.key
      modifies this`entries
      ensures Sorted() && found == (key in old(View().live))
      ensures View() == if found then old(View()).(live := old(View()).live[key := f(old(View()).live[key])])
                        else old(View())
    {
      var i;
      found, i := BinarySearch(key);
      if found {
        Replaced(entries, i, f(entries[i]));
        entries := entries[i := f(entries[i])];
      }
    }

    method SetEntry(e: LiveEntry)
      requires Sorted()
      modifies this`entries
      ensures Sorted() && View() == WithEntry(old(View()), e)
    {
      var found, i := BinarySearch(e.key);
      if found {
        Replaced(entries, i, e);
        entries := entries[i := e];
      } else {
        Inserted(entries, i, e);
        entries := entries[..i] + [e] + entries[i..];
      }
    }

    method SetPts(key: Key, pts: int, now: nat)
      requires Sorted()
      modifies this`entries
      ensures Sorted() && View() == UpdateBox.SetPts(old(View()), key, pts, now)
    {
      var found := UpdateEntry(key, (e: LiveEntry) => e.(pts := pts));
      if !found {
        SetEntry(LiveEntry(key, pts, now + NO_UPDATES_TIMEOUT, None));
      }
    }

    method PopEntry(key: Key)
      requires Sorted()
      modifies this`entries
      ensures Sorted() && View() == old(View()).(live := old(View()).live - {key})
    {
      var found, i := BinarySearch(key);
      if found {
        Removed(entries, i);
        entries := entries[..i] + entries[i + 1..];
      }
    }

    method DropGap(key: Key) returns (found: bool)
      requires Sorted()
      modifies this`entries
      ensures Sorted() && View() == WithoutGap(old(View()), key) && found == (key in old(View().live))
    {
      found := UpdateEntry(key, (e: LiveEntry) => e.(possibleGap := None));
    }

    method ResetDeadline(key: Key, deadline: nat)
      requires Sorted()
      modifies this`entries, this`nextDeadline
      ensures Sorted() && View() == UpdateBox.ResetDeadline(old(View()), key, deadline)
    {
      var oldDeadline := nextDeadline;
      var e := Entry(key);
      if e.Some? {
        oldDeadline := e.value.deadline;
        var _ := UpdateEntry(key, (e: LiveEntry) => e.(deadline := deadline));
      }
      if nextDeadline == oldDeadline {
        nextDeadline := LeastDeadline(deadline);
      }
    }

    method LeastDeadline(limit: nat) returns (least: nat)
      requires Sorted()
      ensures least == Earliest(View().live, limit)
    {
      least := limit;
      for i := 0 to |entries|
        invariant least <= limit && forall j :: 0 <= j < i ==> least <= entries[j].EffectiveDeadline()
        invariant least == limit || exists j :: 0 <= j < i && least == entries[j].EffectiveDeadline()
      {
        least := Min(least, entries[i].EffectiveDeadline());
      }
      LeastIsEarliest(entries, limit, least);
    }

    method ResetTimeout(key: Key, timeout: Option<nat>, now: nat)
      requires Valid()
      modifies this`entries, this`nextDeadline
      ensures Valid()
      ensures View() == UpdateBox.ResetTimeout(old(View()), key, timeout, now)
    {
      var deadline := now + if timeout.Some? then timeout.value else NO_UPDATES_TIMEOUT;
      ResetKeepsStructure(View(), key, deadline);
      ResetDeadline(key, deadline);
    }

    method TryBeginGetDiff(key: Key)
      requires Sorted()
      modifies this`entries, this`gettingDiffFor
      ensures Sorted() && View() == BeginDiff(old(View()), key)
    {
      if key !in gettingDiffFor {
        var found := DropGap(key);
        if found {
          gettingDiffFor := gettingDiffFor + [key];
        }
      }
    }

    method TryEndGetDiff(key: Key, now: nat)
      requires Valid()
      modifies this`entries, this`gettingDiffFor, this`nextDeadline
      ensures Valid() && View() == EndDiff(old(View()), key, now)
    {
      EndDiffKeeps(View(), key, now);
      var i := 0;
      while i < |gettingDiffFor| && gettingDiffFor[i] != key
        invariant i <= |gettingDiffFor| && forall j :: 0 <= j < i ==> gettingDiffFor[j] != key
      {
        i := i + 1;
      }
      if i == |gettingDiffFor| {
        return;
      }
      RemovedAt(gettingDiffFor, i, key);
      gettingDiffFor := gettingDiffFor[..i] + gettingDiffFor[i + 1..];
      ResetDeadline(key, now + NO_UPDATES_TIMEOUT);
      // "gaps shouldn't be created while getting difference"
      assert key in View().live ==> View().live[key].possibleGap.None?;
    }

    method IsEmpty() returns (empty: bool)
      requires Sorted()
      ensures empty <==> View().live == map[]
    {
      empty := entries == [];
      if !empty {
        LookedUp(entries, 0);
      }
    }

    method SetState(state: State, now: nat)
      requires Valid() && View().live == map[]
      modifies this
      ensures Valid() && View() == UpdateBox.SetState(old(View()), now, state)
    {
      DoKeepsStructure(View(), now, Login(state));
      var deadline := now + NO_UPDATES_TIMEOUT;
      SetAccountEntries(state, deadline);
      date, seqNo, nextDeadline := state.date, state.seqNo, deadline;
    }

    method SetAccountEntries(state: State, deadline: nat)
      requires Sorted()
      modifies this`entries
      ensures Sorted()
      ensures View() == WithEntry(WithEntry(old(View()), FreshEntry(Common, state.pts, deadline)),
                                  FreshEntry(Secondary, state.qts, deadline))
    {
      SetEntry(LiveEntry(Common, state.pts, deadline, None));
      SetEntry(LiveEntry(Secondary, state.qts, deadline, None));
    }

    method TrySetChannelState(id: int, pts: int, now: nat)
      requires Valid()
      modifies this`entries
      ensures Valid() && View() == UpdateBox.TrySetChannelState(old(View()), now, id, pts)
    {
      var e := Entry(Channel(id));
      if e.None? {
        SetEntry(LiveEntry(Channel(id), pts, now + NO_UPDATES_TIMEOUT, None));
      }
    }

    method SessionState() returns (s: Snapshot)
      requires Valid()
      ensures IsSnapshot(View(), s)
    {
      var common := Entry(Common);
      var secondary := Entry(Secondary);
      var channels := ChannelStates();
      s := Snapshot(if common.Some? then common.value.pts else NO_PTS,
                    if secondary.Some? then secondary.value.pts else NO_PTS, date, seqNo, channels);
      SnapshotOfEntries(entries, channels);
    }

    /** The channels among the entries, in the order they stand. */
    method ChannelStates() returns (channels: seq<ChannelState>)
      requires Valid()
      ensures forall c :: c in channels <==>
                exists j :: 0 <= j < |entries| && entries[j].key == Channel(c.id) && entries[j].pts == c.pts
      ensures RisingIds(channels)
    {
      channels := [];
      for i := 0 to |entries|
        invariant forall c :: c in channels <==> exists j :: 0 <= j < i && entries[j].key == Channel(c.id) && entries[j].pts == c.pts
        invariant forall j, k :: 0 <= j < |channels| && i <= k < |entries| ==> KeyLess(Channel(channels[j].id), entries[k].key)
        invariant forall j, k :: 0 <= j < k < |channels| ==> channels[j].id < channels[k].id
      {
        var e := entries[i];
        if e.key.Channel? {
          channels := channels + [ChannelState(e.key.id, e.pts)];
        }
      }
    }

    method CheckDeadlines(now: nat) returns (wake: nat)
      requires Valid()
      modifies this`entries, this`gettingDiffFor, this`nextDeadline
      ensures Valid() && View() == UpdateBox.CheckDeadlines(old(View()), now)
      ensures wake == if old(gettingDiffFor) != [] then now else nextDeadline
    {
      CheckKeepsStructure(View(), now);
      if gettingDiffFor != [] {
        return now;
      }
      if nextDeadline <= now {
        ForceExpired(now);
        if gettingDiffFor == [] {
          nextDeadline := now + NO_UPDATES_TIMEOUT;
        }
      }
      return nextDeadline;
    }

    /** Queues every expired key and drops the gaps of the queued ones. */
    method ForceExpired(now: nat)
      requires Sorted() && gettingDiffFor == []
      modifies this`entries, this`gettingDiffFor
      ensures Sorted()
      ensures gettingDiffFor == [] <==> Expired(old(View()), now) == {}
      ensures var b, expired := old(View()), Expired(old(View()), now);
              View() == if expired == {} then b
                        else b.(queue := InKeyOrder(expired), live := ClearGaps(b.live, expired))
    {
      ghost var b := View();
      QueueExpired(now);
      ClearQueuedGaps();
      assert KeysOf(gettingDiffFor) == Expired(b, now);
      assert ClearGaps(b.live, {}) == b.live;
      assert gettingDiffFor != [] ==> gettingDiffFor[0] in Expired(b, now);
    }

    method QueueExpired(now: nat)
      requires Sorted() && gettingDiffFor == []
      modifies this`gettingDiffFor
      ensures Sorted() && gettingDiffFor == InKeyOrder(Expired(old(View()), now))
    {
      for i := 0 to |entries|
        invariant forall k :: k in gettingDiffFor <==>
          exists j :: 0 <= j < i && entries[j].key == k && entries[j].EffectiveDeadline() <= now
        invariant forall j, k :: 0 <= j < |gettingDiffFor| && i <= k < |entries| ==> KeyLess(gettingDiffFor[j], entries[k].key)
        invariant StrictlySorted(gettingDiffFor)
      {
        ghost var before := gettingDiffFor;
        if entries[i].EffectiveDeadline() <= now {
          gettingDiffFor := gettingDiffFor + [entries[i].key];
        }
        assert forall k :: k in gettingDiffFor
                           <==> k in before || (k == entries[i].key && entries[i].EffectiveDeadline() <= now);
      }
      ExpiredAreListed(entries, gettingDiffFor, old(View()), now);
    }

    method ClearQueuedGaps()
      requires Sorted()
      modifies this`entries
      ensures Sorted()
      ensures View() == old(View()).(live := ClearGaps(old(View()).live, KeysOf(gettingDiffFor)))
    {
      ghost var b := View();
      assert ClearGaps(b.live, {}) == b.live;
      for i := 0 to |gettingDiffFor|
        invariant Sorted() && View() == b.(live := ClearGaps(b.live, KeysOf(gettingDiffFor[..i])))
      {
        assert gettingDiffFor[..i + 1] == gettingDiffFor[..i] + [gettingDiffFor[i]];
        ClearOneMore(b, gettingDiffFor[..i], gettingDiffFor[i]);
        var _ := DropGap(gettingDiffFor[i]);
      }
      assert gettingDiffFor[..|gettingDiffFor|] == gettingDiffFor;
    }

    method GetDifference() returns (request: Option<DifferenceRequest>)
      requires Valid() && (Common in gettingDiffFor || Secondary in gettingDiffFor ==> Common in View().live)
      ensures request == UpdateBox.GetDifference(View())
    {
      if Common !in gettingDiffFor && Secondary !in gettingDiffFor {
        return None;
      }
      var common := Entry(Common);
      var secondary := Entry(Secondary);
      return Some(DifferenceRequest(common.value.pts, if date < 1 then 1 else date,
                                    if secondary.Some? then secondary.value.pts else NO_PTS));
    }

    method GetChannelDifference() returns (request: Option<ChannelState>)
      requires Valid()
      modifies this`channelDiffInFlight
      ensures Valid() && View() == UpdateBox.GetChannelDifference(old(View()))
      ensures request.None? <==> NextChannel(gettingDiffFor, old(channelDiffInFlight)).None?
      ensures request.Some? ==>
                var key := Channel(request.value.id);
                && channelDiffInFlight == Some(request.value.id)
                && key in gettingDiffFor && key in View().live && request.value.pts == View().live[key].pts
    {
      var i := 0;
      while i < |gettingDiffFor| && !(gettingDiffFor[i].Channel? && channelDiffInFlight != Some(gettingDiffFor[i].id))
        invariant i <= |gettingDiffFor|
        invariant NextChannel(gettingDiffFor, channelDiffInFlight) == NextChannel(gettingDiffFor[i..], channelDiffInFlight)
      {
        i := i + 1;
      }
      if i == |gettingDiffFor| {
        return None;
      }
      var id := gettingDiffFor[i].id;
      var e := Entry(gettingDiffFor[i]);
      channelDiffInFlight := Some(id);
      return Some(ChannelState(id, e.value.pts));
    }

    // Normal update flow

    /** Buffers, applies or drops one update of an entry, then drains the entry's buffer. */
    static method AbsorbUpdate(entry: LiveEntry, u: Update, info: PtsInfo, now: nat)
      returns (e: LiveEntry, result: seq<Update>)
      requires GapFits(entry) && Bears(u, entry.key) && PtsInfoOf(u) == Some(info)
      ensures Absorbed(e, result) == Absorb(entry, u, info, now)
    {
      e, result := entry, [];
      if e.pts + info.count == info.pts {
        e := e.(pts := info.pts, deadline := now + NO_UPDATES_TIMEOUT);
        result := result + [u];
      } else if e.pts + info.count < info.pts {
        var gap := if e.possibleGap.Some? then e.possibleGap.value
                   else PossibleGap(now + POSSIBLE_GAP_TIMEOUT, []);
        e := e.(possibleGap := Some(gap.(updates := gap.updates + [u])));
      }
      assert Absorbed(e, result) == Take(entry, u, info, now);
      TakeFits(entry, u, info, now);
      if e.possibleGap.Some? {
        var gap := e.possibleGap.value;
        SameElements(gap.updates, NegatedSortKey);
        var pts, drained, rest := DrainBuffer(e.pts, Sort(gap.updates, NegatedSortKey), info.key);
        e := e.(pts := pts, possibleGap := if rest == [] then None else Some(gap.(updates := rest)));
        result := result + drained;
      }
    }

    method OfferUpdate(u: Update, info: PtsInfo, now: nat) returns (result: seq<Update>, unresolved: bool)
      requires Valid() && Bears(u, info.key) && PtsInfoOf(u) == Some(info)
      modifies this`entries, this`nextDeadline
      ensures Sorted()
      ensures Outcome(View(), result, unresolved) == Offer(old(View()), u, info, now)
    {
      AbsorbFits(EntryFor(View(), info, now), u, info, now);
      var deadline := now + NO_UPDATES_TIMEOUT;
      var found := Entry(info.key);
      var e := if found.Some? then found.value else LiveEntry(info.key, info.pts - info.count, deadline, None);
      e, result := AbsorbUpdate(e, u, info, now);
      SetEntry(e);
      unresolved := e.possibleGap.Some?;
      nextDeadline := Min(nextDeadline, if unresolved then e.possibleGap.value.deadline else deadline);
    }

    static method DrainBuffer(from: int, sorted: seq<Update>, ghost key: Key)
      returns (pts: int, drained: seq<Update>, rest: seq<Update>)
      requires forall u :: u in sorted ==> Bears(u, key)
      ensures Drained(pts, drained, rest) == Drain(from, sorted)
    {
      pts, drained, rest := from, [], sorted;
      while rest != []
        invariant forall u :: u in rest ==> Bears(u, key)
        invariant Drain(from, sorted) == Drain(pts, rest).(delivered := drained + Drain(pts, rest).delivered)
        decreases |rest|
      {
        var u := rest[|rest| - 1];
        assert u in rest;
        var info := PtsInfoOf(u).value;
        if pts + info.count < info.pts {
          return;
        }
        if pts + info.count == info.pts {
          pts, drained := info.pts, drained + [u];
        }
        rest := rest[..|rest| - 1];
      }
    }

    method ProcessOne(u: Update, now: nat) returns (result: seq<Update>, unresolved: bool)
      requires Valid()
      modifies this`entries, this`gettingDiffFor, this`nextDeadline
      ensures Valid()
      ensures Outcome(View(), result, unresolved) == Step(old(View()), now, u)
    {
      StepKeepsStructure(View(), now, u);
      var deadline := now + NO_UPDATES_TIMEOUT;
      if u.ChannelTooLong? {
        var key := Channel(u.channelId);
        if u.knownPts.Some? {
          SetEntry(LiveEntry(key, u.knownPts.value, deadline, None));
        }
        TryBeginGetDiff(key);
        return [], false;
      }
      var info := PtsInfoOf(u);
      if info.None? {
        return [u], false;
      }
      if info.value.key in gettingDiffFor {
        ResetDeadline(info.value.key, deadline);
        return [u], false;
      }
      result, unresolved := OfferUpdate(u, info.value, now);
    }

    method ProcessUpdates(input: UpdatesLike, now: nat) returns (r: Result<seq<Update>, Gap>)
      requires Valid()
      modifies this
      ensures Valid()
      ensures Processed(View(), r) == UpdateBox.ProcessUpdates(old(View()), now, input)
    {
      ProcessKeepsStructure(View(), now, input);
      var adapted := Adapt(input);
      if adapted.Err? {
        TryBeginGetDiff(Common);
        return Err(adapted.error);
      }
      var c := adapted.value;
      if c.seqStart != NO_SEQ {
        if seqNo + 1 > c.seqStart {
          return Ok([]);
        }
        if seqNo + 1 < c.seqStart {
          TryBeginGetDiff(Common);
          return Err(Gap);
        }
      }
      r := ApplyBatch(c, now);
    }

    method ApplyBatch(c: Combined, now: nat) returns (r: Result<seq<Update>, Gap>)
      requires Valid()
      modifies this
      ensures Valid()
      ensures Processed(View(), r) == Apply(old(View()), now, c)
    {
      ghost var b := View();
      var newDate := if c.date == NO_DATE then date else c.date;
      var newSeq := if c.seqNo == NO_SEQ then seqNo else c.seqNo;
      var updates := Sort(c.updates, SortKey);
      var result: seq<Update> := [];
      var haveUnresolvedGaps := false;
      for i := 0 to |updates|
        invariant Valid()
        invariant Outcome(View(), result, haveUnresolvedGaps) == StepAll(b, now, updates[..i])
      {
        var out, unresolved := ProcessOne(updates[i], now);
        result, haveUnresolvedGaps := result + out, haveUnresolvedGaps || unresolved;
        assert updates[..i + 1][..i] == updates[..i];
      }
      assert updates[..|updates|] == updates;
      if result != [] && !haveUnresolvedGaps {
        date, seqNo := newDate, newSeq;
      }
      return Ok(result);
    }

    // Applying answers

    method ApplyDifference(d: Difference, now: nat) returns (result: seq<Update>)
      requires Valid()
      modifies this
      ensures Valid() && Answered(View(), result) == UpdateBox.ApplyDifference(old(View()), now, d)
    {
      if Common !in gettingDiffFor && Secondary !in gettingDiffFor {
        return [];
      }
      var finish := true;
      match d {
        case DifferenceEmpty(newDate, newSeq) =>
          date, seqNo := newDate, newSeq;
          result := [];
        case Difference(full) =>
          result := ApplyDifferenceType(full, now);
        case DifferenceSlice(full) =>
          finish := false;
          result := ApplyDifferenceType(full, now);
        case DifferenceTooLong(pts) =>
          SetPts(Common, pts, now);
          result := [];
      }
      if finish {
        FinishDifference(now);
      }
    }

    method FinishDifference(now: nat)
      requires Valid()
      modifies this
      ensures Valid() && View() == Finish(old(View()), now)
    {
      TryEndGetDiff(Common, now);
      TryEndGetDiff(Secondary, now);
    }

    /** Takes over the server's account counters, date and sequence number. */
    method Adopt(s: State, now: nat)
      requires Valid()
      modifies this
      ensures Valid() && View() == AdoptState(old(View()), s, now)
    {
      AdoptStateKeepsStructure(View(), s, now);
      date, seqNo := s.date, s.seqNo;
      SetPts(Common, s.pts, now);
      SetPts(Secondary, s.qts, now);
    }

    method ApplyDifferenceType(d: FullDifference, now: nat) returns (result: seq<Update>)
      requires Valid()
      modifies this
      ensures Valid() && Answered(View(), result) == ApplyFull(old(View()), now, d)
    {
      Adopt(d.state, now);
      var r := ProcessUpdates(Bare(d.otherUpdates), now);
      result := AccountMessages(d) + r.value;
    }

    method ApplyChannelDifference(d: ChannelDifference, now: nat) returns (result: seq<Update>)
      requires Valid()
      modifies this
      ensures Valid() && Answered(View(), result) == UpdateBox.ApplyChannelDifference(old(View()), now, d)
    {
      if channelDiffInFlight.None? {
        return [];
      }
      var id := channelDiffInFlight.value;
      channelDiffInFlight := None;
      var key := Channel(id);
      if key !in gettingDiffFor {
        return [];
      }
      var _ := DropGap(key);
      var adapted := AdaptChannelDifference(d);
      if adapted.Err? {
        channelDiffInFlight := Some(id);
        EndChannelDifference(TemporaryServerIssues, now);
        return [];
      }
      result := ApplyChannelDiff(key, adapted.value, now);
    }

    method ApplyChannelDiff(key: Key, diff: ChannelDiff, now: nat) returns (result: seq<Update>)
      requires Valid()
      modifies this
      ensures Valid() && Answered(View(), result) == UpdateBox.ApplyChannelDiff(old(View()), now, key, diff)
    {
      result := EndAndProcess(key, diff, now);
      ResetTimeout(key, diff.timeout, now);
    }

    method EndAndProcess(key: Key, diff: ChannelDiff, now: nat) returns (result: seq<Update>)
      requires Valid()
      modifies this
      ensures Valid()
      ensures Answered(View(), result) == UpdateBox.AdoptAndProcess(
                if diff.isFinal then EndDiff(old(View()), key, now) else old(View()), now, key, diff)
    {
      if diff.isFinal {
        TryEndGetDiff(key, now);
      }
      result := AdoptAndProcess(key, diff, now);
    }

    method AdoptAndProcess(key: Key, diff: ChannelDiff, now: nat) returns (result: seq<Update>)
      requires Valid()
      modifies this
      ensures Valid() && Answered(View(), result) == UpdateBox.AdoptAndProcess(old(View()), now, key, diff)
    {
      SetPtsKeepsStructure(View(), key, diff.pts, now);
      SetPts(key, diff.pts, now);
      var r := ProcessUpdates(Bare(diff.otherUpdates), now);
      result := ChannelMessages(diff) + r.value;
    }

    method AbortDifference(now: nat)
      requires Valid()
      modifies this
      ensures Valid() && View() == UpdateBox.AbortDifference(old(View()), now)
    {
      var _ := DropGap(Common);
      TryEndGetDiff(Common, now);
      var _ := DropGap(Secondary);
      TryEndGetDiff(Secondary, now);
    }

    method ForceResetCommonPts(s: State, now: nat)
      requires Valid()
      modifies this
      ensures Valid() && View() == UpdateBox.ForceResetCommonPts(old(View()), now, s)
    {
      SetPts(Common, s.pts, now);
      SetPts(Secondary, s.qts, now);
      date, seqNo := s.date, s.seqNo;
    }

    method EndChannelDifference(reason: PrematureEndReason, now: nat)
      requires Valid()
      modifies this
      ensures Valid() && View() == UpdateBox.EndChannelDifference(old(View()), now, reason)
    {
      EndChannelKeepsStructure(View(), now, reason);
      if channelDiffInFlight.None? {
        return;
      }
      var key := Channel(channelDiffInFlight.value);
      channelDiffInFlight := None;
      if key !in gettingDiffFor {
        return;
      }
      var _ := DropGap(key);
      TryEndGetDiff(key, now);
      if reason == Banned {
        PopEntry(key);
      }
    }
  }

  // Facts the methods use

  ghost function KeysOf(q: seq<Key>): set<Key> {
    set k | k in q
  }

  lemma ClearOneMore(b: Box, q: seq<Key>, key: Key)
    ensures WithoutGap(b.(live := ClearGaps(b.live, KeysOf(q))), key)
            == b.(live := ClearGaps(b.live, KeysOf(q + [key])))
  {
    assert KeysOf(q + [key]) == KeysOf(q) + {key};
  }

  lemma LeastIsEarliest(es: seq<LiveEntry>, limit: nat, m: nat)
    requires Ascending(es) && m <= limit
    requires forall j :: 0 <= j < |es| ==> m <= es[j].EffectiveDeadline()
    requires m == limit || exists j :: 0 <= j < |es| && m == es[j].EffectiveDeadline()
    ensures m == Earliest(LiveMap(es), limit)
  {
    var live := LiveMap(es);
    assert IsEarliest(live, limit, m) by {
      if m != limit {
        var j :| 0 <= j < |es| && m == es[j].EffectiveDeadline();
        LookedUp(es, j);
      }
    }
  }

  lemma RemovedAt(q: seq<Key>, i: nat, key: Key)
    requires i < |q| && q[i] == key && forall j :: 0 <= j < i ==> q[j] != key
    ensures RemoveFirst(q, key) == q[..i] + q[i + 1..]
  {
    if i > 0 {
      RemovedAt(q[1..], i - 1, key);
      assert q[..i] + q[i + 1..] == [q[0]] + (q[1..][..i - 1] + q[1..][i..]);
    }
  }

  lemma ExpiredAreListed(es: seq<LiveEntry>, q: seq<Key>, b: Box, now: nat)
    requires Ascending(es) && b.live == LiveMap(es) && StrictlySorted(q)
    requires forall k :: k in q <==> exists j :: 0 <= j < |es| && es[j].key == k && es[j].EffectiveDeadline() <= now
    ensures q == InKeyOrder(Expired(b, now))
  {
    forall k
      ensures k in q <==> k in Expired(b, now)
    {
      if k in q {
        var j :| 0 <= j < |es| && es[j].key == k && es[j].EffectiveDeadline() <= now;
        LookedUp(es, j);
      }
      if k in Expired(b, now) {
        var j :| 0 <= j < |es| && es[j] == b.live[k];
      }
    }
    ListingIsUnique(q, InKeyOrder(Expired(b, now)), Expired(b, now));
  }

  lemma SnapshotOfEntries(es: seq<LiveEntry>, channels: seq<ChannelState>)
    requires Ascending(es)
    requires forall c :: c in channels <==> exists j :: 0 <= j < |es| && es[j].key == Channel(c.id) && es[j].pts == c.pts
    ensures forall c :: c in channels <==> Channel(c.id) in LiveMap(es) && LiveMap(es)[Channel(c.id)].pts == c.pts
  {
    forall c
      ensures c in channels <==> Channel(c.id) in LiveMap(es) && LiveMap(es)[Channel(c.id)].pts == c.pts
    {
      if c in channels {
        var j :| 0 <= j < |es| && es[j].key == Channel(c.id) && es[j].pts == c.pts;
        LookedUp(es, j);
      }
      if Channel(c.id) in LiveMap(es) {
        var j :| 0 <= j < |es| && es[j] == LiveMap(es)[Channel(c.id)];
      }
    }
  }

  /** `es` holds the entries of a snapshot in the order they are pushed. */
  ghost predicate Pushed(s: Snapshot, fixed: seq<LiveEntry>, es: seq<LiveEntry>, deadline: nat) {
    && fixed == (if s.pts != NO_PTS then [LiveEntry(Common, s.pts, deadline, None)] else [])
                + (if s.qts != NO_PTS then [LiveEntry(Secondary, s.qts, deadline, None)] else [])
    && |es| == |fixed| + |s.channels|
    && (forall j :: 0 <= j < |fixed| ==> es[j] == fixed[j])
    && forall j :: |fixed| <= j < |es| ==>
         es[j] == LiveEntry(Channel(s.channels[j - |fixed|].id), s.channels[j - |fixed|].pts, deadline, None)
  }

  lemma LoadedKeysDiffer(s: Snapshot, fixed: seq<LiveEntry>, es: seq<LiveEntry>, deadline: nat)
    requires DistinctChannels(s.channels) && Pushed(s, fixed, es, deadline)
    ensures forall i, j :: 0 <= i < j < |es| ==> es[i].key != es[j].key
  {
  }

  lemma LoadedEntries(s: Snapshot, now: nat, fixed: seq<LiveEntry>, es: seq<LiveEntry>)
    requires DistinctChannels(s.channels) && Pushed(s, fixed, es, now + NO_UPDATES_TIMEOUT)
    ensures forall e :: e in es <==> e.key in LoadBox(s, now).live && LoadBox(s, now).live[e.key] == e
  {
    var live := LoadBox(s, now).live;
    forall e
      ensures e in es ==> e.key in live && live[e.key] == e
      ensures e.key in live && live[e.key] == e ==> e in es
    {
      LoadedCounters(s, e.key);
      if e in es {
        var j :| 0 <= j < |es| && es[j] == e;
        if j >= |fixed| {
          assert s.channels[j - |fixed|].id == e.key.id;
        }
      }
      if e.key in live && live[e.key] == e {
        match e.key
        case Common => assert fixed[0] == e && es[0] == e;
        case Secondary => assert fixed[|fixed| - 1] == e && es[|fixed| - 1] == e;
        case Channel(id) =>
          var j :| 0 <= j < |s.channels| && s.channels[j].id == id;
          assert es[|fixed| + j] == e;
      }
    }
  }

  lemma LoadedIs(s: Snapshot, now: nat, fixed: seq<LiveEntry>, es: seq<LiveEntry>, sorted: seq<LiveEntry>, keys: seq<Key>)
    requires DistinctChannels(s.channels) && Pushed(s, fixed, es, now + NO_UPDATES_TIMEOUT)
    requires Ascending(sorted) && forall e :: e in sorted <==> e in es
    requires |keys| == |sorted| && forall j :: 0 <= j < |keys| ==> keys[j] == sorted[j].key
    ensures LiveMap(sorted) == LoadBox(s, now).live && keys == LoadBox(s, now).queue
    ensures Structure(LoadBox(s, now))
  {
    var live := LoadBox(s, now).live;
    LoadedEntries(s, now, fixed, es);
    MapOf(sorted, live);
    KeysAreListed(sorted, keys);
    LoadedStructure(s, now);
  }

  lemma LoadedStructure(s: Snapshot, now: nat)
    requires DistinctChannels(s.channels)
    ensures Structure(LoadBox(s, now))
  {
    var q := LoadBox(s, now).queue;
    assert forall i, j :: 0 <= i < j < |q| ==> KeyLess(q[i], q[j]);
  }

  lemma KeysAreListed(sorted: seq<LiveEntry>, keys: seq<Key>)
    requires Ascending(sorted) && |keys| == |sorted| && forall j :: 0 <= j < |keys| ==> keys[j] == sorted[j].key
    ensures keys == InKeyOrder(LiveMap(sorted).Keys)
  {
    var live := LiveMap(sorted);
    forall k
      ensures k in keys <==> k in live.Keys
    {
      if k in keys {
        var j :| 0 <= j < |keys| && keys[j] == k;
        assert sorted[j] in sorted;
      }
      if k in live {
        var j :| 0 <= j < |sorted| && sorted[j] == live[k];
        assert keys[j] == k;
      }
    }
    ListingIsUnique(keys, InKeyOrder(live.Keys), live.Keys);
  }
}
