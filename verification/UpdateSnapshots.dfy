/** Saving and loading the box: a snapshot survives the round trip, and a box comes
    back with the same counters except account counters that stand at the sentinel. */
module UpdateSnapshots {
  import opened UpdateDefs
  import opened UpdateBox

  lemma LoadedCounters(s: Snapshot, key: Key)
    requires DistinctChannels(s.channels)
    ensures var pts := LoadedPts(s, set c | c in s.channels);
            match key
            case Common => (key in pts <==> s.pts != NO_PTS) && (key in pts ==> pts[key] == s.pts)
            case Secondary => (key in pts <==> s.qts != NO_PTS) && (key in pts ==> pts[key] == s.qts)
            case Channel(id) =>
              && (key in pts <==> exists j :: 0 <= j < |s.channels| && s.channels[j].id == id)
              && forall j :: 0 <= j < |s.channels| && s.channels[j].id == id ==> pts[key] == s.channels[j].pts
  {
    assert forall j :: 0 <= j < |s.channels| ==> s.channels[j] in s.channels;
  }

  lemma {:induction false} SameRisingIds(x: seq<ChannelState>, y: seq<ChannelState>)
    requires RisingIds(x) && RisingIds(y) && forall c :: c in x <==> c in y
    ensures x == y
  {
    assert x != [] ==> x[0] in y;
    assert y != [] ==> y[0] in x;
    if x != [] && y != [] {
      assert x[0] == y[0];
      forall c
        ensures c in x[1..] <==> c in y[1..]
      {
        assert c in x <==> c == x[0] || c in x[1..];
        assert c in y <==> c == y[0] || c in y[1..];
      }
      SameRisingIds(x[1..], y[1..]);
    }
  }

  lemma LoadedChannel(s: Snapshot, now: nat, c: ChannelState)
    requires DistinctChannels(s.channels)
    ensures c in s.channels <==> Channel(c.id) in LoadBox(s, now).live && LoadBox(s, now).live[Channel(c.id)].pts == c.pts
  {
    LoadedCounters(s, Channel(c.id));
    if Channel(c.id) in LoadBox(s, now).live {
      var j :| 0 <= j < |s.channels| && s.channels[j].id == c.id;
      assert s.channels[j] in s.channels;
    }
  }

  /** The same snapshot, but for the order of its channels, which rise by id in `saved`. */
  ghost predicate SameButSorted(saved: Snapshot, s: Snapshot) {
    && saved == s.(channels := saved.channels)
    && RisingIds(saved.channels) && forall c :: c in saved.channels <==> c in s.channels
  }

  lemma LoadedAccount(s: Snapshot, now: nat)
    requires DistinctChannels(s.channels)
    ensures var b := LoadBox(s, now);
            && s.pts == (if Common in b.live then b.live[Common].pts else NO_PTS)
            && s.qts == (if Secondary in b.live then b.live[Secondary].pts else NO_PTS)
            && b.date == s.date && b.seqNo == s.seqNo
  {
    LoadedCounters(s, Common);
    LoadedCounters(s, Secondary);
  }

  lemma LoadedChannels(s: Snapshot, now: nat)
    requires DistinctChannels(s.channels)
    ensures var b := LoadBox(s, now);
            forall c :: c in s.channels <==> Channel(c.id) in b.live && b.live[Channel(c.id)].pts == c.pts
  {
    forall c: ChannelState
      ensures var b := LoadBox(s, now); c in s.channels <==> Channel(c.id) in b.live && b.live[Channel(c.id)].pts == c.pts
    {
      LoadedChannel(s, now, c);
    }
  }

  /** Saving right after loading gives the snapshot back with its channels in order, and
      nothing else; one whose channels were in order comes back as it was. */
  lemma LoadThenSave(s: Snapshot, now: nat, saved: Snapshot)
    requires DistinctChannels(s.channels)
    ensures IsSnapshot(LoadBox(s, now), saved) <==> SameButSorted(saved, s)
    ensures RisingIds(s.channels) && IsSnapshot(LoadBox(s, now), saved) ==> saved == s
  {
    LoadedAccount(s, now);
    LoadedChannels(s, now);
    SavedOf(LoadBox(s, now), s, saved);
    if RisingIds(s.channels) && SameButSorted(saved, s) {
      SameRisingIds(saved.channels, s.channels);
    }
  }

  lemma SavedOf(b: Box, s: Snapshot, saved: Snapshot)
    requires s.pts == if Common in b.live then b.live[Common].pts else NO_PTS
    requires s.qts == if Secondary in b.live then b.live[Secondary].pts else NO_PTS
    requires b.date == s.date && b.seqNo == s.seqNo
    requires forall c :: c in s.channels <==> Channel(c.id) in b.live && b.live[Channel(c.id)].pts == c.pts
    ensures IsSnapshot(b, saved) <==> SameButSorted(saved, s)
  {
  }

  /** Loading what was saved restores each counter that is not an account counter at the sentinel. */
  lemma SaveThenLoad(b: Box, s: Snapshot, now: nat, key: Key)
    requires IsSnapshot(b, s)
    ensures var r := LoadBox(s, now);
            && (key in r.live <==> key in b.live && (key.Channel? || b.live[key].pts != NO_PTS))
            && (key in r.live ==> r.live[key].pts == b.live[key].pts)
            && r.date == b.date && r.seqNo == b.seqNo
            && (key in r.queue <==> key in r.live)
  {
    LoadedCounters(s, key);
    if key.Channel? {
      if key in LoadBox(s, now).live {
        var j :| 0 <= j < |s.channels| && s.channels[j].id == key.id;
        assert s.channels[j] in s.channels;
      }
      if key in b.live {
        assert ChannelState(key.id, b.live[key].pts) in s.channels;
      }
    }
  }
}
