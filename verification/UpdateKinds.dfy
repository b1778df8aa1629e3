/** Which counter each kind of update and each reply to an own action moves, and by how
    much: one update by itself, on a counter that holds nothing back. */
module UpdateKinds {
  import opened Wrappers
  import opened UpdateDefs
  import opened UpdateBox
  import opened UpdateInvariants
  import opened UpdateDelivery
  import opened UpdateReordering
  import opened StableSort

  /** `u` takes the counter of `key` from `from` to `to`. */
  predicate Moves(u: Update, key: Key, from: int, to: int) {
    match u
    case CommonUpdate(pts, count, _) => key == Common && from == pts - count && to == pts
    case ChannelUpdate(Some(id), pts, count, _) => key == Channel(id) && from == pts - count && to == pts
    case ReadChannelInbox(id, pts, _) => key == Channel(id) && from == to == pts
    case QtsUpdate(qts, _) => key == Secondary && from == qts - 1 && to == qts
    case _ => false
  }

  /** The reply or short container stands for one update that does so. */
  predicate InputMoves(input: UpdatesLike, key: Key, from: int, to: int) {
    match input
    case FromSocket(Short(u, _)) => Moves(u, key, from, to)
    case FromSocket(ShortMessage(pts, count, _, _)) => key == Common && from == pts - count && to == pts
    case AffectedMessages(pts, count) => key == Common && from == pts - count && to == pts
    case AffectedChannelMessages(pts, count, id) => key == Channel(id) && from == pts - count && to == pts
    case SentMessage(pts, count, _, _) => key == Common && from == pts - count && to == pts
    case _ => false
  }

  /** The box with one entry changed. */
  ghost predicate OnlyEntry(b: Box, r: Box, key: Key) {
    && key in r.live && r.live.Keys == b.live.Keys + {key}
    && (forall k :: k in b.live && k != key ==> r.live[k] == b.live[k])
    && r.queue == b.queue && r.inFlight == b.inFlight && r.seqNo == b.seqNo
  }

  /** One update that moves `key` from `from` to `to`: at `from`, and for a counter not
      known yet, it comes out and moves the counter; above it is a duplicate; below, it is
      held back. */
  ghost predicate Settled(b: Box, key: Key, from: int, to: int, delivered: seq<Update>, u: Update, r: Box) {
    && OnlyEntry(b, r, key)
    && if key !in b.live || b.live[key].pts == from then
         delivered == [u] && r.live[key].pts == to && r.live[key].possibleGap.None?
       else
         delivered == [] && r.live[key].pts == b.live[key].pts
         && Buffered(r.live[key]) == if b.live[key].pts > from then [] else [u]
  }

  predicate Free(b: Box, key: Key) {
    key !in b.queue && (key in b.live ==> b.live[key].possibleGap.None?)
  }

  lemma OneHeldBack(e: LiveEntry, u: Update)
    requires e.possibleGap.Some? && e.possibleGap.value.updates == [u] && PtsInfoOf(u).Some? && e.pts < SortKey(u)
    ensures DrainGap(e) == Absorbed(e, [])
  {
    assert [u][..0] == [];
    assert Sort([u], NegatedSortKey) == [u];
  }

  lemma OneAbsorbed(e: LiveEntry, u: Update, info: PtsInfo, now: nat)
    requires PtsInfoOf(u) == Some(info) && e.possibleGap.None?
    ensures var a, from := Absorb(e, u, info, now), info.pts - info.count;
            && a.entry.key == e.key
            && (e.pts == from ==> a.delivered == [u] && a.entry.pts == info.pts && a.entry.possibleGap.None?)
            && (e.pts > from ==> a.delivered == [] && a.entry == e)
            && (e.pts < from ==> a.delivered == [] && a.entry.pts == e.pts && Buffered(a.entry) == [u])
  {
    var first := Take(e, u, info, now);
    assert [u] + [] == [u];
    if e.pts < info.pts - info.count {
      assert [] + [u] == [u];
      OneHeldBack(first.entry, u);
    }
  }

  lemma OneOffered(b: Box, now: nat, u: Update, info: PtsInfo, a: Absorbed)
    requires PtsInfoOf(u) == Some(info) && !u.ChannelTooLong? && info.key !in b.queue
    requires a == Absorb(EntryFor(b, info, now), u, info, now)
    ensures var o := Step(b, now, u);
            o.delivered == a.delivered && OnlyEntry(b, o.box, info.key) && o.box.live[info.key] == a.entry
                && o.box.date == b.date
  {
  }

  lemma OneUpdateSettles(b: Box, now: nat, u: Update, key: Key, from: int, to: int)
    requires Structure(b) && Free(b, key) && Moves(u, key, from, to) && to != NO_PTS
    ensures Settled(b, key, from, to, Step(b, now, u).delivered, u, Step(b, now, u).box)
    ensures Step(b, now, u).box.date == b.date
  {
    var info := PtsInfo(key, to, to - from);
    assert PtsInfoOf(u) == Some(info);
    var e := EntryFor(b, info, now);
    OneAbsorbed(e, u, info, now);
    OneOffered(b, now, u, info, Absorb(e, u, info, now));
  }

  lemma OneStep(b: Box, now: nat, u: Update)
    ensures Sort([u], SortKey) == [u] && StepAll(b, now, [u]).box == Step(b, now, u).box
    ensures StepAll(b, now, [u]).delivered == Step(b, now, u).delivered
  {
    assert [u][..0] == [];
    assert [] + Step(b, now, u).delivered == Step(b, now, u).delivered;
  }

  lemma OneIsAdapted(b: Box, now: nat, input: UpdatesLike, key: Key, from: int, to: int) returns (c: Combined,
          u: Update)
    requires InputMoves(input, key, from, to)
    ensures c.seqNo == NO_SEQ && c.updates == [u] && Moves(u, key, from, to)
    ensures ProcessUpdates(b, now, input) == Apply(b, now, c)
  {
    c := Adapt(input).value;
    u := c.updates[0];
  }

  /** A reply to an own action, or a short container, does what its one update does. */
  lemma OneInputSettles(b: Box, now: nat, input: UpdatesLike, key: Key, from: int, to: int) returns (u: Update)
    requires Structure(b) && Free(b, key) && InputMoves(input, key, from, to) && to != NO_PTS
    ensures var p := ProcessUpdates(b, now, input);
            Moves(u, key, from, to) && p.result.Ok? && Settled(b, key, from, to, p.result.value, u, p.box)
  {
    var c;
    c, u := OneIsAdapted(b, now, input, key, from, to);
    OneUpdateSettles(b, now, u, key, from, to);
    OneStep(b, now, u);
    OneStepApplied(b, now, c, StepAll(b, now, [u]));
  }

  lemma OneStepApplied(b: Box, now: nat, c: Combined, o: Outcome)
    requires c.seqNo == NO_SEQ && o == StepAll(b, now, Sort(c.updates, SortKey)) && o.box.seqNo == b.seqNo
    ensures var p := Apply(b, now, c);
            p.result == Ok(o.delivered) && p.box.live == o.box.live && p.box.queue == o.box.queue
            && p.box.inFlight == o.box.inFlight && p.box.seqNo == b.seqNo
  {
  }
}
