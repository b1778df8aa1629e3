/** What of a run with processing depends on the cut: not the frames handled nor the state
    they leave, but the updates of a step that fails. */
module InboxCuts {
  import opened Bytes
  import opened FrameStreams
  import opened Keystream
  import opened Pipeline
  import opened ReadCuts
  import opened Inboxes

  /** Handling more frames goes on from handling the first ones. */
  lemma FoldPrefix<S, F>(h: (S, F) -> Handled<S>, s: S, a: seq<F>, b: seq<F>)
    requires a <= b
    ensures Fold(h, s, a).refused ==> Fold(h, s, b) == Fold(h, s, a)
    ensures Fold(h, s, a).taken <= Fold(h, s, b).taken && Fold(h, s, a).updates <= Fold(h, s, b).updates
  {
    assert b == a + b[|a|..];
    FoldConcat(h, s, a, b[|a|..]);
  }

  /** Nothing in the bytes ends a run: no bad record, no bad frame, no refused payload. */
  ghost predicate Alive<S>(t: Stack, ks: Keys, o: Origin, h: Handling<S>, s: S, wire: seq<byte>)
    requires SoundStack(t)
  {
    Readable(t, wire) && !FailedBy(t, ks, o, wire) && !HandledBy(t, ks, o, h, s, wire).refused
  }

  lemma HandledGrows<S>(t: Stack, ks: Keys, o: Origin, h: Handling<S>, s: S, wire: seq<byte>, x: nat, y: nat)
    requires SoundStack(t) && x <= y <= |wire| && Readable(t, wire[..y])
    ensures var f, g := HandledBy(t, ks, o, h, s, wire[..x]), HandledBy(t, ks, o, h, s, wire[..y]);
            && (f.refused ==> g == f) && f.taken <= g.taken && f.updates <= g.updates
            && (FailedBy(t, ks, o, wire[..x]) ==> g == f)
  {
    FramesGrow(t, ks, o, wire, x, y);
    FoldPrefix(h, s, FramesBy(t, ks, o, wire[..x]), FramesBy(t, ks, o, wire[..y]));
  }

  lemma AliveBefore<S>(t: Stack, ks: Keys, o: Origin, h: Handling<S>, s: S, wire: seq<byte>, x: nat)
    requires SoundStack(t) && x <= |wire| && Alive(t, ks, o, h, s, wire)
    ensures Alive(t, ks, o, h, s, wire[..x])
  {
    assert wire[..|wire|] == wire;
    ReadableBefore(t, wire, x);
    FramesGrow(t, ks, o, wire, x, |wire|);
    HandledGrows(t, ks, o, h, s, wire, x, |wire|);
  }

  /** With room and no refused record: how a run ends, what was handled and in which state
      depend on the bytes, not on the reads. */
  lemma CutsDoNotMatter<S>(t: Stack, ks: Keys, o: Origin, h: Handling<S>, s: S, chunks: seq<seq<byte>>)
    requires SoundStack(t) && AreReads(t, chunks)
    requires Readable(t, Flatten(chunks)) && Room(t, ks, o, Flatten(chunks))
    ensures var a, f := Attend(t, ks, h, Opening(o, s), chunks), HandledBy(t, ks, o, h, s, Flatten(chunks));
            && Reached(f, FramesBy(t, ks, o, Flatten(chunks)), a)
            && a.pipe.status
               == (if f.refused then Refused else if FailedBy(t, ks, o, Flatten(chunks)) then BadFrame else Running)
            && (a.pipe.status.Running? ==> a.updates == f.updates && After(t, ks, o, Flatten(chunks), a.pipe))
  {
    var n, at := AttendStops(t, ks, o, h, s, chunks);
    UptoIsPrefix(chunks, n);
    if n < |chunks| {
      var wire := Flatten(chunks);
      var x, y := ReadPositions(t, chunks, n);
      ReadableBefore(t, wire, y);
      StoppedHere(t, ks, o, h, s, chunks, n, at, wire, x, y);
    } else {
      FramesSoFar(t, ks, o, Upto(chunks, n), at.pipe);
    }
  }

  /** The failing read, with room: what it reached is what the whole stream reaches. */
  lemma StoppedHere<S>(t: Stack, ks: Keys, o: Origin, h: Handling<S>, s: S, chunks: seq<seq<byte>>,
                       n: nat, at: Inbox<S>, wire: seq<byte>, x: nat, y: nat)
    requires SoundStack(t) && AreReads(t, chunks) && n < |chunks| && wire == Flatten(chunks)
    requires Readable(t, wire) && Room(t, ks, o, wire)
    requires x < y <= |wire| && Upto(chunks, n) == wire[..x] && Upto(chunks, n) + chunks[n] == wire[..y]
    requires Readable(t, wire[..y])
    requires Attending(t, ks, o, h, s, wire[..x], at) && !Step(t, ks, h, at, chunks[n]).pipe.status.Running?
    ensures var a, f := Step(t, ks, h, at, chunks[n]), HandledBy(t, ks, o, h, s, wire);
            && Reached(f, FramesBy(t, ks, o, wire), a)
            && a.pipe.status == (if f.refused then Refused else BadFrame) && (!f.refused ==> FailedBy(t, ks, o, wire))
  {
    OneStep(t, ks, o, h, s, wire[..x], chunks[n], at);
    NotFailedYet(t, ks, o, wire[..x], at.pipe);
    NoOverflow(t, ks, o, chunks, n);
    SameToTheEnd(t, ks, o, h, s, wire, y);
  }

  /** Once the run has ended, more bytes change nothing. */
  lemma SameToTheEnd<S>(t: Stack, ks: Keys, o: Origin, h: Handling<S>, s: S, wire: seq<byte>, y: nat)
    requires SoundStack(t) && y <= |wire| && Readable(t, wire)
    requires FailedBy(t, ks, o, wire[..y]) || HandledBy(t, ks, o, h, s, wire[..y]).refused
    ensures HandledBy(t, ks, o, h, s, wire) == HandledBy(t, ks, o, h, s, wire[..y])
    ensures FailedBy(t, ks, o, wire[..y]) ==> FailedBy(t, ks, o, wire)
    ensures var n := HandledBy(t, ks, o, h, s, wire).taken;
            n <= |FramesBy(t, ks, o, wire[..y])| <= |FramesBy(t, ks, o, wire)|
            && FramesBy(t, ks, o, wire)[..n] == FramesBy(t, ks, o, wire[..y])[..n]
  {
    assert wire[..|wire|] == wire;
    FramesGrow(t, ks, o, wire, y, |wire|);
    HandledGrows(t, ks, o, h, s, wire, y, |wire|);
  }

  lemma NotFailedYet(t: Stack, ks: Keys, o: Origin, wire: seq<byte>, p: Pipe)
    requires SoundStack(t) && After(t, ks, o, wire, p) && p.status.Running?
    ensures Readable(t, wire) && !FailedBy(t, ks, o, wire)
  {
    NothingDecoded(t, ks, o.pos);
  }

  // Streams that end a run

  /** `z` bytes are the fewest with which a run cannot go on. */
  ghost predicate FirstDead<S>(t: Stack, ks: Keys, o: Origin, h: Handling<S>, s: S, wire: seq<byte>, z: nat)
    requires SoundStack(t)
  {
    && z <= |wire| && !Alive(t, ks, o, h, s, wire[..z])
    && forall y: nat :: y < z ==> Alive(t, ks, o, h, s, wire[..y])
  }

  lemma {:induction false} FirstDeadExists<S>(t: Stack, ks: Keys, o: Origin, h: Handling<S>, s: S, wire: seq<byte>)
    returns (z: nat)
    requires SoundStack(t) && !Alive(t, ks, o, h, s, wire)
    ensures FirstDead(t, ks, o, h, s, wire, z) && z > 0
    decreases |wire|
  {
    NothingDecoded(t, ks, o.pos);
    assert wire != [];
    var init := wire[..|wire| - 1];
    if Alive(t, ks, o, h, s, init) {
      z := |wire|;
      assert wire[..z] == wire;
      forall y: nat | y < z
        ensures Alive(t, ks, o, h, s, wire[..y])
      {
        assert wire[..y] == init[..y];
        AliveBefore(t, ks, o, h, s, init, y);
      }
    } else {
      z := FirstDeadExists(t, ks, o, h, s, init);
      assert forall y: nat :: y <= z ==> wire[..y] == init[..y];
    }
  }

  lemma DeadFrom<S>(t: Stack, ks: Keys, o: Origin, h: Handling<S>, s: S, wire: seq<byte>, z: nat, y: nat)
    requires SoundStack(t) && FirstDead(t, ks, o, h, s, wire, z) && y <= |wire|
    ensures Alive(t, ks, o, h, s, wire[..y]) <==> y < z
  {
    if y >= z {
      assert wire[..y][..z] == wire[..z];
      if Alive(t, ks, o, h, s, wire[..y]) {
        AliveBefore(t, ks, o, h, s, wire[..y], z);
      }
    }
  }

  /** The updates of the frames complete in the bytes so far. */
  ghost function UpdatesBy<S>(t: Stack, ks: Keys, o: Origin, h: Handling<S>, s: S, wire: seq<byte>): seq<seq<byte>>
    requires SoundStack(t)
  {
    HandledBy(t, ks, o, h, s, wire).updates
  }

  lemma AttendingIsAlive<S>(t: Stack, ks: Keys, o: Origin, h: Handling<S>, s: S, wire: seq<byte>, b: Inbox<S>)
    requires SoundStack(t) && Attending(t, ks, o, h, s, wire, b)
    ensures Alive(t, ks, o, h, s, wire) && b.updates == UpdatesBy(t, ks, o, h, s, wire)
  {
    NotFailedYet(t, ks, o, wire, b.pipe);
  }

  /** A read that finds room and comes to an alive prefix goes through. */
  lemma AliveGoesOn<S>(t: Stack, ks: Keys, o: Origin, h: Handling<S>, s: S,
                       chunks: seq<seq<byte>>, n: nat, at: Inbox<S>)
    requires SoundStack(t) && AreReads(t, chunks) && n < |chunks| && Room(t, ks, o, Flatten(chunks))
    requires Attending(t, ks, o, h, s, Upto(chunks, n), at)
    ensures Step(t, ks, h, at, chunks[n]).pipe.status.Running? <==> Alive(t, ks, o, h, s, Upto(chunks, n + 1))
    ensures !Step(t, ks, h, at, chunks[n]).pipe.status.Running? ==> Step(t, ks, h, at, chunks[n]).updates == at.updates
  {
    OneStep(t, ks, o, h, s, Upto(chunks, n), chunks[n], at);
    AttendingIsAlive(t, ks, o, h, s, Upto(chunks, n), at);
    NoOverflow(t, ks, o, chunks, n);
    UptoMore(chunks, n);
    if Step(t, ks, h, at, chunks[n]).pipe.status.Running? {
      AttendingIsAlive(t, ks, o, h, s, Upto(chunks, n + 1), Step(t, ks, h, at, chunks[n]));
    }
  }

  /** A run over a stream with room, by the last read before its end. */
  lemma UpdatesByLastRead<S>(t: Stack, ks: Keys, o: Origin, h: Handling<S>, s: S, chunks: seq<seq<byte>>)
    returns (n: nat)
    requires SoundStack(t) && AreReads(t, chunks) && Room(t, ks, o, Flatten(chunks))
    ensures n <= |chunks| && Alive(t, ks, o, h, s, Upto(chunks, n))
    ensures n < |chunks| ==> !Alive(t, ks, o, h, s, Upto(chunks, n + 1))
    ensures var a := Attend(t, ks, h, Opening(o, s), chunks);
            && a.updates == UpdatesBy(t, ks, o, h, s, Upto(chunks, n)) && (a.pipe.status.Running? <==> n == |chunks|)
  {
    var at;
    n, at := AttendStops(t, ks, o, h, s, chunks);
    AttendingIsAlive(t, ks, o, h, s, Upto(chunks, n), at);
    if n < |chunks| {
      AliveGoesOn(t, ks, o, h, s, chunks, n, at);
    }
  }

  /** `lo`, `us` and `hi` as prefixes of each other. */
  ghost predicate Within(lo: seq<seq<byte>>, us: seq<seq<byte>>, hi: seq<seq<byte>>) {
    lo <= us <= hi
  }

  /** Whatever ends the run, the updates returned lie between those of the frames complete
      a whole read before the end shows, and those of the frames complete right before. */
  lemma DeadEndsTheRun<S>(t: Stack, ks: Keys, o: Origin, h: Handling<S>, s: S, chunks: seq<seq<byte>>, z: nat)
    requires SoundStack(t) && AreReads(t, chunks) && Room(t, ks, o, Flatten(chunks))
    requires z > 0 && FirstDead(t, ks, o, h, s, Flatten(chunks), z)
    ensures var a, wire := Attend(t, ks, h, Opening(o, s), chunks), Flatten(chunks);
            && !a.pipe.status.Running?
            && Within(UpdatesBy(t, ks, o, h, s, wire[..Reach(t, z)]), a.updates, UpdatesBy(t, ks, o, h, s, wire[..z - 1]))
  {
    var wire := Flatten(chunks);
    var n := UpdatesByLastRead(t, ks, o, h, s, chunks);
    UptoIsPrefix(chunks, n);
    DeadFrom(t, ks, o, h, s, wire, z, |Upto(chunks, n)|);
    if n < |chunks| {
      var x, y := ReadPositions(t, chunks, n);
      DeadFrom(t, ks, o, h, s, wire, z, y);
      assert Upto(chunks, n) == wire[..x];
      UpdatesBetween(t, ks, o, h, s, wire, Reach(t, z), x, z - 1);
    }
  }

  lemma UpdatesBetween<S>(t: Stack, ks: Keys, o: Origin, h: Handling<S>, s: S, wire: seq<byte>,
                          x: nat, at: nat, y: nat)
    requires SoundStack(t) && x <= at <= y <= |wire| && Alive(t, ks, o, h, s, wire[..y])
    ensures Within(UpdatesBy(t, ks, o, h, s, wire[..x]), UpdatesBy(t, ks, o, h, s, wire[..at]),
                   UpdatesBy(t, ks, o, h, s, wire[..y]))
  {
    assert wire[..y][..at] == wire[..at];
    ReadableBefore(t, wire[..y], at);
    HandledGrows(t, ks, o, h, s, wire, x, at);
    HandledGrows(t, ks, o, h, s, wire, at, y);
  }

  /** With one read from `x` to where the end shows, the updates are those by `x`. */
  lemma CutOverTheEnd<S>(t: Stack, ks: Keys, o: Origin, h: Handling<S>, s: S, wire: seq<byte>, x: nat, z: nat)
    requires SoundStack(t) && Room(t, ks, o, wire) && FirstDead(t, ks, o, h, s, wire, z) && x < z && z - x <= t.readLimit
    ensures IsCut(t, CutAt(wire, x, z), wire)
    ensures Attend(t, ks, h, Opening(o, s), CutAt(wire, x, z)).updates == UpdatesBy(t, ks, o, h, s, wire[..x])
  {
    CutAtIsCut(t, wire, x, z);
    var c := CutAt(wire, x, z);
    var n := UpdatesByLastRead(t, ks, o, h, s, c);
    UptoIsPrefix(c, n);
    DeadFrom(t, ks, o, h, s, wire, z, |Upto(c, n)|);
    if n > x {
      LaterUpto(c, x + 1, n);
    }
  }

  /** The updates handed to the client do not depend on the cut of a stream that ends the
      run, by whatever failure, exactly when no frame that holds any completes within one
      read before the end shows. */
  lemma UpdatesMatterExactlyWhen<S>(t: Stack, ks: Keys, o: Origin, h: Handling<S>, s: S, wire: seq<byte>, z: nat)
    requires SoundStack(t) && Room(t, ks, o, wire) && z > 0 && FirstDead(t, ks, o, h, s, wire, z)
    ensures (forall a, b :: IsCut(t, a, wire) && IsCut(t, b, wire) ==>
               Attend(t, ks, h, Opening(o, s), a).updates == Attend(t, ks, h, Opening(o, s), b).updates)
            <==> UpdatesBy(t, ks, o, h, s, wire[..Reach(t, z)]) == UpdatesBy(t, ks, o, h, s, wire[..z - 1])
  {
    CutOverTheEnd(t, ks, o, h, s, wire, Reach(t, z), z);
    CutOverTheEnd(t, ks, o, h, s, wire, z - 1, z);
    forall a | IsCut(t, a, wire)
      ensures Within(UpdatesBy(t, ks, o, h, s, wire[..Reach(t, z)]), Attend(t, ks, h, Opening(o, s), a).updates,
                     UpdatesBy(t, ks, o, h, s, wire[..z - 1]))
    {
      DeadEndsTheRun(t, ks, o, h, s, a, z);
    }
  }

  // Two reads and one

  /** Updates of frames in front of a failure are returned when they come in a read of
      their own, and lost when the failure comes in the same read; the frames are handled
      either way. */
  lemma OneReadHidesUpdates<S>(t: Stack, ks: Keys, o: Origin, h: Handling<S>, s: S, good: seq<byte>, bad: seq<byte>)
    requires SoundStack(t) && good != [] && bad != [] && |good| + |bad| <= t.readLimit && Room(t, ks, o, good + bad)
    requires Alive(t, ks, o, h, s, good) && !Alive(t, ks, o, h, s, good + bad)
    ensures var two, one := Attend(t, ks, h, Opening(o, s), [good, bad]), Attend(t, ks, h, Opening(o, s), [good + bad]);
            && !two.pipe.status.Running? && !one.pipe.status.Running?
            && two.updates == UpdatesBy(t, ks, o, h, s, good) && one.updates == []
            && (Readable(t, good + bad) ==> two.state == one.state && two.pipe.frames == one.pipe.frames)
  {
    TwoReads(good, bad);
    InTwoReads(t, ks, o, h, s, good, bad);
    InOneRead(t, ks, o, h, s, good + bad);
    if Readable(t, good + bad) {
      SameInBothCuts(t, ks, o, h, s, [good, bad], [good + bad]);
    }
  }

  lemma InTwoReads<S>(t: Stack, ks: Keys, o: Origin, h: Handling<S>, s: S, good: seq<byte>, bad: seq<byte>)
    requires SoundStack(t) && AreReads(t, [good, bad]) && Room(t, ks, o, good + bad)
    requires Alive(t, ks, o, h, s, good) && !Alive(t, ks, o, h, s, good + bad)
    ensures var a := Attend(t, ks, h, Opening(o, s), [good, bad]);
            !a.pipe.status.Running? && a.updates == UpdatesBy(t, ks, o, h, s, good)
  {
    TwoReads(good, bad);
    var n := UpdatesByLastRead(t, ks, o, h, s, [good, bad]);
    assert n == 1;
  }

  lemma InOneRead<S>(t: Stack, ks: Keys, o: Origin, h: Handling<S>, s: S, bad: seq<byte>)
    requires SoundStack(t) && AreReads(t, [bad]) && Room(t, ks, o, bad) && !Alive(t, ks, o, h, s, bad)
    ensures var a := Attend(t, ks, h, Opening(o, s), [bad]); !a.pipe.status.Running? && a.updates == []
  {
    TwoReads([], bad);
    assert [] + bad == bad;
    var n := UpdatesByLastRead(t, ks, o, h, s, [bad]);
    NothingDecoded(t, ks, o.pos);
  }

  lemma SameInBothCuts<S>(t: Stack, ks: Keys, o: Origin, h: Handling<S>, s: S, a: seq<seq<byte>>, b: seq<seq<byte>>)
    requires SoundStack(t) && AreReads(t, a) && AreReads(t, b) && Flatten(a) == Flatten(b)
    requires Readable(t, Flatten(a)) && Room(t, ks, o, Flatten(a))
    ensures var x, y := Attend(t, ks, h, Opening(o, s), a), Attend(t, ks, h, Opening(o, s), b);
            x.state == y.state && x.pipe.frames == y.pipe.frames && x.pipe.status == y.pipe.status
  {
    CutsDoNotMatter(t, ks, o, h, s, a);
    CutsDoNotMatter(t, ks, o, h, s, b);
  }

  lemma TwoReads(good: seq<byte>, bad: seq<byte>)
    ensures Flatten([good, bad]) == good + bad == Flatten([good + bad])
    ensures Upto([good, bad], 0) == [] && Upto([good, bad], 1) == good && Upto([good, bad], 2) == good + bad
    ensures Upto([good + bad], 0) == [] && Upto([good + bad], 1) == good + bad
  {
    assert [good, bad][1..] == [bad] && [bad][1..] == [] && [good + bad][1..] == [] && [good][1..] == [];
    assert [good, bad][..1] == [good] && [good, bad][..2] == [good, bad] && [good + bad][..1] == [good + bad];
    assert Flatten([bad]) == bad + [] == bad && Flatten([good]) == good + [] == good;
    assert Flatten([good + bad]) == (good + bad) + [] == good + bad;
  }
}
