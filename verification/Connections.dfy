/** One connection as the sender runs it (ferogram-mtsender's mtp_sender.rs): reads are
    decoded into the buffer, and every complete frame is opened and dispatched at once. */
module Connections {
  import opened Wrappers
  import opened Bytes
  import opened FrameStreams
  import opened Keystream
  import opened Pipeline
  import opened TlsRecords
  import opened EncryptedSessions
  import opened Sessions
  import opened SenderBuffers
  import opened MtpSenders
  import opened SenderSteps
  import opened Inboxes
  import opened Desks
  import opened IncomingBodies

  class Connection {
    const z: Inflate
    const depth: nat
    const envs: nat -> Env
    var half: ReadHalf
    var sender: MtpSender
    var count: nat                        // payloads given to the sender so far
    ghost var returned: seq<seq<byte>>    // updates the reading steps returned
    ghost var work: Office

    ghost predicate Valid()
      reads this, half, sender, sender.enc
    {
      half.Valid() && sender.Valid() && work == Office(sender.enc.c, sender.enc.auth, Reader(z, depth), envs)
    }

    ghost function Table(): Desk
      reads this, sender, sender.enc
    {
      Desk(sender.View(), sender.enc.seen, count)
    }

    ghost function View(): Inbox<Desk>
      requires Valid()
      reads this, half, half.readBuf, sender, sender.enc
    {
      Inbox(half.View(), Table(), returned)
    }

    constructor (half: ReadHalf, sender: MtpSender, z: Inflate, depth: nat, envs: nat -> Env)
      requires half.Valid() && sender.Valid()
      ensures Valid() && this.half == half && this.sender == sender && this.z == z && this.depth == depth && this.envs == envs
      ensures View() == Inbox(half.View(), Desk(sender.View(), sender.enc.seen, 0), [])
    {
      this.half, this.sender, this.z, this.depth, this.envs, count, returned := half, sender, z, depth, envs, 0, [];
      work := Office(sender.enc.c, sender.enc.auth, Reader(z, depth), envs);
    }

    /** Opens, checks and dispatches one payload. */
    method Process(payload: seq<byte>) returns (r: Result<seq<seq<byte>>, ReadFailure>)
      requires Valid()
      modifies this`count, sender, sender.enc
      ensures Valid() && sender.enc == old(sender.enc)
      ensures var t := Handle(work, old(Table()), payload);
              Table() == t.state && r == if t.refused then Err(RefusedPayload) else Ok(t.updates)
    {
      var frame := new byte[|payload|](i requires 0 <= i < |payload| => payload[i]);
      assert frame[..] == payload;
      ghost var d, secs := Table(), envs(count).secs;
      ghost var m := OpenedMessage(work.c, work.auth, d.st.session, d.seen, payload, secs);
      ghost var seen := SeenBy(work.c, work.auth, d.st.session, d.seen, payload, secs);
      assert Handle(work, d, payload) == if m.Err? then TurnedAway(d, seen) else Admitted(work, d, m.value, seen);
      var u := sender.ProcessPayload(frame, envs(count), z, depth);
      count := count + 1;
      if u.Err? {
        return Err(RefusedPayload);
      }
      return Ok(u.value);
    }

    /** Processes one payload and hands it on, or stops the connection. */
    method Accept(payload: seq<byte>, ghost h: Handling<Desk>) returns (r: Result<seq<seq<byte>>, ReadFailure>)
      requires Valid() && half.status.Running? && Does(h, work)
      modifies half`handed, half`status, this`count, sender, sender.enc
      ensures Valid() && sender.enc == old(sender.enc)
      ensures var t := h(old(Table()), payload);
              && Table() == t.state
              && (t.refused ==> r == Err(RefusedPayload) && half.status.Refused? && half.handed == old(half.handed))
              && (!t.refused ==> r == Ok(t.updates) && half.status.Running? && half.handed == old(half.handed) + [payload])
    {
      r := Process(payload);
      if r.Err? {
        half.Stop(Status.Refused);
      } else {
        half.HandOn(payload);
      }
    }

    /** Peels the frame at `offset` and processes it; `end` is behind it. */
    method PeelAndProcess(offset: nat, ghost h: Handling<Desk>)
      returns (end: nat, r: Option<Result<seq<seq<byte>>, ReadFailure>>)
      requires Valid() && offset <= half.readTail && half.status.Running? && Does(h, work)
      modifies half`recvSeqno, half`handed, half`status, this`count, sender, sender.enc
      ensures Valid() && sender.enc == old(sender.enc) && offset <= end <= half.readTail
      ensures var buf, seqno := half.readBuf[offset..half.readTail], old(half.recvSeqno);
              var p := half.kind.inner.peel(buf, seqno);
              var t := Next(h, old(Table()), p);
              && (p.Complete? ==> end > offset && p.end <= |buf|)
              && Table() == t.state && half.readBuf[end..half.readTail] == LeftAt(p, buf)
              && half.recvSeqno == SeqnoAt(half.kind.inner, p, seqno)
              && (t.refused ==>
                    && half.status == WhyStops(p) && half.handed == old(half.handed)
                    && r == if half.status.Running? then None else Some(Err(ErrorOf(half.status))))
              && (!t.refused ==>
                    half.status.Running? && half.handed == old(half.handed) + [p.payload] && r == Some(Ok(t.updates)))
    {
      var p := half.PeelNext(offset);
      match p {
        case Incomplete =>
          return offset, None;
        case Failed =>
          half.Stop(BadFrame);
          return offset, Some(Err(BadFrameError));
        case Complete(payload, next) =>
          var u := Accept(payload, h);
          return next, Some(u);
      }
    }

    /** Peels and processes every complete frame; an error drops the updates collected. */
    method ProcessAll(ghost h: Handling<Desk>) returns (offset: nat, r: Result<seq<seq<byte>>, ReadFailure>)
      requires Valid() && half.status.Running? && Does(h, work)
      modifies half`recvSeqno, half`handed, half`status, this`count, sender, sender.enc
      ensures Valid() && sender.enc == old(sender.enc) && offset <= half.readTail && Sound(half.kind.inner)
      ensures var v := Serve(half.kind.inner, h, half.readBuf[..half.readTail], old(half.recvSeqno), old(Table()));
              && Served(half.handed, half.readBuf[offset..half.readTail], half.recvSeqno, half.status, Table(),
                        if r.Ok? then r.value else v.updates)
                 == Ahead(old(half.handed), [], v)
              && (half.status.Running? <==> r.Ok?) && (r.Err? ==> FailureOf(half.status) == Some(r.error))
    {
      ghost var c := half.kind.inner;
      ghost var v := Ahead(half.handed, [], Serve(c, h, half.readBuf[..half.readTail], half.recvSeqno, Table()));
      var updates: seq<seq<byte>> := [];
      offset := 0;
      assert half.readBuf[0..half.readTail] == half.readBuf[..half.readTail];
      while true
        invariant Valid() && sender.enc == old(sender.enc) && offset <= half.readTail && half.status.Running?
        invariant v == Ahead(half.handed, updates, Serve(c, h, half.readBuf[offset..half.readTail], half.recvSeqno, Table()))
        decreases half.readTail - offset
      {
        ghost var left, seqno, d := half.readBuf[offset..half.readTail], half.recvSeqno, Table();
        ghost var p := c.peel(left, seqno);
        ServedOn(c, h, half.handed, updates, left, seqno, d, p, Next(h, d, p));
        var next;
        offset, next := PeelAndProcess(offset, h);
        if next.None? {
          break;
        }
        if next.value.Err? {
          return offset, next.value;
        }
        updates := updates + next.value.value;
      }
      return offset, Ok(updates);
    }

    /** What happens to the bytes in the buffer after a read. */
    method DrainFrames(ghost h: Handling<Desk>) returns (r: Result<seq<seq<byte>>, ReadFailure>)
      requires Valid() && half.status.Running? && Does(h, work)
      modifies this`count, this`returned, half`recvSeqno, half`handed, half`status, half`readTail, half.readBuf
      modifies sender, sender.enc
      ensures Valid() && sender.enc == old(sender.enc)
      ensures View() == Deliver(half.kind, h, old(View()))
      ensures r.Ok? ==> half.status.Running? && returned == old(returned) + r.value
      ensures r.Err? ==> FailureOf(half.status) == Some(r.error)
    {
      ghost var b := View();
      var offset;
      offset, r := ProcessAll(h);
      ghost var v := Ahead(b.pipe.frames, [], Serve(half.kind.inner, h, b.pipe.buf, b.pipe.seqno, b.state));
      DeliverIs(half.kind, h, b, v);
      assert half.View() == b.pipe.(seqno := v.seqno, frames := v.frames, status := v.status);
      assert half.readBuf[offset..half.readTail] == v.rest && Table() == v.state;
      half.ConsumeRead(offset);
      if r.Ok? {
        returned := returned + r.value;
      }
    }

    /** One reading step: decode, then process every complete frame. */
    method ReadStep(chunk: seq<byte>) returns (r: Result<seq<seq<byte>>, ReadFailure>)
      requires Valid() && half.status.Running?
      modifies this`count, this`returned, half, half.readBuf, sender, sender.enc
      ensures Valid() && sender.enc == old(sender.enc)
      ensures View() == Step(half.kind, half.ks, Handler(work), old(View()), chunk)
      ensures r.Ok? ==> half.status.Running? && returned == old(returned) + r.value
      ensures r.Err? ==> FailureOf(half.status) == Some(r.error) && returned == old(returned)
    {
      var failure := half.IngestRead(chunk);
      if failure.Some? {
        return Err(failure.value);
      }
      r := DrainFrames(Handler(work));
    }

    /** Reading steps until one fails or there are no more: the connection's run is the
        inbox's. */
    method ReadAll(chunks: seq<seq<byte>>) returns (r: Option<ReadFailure>)
      requires Valid() && half.status.Running?
      modifies this`count, this`returned, half, half.readBuf, sender, sender.enc
      ensures Valid() && sender.enc == old(sender.enc)
      ensures View() == Attend(half.kind, half.ks, Handler(work), old(View()), chunks)
      ensures r == FailureOf(half.status)
    {
      r := None;
      var i := 0;
      ghost var h := Handler(work);
      assert chunks[0..] == chunks;
      while i < |chunks| && r.None?
        invariant Valid() && sender.enc == old(sender.enc) && 0 <= i <= |chunks| && r == FailureOf(half.status)
        invariant Attend(half.kind, half.ks, h, View(), chunks[i..]) == Attend(half.kind, half.ks, h, old(View()), chunks)
      {
        assert chunks[i..][1..] == chunks[i + 1..];
        var step := ReadStep(chunks[i]);
        r := if step.Err? then Some(step.error) else None;
        i := i + 1;
      }
    }

    /** A connection error: every request is answered with it. */
    method FailAll(code: int)
      requires Valid()
      modifies sender
      ensures Valid() && sender.enc == old(sender.enc)
      ensures View() == old(View()).(state := old(Table()).(st := SenderSteps.FailAll(old(Table().st), code)))
    {
      sender.FailAll(code);
    }

    /** A new stream: the read buffer starts from what the handshake left over, requests
        are pending again, and the session and the ids seen are those of the new one. */
    method SetStream(next: EncryptedSession, kind: Stack, ks: Keys, pos: nat, leftover: seq<byte>, seqno: u32)
      requires Valid() && next.Valid() && SoundStack(kind) && (kind.wrapped ==> kind.records == Tls())
      modifies this`half, this`work, sender
      ensures Valid() && fresh(half) && fresh(half.readBuf) && half.kind == kind && half.ks == ks && half.status.Running?
      ensures work == Office(next.c, next.auth, Reader(z, depth), envs) && sender == old(sender) && sender.enc == next
      ensures var held := if |leftover| <= kind.capacity then leftover else leftover[..kind.capacity];
              var d := Desk(SenderSteps.SetStream(old(Table().st), next.View()), next.seen, count);
              View() == Opening(Origin(pos, held, seqno), d).(updates := returned)
    {
      half := new ReadHalf(kind, ks, pos, leftover, seqno);
      sender.SetStream(next);
      work := Office(next.c, next.auth, Reader(z, depth), envs);
    }
  }
}
