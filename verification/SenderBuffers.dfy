/** The sender's two byte buffers: reads are decoded into one fixed array whose front is
    shifted out, writes are framed by transport (ferogram-mtsender's mtp_sender.rs). */
module SenderBuffers {
  import opened Wrappers
  import opened Bytes
  import opened Crc
  import opened FrameStreams
  import opened Framing
  import opened Keystream
  import opened TlsRecords
  import opened Pipeline
  import opened Transports

  datatype ReadFailure = BadRecordError | BufferOverflow | BadFrameError | RefusedPayload

  class ReadHalf {
    const kind: Stack
    const ks: Keys
    const readBuf: array<byte>
    var readTail: nat
    var rawPending: seq<byte>
    var rxPos: nat
    var recvSeqno: u32
    ghost var handed: seq<seq<byte>>  // the payloads processed so far
    ghost var status: Status

    ghost predicate Valid()
      reads this
    {
      && SoundStack(kind) && (kind.wrapped ==> kind.records == Tls()) && (!kind.wrapped ==> rawPending == [])
      && readTail <= readBuf.Length == kind.capacity
    }

    ghost function View(): Pipe
      requires Valid()
      reads this, readBuf
    {
      Pipe(rawPending, rxPos, readBuf[..readTail], recvSeqno, handed, status)
    }

    /** Starts from what the handshake decoded and did not use. */
    constructor (kind: Stack, ks: Keys, pos: nat, leftover: seq<byte>, seqno: u32)
      requires SoundStack(kind) && (kind.wrapped ==> kind.records == Tls())
      ensures Valid() && fresh(readBuf) && this.kind == kind && this.ks == ks
      ensures var held := if |leftover| <= kind.capacity then leftover else leftover[..kind.capacity];
              View() == Handoff(Origin(pos, held, seqno))
    {
      this.kind, this.ks, rxPos, recvSeqno := kind, ks, pos, seqno;
      rawPending, handed, status := [], [], Running;
      var n := if |leftover| <= kind.capacity then |leftover| else kind.capacity;
      readBuf := new byte[kind.capacity](i requires 0 <= i => if i < |leftover| then leftover[i] else 0);
      readTail := n;
    }

    method PushDecoded(bytes: seq<byte>) returns (ok: bool)
      requires Valid()
      modifies this`readTail, readBuf
      ensures Valid() && ok == (old(readTail) + |bytes| <= kind.capacity)
      ensures readBuf[..readTail] == old(readBuf[..readTail]) + if ok then bytes else []
    {
      var end := readTail + |bytes|;
      if end > readBuf.Length {
        return false;
      }
      forall i | 0 <= i < |bytes| {
        readBuf[readTail + i] := bytes[i];
      }
      assert readBuf[readTail..end] == bytes;
      readTail := end;
      ok := true;
    }

    /** Takes the complete records out of what has arrived. */
    method Unwrap(chunk: seq<byte>) returns (bytes: Option<seq<byte>>)
      requires Valid() && kind.wrapped
      modifies this`rawPending
      ensures Valid() && (bytes.Some? <==> Readable(kind, old(rawPending) + chunk))
      ensures bytes.None? ==> rawPending == old(rawPending) + chunk
      ensures bytes.Some? ==> var d := Drain(Tls(), old(rawPending) + chunk, 0);
                              bytes.value == Flatten(d.frames) && rawPending == d.rest
    {
      var pending := rawPending + chunk;
      var u := UnwrapRecords(pending);
      if u.Err? {
        rawPending := pending;
        return None;
      }
      rawPending := pending[u.value.consumed..];
      return Some(u.value.ciphertext);
    }

    /** Decodes what one read brought; a byte is deciphered once, when it arrives. */
    method Decode(chunk: seq<byte>) returns (bytes: Option<seq<byte>>)
      requires Valid()
      modifies this`rawPending, this`rxPos
      ensures Valid() && (bytes.Some? <==> Readable(kind, old(rawPending) + chunk))
      ensures bytes.None? ==> rawPending == old(rawPending) + chunk && rxPos == old(rxPos)
      ensures bytes.Some? ==> && bytes.value == Fresh(kind, ks, old(rawPending), old(rxPos), chunk)
                              && rawPending == RawAfter(kind, old(rawPending) + chunk)
                              && rxPos == PosAfter(kind, old(rxPos), bytes.value)
    {
      bytes := Some(chunk);
      if kind.wrapped {
        bytes := Unwrap(chunk);
        if bytes.None? {
          return;
        }
      }
      if kind.ciphered {
        bytes := Some(Apply(ks, rxPos, bytes.value));
        rxPos := rxPos + |bytes.value|;
      }
    }

    method IngestRead(chunk: seq<byte>) returns (r: Option<ReadFailure>)
      requires Valid() && status.Running?
      modifies this`readTail, this`rawPending, this`rxPos, this`status, readBuf
      ensures Valid() && View() == Ingest(kind, ks, old(View()), chunk)
      ensures r == FailureOf(status)
    {
      var bytes := Decode(chunk);
      if bytes.None? {
        status := BadRecord;
        return Some(BadRecordError);
      }
      var ok := PushDecoded(bytes.value);
      if !ok {
        status := Overflow;
        return Some(BufferOverflow);
      }
      return None;
    }

    /** Shifts consumed bytes out of the front. */
    method ConsumeRead(consumed: nat)
      requires Valid() && consumed <= readTail
      modifies this`readTail, readBuf
      ensures Valid() && View() == old(View()).(buf := old(readBuf[consumed..readTail]))
    {
      if consumed > 0 {
        forall i | 0 <= i < readTail - consumed {
          readBuf[i] := readBuf[consumed + i];
        }
        readTail := readTail - consumed;
      }
    }

    /** Notes that a payload was processed. */
    ghost method HandOn(payload: seq<byte>)
      requires Valid()
      modifies this`handed
      ensures Valid() && handed == old(handed) + [payload]
    {
      handed := handed + [payload];
    }

    /** Notes why reading stops. */
    ghost method Stop(why: Status)
      requires Valid()
      modifies this`status
      ensures Valid() && status == why
    {
      status := why;
    }

    /** The frame at `offset`; its end is counted from the start of the buffer. */
    method PeelNext(offset: nat) returns (p: Peel)
      requires Valid() && offset <= readTail
      modifies this`recvSeqno
      ensures var q := kind.inner.peel(readBuf[offset..readTail], old(recvSeqno));
              p == if q.Complete? then q.(end := offset + q.end) else q
      ensures p.Complete? ==> offset < p.end <= readTail
      ensures p.Complete? ==> readBuf[p.end..readTail] == readBuf[offset..readTail][p.end - offset..]
      ensures recvSeqno == if p.Complete? then kind.inner.next(old(recvSeqno)) else old(recvSeqno)
    {
      ghost var left := readBuf[offset..readTail];
      p := kind.inner.peel(readBuf[offset..readTail], recvSeqno);
      if p.Complete? {
        assert left[p.end..] == readBuf[offset + p.end..readTail];
        p := Complete(p.payload, offset + p.end);
        recvSeqno := kind.inner.next(recvSeqno);
      }
    }
  }

  function ErrorOf(s: Status): ReadFailure
    requires !s.Running?
  {
    match s
    case BadRecord => BadRecordError
    case Overflow => BufferOverflow
    case BadFrame => BadFrameError
    case Refused => RefusedPayload
  }

  function FailureOf(s: Status): Option<ReadFailure> {
    if s.Running? then None else Some(ErrorOf(s))
  }

  /** What goes on the wire for one body. */
  function WireOf(t: Transport, ks: Keys, pos: nat, body: seq<byte>, seqno: u32): seq<byte> {
    var framed := Encode(FramingOf(t), body, seqno);
    var sealed := if Ciphered(t) then Apply(ks, pos, framed) else framed;
    if t.FakeTls? then Wrap(sealed) else sealed
  }

  lemma WireIsFrameEncode(t: Transport, ks: Keys, pos: nat, body: seq<byte>, seqno: u32)
    ensures FrameEncode(StackOf(t), ks, pos, body, seqno) == WireOf(t, ks, pos, body, seqno)
    ensures StackOf(t).inner.next(seqno) == NextSeqno(FramingOf(t), seqno)
  {
  }

  class WriteHalf {
    const kind: Transport
    const ks: Keys
    var txPos: nat
    var sendSeqno: u32

    constructor (kind: Transport, ks: Keys, pos: nat, seqno: u32)
      ensures this.kind == kind && this.ks == ks && txPos == pos && sendSeqno == seqno
    {
      this.kind, this.ks, txPos, sendSeqno := kind, ks, pos, seqno;
    }

    method Encipher(framed: seq<byte>) returns (sealed: seq<byte>)
      modifies this`txPos
      ensures sealed == Apply(ks, old(txPos), framed) && txPos == old(txPos) + |framed|
    {
      sealed := Apply(ks, txPos, framed);
      txPos := txPos + |framed|;
    }

    method FullFrame(data: seq<byte>) returns (pkt: seq<byte>)
      modifies this`sendSeqno
      ensures pkt == Encode(Full, data, old(sendSeqno)) && sendSeqno == NextSeqno(Full, old(sendSeqno))
    {
      pkt := LengthPrefix(|data| + 12) + ToLe32(sendSeqno) + data;
      sendSeqno := (sendSeqno + 1) % U32;
      var crc := Crc32Ieee(pkt);
      pkt := pkt + ToLe32(crc);
    }

    method FramePlain(data: seq<byte>) returns (wire: seq<byte>)
      requires !Ciphered(kind)
      modifies this`sendSeqno
      ensures wire == Encode(FramingOf(kind), data, old(sendSeqno))
      ensures sendSeqno == NextSeqno(FramingOf(kind), old(sendSeqno))
    {
      match kind {
        case PlainFull =>
          wire := FullFrame(data);
        case PlainAbridged =>
          wire := AbridgedHeader(|data| / 4) + data;
        case PlainIntermediate =>
          wire := LengthPrefix(|data|) + data;
      }
    }

    /** Turns one packed message into wire bytes; `pad` is the random padding drawn. */
    method FrameMessage(data: seq<byte>, pad: seq<byte>) returns (wire: seq<byte>)
      requires |pad| <= 15
      modifies this
      ensures wire == WireOf(kind, ks, old(txPos), Body(kind, data, pad), old(sendSeqno))
      ensures txPos == old(txPos) + if Ciphered(kind) then |Encode(FramingOf(kind), Body(kind, data, pad), old(sendSeqno))| else 0
      ensures sendSeqno == NextSeqno(FramingOf(kind), old(sendSeqno))
    {
      match kind {
        case PlainFull => wire := FramePlain(data);
        case PlainAbridged => wire := FramePlain(data);
        case PlainIntermediate => wire := FramePlain(data);
        case Obfuscated =>
          wire := Encipher(AbridgedHeader(|data| / 4) + data);
        case PaddedIntermediate =>
          wire := Encipher(LengthPrefix(|data| + |pad|) + (data + pad));
        case FakeTls =>
          var sealed := Encipher(LengthPrefix(|data| + |pad|) + (data + pad));
          wire := WrapApplicationData(sealed, []);
      }
    }
  }
}
