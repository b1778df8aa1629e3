/** Exact reads during the FakeTLS handshake (ferogram-connect's frame.rs): whole records
    are read and deciphered, and what goes past the bytes asked for is kept. */
module FaketlsHandshake {
  import opened Wrappers
  import opened Bytes
  import opened FrameStreams
  import opened Framing
  import opened Keystream
  import opened Pipeline
  import opened Arrival
  import opened Transports

  datatype ReadError = ConnectionEnded | UnexpectedType

  predicate IsRecord(record: seq<byte>) {
    && |record| >= RECORD_HEADER_LEN && |record| == RECORD_HEADER_LEN + FromBe16(record[3..5])
    && (record[0] == RECORD_APPLICATION_DATA || record[0] == RECORD_CHANGE_CIPHER_SPEC)
  }

  /** The record layer of `t` peels one record as its header says. */
  ghost predicate ReadsRecords(t: Stack) {
    && SoundStack(t) && t.wrapped
    && forall record :: IsRecord(record) ==>
         t.records.peel(record, 0) == Complete(record[RECORD_HEADER_LEN..], |record|)
  }

  lemma FakeTlsReadsRecords()
    ensures ReadsRecords(StackOf(FakeTls))
  {
    var t := StackOf(FakeTls);
    forall record | IsRecord(record)
      ensures t.records.peel(record, 0) == Complete(record[RECORD_HEADER_LEN..], |record|)
    {
      assert record[RECORD_HEADER_LEN..|record|] == record[RECORD_HEADER_LEN..];
    }
  }

  class HandshakeReader {
    const ks: Keys
    ghost const t: Stack
    var wire: seq<byte>      // what the peer will still send
    var pos: nat
    var decodedPending: seq<byte>
    ghost var read: seq<byte>   // what was read of the wire
    ghost var taken: seq<byte>  // what was handed out

    ghost predicate Valid()
      reads this
    {
      ReadsRecords(t) && HandshakeLeft(t, ks, read, pos, taken, decodedPending)
    }

    constructor (ks: Keys, wire: seq<byte>, ghost t: Stack)
      requires ReadsRecords(t)
      ensures Valid() && this.ks == ks && this.t == t && this.wire == wire && read == [] && taken == []
    {
      this.ks, this.t, this.wire := ks, t, wire;
      pos, decodedPending, read, taken := 0, [], [], [];
      new;
      StartIsDrained(t.records, 0);
    }

    /** Reads one whole record and deciphers it behind the bytes held. */
    method ReadRecord() returns (r: Option<ReadError>)
      requires Valid()
      modifies this`wire, this`pos, this`decodedPending, this`read
      ensures Valid() && read + wire == old(read + wire)
      ensures r.None? ==> |wire| < old(|wire|) && |decodedPending| < old(|decodedPending|) + U16
      ensures r.Some? ==> decodedPending == old(decodedPending)
    {
      if |wire| < RECORD_HEADER_LEN {
        return Some(ConnectionEnded);
      }
      var total := RECORD_HEADER_LEN + FromBe16(wire[3..5]);
      if |wire| < total {
        return Some(ConnectionEnded);
      }
      var record, left := wire[..total], wire[total..];
      if record[0] != RECORD_APPLICATION_DATA && record[0] != RECORD_CHANGE_CIPHER_SPEC {
        return Some(UnexpectedType);
      }
      WholeRecord(wire, total);
      RecordKept(t, ks, read, pos, taken, decodedPending, record);
      Reassociate(read, record, left);
      var payload := record[RECORD_HEADER_LEN..];
      decodedPending := decodedPending + Apply(ks, pos, payload);
      pos := pos + |payload|;
      read, wire := read + record, left;
      r := None;
    }

    /** Fills `out` exactly, or fails; no byte is lost or read twice, and what is left over
        is less than one record, if it was so before. */
    method ReadExact(n: nat) returns (r: Result<seq<byte>, ReadError>)
      requires Valid()
      modifies this
      ensures Valid() && read + wire == old(read + wire)
      ensures r.Ok? ==> |r.value| == n && taken == old(taken) + r.value
      ensures r.Err? ==> taken == old(taken)
      ensures r.Ok? && old(|decodedPending|) < U16 ==> |decodedPending| < U16
    {
      while |decodedPending| < n
        invariant Valid() && read + wire == old(read + wire) && taken == old(taken)
        invariant |decodedPending| <= old(|decodedPending|) || |decodedPending| < n + U16
        decreases |wire|
      {
        var failure := ReadRecord();
        if failure.Some? {
          return Err(failure.value);
        }
      }
      HandedOut(t, ks, read, pos, taken, decodedPending, n);
      var out := decodedPending[..n];
      taken, decodedPending := taken + out, decodedPending[n..];
      return Ok(out);
    }
  }

  lemma HandedOut(t: Stack, ks: Keys, read: seq<byte>, pos: nat, taken: seq<byte>, held: seq<byte>, n: nat)
    requires SoundStack(t) && HandshakeLeft(t, ks, read, pos, taken, held) && n <= |held|
    ensures HandshakeLeft(t, ks, read, pos, taken + held[..n], held[n..])
  {
    assert taken + held == (taken + held[..n]) + held[n..];
  }

  lemma WholeRecord(wire: seq<byte>, total: nat)
    requires |wire| >= RECORD_HEADER_LEN && total == RECORD_HEADER_LEN + FromBe16(wire[3..5]) <= |wire|
    requires wire[0] == RECORD_APPLICATION_DATA || wire[0] == RECORD_CHANGE_CIPHER_SPEC
    ensures IsRecord(wire[..total]) && wire[..total] + wire[total..] == wire
  {
    assert wire[..total][3..5] == wire[3..5];
  }

  lemma OneRecordDrains(t: Stack, record: seq<byte>)
    requires ReadsRecords(t) && IsRecord(record)
    ensures Drain(t.records, record, 0) == Drained([record[RECORD_HEADER_LEN..]], [], 0, false)
  {
    DrainUnfolds(t.records, record, 0, t.records.peel(record, 0));
    StartIsDrained(t.records, 0);
    assert record[|record|..] == [];
  }

  lemma RecordJoins(c: Codec, read: seq<byte>, record: seq<byte>, payload: seq<byte>)
    requires Sound(c) && c.next(0) == 0
    requires Drain(c, read, 0).rest == [] && !Drain(c, read, 0).failed
    requires Drain(c, record, 0) == Drained([payload], [], 0, false)
    ensures var d := Drain(c, read + record, 0);
            !d.failed && d.rest == [] && Flatten(d.frames) == Flatten(Drain(c, read, 0).frames) + payload
  {
    var d := Drain(c, read, 0);
    SeqnoStays(c, read, 0);
    DrainInTwo(c, read, record, 0);
    assert d.rest + record == record;
    FlattenConcat(d.frames, [payload]);
    assert Flatten([payload]) == payload;
  }

  /** One more whole record: its deciphered payload goes behind the bytes held. */
  lemma RecordKept(t: Stack, ks: Keys, read: seq<byte>, pos: nat, taken: seq<byte>, held: seq<byte>, record: seq<byte>)
    requires ReadsRecords(t) && IsRecord(record)
    requires HandshakeLeft(t, ks, read, pos, taken, held)
    ensures Kept(t, ks, read, pos, taken, held, record, record[RECORD_HEADER_LEN..])
  {
    var payload := record[RECORD_HEADER_LEN..];
    OneRecordDrains(t, record);
    RecordJoins(t.records, read, record, payload);
    KeptBytes(ks, Flatten(Drain(t.records, read, 0).frames), payload, pos, taken, held);
  }

  lemma KeptBytes(ks: Keys, plain: seq<byte>, payload: seq<byte>, pos: nat, taken: seq<byte>, held: seq<byte>)
    requires taken + held == Apply(ks, 0, plain) && pos == |taken + held|
    ensures taken + (held + Apply(ks, pos, payload)) == Apply(ks, 0, plain + payload)
    ensures pos + |payload| == |taken + (held + Apply(ks, pos, payload))|
  {
    ApplyConcat(ks, 0, plain, payload);
    Reassociate(taken, held, Apply(ks, pos, payload));
  }

  ghost predicate Kept(t: Stack, ks: Keys, read: seq<byte>, pos: nat, taken: seq<byte>, held: seq<byte>,
                       record: seq<byte>, payload: seq<byte>)
    requires SoundStack(t)
  {
    HandshakeLeft(t, ks, read + record, pos + |payload|, taken, held + Apply(ks, pos, payload))
  }
}
