/** Message containers: written by the sender (ferogram-connect's util.rs) and read by
    its dispatch (ferogram-mtsender's mtp_sender.rs). */
module Containers {
  import opened Wrappers
  import opened Bytes
  import opened Sessions

  // 0x73f1f8dc, least byte first
  const ID_MSG_CONTAINER: seq<byte> := [0xdc, 0xf8, 0xf1, 0x73]

  datatype Inner = Inner(msgId: i64, seqno: int, body: seq<byte>)

  /** The messages a container can carry: the two 32-bit fields hold them. */
  predicate Carried(m: Inner) {
    AsI32(m.seqno % U32) == m.seqno && |m.body| < U32
  }

  function InnerBytes(m: Inner): (s: seq<byte>)
    ensures |s| == 16 + |m.body|
  {
    Le64(m.msgId) + ToLe32(m.seqno % U32) + ToLe32(|m.body| % U32) + m.body
  }

  function AllInner(ms: seq<Inner>): seq<byte> {
    if ms == [] then [] else InnerBytes(ms[0]) + AllInner(ms[1..])
  }

  /** At most `count` messages; a cut-off one ends the list. */
  function ReadInner(count: nat, s: seq<byte>): seq<Inner>
    decreases count
  {
    if count == 0 || |s| < 16 then []
    else
      var n := FromLe32(s[12..16]);
      if |s| < 16 + n then []
      else [Inner(FromLe64(s[..8]), AsI32(FromLe32(s[8..12])), s[16..16 + n])] + ReadInner(count - 1, s[16 + n..])
  }

  lemma OneInner(m: Inner, more: seq<byte>)
    requires Carried(m)
    ensures var s := InnerBytes(m) + more;
            && s[..8] == Le64(m.msgId) && s[8..12] == ToLe32(m.seqno % U32) && FromLe32(s[12..16]) == |m.body|
            && s[16..16 + |m.body|] == m.body && s[16 + |m.body|..] == more
  {
    var s := InnerBytes(m) + more;
    assert s[12..16] == ToLe32(|m.body| % U32);
  }

  lemma ReadOne(m: Inner, count: nat, more: seq<byte>)
    requires Carried(m) && count > 0
    ensures ReadInner(count, InnerBytes(m) + more) == [m] + ReadInner(count - 1, more)
  {
    OneInner(m, more);
  }

  lemma AllInnerSplits(ms: seq<Inner>, more: seq<byte>)
    requires ms != []
    ensures AllInner(ms) + more == InnerBytes(ms[0]) + (AllInner(ms[1..]) + more)
  {
  }

  /** A container is read back as it was written, whatever follows it. */
  lemma {:induction false} ReadUndoesWrite(ms: seq<Inner>, more: seq<byte>)
    requires forall i :: 0 <= i < |ms| ==> Carried(ms[i])
    ensures ReadInner(|ms|, AllInner(ms) + more) == ms
    decreases |ms|
  {
    if ms != [] {
      var later := AllInner(ms[1..]) + more;
      AllInnerSplits(ms, more);
      ReadOne(ms[0], |ms|, later);
      ReadUndoesWrite(ms[1..], more);
    }
  }

  function Header(count: nat): (h: seq<byte>)
    ensures |h| == 8 && h[4..] == ToLe32(count % U32)
  {
    ID_MSG_CONTAINER + ToLe32(count % U32)
  }

  lemma Appended(out: seq<byte>, a: seq<byte>, b: seq<byte>, c: seq<byte>, d: seq<byte>, later: seq<byte>)
    ensures (out + a + b + c + d) + later == out + ((a + b + c + d) + later)
  {
  }

  lemma OneMoreBuilt(out: seq<byte>, ms: seq<Inner>, i: nat)
    requires i < |ms|
    ensures var m := ms[i];
            (out + Le64(m.msgId) + ToLe32(m.seqno % U32) + ToLe32(|m.body| % U32) + m.body) + AllInner(ms[i + 1..])
            == out + AllInner(ms[i..])
  {
    var m, later := ms[i], AllInner(ms[i + 1..]);
    Appended(out, Le64(m.msgId), ToLe32(m.seqno % U32), ToLe32(|m.body| % U32), m.body, later);
    assert ms[i..][1..] == ms[i + 1..];
  }

  method BuildContainerBody(ms: seq<Inner>) returns (out: seq<byte>)
    ensures out == Header(|ms|) + AllInner(ms)
  {
    out := Header(|ms|);
    ghost var whole := out + AllInner(ms);
    assert ms[0..] == ms;
    for i := 0 to |ms|
      invariant out + AllInner(ms[i..]) == whole
    {
      OneMoreBuilt(out, ms, i);
      out := out + Le64(ms[i].msgId) + ToLe32(ms[i].seqno % U32) + ToLe32(|ms[i].body| % U32) + ms[i].body;
    }
  }

  function ReadBody(body: seq<byte>): seq<Inner> {
    if |body| < 8 then [] else ReadInner(FromLe32(body[4..8]), body[8..])
  }

  /** The message at `pos`, if it is there as a whole. */
  function NextAt(body: seq<byte>, pos: nat): Option<Inner>
    requires pos <= |body|
  {
    if pos + 16 > |body| then None
    else
      var n := FromLe32(body[pos + 12..pos + 16]);
      if pos + 16 + n > |body| then None else Some(InnerAt(body, pos, n))
  }

  function ReadFrom(count: nat, body: seq<byte>, pos: nat): seq<Inner>
    requires pos <= |body|
  {
    ReadInner(count, body[pos..])
  }

  /** `ms` and what can still be read from `pos` on are `all`. */
  ghost predicate ReadSoFar(ms: seq<Inner>, left: nat, body: seq<byte>, pos: nat, all: seq<Inner>) {
    8 <= pos <= |body| && ms + ReadFrom(left, body, pos) == all
  }

  lemma ReadStarts(body: seq<byte>, count: nat)
    requires |body| >= 8 && count == FromLe32(body[4..8])
    ensures ReadSoFar([], count, body, 8, ReadBody(body))
  {
  }

  lemma ReadNext(ms: seq<Inner>, left: nat, body: seq<byte>, pos: nat, all: seq<Inner>)
    requires ReadSoFar(ms, left, body, pos, all) && left > 0
    ensures var m := NextAt(body, pos);
            if m.None? then ms == all
            else ReadSoFar(ms + [m.value], left - 1, body, pos + 16 + |m.value.body|, all)
  {
    NextInner(body, pos, left);
    var m := NextAt(body, pos);
    if m.Some? {
      OneMoreRead(ms, m.value, ReadFrom(left - 1, body, pos + 16 + |m.value.body|));
    }
  }

  lemma ReadEnds(ms: seq<Inner>, body: seq<byte>, pos: nat, all: seq<Inner>)
    requires ReadSoFar(ms, 0, body, pos, all)
    ensures ms == all
  {
  }

  method ReadContainer(body: seq<byte>) returns (ms: seq<Inner>)
    ensures ms == ReadBody(body)
  {
    ms := [];
    if |body| < 8 {
      return;
    }
    var count := FromLe32(body[4..8]);
    var pos: nat := 8;
    ghost var all := ReadBody(body);
    ReadStarts(body, count);
    for i := 0 to count
      invariant ReadSoFar(ms, count - i, body, pos, all)
    {
      ReadNext(ms, count - i, body, pos, all);
      var m := NextAt(body, pos);
      if m.None? {
        return;
      }
      ms := ms + [m.value];
      pos := pos + 16 + |m.value.body|;
    }
    ReadEnds(ms, body, pos, all);
  }

  lemma OneMoreRead(ms: seq<Inner>, m: Inner, later: seq<Inner>)
    ensures (ms + [m]) + later == ms + ([m] + later)
  {
  }

  function InnerAt(body: seq<byte>, pos: nat, n: nat): Inner
    requires pos + 16 + n <= |body|
  {
    Inner(FromLe64(body[pos..pos + 8]), AsI32(FromLe32(body[pos + 8..pos + 12])), body[pos + 16..pos + 16 + n])
  }

  lemma NextInner(body: seq<byte>, pos: nat, count: nat)
    requires pos <= |body| && count > 0
    ensures var m := NextAt(body, pos);
            && (m.Some? ==> pos + 16 + |m.value.body| <= |body|)
            && ReadFrom(count, body, pos)
               == if m.None? then [] else [m.value] + ReadFrom(count - 1, body, pos + 16 + |m.value.body|)
  {
    var left := body[pos..];
    if |left| >= 16 {
      assert left[12..16] == body[pos + 12..pos + 16];
      var n := FromLe32(left[12..16]);
      if 16 + n <= |left| {
        FieldsAt(body, pos, n);
      }
    }
  }

  lemma FieldsAt(body: seq<byte>, pos: nat, n: nat)
    requires pos + 16 + n <= |body|
    ensures var left := body[pos..];
            && left[..8] == body[pos..pos + 8] && left[8..12] == body[pos + 8..pos + 12]
            && left[16..16 + n] == body[pos + 16..pos + 16 + n] && left[16 + n..] == body[pos + 16 + n..]
  {
  }

  lemma HeaderSplits(head: seq<byte>, more: seq<byte>)
    requires |head| == 8
    ensures (head + more)[4..8] == head[4..] && (head + more)[8..] == more
  {
  }

  lemma ReadBehindHeader(ms: seq<Inner>, head: seq<byte>)
    requires forall i :: 0 <= i < |ms| ==> Carried(ms[i])
    requires |head| == 8 && FromLe32(head[4..]) == |ms|
    ensures ReadBody(head + AllInner(ms)) == ms
  {
    HeaderSplits(head, AllInner(ms));
    ReadUndoesWrite(ms, []);
    assert AllInner(ms) + [] == AllInner(ms);
  }

  lemma HeaderReads(count: nat)
    requires count < U32
    ensures FromLe32(Header(count)[4..]) == count
  {
    var n := count % U32;
    assert n == count;
  }

  /** What the sender packs into a container is what a dispatch of it takes out. */
  lemma ContainerRoundTrip(ms: seq<Inner>, head: seq<byte>)
    requires |ms| < U32 && forall i :: 0 <= i < |ms| ==> Carried(ms[i])
    requires head == Header(|ms|)
    ensures ReadBody(head + AllInner(ms)) == ms
  {
    HeaderReads(|ms|);
    ReadBehindHeader(ms, head);
  }
}
