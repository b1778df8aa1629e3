/** How the bytes of a received message are read (ferogram-mtsender's mtp_sender.rs): by
    their constructor, with the length checks of each; what is compressed is inflated. */
module IncomingBodies {
  import opened Wrappers
  import opened Bytes
  import opened Sessions
  import opened Containers
  import opened SenderSteps

  // Constructors
  const RPC_RESULT: u32 := 0xf35c6d01
  const RPC_ERROR: u32 := 0x2144ca19
  const MSG_CONTAINER: u32 := 0x73f1f8dc
  const GZIP_PACKED: u32 := 0x3072cfa1
  const BAD_SERVER_SALT: u32 := 0xedab447b
  const BAD_MSG_NOTIFICATION: u32 := 0xa7eff811
  const NEW_SESSION_CREATED: u32 := 0x9ec20908
  const MSGS_ACK_ID: u32 := 0x62d6b459
  const PONG: u32 := 0x347773c5

  /** What decompression gives, if the bytes are compressed at all. */
  type Inflate = seq<byte> -> Option<seq<byte>>

  function FromLe24(a: nat, b: nat, c: nat): nat {
    a + 256 * b + 65536 * c
  }

  /** A string of bytes behind its length: one byte, or 254 and three bytes. */
  function TlBytes(data: seq<byte>): Option<seq<byte>> {
    if data == [] then Some([])
    else if data[0] < 254 then Sliced(data, 1, data[0])
    else if |data| >= 4 then Sliced(data, 4, FromLe24(data[1], data[2], data[3]))
    else None
  }

  function Sliced(data: seq<byte>, start: nat, len: nat): Option<seq<byte>> {
    if |data| < start + len then None else Some(data[start..start + len])
  }

  predicate Begins(body: seq<byte>, id: u32) {
    |body| >= 4 && FromLe32(body[..4]) == id
  }

  function Inflated(z: Inflate, packed: seq<byte>): Option<seq<byte>> {
    match TlBytes(packed)
    case None => None
    case Some(c) => z(c)
  }

  function OrElse(inflated: Option<seq<byte>>, packed: seq<byte>): seq<byte> {
    if inflated.Some? then inflated.value else packed
  }

  /** The result of a call: inflated if it is compressed and can be, an error if it is one. */
  function ReadOutcome(z: Inflate, result: seq<byte>): Outcome {
    var plain := if Begins(result, GZIP_PACKED) then OrElse(Inflated(z, result[4..]), result) else result;
    if Begins(plain, RPC_ERROR) && |plain| >= 8 then Failure(AsI32(FromLe32(plain[4..8]))) else Reply(plain)
  }

  /** Messages compressed within messages are read down to `depth` levels. */
  function ReadIncoming(z: Inflate, depth: nat, body: seq<byte>): Incoming
    decreases depth, |body|, 2, 0
  {
    if |body| < 4 then Short else ReadBy(FromLe32(body[..4]), z, depth, body)
  }

  function ReadBy(id: u32, z: Inflate, depth: nat, body: seq<byte>): Incoming
    requires |body| >= 4
    decreases depth, |body|, 1, 0
  {
    if id == RPC_RESULT then
      if |body| < 12 then Short else RpcResult(FromLe64(body[4..12]), ReadOutcome(z, body[12..]))
    else if id == MSG_CONTAINER then
      if |body| < 8 then Short else Container(ReadItems(z, depth, FromLe32(body[4..8]), body, 8))
    else if id == GZIP_PACKED then
      var inner := Inflated(z, body[4..]);
      GzipPacked(if inner.Some? && depth > 0 then Some(ReadIncoming(z, depth - 1, inner.value)) else None)
    else if id == BAD_SERVER_SALT then
      if |body| < 28 then Short else BadServerSalt(FromLe64(body[4..12]), FromLe64(body[20..28]))
    else if id == BAD_MSG_NOTIFICATION then
      if |body| < 20 then Short else BadMsgNotification(FromLe64(body[4..12]), FromLe32(body[16..20]))
    else if id == NEW_SESSION_CREATED then
      if |body| < 28 then Short else NewSession(FromLe64(body[20..28]))
    else if id == MSGS_ACK_ID then MsgsAck
    else if id == PONG then
      if |body| < 12 then Short else Pong(FromLe64(body[4..12]), body)
    else Other(body)
  }

  /** At most `count` messages from `pos` on; a cut-off one ends the list. */
  function ReadItems(z: Inflate, depth: nat, count: nat, body: seq<byte>, pos: nat): Items
    requires pos <= |body|
    decreases depth, |body|, 0, count
  {
    if count == 0 then Nil
    else
      match NextAt(body, pos)
      case None => Nil
      case Some(m) =>
        Cons(m.msgId, ReadIncoming(z, depth, m.body), ReadItems(z, depth, count - 1, body, pos + 16 + |m.body|))
  }

  function Reader(z: Inflate, depth: nat): seq<byte> -> Incoming {
    body => ReadIncoming(z, depth, body)
  }

  /** The next message of a container is the first that is read. */
  lemma FirstItem(z: Inflate, depth: nat, left: nat, body: seq<byte>, pos: nat)
    requires left > 0 && pos <= |body|
    ensures var m, items := NextAt(body, pos), ReadItems(z, depth, left, body, pos);
            && (m.None? ==> items == Nil)
            && (m.Some? ==>
                  && pos + 16 + |m.value.body| <= |body|
                  && items == Cons(m.value.msgId, ReadIncoming(z, depth, m.value.body),
                                   ReadItems(z, depth, left - 1, body, pos + 16 + |m.value.body|)))
  {
  }

  /** Dispatching `items` ends in `end`, and then `all` updates have come out, `updates`
      of them before. */
  ghost predicate ToDispatch(st: State, updates: seq<seq<byte>>, items: Items, env: Env, end: State, all: seq<seq<byte>>) {
    DispatchItems(st, items, env) == end && updates + UpdatesAmong(items) == all
  }

  lemma DispatchStarts(st: State, items: Items, env: Env)
    ensures ToDispatch(st, [], items, env, DispatchItems(st, items, env), UpdatesAmong(items))
  {
  }

  lemma DispatchNext(st: State, updates: seq<seq<byte>>, items: Items, env: Env, end: State, all: seq<seq<byte>>)
    requires ToDispatch(st, updates, items, env, end, all) && items.Cons?
    ensures var next := Dispatch(Acked(st, items.id), items.msg, items.id, env);
            ToDispatch(next, updates + UpdatesIn(items.msg), items.rest, env, end, all)
  {
    var first, later := UpdatesIn(items.msg), UpdatesAmong(items.rest);
    assert updates + (first + later) == (updates + first) + later;
  }

  lemma DispatchEnds(st: State, updates: seq<seq<byte>>, env: Env, end: State, all: seq<seq<byte>>)
    requires ToDispatch(st, updates, Nil, env, end, all)
    ensures st == end && updates == all
  {
  }

  // Written bodies are read back

  function Parsed(z: Inflate, depth: nat, ms: seq<Inner>): Items {
    if ms == [] then Nil else Cons(ms[0].msgId, ReadIncoming(z, depth, ms[0].body), Parsed(z, depth, ms[1..]))
  }

  lemma ParsedFirst(z: Inflate, depth: nat, m: Inner, later: seq<Inner>)
    ensures Parsed(z, depth, [m] + later) == Cons(m.msgId, ReadIncoming(z, depth, m.body), Parsed(z, depth, later))
  {
    assert ([m] + later)[1..] == later;
  }

  /** The first that is read, with the place behind it. */
  lemma FirstAndNext(z: Inflate, depth: nat, left: nat, body: seq<byte>, pos: nat) returns (next: nat)
    requires left > 0 && pos <= |body|
    ensures next <= |body| && (NextAt(body, pos).Some? ==> next == pos + 16 + |NextAt(body, pos).value.body|)
    ensures NextAt(body, pos).None? ==> ReadItems(z, depth, left, body, pos) == Nil
    ensures NextAt(body, pos).Some? ==>
              var m := NextAt(body, pos).value;
              ReadItems(z, depth, left, body, pos)
              == Cons(m.msgId, ReadIncoming(z, depth, m.body), ReadItems(z, depth, left - 1, body, next))
  {
    var m := NextAt(body, pos);
    next := if m.Some? then pos + 16 + |m.value.body| else pos;
  }

  /** Both readings of a container, when a message stands at `pos`. */
  lemma ParsedOn(z: Inflate, depth: nat, items: Items, all: seq<Inner>, m: Inner, later: seq<Inner>, rest: Items)
    requires items == Cons(m.msgId, ReadIncoming(z, depth, m.body), rest) && all == [m] + later
    requires rest == Parsed(z, depth, later)
    ensures items == Parsed(z, depth, all)
  {
    ParsedFirst(z, depth, m, later);
  }

  lemma {:induction false} ItemsAreParsed(z: Inflate, depth: nat, count: nat, body: seq<byte>, pos: nat)
    requires pos <= |body|
    ensures ReadItems(z, depth, count, body, pos) == Parsed(z, depth, ReadFrom(count, body, pos))
    decreases count
  {
    if count > 0 {
      NextInner(body, pos, count);
      var next := FirstAndNext(z, depth, count, body, pos);
      if NextAt(body, pos).Some? {
        ItemsAreParsed(z, depth, count - 1, body, next);
        ParsedOn(z, depth, ReadItems(z, depth, count, body, pos), ReadFrom(count, body, pos), NextAt(body, pos).value,
                 ReadFrom(count - 1, body, next), ReadItems(z, depth, count - 1, body, next));
      }
    }
  }

  /** A container is dispatched as the messages it was made of, each with its id. */
  lemma ContainerIsRead(z: Inflate, depth: nat, ms: seq<Inner>)
    requires |ms| < U32 && forall i :: 0 <= i < |ms| ==> Carried(ms[i])
    ensures ReadIncoming(z, depth, Header(|ms|) + AllInner(ms)) == Container(Parsed(z, depth, ms))
  {
    var body := Header(|ms|) + AllInner(ms);
    ContainerRoundTrip(ms, Header(|ms|));
    HeaderSplits(Header(|ms|), AllInner(ms));
    assert body[..4] == Header(|ms|)[..4] == ID_MSG_CONTAINER;
    assert FromLe32(ID_MSG_CONTAINER) == MSG_CONTAINER;
    ItemsAreParsed(z, depth, FromLe32(body[4..8]), body, 8);
  }

  /** A result that is neither compressed nor an error. */
  predicate IsPlain(result: seq<byte>) {
    !Begins(result, GZIP_PACKED) && !Begins(result, RPC_ERROR)
  }

  lemma ResultSplits(id: i64, result: seq<byte>)
    ensures var body := ToLe32(RPC_RESULT) + Le64(id) + result;
            body[..4] == ToLe32(RPC_RESULT) && body[4..12] == Le64(id) && body[12..] == result
  {
  }

  /** The body a server writes for a result is read as that result, for the id it names. */
  lemma ResultIsRead(z: Inflate, depth: nat, id: i64, result: seq<byte>)
    ensures ReadIncoming(z, depth, ToLe32(RPC_RESULT) + Le64(id) + result) == RpcResult(id, ReadOutcome(z, result))
    ensures IsPlain(result) ==> ReadOutcome(z, result) == Reply(result)
  {
    ResultSplits(id, result);
  }

  /** An error comes out with its code, whether it was compressed or not. */
  lemma ErrorIsRead(z: Inflate, code: int, message: seq<byte>, packed: seq<byte>)
    requires AsI32(code % U32) == code
    ensures var error := ToLe32(RPC_ERROR) + ToLe32(code % U32) + message;
            && ReadOutcome(z, error) == Failure(code)
            && (Inflated(z, packed) == Some(error) ==> ReadOutcome(z, ToLe32(GZIP_PACKED) + packed) == Failure(code))
  {
    var error := ToLe32(RPC_ERROR) + ToLe32(code % U32) + message;
    assert error[..4] == ToLe32(RPC_ERROR) && error[4..8] == ToLe32(code % U32);
    assert (ToLe32(GZIP_PACKED) + packed)[..4] == ToLe32(GZIP_PACKED) && (ToLe32(GZIP_PACKED) + packed)[4..] == packed;
  }
}
