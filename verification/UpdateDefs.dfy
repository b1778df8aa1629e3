/** Data types and constants of ferogram-msgbox: keys, updates, live entries
    (defs.rs) and the adaptor that gives every input one shape (adaptor.rs). */
module UpdateDefs {
  import opened Wrappers

  const NO_SEQ := 0
  const NO_PTS := 0
  const NO_DATE := 0

  // Time is in milliseconds.
  const POSSIBLE_GAP_TIMEOUT: nat := 500
  const NO_UPDATES_TIMEOUT: nat := 900_000

  datatype Key = Common | Secondary | Channel(id: int)

  /** The derived order of `Key`: constructors in declaration order, then ids. */
  predicate KeyLess(a: Key, b: Key) {
    match (a, b)
    case (Common, _) => b != Common
    case (Secondary, _) => b.Channel?
    case (Channel(i), Channel(j)) => i < j
    case (Channel(_), _) => false
  }

  /** Updates grouped by how the adaptor reads their counter. `body` is opaque. */
  datatype Update =
    | CommonUpdate(pts: int, ptsCount: int, body: int)
    | ChannelUpdate(peer: Option<int>, pts: int, ptsCount: int, body: int)
    | ReadChannelInbox(channelId: int, pts: int, body: int)
    | QtsUpdate(qts: int, body: int)
    | ChannelTooLong(channelId: int, knownPts: Option<int>)
    | Plain(body: int)

  datatype PtsInfo = PtsInfo(key: Key, pts: int, count: int)

  function RawPtsInfo(u: Update): Option<PtsInfo> {
    match u
    case CommonUpdate(pts, count, _) => Some(PtsInfo(Common, pts, count))
    case ChannelUpdate(Some(id), pts, count, _) => Some(PtsInfo(Channel(id), pts, count))
    case ChannelUpdate(None, _, _, _) => None
    case ReadChannelInbox(id, pts, _) => Some(PtsInfo(Channel(id), pts, 0))
    case QtsUpdate(qts, _) => Some(PtsInfo(Secondary, qts, 1))
    case ChannelTooLong(id, Some(pts)) => Some(PtsInfo(Channel(id), pts, 0))
    case ChannelTooLong(_, None) => None
    case Plain(_) => None
  }

  /** The counter of an update, unless it is the NO_PTS sentinel. */
  function PtsInfoOf(u: Update): Option<PtsInfo> {
    var info := RawPtsInfo(u);
    if info.Some? && info.value.pts == NO_PTS then None else info
  }

  /** The value the counter must have for the update to apply. */
  function SortKey(u: Update): int {
    match PtsInfoOf(u)
    case Some(info) => info.pts - info.count
    case None => NO_PTS
  }

  function NegatedSortKey(u: Update): int {
    -SortKey(u)
  }

  /** `u` moves the counter of `key`. */
  predicate Bears(u: Update, key: Key) {
    !u.ChannelTooLong? && PtsInfoOf(u).Some? && PtsInfoOf(u).value.key == key
  }

  datatype PossibleGap = PossibleGap(deadline: nat, updates: seq<Update>)

  datatype LiveEntry = LiveEntry(key: Key, pts: int, deadline: nat, possibleGap: Option<PossibleGap>) {
    function EffectiveDeadline(): nat {
      match possibleGap
      case Some(gap) => if gap.deadline < deadline then gap.deadline else deadline
      case None => deadline
    }
  }

  // Inputs

  datatype RawUpdates =
    | TooLong
    | Short(update: Update, date: int)
    | ShortMessage(pts: int, ptsCount: int, date: int, body: int)
    | Updates(updates: seq<Update>, date: int, seqNo: int)
    | UpdatesCombined(combined: Combined)

  datatype Combined = Combined(date: int, seqStart: int, seqNo: int, updates: seq<Update>)

  datatype UpdatesLike =
    | FromSocket(raw: RawUpdates)
    | ConnectionClosed
    | MalformedUpdates
    | AffectedMessages(pts: int, ptsCount: int)
    | AffectedChannelMessages(pts: int, ptsCount: int, channelId: int)
    | SentMessage(pts: int, ptsCount: int, decodedBody: Option<int>, date: int)

  datatype Gap = Gap

  // The update that stands for an "affected messages" reply carries no message.
  const NO_BODY := 0

  function WrapShort(u: Update, date: int): Combined {
    Combined(date, NO_SEQ, NO_SEQ, [u])
  }

  function AdaptUpdates(raw: RawUpdates): Result<Combined, Gap> {
    match raw
    case TooLong => Err(Gap)
    case Short(u, date) => Ok(WrapShort(u, date))
    case ShortMessage(pts, count, date, body) => Ok(WrapShort(CommonUpdate(pts, count, body), date))
    case Updates(us, date, s) => Ok(Combined(date, s, s, us))
    case UpdatesCombined(c) => Ok(c)
  }

  function Adapt(input: UpdatesLike): Result<Combined, Gap> {
    match input
    case FromSocket(raw) => AdaptUpdates(raw)
    case ConnectionClosed => Err(Gap)
    case MalformedUpdates => Err(Gap)
    case AffectedMessages(pts, count) => Ok(WrapShort(CommonUpdate(pts, count, NO_BODY), NO_DATE))
    case AffectedChannelMessages(pts, count, id) =>
      Ok(WrapShort(ChannelUpdate(Some(id), pts, count, NO_BODY), NO_DATE))
    case SentMessage(pts, count, Some(body), date) => Ok(WrapShort(CommonUpdate(pts, count, body), date))
    case SentMessage(pts, count, None, _) => Ok(WrapShort(CommonUpdate(pts, count, NO_BODY), NO_DATE))
  }

  // Answers to the two difference requests

  datatype State = State(pts: int, qts: int, date: int, seqNo: int)

  datatype FullDifference = FullDifference(newMessages: seq<int>, newEncrypted: seq<int>,
                                           otherUpdates: seq<Update>, state: State)

  datatype Difference =
    | DifferenceEmpty(date: int, seqNo: int)
    | Difference(full: FullDifference)
    | DifferenceSlice(full: FullDifference)
    | DifferenceTooLong(pts: int)

  datatype ChannelMessage = ChannelMessage(peer: Option<int>, body: int)

  datatype ChannelDiff = ChannelDiff(isFinal: bool, pts: int, timeout: Option<nat>,
                                     newMessages: seq<ChannelMessage>, otherUpdates: seq<Update>)

  datatype ChannelDifference =
    | ChannelDifferenceEmpty(isFinal: bool, pts: int, timeout: Option<nat>)
    | ChannelDifferenceTooLong(isFinal: bool, dialogPts: Option<int>, timeout: Option<nat>)
    | ChannelDifferenceFull(diff: ChannelDiff)

  /** A too-long answer whose dialog has no counter cannot be applied. */
  function AdaptChannelDifference(d: ChannelDifference): Result<ChannelDiff, Gap> {
    match d
    case ChannelDifferenceEmpty(f, pts, t) => Ok(ChannelDiff(f, pts, t, [], []))
    case ChannelDifferenceTooLong(f, Some(pts), t) => Ok(ChannelDiff(f, pts, t, [], []))
    case ChannelDifferenceTooLong(_, None, _) => Err(Gap)
    case ChannelDifferenceFull(diff) => Ok(diff)
  }

  datatype PrematureEndReason = TemporaryServerIssues | Banned

  datatype ChannelState = ChannelState(id: int, pts: int)

  datatype Snapshot = Snapshot(pts: int, qts: int, date: int, seqNo: int, channels: seq<ChannelState>)
}
