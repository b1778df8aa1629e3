# ferogram in Dafny

A model of the stateful core of ferogram, a Telegram client library, and proofs about it:

- **Updates** (`Update*.dfy`, `MessageBoxes.dfy`, `StableSort.dfy`): the box that orders, buffers and
  deduplicates server updates and hands over to difference requests. `UpdateBox` says on values what every
  operation does; the class in `MessageBoxes` does it in place and is proved to agree. `UpdateSequences` is about
  the numbers of containers, `UpdateAccounts` and `UpdateDifferences` about answers, `UpdateKinds` about single
  updates, `UpdateOperations` about the rest.
- **Bytes on the wire** (`FrameStreams`, `Framing`, `Crc`, `Keystream`, `TlsRecords`, `Pipeline`, `ReadCuts`,
  `FrameSizes`, `SentStreams`, `Capacity`, `Arrival`, `Transports`, `FaketlsHandshake`, `SenderBuffers`): framings,
  stream cipher and TLS records as one pipeline over a buffer of fixed size. What it gives is determined by where
  the reads end; when the cut does not matter is stated exactly. The theory is written once over any sound framing.
- **Messages** (`DequeBuffers`, `Ige`, `Seal`, `Sessions`, `EncryptedSessions`, `SecureChannel`, `Containers`,
  `WireFormats`): sealing and opening, against the protocol's own definition of a frame; message ids, what of the
  server is accepted, all layers put together, and the layout of everything written, byte by byte.
- **Requests** (`Requests`, `SenderSteps`, `SenderRuns`, `SenderIds`, `SenderFailures`, `IncomingBodies`,
  `ClientFrames`, `ClientRuns`, `MtpSenders`): the life of a request from queue to answer as a state machine, where
  its guarantees end, how received bytes are read, what the server reads of all that is written, and the object that
  performs the steps.
- **A connection** (`Inboxes`, `InboxCuts`, `Desks`, `Correspondence`, `LostUpdates`, `Interleavings`, `RoundTrips`,
  `Notices`, `Connections`): reading with processing. Each frame is opened, checked and dispatched as soon as it is peeled and
  the first that fails ends the run; from the server's messages to the sender's state and back, in every cut into
  reads and whatever is sent in between.
- **MarkdownV2** (`Markdown*.dfy`): generator and parser, what each mark means, their round trips and where these
  end, and where entities can lie.
- **Schema recursion** (`RecursiveTypes`) and **arithmetic** (`ModularArithmetic`, `Srp`, `Factorize`).

`dafny verify dfyconfig.toml` checks everything.

## What the proofs found

- The cached deadline of the update box is not always at or below every entry's deadline. An operation keeps it so
  exactly when it passes the test `Keeps` (`TightExactlyWhen`, over runs `TightThroughoutExactlyWhen`). It can fail
  in three ways: a check that finds nothing expired pushes it a full period ahead (ferogram-msgbox/src/lib.rs:447-450,
  run `TheCachedDeadlineCanBeLate`); a channel answer asks for a timeout that ends before it; and, after a timeout
  longer than 900 s, entries start afresh without lowering it (run `AFreshEntryCanBeEarlier`). The bound that holds
  over every run, `ReachableIsBounded`, allows one more timeout.
- A final channel difference ends the wait before its own updates are processed
  (ferogram-msgbox/src/lib.rs:885-907). They all come out only if they continue the counter it names; those below it
  are taken for duplicates and dropped, those behind a hole are buffered: `ChannelDifferenceDeliversExactlyWhen` and
  the example `AFinalDifferenceLosesAnUpdate`.
- A container moves the sequence number only if something comes out of it and no update of it found a gap open. So
  behind a container of repeated updates or of too-long notices alone the next one is refused
  (`NextIsRefusedExactlyWhen`), and so it is behind one that closes every gap but begins with a repeated update
  (`AClosedGapHoldsTheNumberBack`, ferogram-msgbox/src/lib.rs:678-697).
- What a link's label escapes is not given back: the parser takes labels as they stand
  (ferogram-parsers/src/markdown.rs:749-780). `LabelComesBackExactlyWhen` says which links, mentions and emoji come
  back. A quote comes back over whole lines only (`QuotesRoundTrip`, `AQuoteGrowsToItsLine`).
- The read buffer holds 1056768 bytes (ferogram-mtsender/src/mtp_sender.rs:47) while messages of up to 16 MB are
  accepted (ferogram-mtproto/src/encrypted.rs:381-455). Longer ones end the connection with an overflow, in any reads;
  which frame sizes survive every cut into reads is exact in `LettersArriveExactlyWhen`.
- A payload that is refused, for its session, its id, its time or because its id was seen before, ends the connection
  (ferogram-mtsender/src/mtp_sender.rs:407-417 and ferogram-mtsender/src/sender_task.rs:163-205). What is read are
  the letters in front of the first one not acceptable in its turn (`LettersUpToTheFirstRefused`); a server that sends
  one message again has nothing behind it read (`ARepeatedLetterEndsTheRun`).
- A reading step that fails drops the updates of the frames before the failure, whose messages are by then
  acknowledged and remembered (ferogram-mtsender/src/mtp_sender.rs:407-423). So what the client is given depends on
  the cut although what was handled does not: `UpdatesMatterExactlyWhen` says exactly when, and
  `AWrongByteHidesUpdates` gives the streams with a wrong checksum.
- A TLS record that is refused discards the records before it in the same read
  (ferogram-connect/src/tls_record.rs:83-115), so the frames handed on before the failure depend on the cut:
  `CutMattersExactlyWhen` says exactly when, `AHandshakeRecordHidesFrames` is a family of streams.
- Requests are matched to messages by body. An enqueued body equal to that of the acknowledgement sent along takes
  the acknowledgement's id: `MarkedByBodyIsMarkedByPosition` says exactly when this does not happen, `AReplyIsLost`
  is a run.
- A report that names a container's id sends none of its requests again (`ContainerReportRequeuesNone`), although
  ferogram-mtproto/src/encrypted.rs:279-284 keeps that id for it.
- Updates that are passed on while the account waits for its difference come again in the difference
  (`LiveAndDifferencesCount`).
- A too-long notice for the channel inside a final difference takes the wait up again and drops what was buffered
  before it (`ChannelDifferenceDeliversExactlyWhen`).
- The resend queue of the sender is drained but nothing is ever put into it; `Inv` in `SenderRuns` states that.
- Updates of a key that waits for a difference are passed on, not ignored as the comment at
  ferogram-msgbox/src/lib.rs:604-605 says; the model follows the code.
- Message ids stop increasing when the 64-bit counter runs out, and only then (`NextMsgIdIncreases`). Accepted ids
  leave it room (`AcceptedIdsLeaveRoom`); the unchecked ids inside a container need not
  (`AContainerCanExhaustTheIds`).

## Model

| member | source | states |
|---|---|---|
| UpdateReordering.ReorderingIsInvisible | ferogram-msgbox/src/lib.rs:572-692 | Whatever order, repetition and batching updates of one chain arrive in, what has come out for the key is the longest complete prefix of what arrived, each update once and in order; the counter stands at its end and the possible gap holds exactly the rest. |
| UpdateReordering.OrderAndBatchingDoNotMatter | ferogram-msgbox/src/lib.rs:572-692 | Two histories that bring the same updates deliver the same, end at the same counter and buffer the same. |
| UpdateDelivery.DeliveredUpdatesTile | ferogram-msgbox/src/lib.rs:617-689 | On arbitrary inputs, for a key that never becomes due for a difference: each delivered update starts where the last one ended, the delivered counts add up to the growth of the counter, and what is buffered starts above the counter if it did before. |
| UpdateSequences.GateOfContainer | ferogram-msgbox/src/lib.rs:549-571 | A container whose first number is past the next one is refused: the account is queued for a difference if it is tracked, its gap is forgotten, and date, number, every other entry and the channel under way stay. One at or below the last number gives no updates and leaves the box as it was. |
| UpdateSequences.TakenContainer | ferogram-msgbox/src/lib.rs:545-697 | A container that is next, or bears no number, is taken; number and date move to its own, where zero stands for none, exactly when something came out of it and none of its updates left a gap open, and stay otherwise. |
| UpdateSequences.ContainersInLineAreTaken | ferogram-msgbox/src/lib.rs:545-697 | Over any run of containers each of which starts one past the last number in front of it, brings something out and leaves no gap open: every one is taken, and number and date end at the last container's. |
| UpdateSequences.NextIsRefusedExactlyWhen | ferogram-msgbox/src/lib.rs:549-697 | The container behind one that is next is refused exactly when the one in front of it brought nothing out or left a gap open. |
| UpdateSequences.UnresolvedExactlyWhen | ferogram-msgbox/src/lib.rs:678-687 | A batch is marked unresolved exactly when one of its updates, at its turn, finds or leaves updates waiting behind a hole of its counter. |
| UpdateSequences.GapsShowAtTheEnd | ferogram-msgbox/src/lib.rs:573-697 | In a box without gaps, for batches without too-long notices, that is exactly when some counter has a gap in the end. |
| UpdateSequences.AClosedGapHoldsTheNumberBack | ferogram-msgbox/src/lib.rs:678-697 | A container that brings a repeated update and then the missing one: all comes out, no gap is left, the number does not move and the next container is refused. |
| UpdateSequences.FirstOfKey | ferogram-msgbox/src/lib.rs:615-640 | The first update of a counter not known yet comes out and sets the counter to its own. |
| UpdateKinds.OneUpdateSettles | ferogram-msgbox/src/adaptor.rs:477-600 | Each kind of update moves the counter of the account, of the channel it names or the second one by its own count: at its start it comes out, below it is held back, above it is dropped, and nothing else changes. |
| UpdateKinds.OneInputSettles | ferogram-msgbox/src/adaptor.rs:35-245 | Each kind of short container and of reply to an own action does that for the counter it belongs to. |
| UpdateInvariants.DoKeepsStructure | ferogram-msgbox/src/lib.rs:361-999 | Every public operation keeps the structure: gaps are not empty and hold only updates of their own key, the queue has no repeats, holds only tracked keys, and no queued key has a gap. |
| UpdateRuns.ReachableHasStructure | ferogram-msgbox/src/lib.rs:196-257 | The structure holds after any run of public operations from a new or loaded box, so none of the asserts and expects that rely on it fires. |
| UpdateInvariants.DoKeepsBound | ferogram-msgbox/src/lib.rs:311-332 | With a clock that does not go back and timeouts up to `slack` (at least 900 s), every operation keeps the cached deadline within `slack` of each entry's own deadline. |
| UpdateRuns.ReachableIsBounded | ferogram-msgbox/src/lib.rs:311-332 | The deadline bound holds after every run. |
| UpdateRuns.ExpiredEntryIsQueued | ferogram-msgbox/src/lib.rs:421-454 | In every reachable box with nothing queued, a check made `slack` after an entry's deadline queues that entry. |
| UpdateOperations.CheckQueuesTheExpired | ferogram-msgbox/src/lib.rs:421-454 | A check that is due queues exactly the keys whose deadline or gap deadline has passed, in key order, forgets their gaps and changes no other entry. |
| UpdateOperations.NextChannelIsFirst | ferogram-msgbox/src/lib.rs:485-517 | The channel handed out is the first queued one that is not under way. |
| UpdateOperations.AbortEndsTheWait | ferogram-msgbox/src/lib.rs:939-950 | Giving up takes both account keys off the queue, drops what they held back, and moves no counter. |
| UpdateOperations.FailedChannelEndsItsWait | ferogram-msgbox/src/lib.rs:964-999 | A failed channel request takes its channel off the queue with the counter as it was; a banned channel is forgotten, no other is. |
| UpdateOperations.ForcedAndInitialState | ferogram-msgbox/src/lib.rs:366-385 | Setting the state, at login or by force, puts each account counter, date and number at the server's and touches no channel. |
| UpdateTightness.TightExactlyWhen | ferogram-msgbox/src/lib.rs:311-999 | For every public operation on every box with the structure whose cached deadline is at or below every entry's own: it stays so exactly when the operation passes a test on the box and its input. Outside checks and channel answers the test is that the cached deadline is at most 900 s away, or the operation lowers it, or starts no entry afresh. |
| UpdateTightness.TightThroughoutExactlyWhen | ferogram-msgbox/src/lib.rs:196-999 | Over every run from a new or loaded box the cached deadline is tight after every step exactly when each operation passes its test. |
| UpdateTightness.TightUnderShortTimeoutsExactlyWhen | ferogram-msgbox/src/lib.rs:311-332 | When no answer asks for more than 900 s, that is: each check that finds nothing due finds every entry due 900 s later or more, and each channel answer's timeout is no earlier than the cached deadline unless the channel's own deadline was the cached one. |
| UpdateTightness.ResetIsTightExactlyWhen | ferogram-msgbox/src/lib.rs:311-332 | Moving one entry's deadline keeps the cached one tight exactly when the entry held the minimum or its new deadline is not before the cached one. |
| UpdateTightness.PlainAnswerIsTightExactlyWhen | ferogram-msgbox/src/lib.rs:837-935 | For a channel answer without updates the test is on the box before the call: a partial one keeps the cached deadline tight exactly when the channel's own was the cached one or the timeout asked for is no earlier; a final one exactly when the box then wakes a full period from now or no later than the timeout, waking at the earliest other entry if the channel's own was the cached one. |
| UpdateTightness.TheCachedDeadlineCanBeLate | ferogram-msgbox/src/lib.rs:447-450 | A run of two operations after which an entry due at 900.001 s is only looked at after 1800 s. |
| UpdateTightness.AFreshEntryCanBeEarlier | ferogram-msgbox/src/lib.rs:387-397 | A run in which a channel answer asks for an hour and a channel tracked afterwards is due after 900 s, before the box wakes. |
| UpdateRuns.CommonEntryStays | ferogram-msgbox/src/lib.rs:460-466 | Once the account entry exists no run removes it, so the expect in the account request never fires. |
| UpdateDifferences.AccountDifferenceIsExact | ferogram-msgbox/src/lib.rs:707-830 | A full or partial account difference leaves the counter, date and seq at the server's state whatever updates it carries, delivers new messages first and then each account update once in counter order, is never refused as a gap, and ends both account waits exactly when it is a full one. |
| UpdateAccounts.SecondaryAfterDifference | ferogram-msgbox/src/lib.rs:782-830 | After a full or partial account difference the second counter is tracked. If it was asked for it stands at the server's and its updates all came out in order; otherwise its own updates and those held back before take it from the server's to the first missing number, what comes out tiles the way, and exactly what lies above stays held back. |
| UpdateAccounts.CounterAfterDifference | ferogram-msgbox/src/lib.rs:782-830 | The same for either account counter, asked for or not, for counts that are not negative; it stays queued exactly if it was and the difference is a partial one. |
| UpdateAccounts.AnswerWithoutUpdates | ferogram-msgbox/src/lib.rs:723-780 | The empty answer takes over date and number, the too-long one the first counter; either ends both waits, delivers nothing and leaves every other counter and everything held back as it was. |
| UpdateAccounts.NextRequestGoesOn | ferogram-msgbox/src/lib.rs:460-482 | After a partial difference the next account request names the counters and the date of the state that difference came with, the date at least 1. |
| UpdateDifferences.FinishLeavesNothingQueued | ferogram-msgbox/src/lib.rs:347-358 | Finishing takes both account keys off the queue and changes no counter and no other key. |
| UpdateDifferences.ChannelDifferenceDeliversExactlyWhen | ferogram-msgbox/src/lib.rs:837-935 | Any channel difference delivers its new messages first; its own updates all come out, each once and in counter order, exactly when it is a partial one or those in front of the first too-long notice for the channel continue the counter it names without a hole. Counter, queue, deliveries and buffer are what its sorted updates give on their way from that counter: sifted by it, or let through once the channel waits. |
| UpdateDifferences.SiftedTiles | ferogram-msgbox/src/lib.rs:617-646 | What a final difference delivers of its own updates tiles the counter from the one it names to where it ends; what it buffers lies above that, so the others, below the counter at their turn, are dropped. |
| UpdateWaits.LiveAndDifferencesCount | ferogram-msgbox/src/lib.rs:602-614 | While the account awaits its difference, over any run of operations that do not end the wait (batches, slices, channel answers, checks and the rest) and then the full difference: an account update comes out as often as the batches taken and the differences hold it together, so exactly once exactly when they hold it once. |
| UpdateDifferences.AFinalDifferenceLosesAnUpdate | ferogram-msgbox/src/lib.rs:885-907 | The same deletion comes out of a partial channel difference and is dropped from a final one. |
| UpdateSnapshots.LoadThenSave | ferogram-msgbox/src/lib.rs:216-256 | Saving right after loading gives the snapshot back with its channels by rising id, and only that; a snapshot listed that way comes back as it was. |
| UpdateSnapshots.SaveThenLoad | ferogram-msgbox/src/lib.rs:399-418 | Loading a saved box restores every counter except account counters at the sentinel, and queues exactly what it tracks. |
| StableSort.SortSorts | ferogram-msgbox/src/lib.rs:573-573 | The stable sort of the batch orders by key. |
| StableSort.SortPermutes | ferogram-msgbox/src/lib.rs:573-573 | It loses and invents nothing. |
| StableSort.SortIsStable | ferogram-msgbox/src/lib.rs:573-573 | Updates with one key keep their order of arrival. |
| UpdateBox.ListingIsUnique | ferogram-msgbox/src/lib.rs:429-441 | The keys a check queues come in the one order the sorted entries give. |
| MessageBoxes.MessageBoxes.constructor | ferogram-msgbox/src/lib.rs:203-213 | A new box is empty, with the default deadline. |
| MessageBoxes.MessageBoxes.Load | ferogram-msgbox/src/lib.rs:216-256 | Loading a snapshot that names each channel once tracks and queues exactly what it holds, entries sorted by key. |
| MessageBoxes.MessageBoxes.BinarySearch | ferogram-msgbox/src/lib.rs:259-264 | Finds the entry of a key, or where it would stand. |
| MessageBoxes.MessageBoxes.SetEntry | ferogram-msgbox/src/lib.rs:286-291 | Replaces or inserts one entry and touches no other. |
| MessageBoxes.MessageBoxes.PopEntry | ferogram-msgbox/src/lib.rs:304-309 | Removes exactly the entry of the key. |
| MessageBoxes.MessageBoxes.ResetDeadline | ferogram-msgbox/src/lib.rs:311-323 | Moves an entry's deadline; the cached one is recomputed as a minimum exactly when this entry held it. |
| MessageBoxes.MessageBoxes.LeastDeadline | ferogram-msgbox/src/lib.rs:319-322 | The scan returns the least effective deadline, up to the default. |
| MessageBoxes.MessageBoxes.TryBeginGetDiff | ferogram-msgbox/src/lib.rs:334-345 | Queues a tracked key once and drops its gap. |
| MessageBoxes.MessageBoxes.TryEndGetDiff | ferogram-msgbox/src/lib.rs:347-358 | Takes the key off the queue, keeping the order of the others, and restarts its deadline. |
| MessageBoxes.MessageBoxes.SetState | ferogram-msgbox/src/lib.rs:366-385 | Sets both account entries on an empty box. |
| MessageBoxes.MessageBoxes.TrySetChannelState | ferogram-msgbox/src/lib.rs:387-397 | Tracks an unknown channel and leaves a known one alone. |
| MessageBoxes.MessageBoxes.SessionState | ferogram-msgbox/src/lib.rs:399-418 | Returns the snapshot of the box: account counters and all channels in key order. |
| MessageBoxes.MessageBoxes.CheckDeadlines | ferogram-msgbox/src/lib.rs:421-454 | With nothing queued and the cached deadline past, queues the expired keys in order and drops their gaps, or moves the deadline a full period on. |
| MessageBoxes.MessageBoxes.GetDifference | ferogram-msgbox/src/lib.rs:460-482 | Asks for the account difference from the current counters when an account key is queued. |
| MessageBoxes.MessageBoxes.GetChannelDifference | ferogram-msgbox/src/lib.rs:485-517 | Hands out the first queued channel with its counter and remembers it; the counter is always there. |
| MessageBoxes.MessageBoxes.ProcessUpdates | ferogram-msgbox/src/lib.rs:527-700 | The sequence check, the sorted batch, buffering, draining and the new number and date: the object becomes the box, and returns the updates, that the statements about containers and batches are about, for every input. |
| MessageBoxes.MessageBoxes.AbsorbUpdate | ferogram-msgbox/src/lib.rs:617-682 | Applies, drops or buffers one update and drains the buffer behind it. |
| MessageBoxes.MessageBoxes.DrainBuffer | ferogram-msgbox/src/lib.rs:655-677 | Pops the sorted buffer: delivers what fits, drops what is old, stops at the first hole. |
| MessageBoxes.MessageBoxes.ApplyDifference | ferogram-msgbox/src/lib.rs:707-830 | Each kind of account difference turns the object into the box, and returns the updates, that `AccountDifferenceIsExact`, `SecondaryAfterDifference` and `AnswerWithoutUpdates` are about. |
| MessageBoxes.MessageBoxes.ApplyChannelDifference | ferogram-msgbox/src/lib.rs:837-935 | Each kind of channel difference has the specified effect on the channel handed out last. |
| MessageBoxes.MessageBoxes.AbortDifference | ferogram-msgbox/src/lib.rs:939-950 | Gives up every account wait. |
| MessageBoxes.MessageBoxes.ForceResetCommonPts | ferogram-msgbox/src/lib.rs:954-961 | Overwrites the account counters with the server's. |
| MessageBoxes.MessageBoxes.EndChannelDifference | ferogram-msgbox/src/lib.rs:964-999 | Ends a channel wait early; a banned channel is forgotten. |
| FrameStreams.SplitDoesNotMatter | ferogram-mtsender/src/mtp_sender.rs:402-435 | For any sound framing: frames, failure, frame number and remaining bytes depend on the bytes received, not on how they were cut into reads. |
| FrameStreams.AnySplitYieldsThePayloads | ferogram-mtsender/src/mtp_sender.rs:402-435 | Whatever part of an encoded list of payloads has arrived in whatever chunks, the complete ones come out as sent and a proper part of the next frame is left; all bytes give all payloads. |
| FrameStreams.DrainInTwo | ferogram-mtsender/src/mtp_sender.rs:873-1005 | Peeling the buffer once is peeling it in two goes, also across a bad frame; what handling the frames adds is in `Inboxes`. |
| Framing.PeelIsStable | ferogram-mtsender/src/mtp_sender.rs:909-1005 | Bytes that arrive later change neither a complete frame nor a failure, in each framing. |
| Framing.RoundTrip | ferogram-mtsender/src/mtp_sender.rs:803-909 | A frame is read back as written exactly when the framing's length field can carry it: multiples of four below 2^24 words, lengths below 2^31, records below 2^16. |
| Framing.EveryFramingIsSound | ferogram-mtsender/src/mtp_sender.rs:873-1005 | Abridged, intermediate, full and TLS-record framing all meet the framing laws. |
| Framing.AlteredFullFrameIsRejected | ferogram-mtsender/src/mtp_sender.rs:978-986 | A full frame with any one byte altered behind its length is rejected, whatever frame number is expected. |
| Crc.Crc32Ieee | ferogram-connect/src/util.rs:20-35 | The transport's bit-serial program computes the CRC of the register definition. |
| Crc.Crc32Tl | ferogram-tl-parser/src/utils.rs:32-45 | The schema parser's program computes the same function. |
| Crc.RegisterInjective | ferogram-connect/src/util.rs:20-35 | Different registers stay different over any data. |
| Crc.OneByteChangesCrc | ferogram-connect/src/util.rs:20-35 | Changing any one byte of any string changes its CRC. |
| Crc.PolynomialOfIeee | ferogram-connect/src/util.rs:20-35 | The constant is the polynomial of CRC-32 with its bits turned round. |
| Keystream.ApplyTwice | ferogram-crypto/src/obfuscated.rs:57-65 | Deciphering what was enciphered at the same position gives the bytes back. |
| Keystream.ApplyConcat | ferogram-mtsender/src/mtp_sender.rs:443-447 | Deciphering each piece once, in order, is deciphering the whole. |
| TlsRecords.WrapApplicationData | ferogram-connect/src/tls_record.rs:37-47 | Appends the records of the data, in stretches of at most 2^14 bytes. |
| TlsRecords.RecordsRejoin | ferogram-connect/src/tls_record.rs:30-47 | The stretches rejoin to the data and respect the limit of section 5.1 of RFC 8446. |
| TlsRecords.UnwrapRecords | ferogram-connect/src/tls_record.rs:83-115 | Takes the payloads of all complete records and leaves the partial one; fails exactly on a complete record of another type. |
| WireFormats.AbridgedLayout | ferogram-mtsender/src/mtp_sender.rs:803-870 | An abridged frame, byte by byte: the number of words in one byte, or 127 and three bytes, and the payload. |
| WireFormats.IntermediateLayout | ferogram-mtsender/src/mtp_sender.rs:803-870 | An intermediate frame: four bytes of length, lowest first, and the payload. |
| WireFormats.FullFrameLayout | ferogram-mtsender/src/mtp_sender.rs:803-870 | A full frame: length, frame number, payload and the CRC of all in front of it, each number lowest byte first. |
| WireFormats.RecordLayout | ferogram-connect/src/tls_record.rs:30-47 | A record: 17 03 03, the length highest byte first, and the data. |
| Pipeline.RunEnds | ferogram-mtsender/src/mtp_sender.rs:402-562 | The layers below the payloads, for any stack of them, any start and any reads: each read that goes through leaves frames, buffer, record rest and cipher position as the bytes so far determine, and the first bad record, overflow or bad frame ends the run. |
| ReadCuts.ReadsDoNotMatter | ferogram-mtsender/src/mtp_sender.rs:402-562 | With room for every possible read and no refused record: the frames handed on, a failure of the framing, and what is left depend on the bytes, not on the reads. |
| ReadCuts.EveryCutSurvivesExactlyWithRoom | ferogram-mtsender/src/mtp_sender.rs:539-562 | A readable stream survives every cut into reads exactly when every read that can be part of one finds room behind what is buffered. |
| ReadCuts.RefusedRecordEndsTheRun | ferogram-connect/src/tls_record.rs:83-115 | A refused record ends every run; the frames handed on by then lie between those complete one whole read before it and those complete right before it. |
| ReadCuts.CutMattersExactlyWhen | ferogram-connect/src/tls_record.rs:83-115 | With a refused record, two cuts of the same bytes can differ in the frames handed on exactly when a frame is completed within one read before that record. |
| FrameSizes.BytesFitIsTheTest | ferogram-mtsender/src/mtp_sender.rs:47-48 | For streams without records the test on all reads is one inequality a frame: all of it but its last byte, and one read or what is left, fit the buffer. |
| Capacity.RoomExactlyWhenSizesFit | ferogram-mtsender/src/mtp_sender.rs:539-562 | Whether every possible read finds room is a test on the sizes of frames and records, whatever the keys and contents. |
| Arrival.StackEndToEnd | ferogram-mtsender/src/mtp_sender.rs:402-562 | For any stack of layers and frames whose sizes pass the test: whatever part of the sent bytes has arrived, in any reads, the complete bodies come out in order, and all bytes give all bodies with nothing left over. |
| Arrival.StackEndToEndExactlyWhen | ferogram-mtsender/src/mtp_sender.rs:402-562 | A list of frames comes out whole of every cut into reads exactly when its sizes pass the test. |
| Arrival.TooLargeNeverArrives | ferogram-mtsender/src/mtp_sender.rs:539-562 | A frame larger than the buffer is never handed on, nor is any behind it, in any reads. |
| Arrival.HandoffEndToEnd | ferogram-mtsender/src/mtp_sender.rs:138-159 | Bytes the handshake read but did not use are not lost: with the later reads they yield exactly the later frames, in every cut exactly when their sizes pass the test. |
| Transports.EndToEnd | ferogram-mtsender/src/mtp_sender.rs:803-882 | The arrival statement for each of the six transports, with padding where the transport pads, buffer and reads of the sizes in the code. |
| Transports.EndToEndExactlyWhen | ferogram-mtsender/src/mtp_sender.rs:47-48 | On each transport, exactly the receivable messages survive every cut into reads. |
| Transports.ReceivableInBytes | ferogram-mtsender/src/mtp_sender.rs:47-48 | On the five transports without records, receivable means: every encoded frame but its last byte, and one read of up to 65536 bytes, fit 1056768 bytes. |
| Transports.SmallBodiesAreReceivable | ferogram-mtsender/src/mtp_sender.rs:47-48 | Bodies of up to 974836 bytes are receivable on every transport. |
| Transports.AHandshakeRecordHidesFrames | ferogram-connect/src/tls_record.rs:83-115 | FakeTLS frames followed by an empty handshake record come out when it comes in a read of its own, and do not when it comes in theirs. |
| Transports.HandoffToSender | ferogram-mtsender/src/mtp_sender.rs:138-159 | The hand-off statement for every transport. |
| FaketlsHandshake.HandshakeReader.ReadRecord | ferogram-connect/src/frame.rs:295-311 | Reads and deciphers one whole record behind the bytes held; no byte is lost. |
| FaketlsHandshake.HandshakeReader.ReadExact | ferogram-connect/src/frame.rs:282-317 | Hands out exactly the bytes asked for, in order; on an error nothing is handed out and nothing is lost. What is left over stays below one record, so the sender's buffer takes all of it. |
| FaketlsHandshake.RecordKept | ferogram-connect/src/frame.rs:295-304 | One more record keeps the hand-off invariant: bytes taken and held are the deciphered bytes read. |
| FaketlsHandshake.FakeTlsReadsRecords | ferogram-connect/src/frame.rs:295-311 | The record layer of the FakeTLS stack reads records as the handshake does. |
| SenderBuffers.ReadHalf.constructor | ferogram-mtsender/src/mtp_sender.rs:146-159 | The buffer starts with the handshake's left-over bytes, as many as fit. |
| SenderBuffers.ReadHalf.PushDecoded | ferogram-mtsender/src/mtp_sender.rs:539-562 | Appends the bytes, or refuses when they would overflow and changes nothing. |
| SenderBuffers.ReadHalf.Decode | ferogram-mtsender/src/mtp_sender.rs:452-536 | Takes complete records out and deciphers each byte once; a bad record leaves the cipher where it was. |
| SenderBuffers.ReadHalf.IngestRead | ferogram-mtsender/src/mtp_sender.rs:452-536 | Decodes and buffers one read as the pipeline does, in every case, and fails exactly on a bad record or an overflow. |
| SenderBuffers.ReadHalf.ConsumeRead | ferogram-mtsender/src/mtp_sender.rs:430-435 | Shifts the consumed bytes out of the array. |
| SenderBuffers.ReadHalf.PeelNext | ferogram-mtsender/src/mtp_sender.rs:873-880 | Peels the frame at an offset and counts it. |
| SenderBuffers.WriteHalf.FrameMessage | ferogram-mtsender/src/mtp_sender.rs:803-870 | Every transport writes what the pipeline's encoder gives, and moves cipher position and frame number on. |
| DequeBuffers.DequeBuffer.ExtendFront | ferogram-crypto/src/deque_buffer.rs:46-56 | A prepend, whether or not there is room in front. |
| DequeBuffers.DequeBuffer.Clear | ferogram-crypto/src/deque_buffer.rs:39-43 | Empties the buffer and restores the room in front. |
| DequeBuffers.DequeBuffer.Extend | ferogram-crypto/src/deque_buffer.rs:90-99 | An append. |
| Ige.DecryptUndoesEncrypt | ferogram-crypto/src/aes.rs:22-91 | IGE decryption undoes encryption for any block permutation, key and data of whole blocks. |
| Ige.EncryptUndoesDecrypt | ferogram-crypto/src/aes.rs:22-91 | And encryption undoes decryption. |
| Ige.IgeEncrypt | ferogram-crypto/src/aes.rs:22-47 | The in-place loop computes IGE encryption on its slice and changes nothing outside. |
| Seal.EncryptedExactlyWhen | ferogram-crypto/src/aes.rs:22-47 | The encryption gives the blocks that IGE asks for, each from its text and its two neighbours in front, and no other bytes do. |
| Ige.IgeDecrypt | ferogram-crypto/src/aes.rs:67-91 | The in-place loop computes IGE decryption on its slice and changes nothing outside. |
| Seal.PaddingIsLeast | ferogram-crypto/src/lib.rs:155-161 | 12 to 27 bytes of padding, the least of at least 12 that fill the last block. |
| Seal.OpenUndoesSeal | ferogram-crypto/src/lib.rs:171-266 | A sealed message opens to itself on either side's key offset, whatever 0 to 15 bytes of transport padding follow. |
| Seal.OnlySealedFramesOpen | ferogram-crypto/src/lib.rs:192-266 | A frame opens to a plaintext exactly when it is that plaintext sealed, with at most 15 bytes behind it. |
| Seal.SealedExactlyWhen | ferogram-crypto/src/lib.rs:137-185 | MTProto 2.0 frames defined on their own, byte by byte: message key from bytes 8 to 23 of the digest of 32 key bytes and the padded text, key and vector interleaved from the two digests, and the chained blocks. A frame meets that definition exactly when it is what sealing gives, on either side's key offset. |
| Seal.OpensExactlyWhen | ferogram-crypto/src/lib.rs:192-266 | A frame opens to a plaintext exactly when it meets that definition for it, with at most 15 bytes behind. |
| Seal.EncryptDataV2 | ferogram-crypto/src/lib.rs:171-185 | What the in-place sealing leaves in the buffer is a frame as the protocol defines it, with the client's key offset, for the padded contents. |
| Seal.DecryptDataV2 | ferogram-crypto/src/lib.rs:192-266 | The in-place opening succeeds exactly on frames that the protocol defines, with the server's key offset and at most 15 bytes behind, and leaves their text in place; it tells the error cases apart, and a frame rejected before deciphering is unchanged. |
| Sessions.NextMsgIdIncreases | ferogram-mtproto/src/encrypted.rs:139-157 | Message ids are multiples of four and strictly increase exactly until the 64-bit counter runs out, whatever the clock does. |
| WireFormats.IdBearsTheTime | ferogram-mtproto/src/encrypted.rs:139-157 | A message id made from the clock bears the corrected seconds in its upper half and four times the nanoseconds, never zero, in its lower half. |
| Sessions.CorrectedClockAgrees | ferogram-mtproto/src/encrypted.rs:211-229 | After a correction own ids are made from the second the server's id names, and that id lies in the window accepted unless the clocks are 68 years apart. |
| SenderIds.SequenceNumbersCountContent | ferogram-mtproto/src/encrypted.rs:159-173 | Over any list of messages: the sequence number is twice the content-related messages so far, and one more, an odd number, for those that are content-related. |
| WireFormats.EnvelopeLayout | ferogram-mtproto/src/encrypted.rs:254-275 | An envelope, place by place: salt, session, id, sequence number and length, lowest byte first, and the body. |
| Sessions.UnpackUndoesEnvelope | ferogram-mtproto/src/encrypted.rs:381-455 | A message enveloped and padded as the sender does is unpacked to itself exactly when it is acceptable: session, odd id, time window, not seen, length. |
| Sessions.RingIsKept | ferogram-mtproto/src/encrypted.rs:414-426 | The ring of seen ids holds at most 500, all different. |
| Sessions.NoReplay | ferogram-mtproto/src/encrypted.rs:414-426 | A message id that was accepted is refused again for the next 499 others. |
| EncryptedSessions.EncryptedSession.AllocMsgSeqno | ferogram-mtproto/src/encrypted.rs:237-245 | Allocates an id and an odd or even sequence number as specified. |
| EncryptedSessions.EncryptedSession.CorrectTimeOffset | ferogram-mtproto/src/encrypted.rs:211-229 | Takes the server's clock over and never moves the id counter back. |
| EncryptedSessions.EncryptedSession.ResetSession | ferogram-mtproto/src/encrypted.rs:474-489 | A reset zeroes both counters. |
| EncryptedSessions.EncryptedSession.PackBody | ferogram-mtproto/src/encrypted.rs:254-275 | Packs a body into the sealed envelope with the allocated id and number. |
| EncryptedSessions.EncryptedSession.Unpack | ferogram-mtproto/src/encrypted.rs:381-455 | Opens and checks a frame in place, with each error case, and remembers the id. |
| SecureChannel.LettersArePeeled | ferogram-mtsender/src/mtp_sender.rs:873-1005 | Below the checks on messages, on every transport, for letters the buffer is large enough for and any reads: each frame peeled opens to the envelope of the message sent, in order, and none is missing at the end. |
| SecureChannel.LettersArePeeledExactlyWhen | ferogram-mtsender/src/mtp_sender.rs:873-1005 | Exactly the letters whose frame sizes pass the test are peeled from every cut into reads. |
| SecureChannel.ShortLettersAreDeliverable | ferogram-mtsender/src/mtp_sender.rs:47-48 | Messages of up to 974725 bytes pass it on every transport. |
| SecureChannel.LetterIsRead | ferogram-mtsender/src/mtp_sender.rs:565-574 | Opening and unpacking such a frame gives the message exactly when it is acceptable. |
| SecureChannel.PostFits | ferogram-mtsender/src/mtp_sender.rs:803-870 | Every message a client accepts fits every transport's length field. |
| Inboxes.AttendStops | ferogram-mtsender/src/mtp_sender.rs:402-427 | Receiving as the code does it, each frame handled as soon as it is peeled, for any way of handling: each read that goes through leaves buffer, state and updates as the bytes so far determine; the first bad record, overflow, bad frame or refused payload ends the run, and of that read no updates are returned. |
| Inboxes.AttendIsReceive | ferogram-mtsender/src/mtp_sender.rs:402-427 | A run with processing is the run of the layers below with its frames handled in order up to the first that is refused, where it stops. |
| InboxCuts.CutsDoNotMatter | ferogram-mtsender/src/mtp_sender.rs:402-562 | With room and no refused record: how a run ends, which frames were handled and in which state that left the sender depend on the bytes, not on the reads. |
| InboxCuts.DeadEndsTheRun | ferogram-mtsender/src/mtp_sender.rs:407-423 | Whatever ends a run, the updates returned lie between those of the frames complete a whole read before the end shows and those of the frames complete right before it. |
| InboxCuts.UpdatesMatterExactlyWhen | ferogram-mtsender/src/mtp_sender.rs:407-423 | The updates handed to the client depend on the cut of a stream that ends the run, by a bad record, a bad frame or a refused payload, exactly when a frame that holds any is completed within one read before the end shows. |
| InboxCuts.OneReadHidesUpdates | ferogram-mtsender/src/mtp_sender.rs:407-423 | For every stream that goes on and bytes behind it that end the run: two reads return its updates, one read returns none, and the frames were handled either way. |
| LostUpdates.AWrongByteHidesUpdates | ferogram-mtsender/src/mtp_sender.rs:407-423 | So it is for any acceptable letters followed by a full frame one byte of which is wrong, anywhere behind its length. |
| Desks.TakenExactlyWhen | ferogram-mtsender/src/mtp_sender.rs:402-427 | Of messages handled one after the other, those are taken that stand in front of the first not acceptable in its turn. |
| Desks.TakenAreRemembered | ferogram-mtproto/src/encrypted.rs:414-426 | Each message taken is remembered once, in order, and its updates come out in order. |
| Desks.SteadyTest | ferogram-mtproto/src/encrypted.rs:381-455 | When no message corrects the clock or starts the session over, all are acceptable in turn exactly when a test on session, ids, lengths and clock readings alone says so. |
| Desks.RepeatedIsRefused | ferogram-mtproto/src/encrypted.rs:414-426 | A message that comes again is refused, whatever the first copy did. |
| Correspondence.LettersArrive | ferogram-mtsender/src/mtp_sender.rs:402-577 | All layers together, on every transport, for letters the buffer is large enough for: whatever part of the server's bytes has arrived, in any reads, the letters complete by then are handled as their messages alone would be, in order, up to the first that is refused. |
| Correspondence.LettersUpToTheFirstRefused | ferogram-mtsender/src/mtp_sender.rs:402-577 | In every cut of all the bytes: the letters in front of the first that is not acceptable in its turn are opened, dispatched and remembered once, in order, and none behind it; if that is all of them their updates come out in order. |
| Correspondence.LettersArriveExactlyWhen | ferogram-mtsender/src/mtp_sender.rs:402-577 | All letters are read in every cut exactly when their sizes pass the buffer's test and each is acceptable in its turn. |
| Correspondence.LongLettersNeverArrive | ferogram-mtsender/src/mtp_sender.rs:539-562 | A message of 1056768 bytes or more, which the 16 MB limit allows, is not read, nor is any behind it, in any reads. |
| Correspondence.AnAcceptableLetterThatNeverArrives | ferogram-mtproto/src/encrypted.rs:381-455 | Two million zero bytes under an id of 2023 are such a message, and acceptable to a session at that time. |
| Correspondence.ARepeatedLetterEndsTheRun | ferogram-mtsender/src/mtp_sender.rs:407-417 | A server that sends a message again: in every cut nothing behind the first copy is read. |
| Interleavings.OnlyReadsMatter | ferogram-mtsender/src/mtp_sender.rs:244-321 | Whatever the sender enqueues, fills and writes between its reads: frames, failure, bytes kept, updates, ids seen, session id and clock correction are those of the reads alone. |
| Interleavings.LettersAreReadWhileSending | ferogram-mtsender/src/mtp_sender.rs:244-321 | The statement about letters for runs in which the sender works between its reads. |
| Connections.Connection.Process | ferogram-mtsender/src/mtp_sender.rs:565-577 | Opens, checks and dispatches one payload as specified, or refuses it. |
| Connections.Connection.PeelAndProcess | ferogram-mtsender/src/mtp_sender.rs:407-423 | One round of the draining loop: the frame peeled is handled, or why there is none to handle. |
| Connections.Connection.ProcessAll | ferogram-mtsender/src/mtp_sender.rs:402-427 | The draining loop serves what the buffer holds, and returns updates only if nothing fails. |
| Connections.Connection.DrainFrames | ferogram-mtsender/src/mtp_sender.rs:402-427 | Draining shifts out exactly the frames peeled, the failing one included. |
| Connections.Connection.ReadStep | ferogram-mtsender/src/mtp_sender.rs:287-291 | One reading step of the object is one step of the inbox, failures and dropped updates included. |
| Connections.Connection.ReadAll | ferogram-mtsender/src/mtp_sender.rs:287-291 | Reading a list of reads is the inbox's run over them, so the statements about letters are about this object. |
| Connections.Connection.FailAll | ferogram-mtsender/src/mtp_sender.rs:226-235 | After an error every request is answered with it and the buffers are cleared. |
| Connections.Connection.SetStream | ferogram-mtsender/src/mtp_sender.rs:200-222 | A new stream starts the read buffer from what the handshake left over, takes session and seen ids from the new session, makes every request pending and clears the write buffer. |
| Containers.BuildContainerBody | ferogram-connect/src/util.rs:193-205 | Writes the header and the messages. |
| Containers.ReadContainer | ferogram-mtsender/src/mtp_sender.rs:636-666 | Reads the messages, stopping at a cut-off one. |
| Containers.ContainerRoundTrip | ferogram-mtsender/src/mtp_sender.rs:636-666 | What is packed into a container is what a dispatch of it takes out. |
| WireFormats.ContainerLayout | ferogram-connect/src/util.rs:193-205 | A container, place by place: constructor, number of messages, and each message's id, number, length and body where the lengths in front of it put it. |
| WireFormats.AckLayout | ferogram-connect/src/util.rs:175-187 | An acknowledgement, place by place: constructor, vector, number of ids, and each id. |
| IncomingBodies.ContainerIsRead | ferogram-mtsender/src/mtp_sender.rs:636-666 | The bytes of a container are read as the messages it was made of, each under its id and read in turn. |
| IncomingBodies.ResultIsRead | ferogram-mtsender/src/mtp_sender.rs:594-633 | The bytes of a result are read as that result for the id they name, and as the reply itself if it is neither compressed nor an error. |
| IncomingBodies.ErrorIsRead | ferogram-mtsender/src/mtp_sender.rs:603-630 | An error comes out with its code, plain or compressed. |
| Notices.SaltNoticeIsRead | ferogram-mtsender/src/mtp_sender.rs:681-695 | The bytes of a notice about the salt, whatever its fields and whatever follows, are read as the message it names and the new salt. |
| Notices.ReportIsRead | ferogram-mtsender/src/mtp_sender.rs:697-722 | The bytes of a report about a message are read as the message it names and its code. |
| Notices.SessionNoticeIsRead | ferogram-mtsender/src/mtp_sender.rs:724-745 | The bytes of a notice of a new session are read as its salt. |
| Notices.PongIsRead | ferogram-mtsender/src/mtp_sender.rs:749-756 | The bytes of a pong are read as a reply, with all its bytes, to the message it names. |
| Notices.CutNoticesAreShort | ferogram-mtsender/src/mtp_sender.rs:681-756 | A notice cut off in front of the end of its last field is passed over. |
| Requests.ByBodyIsByPosition | ferogram-mtsender/src/mtp_sender.rs:389-399 | Marking by body gives every request the message made from it, even when bodies repeat. |
| Requests.AckInFront | ferogram-mtsender/src/mtp_sender.rs:325-399 | With an acknowledgement in front, the ids land on the right requests exactly when no pending request has the acknowledgement's body. |
| Requests.EveryoneIsMarked | ferogram-mtsender/src/mtp_sender.rs:325-399 | No request stays pending once a message was made for each pending body. |
| SenderRuns.RequestsAreConserved | ferogram-mtsender/src/mtp_sender.rs:184-321 | After every run: each request enqueued is queued or answered, never both; answered at most once; queued in order of arrival; and with no unsent bytes none is marked serialised. |
| SenderRuns.DoKeeps | ferogram-mtsender/src/mtp_sender.rs:184-800 | Each step, a dispatch of nested containers included, keeps that. |
| SenderIds.NoRequestIsLeftBehind | ferogram-mtsender/src/mtp_sender.rs:325-387 | A fill on an empty write buffer leaves no request pending. |
| SenderIds.MarkedByBodyIsMarkedByPosition | ferogram-mtsender/src/mtp_sender.rs:325-399 | A fill marks each request with the id of the message made from it exactly when no pending body equals the acknowledgement's. |
| SenderIds.IdsStayDistinct | ferogram-mtsender/src/mtp_sender.rs:325-399 | Over every run without a session reset the ids in use stay pairwise distinct. |
| SenderIds.ReplyIsUnambiguous | ferogram-mtsender/src/mtp_sender.rs:764-784 | A reply answers the one request that awaits its id. |
| SenderIds.ReplyReachesItsRequest | ferogram-mtsender/src/mtp_sender.rs:325-399 | Fill, write out, reply: a reply to the message made from a request answers that request and no other. |
| SenderFailures.RequeuesExactlyWhen | ferogram-mtsender/src/mtp_sender.rs:787-800 | A report about a message sends a request again exactly when it names the id of a request's own message. |
| SenderFailures.TheOneIsRequeued | ferogram-mtsender/src/mtp_sender.rs:787-800 | With distinct ids that request goes back to pending and every other stays as it is. |
| Notices.NewSaltIsTaken | ferogram-mtsender/src/mtp_sender.rs:681-695 | A letter with the bytes of a notice about the salt, on any transport: the session's salt is the new one, the one request whose message it names is pending again, and nothing else changes but the acknowledgement owed. |
| Notices.ReportIsTaken | ferogram-mtsender/src/mtp_sender.rs:697-722 | A letter with a report: clock or session are corrected by its code, and that request is pending again. |
| Notices.NewSessionIsTaken | ferogram-mtsender/src/mtp_sender.rs:724-745 | A letter with a notice of a new session: its salt is taken over and every request is pending. |
| Notices.PongIsTaken | ferogram-mtsender/src/mtp_sender.rs:749-756 | A letter with a pong answers the one request that awaits it, with the pong's bytes. |
| Notices.RefusedForItsSaltIsSentAgain | ferogram-mtsender/src/mtp_sender.rs:325-387 | From the notice to the server again: in the next frame written the server finds, under the new salt, the body of the request that was refused, at its place behind acknowledgements and resends. |
| Notices.PendingIsWritten | ferogram-mtsender/src/mtp_sender.rs:325-387 | A pending request's body is in the next frame written, under the session's salt. |
| SenderIds.ReceivedIsOwed | ferogram-mtsender/src/mtp_sender.rs:571-574 | A received message is acknowledged if its id is odd, and so is each message packed in it, at any depth, in order and behind what is owed already. |
| SenderFailures.ContainerReportRequeuesNone | ferogram-mtsender/src/mtp_sender.rs:787-800 | A report that names the id of a frame of several messages sends none of its requests again, although packing keeps that id for this. |
| SenderFailures.AReplyIsLost | ferogram-mtsender/src/mtp_sender.rs:325-399 | A run of 2023 from a new sender, of one received message, one request with the body of its acknowledgement and one fill: the request carries the acknowledgement's id, and the reply to its own message answers nobody. |
| SenderFailures.AcceptedIdsLeaveRoom | ferogram-mtproto/src/encrypted.rs:381-455 | Ids of messages accepted on their own leave the counter room while the server's time fits 31 bits. |
| SenderFailures.AContainerCanExhaustTheIds | ferogram-mtproto/src/encrypted.rs:211-229 | Ids inside a container are not checked: a notification under the largest id puts the counter at its end, and the next id is the smallest number. |
| ClientFrames.FillIsRead | ferogram-mtsender/src/mtp_sender.rs:325-387 | From the client to the server: what a fill writes, sealed, framed, enciphered and wrapped, is peeled as one frame, opened on the client's key offset, carries the session's salt and id, and holds the numbered messages collected, in order. |
| ClientFrames.PackerPacks | ferogram-mtsender/src/mtp_sender.rs:362-386 | The packer made of sealing, framing and wrapping never gives an empty frame, so the statements over runs apply to it. |
| ClientFrames.FrameIsRead | ferogram-mtproto/src/encrypted.rs:254-285 | The same for one packed message or container, at any cipher position and frame number. |
| ClientRuns.WritesAreRead | ferogram-mtsender/src/mtp_sender.rs:292-387 | Over every run of enqueues, received messages, fills and partial writes from an empty write buffer, through one cipher and one frame counter: whatever was written so far is peeled by the server to the frames complete in it, each opens to the messages collected by one fill, in order, and once nothing is left to write all fills are read. |
| RoundTrips.RequestIsAnswered | ferogram-mtsender/src/mtp_sender.rs:325-784 | Both ways in one statement: the frame written is read by the server as the messages collected, the request's among them; the letter that carries a result for the id it has there, on any transport, answers that request once, leaves every other as it was and returns no update. |
| RoundTrips.ResultLetterIsReply | ferogram-mtsender/src/mtp_sender.rs:594-633 | A letter with a result's bytes is such a letter. |
| MtpSenders.MtpSender.TryFillWrite | ferogram-mtsender/src/mtp_sender.rs:325-387 | The collecting, numbering and marking loops with sealing and framing compute the specified fill, and move cipher position and frame number on by the frame written. |
| MtpSenders.MtpSender.Pack | ferogram-mtproto/src/encrypted.rs:254-285 | Seals one message and turns it into the transport's wire bytes. |
| MtpSenders.MtpSender.MarkSerialised | ferogram-mtsender/src/mtp_sender.rs:389-399 | Marks the first pending request with the body. |
| MtpSenders.MtpSender.Wrote | ferogram-mtsender/src/mtp_sender.rs:292-310 | Moves the cursor; when all is written, clears the buffer and marks serialised requests as sent. |
| MtpSenders.MtpSender.Resolve | ferogram-mtsender/src/mtp_sender.rs:764-784 | Answers by message id, else by container id, else not at all. |
| MtpSenders.MtpSender.QueueResend | ferogram-mtsender/src/mtp_sender.rs:787-800 | Puts the first request with the id back to pending. |
| MtpSenders.MtpSender.Dispatch | ferogram-mtsender/src/mtp_sender.rs:580-761 | The bytes of every kind of message, by constructor and with its length check, have the effect of the message they are read as (`ResultIsRead`, `SaltNoticeIsRead` and the other reading laws), and the updates among them are returned. |
| MtpSenders.MtpSender.DispatchContainer | ferogram-mtsender/src/mtp_sender.rs:636-666 | The loop over a container acknowledges and dispatches each message up to a cut-off one. |
| MtpSenders.MtpSender.DispatchResult | ferogram-mtsender/src/mtp_sender.rs:594-633 | Inflates a compressed result, tells an error from a reply and answers the request named. |
| MtpSenders.MtpSender.ProcessPayload | ferogram-mtsender/src/mtp_sender.rs:565-577 | Opens a frame in place, checks, acknowledges and dispatches its message; a frame that is refused changes nothing but, at most, the ids seen, and those as specified. |
| MtpSenders.MtpSender.SetStream | ferogram-mtsender/src/mtp_sender.rs:200-222 | All requests go back to pending and the buffers are cleared. |
| MtpSenders.MtpSender.FailAll | ferogram-mtsender/src/mtp_sender.rs:226-235 | Answers every request with the failure and clears the buffers. |
| MtpSenders.MtpSender.Enqueue | ferogram-mtsender/src/mtp_sender.rs:184-194 | Appends a pending request. |
| MarkdownRoundTrip.MarkdownRoundTrips | ferogram-parsers/src/markdown.rs:260-816 | For every text and every list of spans on character boundaries and apart from each other, of any style, code, preformatted with its language, link, mention or custom emoji with any 64-bit id: parsing what was generated gives text and spans back. Labels hold no character that is escaped; an address holds no closing parenthesis and does not name a user; code holds no backtick; a block holds no fence, ends in no empty line, and its language is one trimmed line without a fence. |
| MarkdownSpans.SpanParses | ferogram-parsers/src/markdown.rs:323-458 | What is written for one such span is parsed as that span, wherever it stands and whatever calm text follows. |
| MarkdownLinks.LabelComesBackExactlyWhen | ferogram-parsers/src/markdown.rs:722-816 | A link, mention or custom emoji behind any text comes back exactly when its label holds no character that is escaped and, for a link, its address holds no closing parenthesis and does not name a user. |
| MarkdownQuotes.QuotesRoundTrip | ferogram-parsers/src/markdown.rs:283-321 | For every text and every list of quotes over whole lines, touching ones of different kinds: parsing what was generated gives the text and the quotes back, each over exactly its lines and expandable or not as it was. |
| MarkdownQuotes.AQuoteGrowsToItsLine | ferogram-parsers/src/markdown.rs:672-684 | A quote over the first part of a single line comes back over the whole line. |
| MarkdownMarks.StyleMarks | ferogram-parsers/src/markdown.rs:420-447 | The marks in so many words: * is bold, _ italic, __ underline, ~ strike, two bars spoiler, around any text that is escaped. |
| MarkdownMarks.QuoteMarks | ferogram-parsers/src/markdown.rs:283-321 | > in front of a line quotes it, **> makes the quote expandable. |
| MarkdownMarks.LinkMark | ferogram-parsers/src/markdown.rs:749-816 | [label](address) is a link to that address over that label. |
| MarkdownMarks.MentionMark | ferogram-parsers/src/markdown.rs:789-803 | [label](tg://user?id=N) is a mention of user N, for all 64-bit N. |
| MarkdownMarks.EmojiMark | ferogram-parsers/src/markdown.rs:722-744 | ![label](tg://emoji?id=N) is custom emoji N. |
| MarkdownMarks.BlockMark | ferogram-parsers/src/markdown.rs:329-365 | Three backticks, a language, a line break, text, a line break and three backticks are that text preformatted in that language. |
| MarkdownMarks.CodeMark | ferogram-parsers/src/markdown.rs:367-387 | A text between backticks is code. |
| MarkdownRoundTrip.EscapingRoundTrips | ferogram-parsers/src/markdown.rs:488-510 | With no spans: escaping any text and parsing it gives the text. |
| MarkdownRoundTrip.PrintedParses | ferogram-parsers/src/markdown.rs:260-469 | Parsing the printed form of pieces yields their text and spans and leaves no tag open. |
| MarkdownRoundTrip.EmitsPrinted | ferogram-parsers/src/markdown.rs:582-709 | The generator's single pass with sorted insertions writes exactly that printed form. |
| MarkdownParser.EveryEntityIsWithin | ferogram-parsers/src/markdown.rs:260-469 | For every input, every entity has a non-negative length and begins and ends on character boundaries of the text (section 2.1 of RFC 2781). |
| MarkdownParser.StepAdvances | ferogram-parsers/src/markdown.rs:284-457 | Each step of the scan moves forward and stays in the text, so every input is parsed. |
| MarkdownScan.ParseMarkdownV2 | ferogram-parsers/src/markdown.rs:260-469 | The scan with its inner loops computes the parse that the round trips, `MarkdownMarks` and `EveryEntityIsWithin` are about. |
| MarkdownScan.ToggleTag | ferogram-parsers/src/markdown.rs:471-486 | Closes the innermost open tag of the style, or opens one. |
| MarkdownScan.TryCode | ferogram-parsers/src/markdown.rs:329-387 | Takes a code block or inline code when it is closed. |
| MarkdownScan.TryEmoji | ferogram-parsers/src/markdown.rs:722-744 | Takes a custom emoji when its address is one. |
| MarkdownScan.TryLink | ferogram-parsers/src/markdown.rs:749-816 | Takes a link or mention with balanced brackets, as the link step does that `LinkMark` and `LabelComesBackExactlyWhen` are about. |
| MarkdownGenerator.GenerateMarkdownV2 | ferogram-parsers/src/markdown.rs:582-709 | The generator's loops compute the specified output for all kinds of entities. |
| RecursiveTypes.SelfRefs | ferogram-tl-gen/src/metadata.rs:94-118 | The search ends because the ids not visited shrink; it returns a path to the root's type, or has explored everything it visited. |
| RecursiveTypes.IsSelfContaining | ferogram-tl-gen/src/metadata.rs:60-77 | The search from a definition is exact: it finds something exactly when the definition's own type is reachable. |
| RecursiveTypes.Metadata.Build | ferogram-tl-gen/src/metadata.rs:27-77 | For distinct constructor ids, a definition is marked recursive exactly when it contains itself. |
| RecursiveTypes.ContainsItselfIffOnCycle | ferogram-tl-gen/src/metadata.rs:75-77 | Containing oneself is lying on a cycle of containment. |
| RecursiveTypes.CyclesAreRecursive | ferogram-tl-gen/src/metadata.rs:75-77 | Every definition on a cycle is recursive, so containment among the others has no cycle. |
| Srp.SecretsAgree | ferogram-crypto/src/srp.rs:84-156 | Client and server arrive at the same secret for all exponents, generators and moduli, also when the client's difference is negative (section 2.6 of RFC 5054). |
| Srp.ServerAcceptsTheProof | ferogram-crypto/src/srp.rs:84-156 | The proof sent is the one the server expects, whose verifier, secret and proof are written out from the protocol without the client's functions, for every password, salt and choice of exponents, with a prime of up to 256 bytes. |
| Srp.PaddingKeepsTheValue | ferogram-crypto/src/srp.rs:45-50 | Padding to 256 bytes keeps the value of up to 256 bytes. |
| Srp.PadTo256 | ferogram-crypto/src/srp.rs:45-50 | The array copy computes the padding. |
| Srp.Xor32 | ferogram-crypto/src/srp.rs:52-58 | The loop computes the bytewise exclusive or. |
| Factorize.Gcd | ferogram-crypto/src/factorize.rs:15-22 | The common divisors of the arguments are exactly the divisors of the result. |
| Factorize.ModPow | ferogram-crypto/src/factorize.rs:24-38 | Computes the power modulo m; no product leaves 128 bits. |
| Factorize.FactorizeWith | ferogram-crypto/src/factorize.rs:44-88 | Whatever pair is found multiplies to the input, through divisors found in either loop. |
| Factorize.FactorizeNumber | ferogram-crypto/src/factorize.rs:96-106 | From 3 on, every answer satisfies 1 < p <= q < pq and p q = pq. |

## Left out

- Users and chats that travel with updates: they are passed through beside the updates and decide nothing.
- The clock is read once per operation, in milliseconds, and passed in; several readings inside one call of the
  update box, and nanoseconds there, are not told apart. The sender passes every reading of a step.
- Counters of the update box (pts, qts, seq) and sequence numbers are unbounded; 32-bit overflow is not modelled.
- Rebuilding a sent message from its request (ferogram-msgbox/src/adaptor.rs:243-381) gives an opaque update.
- Several channel differences outstanding at once: the box remembers one channel, as the code does, and the
  statements about a channel difference are about that one.
- LiveAndDifferencesCount: counts updates by value; that a new message of the difference is the same as one in a
  live update is not known to the box, which compares neither.
- Load: requires that the snapshot names no channel twice, because the box is modelled as a map from keys; the code
  would keep two entries for that channel and look up either.
- DeliveredUpdatesTile: is about keys that do not become due for a difference; a difference moves the counter itself.
- Compression: what inflates is a parameter.
- Dispatch: reads messages compressed within messages down to a given depth, because inflated bytes need not get
  fewer; of an RPC error it keeps the code and not the text.
- ProcessPayload: reads bodies by Dispatch, within the same depth.
- SetStream: the ping timer and the list of future salts are not modelled.
- WritesAreRead: is about one stream; a new one starts cipher and frame counter over.
- One random number and one wall clock reading per received payload, however many messages it contains; the readings
  are given payload by payload.
- AES, SHA, HMAC and PBKDF2 are parameters: a block cipher whose two directions undo each other, and any functions.
- The stream ciphers of the two directions are position-indexed key streams; their keys are parameters, and locking
  always succeeds.
- The key id of an authorization key is a field of the key; how it is derived is not modelled.
- Sockets, timeouts, pings' timing, metrics, logging, connection pools and retry loops.
- Markdown V1, the rich parsers and HTML; of MarkdownV2 the round trip of nested and adjacent spans and of quotes
  that hold spans.
- QuotesRoundTrip: is about quotes alone, given by the characters they hold.
- CounterAfterDifference: requires counts that are not negative for a counter that was not asked for; a negative one
  would take the counter back.
- ParseMarkdownV2: keeps the characters still to read instead of an index into all of them.
- IsSelfContaining: requires distinct constructor ids, because the search remembers ids.
- Flags without users in the schema metadata (ferogram-tl-gen/src/metadata.rs:38-58).
- FactorizeWith: takes a bound on the batches tried, because for odd inputs below 13 the search does not end.
- Doubling of the batch size in the factorization is unbounded; it would take 128 rounds to leave 128 bits.
- ServerAcceptsTheProof: requires a prime of up to 256 bytes, because longer values are cut when padded.
