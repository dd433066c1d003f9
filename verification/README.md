# Formal model of the agent's hard parts

A Dafny 4.11 model of four parts of the repository, with proofs of what they promise. `dafny verify dfyconfig.toml`
checks everything.

**Vision stream framing.** A writer frames the first bytes of a connection as
`[user id once][command][content length][padding length][content][padding]`, decides when padding ends and whether both
ends go over to direct copy, and the reader at the other end parses the stream at whatever boundaries the network cuts it.

| file | what it holds |
|---|---|
| `ByteStrings.dfy` | bytes, pooled buffers, multi-buffers |
| `TlsRecords.dfy` | whole application-data records |
| `TlsFilter.dfy` | the packet filter and its mode flags |
| `FilterRuns.dfy` | what the filter knows after any run, on the bytes |
| `VisionFrame.dfy` | frames, padding lengths, reshaping |
| `VisionParser.dfy` | the resumable parser |
| `VisionState.dfy` | the state both directions share |
| `VisionReader.dfy` | the reader, and runs of it |
| `VisionPlan.dfy` | which pieces are framed, how, and when padding ends |
| `VisionWriter.dfy` | the writer and its run invariant |
| `VisionStream.dfy` | both ends together |
| `VisionHeaderCut.dfy` | the cut inside a header that loses sync |
| `VisionEndpoint.dfy` | reader and writer of one end on their shared state |

**Secure channel.** `ReplayWindow.dfy` has the 64-bit sliding window, `SecureSession.dfy` nonces, envelopes, key assignment
and delivery over a network that loses, repeats and reorders. AES-GCM is a pair of functions of which only
`open(seal(x)) = x` and the 16 bytes that sealing adds are assumed, where a lemma says so; HKDF is a function without any assumption but the length of its
output; the X25519 secret is a parameter.

**Connection limiter.** `ConnAdmission.dfy` models admission at the granularity of the atomic instructions, in every
interleaving. `ConnTracking.dfy` and `ConnRegistry.dfy` have the interrupt functions of each group, `RateBuckets.dfy` and
`InboundLimiter.dfy` the buckets and the live reconfiguration, `LimitsInForce.dfy` and `LimiterRuns.dfy` what that means
for users, limits and addresses, `LateTracking.dfy` what a synchronisation misses that comes
between letting a connection in and tracking it.

**Configuration algorithms.** `ConfigMerge.dfy` and `RoutingRules.dfy` have the template merge and the rule order,
`RuleSignatures.dfy` what the signature of a rule tells apart,
`ClientList.dfy` and `TagDedupe.dfy` client lists and tag deduplication, `DedupeLoss.dfy` and `DedupeSound.dfy` what
deduplication does to clients (`DedupeShapes.dfy` is what both need), `OutboundReorder.dfy` the reordering, `LogTail.dfy`
the backward tail and `FeatureResolution.dfy` the feature resolver. `Json.dfy` and `Filters.dfy` are shared.

## How to read it

A loop of the source is a method with a loop, proved against a function; an object whose methods update it is a class.
What the source promises is then proved about the functions, over all inputs or all runs. Where a promise holds only under
a condition, the lemma says "if and only if" and the condition is a predicate on the inputs; where it fails, a lemma gives
an input.

Choices the source leaves to its environment are nondeterministic or parameters: the padding draw, the bytes a pooled
buffer held before, the order in which maps are visited, `fmt.Sprint` on a value, the results of callbacks.

`Frame`, `Buffer` and `Feature` are subset types for what the source relies on: a frame fits its buffer, a buffer holds at
most 8192 bytes, a feature implements the type it announces. The stream lemmas are about every history of calls that did
not panic; which seeds can make a call panic is itself a lemma. They assume that the filter budget a reader finds is
only ever spent, which `VisionEndpoint.Endpoint` proves of every run of reads and writes on one state, and say with
`OpensWith` and `CleanCut` what they assume of the cutting, which the lemmas prove to be exactly what is needed. While there
is padding, a multi-buffer given to the writer is a single nil or has no nil in it: on any other mixture the record test of
the source dereferences a nil pointer. Emails of users are distinct and free of `|` where a lemma says `SoundUsers`.

## Where the code and its documentation differ

The model follows the code.

- The comment on `dedupeTaggedArrayInPlace` (management_handler.go:2120-2128) promises that no user is lost. Clients of a
  copy are lost if the first inbound of the tag has no settings, if the deciding protocol is not known or lists clients under
  another key than the first's, or if it identifies them by another field: `DedupeLoss.SafeFromLossExactly`. In the
  last case clients with one identity can also come together in one list: `DedupeSound.DedupeIsSoundExactly`.
- The comment on `mergeXrayConfig` (main.go:1068-1073) says that existing rules without a marktag of the template's are
  appended behind the template's. The code also drops those with the signature of a template rule, which is printed from
  13 keys (`ConfigMerge.RuleSurvivesExactly`), and sorts all by priority.
- The comment on that sort (main.go:1185-1187) says that the order agrees with the one that adding a rule gives at run time.
  At run time a rule goes to the front of its class, and after the next start it stands behind the template's rules of the
  class: `ConfigMerge.RestartKeepsAddedRule` has the exact condition.
- The comment on `matchClientCredential` (management_handler.go:3121-3124) calls two clients the same if either key or email
  agrees. The code looks at the email only if one of them has no primary key: `ClientList.MatchIsEitherExactly`,
  `ClientList.OneEmailTwoIds`.
- The reader's verdict after a batch (proxy.go:244-253) does not look at the header countdown. A read that ends inside the
  header of a terminal frame can end parsing early: `VisionHeaderCut.HeaderCutLosesSync`.
- The replay window (securechan.go:228-252) records a number before its envelope has been opened, where section 4.1.2.6 of
  RFC 6347 wants that done only after authentication. What that means for delivery is `SecureSession.DeliveryAmidAnything`.
- The comment on `SyncInboundLimiter` (limiter.go:218-229) promises that new limits reach open connections at once. A
  connection that stays open through two collections of the online users, without another from its email, loses its
  bucket to the clean-up: `RateBuckets.LiveConnectionsFollow`, `RateBuckets.IdleConnectionIsMissed`. While an automatic limit is in
  force that cannot happen (`RateBuckets.AutoLimitHolds`), unless the users bring a limit of their own for the email.
- The comment on `activeConnKickers` (limiter.go:51-53) promises that the connections of a disabled user are interrupted at
  once. One that has been let in but is not tracked yet is missed, by later synchronisations too:
  `LateTracking.LiveIsConfigured`, `LateTracking.DisabledInBetween`.
- Groups are shared by all inbounds, so a synchronisation of one can interrupt connections of a group that another still
  has: `RateBuckets.SparesConfiguredExactly`.
- The tail of a log can be short if the file ends in several newlines: `LogTail.TailExactly`,
  `LogTail.TrailingNewlinesHideLines`.

## Model

| member | source | states |
|---|---|---|
| `TlsRecords.IsCompleteRecord` | xray-core/proxy/proxy.go:412-463 | The byte-counting loop over all buffers answers true exactly if the bytes, however they are split over buffers, are zero or more whole application-data records |
| `TlsRecords.WholeRecordsParse` | xray-core/proxy/proxy.go:412-463 | Whatever is accepted can be cut into payloads of 1 to 65535 bytes whose printed records give the bytes back |
| `TlsRecords.RecordsAreWhole` | xray-core/proxy/proxy.go:412-463 | The converse: every concatenation of printed records is accepted |
| `TlsFilter.XtlsFilterTls` | xray-core/proxy/proxy.go:624-675 | The loop over a multi-buffer, with its early returns, computes the filter state of which the next rows say what it is; the cipher bytes behind the end of a buffer may be anything |
| `TlsFilter.FilterIsSafe` | xray-core/proxy/proxy.go:624-675 | Over any multi-buffer: XTLS is enabled only on a connection seen to speak TLS 1.2 or later, the flags are never taken back and the packet budget never grows |
| `TlsFilter.FilterStaysOver` | xray-core/proxy/proxy.go:651-671 | Once filtering is over, the buffers that follow in the same call do not change the state |
| `FilterRuns.BudgetOfBuffers` | xray-core/proxy/proxy.go:624-675 | Over any multi-buffer: filtering ends if and only if some buffer, of a server hello that it opens or that was under way, brings the last byte or names TLS 1.3 in its part; then the budget is zero, and otherwise it has gone down by the number of entries that are not nil |
| `FilterRuns.FlagsOfBuffers` | xray-core/proxy/proxy.go:629-649 | The TLS 1.2 flag is set exactly by a server hello and the TLS flag exactly by a server or client hello among the entries up to that one; the cipher is that of the latest server hello of which 79 bytes or more are there and announced |
| `FilterRuns.XtlsOfBuffers` | xray-core/proxy/proxy.go:651-666 | XTLS is enabled exactly by a hello that names TLS 1.3 under one of the suites 0x1301 to 0x1304 |
| `FilterRuns.RunBudget` | xray-core/proxy/proxy.go:357-359 | Over any run of calls the filter stays on if and only if no buffer has settled a server hello and there have been fewer buffers than the budget, and then every buffer has cost one packet |
| `FilterRuns.RunFlags` | xray-core/proxy/proxy.go:357-359 | The flags after any run are those of one pass over the entries of the calls made while there was budget |
| `FilterRuns.NoHelloRunsOut` | xray-core/proxy/proxy.go:142-172 | On a new connection without a server hello each of the first eight buffers costs a packet, TLS 1.2 is never assumed, and TLS only after a client hello |
| `VisionFrame.PaddingNeverNegative` | xray-core/proxy/proxy.go:501-527 | For which seeds, among those with positive ranges, no content length and no draw give a negative padding length, int32 wrap-around included: an if-and-only-if on the four seeds |
| `VisionFrame.PaddingNeverPanics` | xray-core/proxy/proxy.go:501-527 | For which of all seeds neither a draw nor a length can make the padding panic: an if-and-only-if |
| `VisionFrame.NegativePadding` | xray-core/proxy/proxy.go:501-527 | For every other choice of seeds with positive ranges, a content length and a draw that do give a negative length |
| `VisionFrame.DefaultSeedsAreSafe` | xray-core/proxy/proxy.go:307-313 | The default seeds are among the safe ones |
| `VisionFrame.PaddingIsSafe` | xray-core/proxy/proxy.go:501-527 | With safe seeds content and padding together always fit one buffer beside 21 bytes of overhead |
| `VisionFrame.PaddedTo` | xray-core/proxy/proxy.go:501-527 | With safe seeds long padding makes content and padding together as long as draw plus base, whatever the content, short padding adds the draw, and neither goes beyond what a buffer holds |
| `VisionFrame.FrameLayout` | xray-core/proxy/proxy.go:528-536 | Command, two-byte length of the content, two-byte length of the padding, content, padding |
| `VisionFrame.XtlsPadding` | xray-core/proxy/proxy.go:501-537 | For all seeds: it panics exactly if the range is zero or the length that the draw gives is negative; otherwise the buffer is the user id, once, followed by one encoded frame with the given command, exactly the given content and the padding length of the draw, and it fits 8192 bytes |
| `VisionFrame.ReshapeMultiBuffer` | xray-core/proxy/proxy.go:466-498 | The result is the piecewise cut of every buffer: the byte stream is unchanged and every piece leaves room for 21 bytes |
| `VisionFrame.ReshapedPieces` | xray-core/proxy/proxy.go:466-498 | Pieces of non-empty buffers are never empty and none is nil |
| `VisionFrame.ReshapeKeepsBytes` | xray-core/proxy/proxy.go:466-498 | No reshaping loses, adds or moves a byte |
| `VisionFrame.CutAtLastStart` | xray-core/proxy/proxy.go:478-486 | A buffer of 8171 bytes or more is cut at its last record start 17 03 03 if that is between 21 and 8171, and otherwise at 4096; a shorter one is not cut |
| `VisionFrame.ReshapedAppend` | xray-core/proxy/proxy.go:477-494 | Each buffer is cut for itself and the pieces keep the order |
| `VisionParser.XtlsUnpadding` | xray-core/proxy/proxy.go:540-621 | The resumable loop, with its bulk copies, is the byte-wise parser: same final position and same output from every position and for every chunk |
| `VisionParser.ReadPiece` | xray-core/proxy/proxy.go:570-621 | Every turn of the loop consumes at least one byte and keeps output plus remaining input equal to what the byte-wise parser gives |
| `VisionParser.FeedAppend` | xray-core/proxy/proxy.go:540-621 | Parsing two byte strings after one another is parsing their concatenation |
| `VisionParser.FeedFrame` | xray-core/proxy/proxy.go:501-621 | Round trip for one frame: the parser outputs exactly its content and is then at the next header, or idle after a terminal command |
| `VisionParser.FeedFrames` | xray-core/proxy/proxy.go:501-621 | Round trip for a list of frames of which at most the last is terminal |
| `VisionParser.FeedStream` | xray-core/proxy/proxy.go:501-621 | Frames and then raw bytes come out as contents and raw bytes |
| `VisionParser.ChunksDoNotMatter` | xray-core/proxy/proxy.go:540-621 | If no chunk that reaches an idle parser looks like an opening, the way the stream is cut into chunks changes neither the final position nor the output |
| `VisionParser.SplitChunk` | xray-core/proxy/proxy.go:540-621 | Cutting one chunk in two changes nothing, provided the test for the user id comes out the same |
| `VisionParser.UnpadShrinks` | xray-core/proxy/proxy.go:540-621 | Unpadding keeps the parser position valid and never outputs more bytes than it got; an opening costs bytes |
| `VisionState.TrafficState.constructor` | xray-core/proxy/proxy.go:142-172 | Both directions start padding, not parsed and not in direct copy, with a consistent filter |
| `VisionReader.VisionReader.ReadMultiBuffer` | xray-core/proxy/proxy.go:203-288 | One read gives the link and the bytes that the batch function prescribes, spends the filter budget only when it parses or filters, and leaves the other direction alone |
| `VisionReader.VisionReader.UnpadBuffers` | xray-core/proxy/proxy.go:229-242 | The loop over the chunks drops empty results and loses nothing else |
| `VisionReader.ReaderExact` | xray-core/proxy/proxy.go:203-288 | Over any run of reads with a budget that is only spent, the reader outputs what the frame stream says if and only if the cut is clean: no batch starts inside a terminal header with nothing left to make the reader parse it, and no later chunk looks like an opening |
| `VisionReader.CleanRun` | xray-core/proxy/proxy.go:203-288 | On a clean cut the reader's mode always follows from its position in the stream |
| `VisionReader.MisjudgedRun` | xray-core/proxy/proxy.go:244-253 | A batch that starts at a misjudged header position goes through raw and outputs too many bytes |
| `VisionReader.ReopenedRun` | xray-core/proxy/proxy.go:557-566 | A later chunk that looks like an opening makes the reader output too few bytes |
| `VisionReader.RunShrinks` | xray-core/proxy/proxy.go:203-288 | No run outputs more bytes than were delivered |
| `VisionWriter.FramePieces` | xray-core/proxy/proxy.go:361-399 | The loop frames exactly the planned prefix of the pieces, sends the others as they are, loses no byte on the early break, and pads long exactly the frames that start data and, on a TLS connection, those before any such frame |
| `VisionPlan.PlanDiscipline` | xray-core/proxy/proxy.go:361-397 | The plan of one call, if the filter is consistent: Continue frames, then at most one terminal frame; padding is over exactly if the terminal frame is planned; direct copy is armed exactly if it is a Direct frame; pieces are left unframed only after it |
| `VisionPlan.PaddingIsOver` | xray-core/proxy/proxy.go:361-397 | Padding is off behind the pieces if and only if it was before, or some piece of at least six bytes starts 17 03 03 on a TLS connection in a call of whole records, or there is a piece and neither TLS 1.2 has been seen nor more than one packet of the budget is left |
| `VisionPlan.FramedPieces` | xray-core/proxy/proxy.go:361-397 | Every piece is framed, but for one case: without TLS 1.2 and with at most one packet left, framing stops behind the first piece that does not start data |
| `VisionPlan.PlanLastCommand` | xray-core/proxy/proxy.go:361-397 | The last command is Continue while padding goes on; otherwise Direct if XTLS is enabled and framing was not stopped, else End |
| `VisionPlan.PlanKeepsPromise` | xray-core/proxy/proxy.go:361-397 | All of this together for the calls of a writer that is padding, over all filters and pieces |
| `VisionWriter.VisionWriter.constructor` | xray-core/proxy/proxy.go:307-323 | A new writer has sent and written nothing; fewer than four seeds mean the defaults |
| `VisionWriter.VisionWriter.WriteMultiBuffer` | xray-core/proxy/proxy.go:325-409 | Every call, unless a draw from unsafe seeds panics (or, while there is padding, a nil stands among buffers), keeps the run invariant: Continue frames, then one terminal frame; padding is off exactly if that has been sent; nothing is framed behind it; the user id stands in front of the first frame only; direct copy is armed or done, once, exactly if the terminal frame said Direct; what was written is the contents of the frames and the raw bytes. And each padding call, on its bytes: which pieces are framed, with which commands and which padding, and when padding is off afterwards; a single nil gives one long-padded Continue frame without content |
| `VisionWriter.VisionWriter.FrameCall` | xray-core/proxy/proxy.go:353-399 | The framing branch: whole-record test, reshaping and loop together keep every payload byte, and the frames, their commands, their padding and the end of padding are as the bytes and the filter say |
| `VisionWriter.ExtendSound` | xray-core/proxy/proxy.go:325-409 | The byte history of a writer stays sound under any further call |
| `VisionStream.StreamExact` | xray-core/proxy/proxy.go:203-409 | End to end: for every run of writes and every cutting of the wire into chunks and reads whose first chunk that is not empty opens the stream, the reader outputs exactly what was written if and only if the cut is clean |
| `VisionStream.StreamPrefix` | xray-core/proxy/proxy.go:203-409 | While only part of the wire has arrived over a clean cut, the output is a prefix of what was written |
| `VisionStream.DirectCopyAgrees` | xray-core/proxy/proxy.go:244-253 | After a cleanly cut whole wire the reader is in direct copy exactly if the writer has armed or made its own switch |
| `VisionStream.OpeningExact` | xray-core/proxy/proxy.go:557-566 | If only the first chunk that is not empty can look like an opening, the stream comes out right if and only if that chunk holds the user id and at least 21 bytes, and the cut is clean |
| `VisionStream.FirstChunkDecides` | xray-core/proxy/proxy.go:557-566 | Of a writer's stream, if no later chunk has 21 bytes and starts with the user id: it comes out right if and only if the first chunk that is not empty has at least 21 bytes, and the cut is clean |
| `VisionHeaderCut.HeaderCutLosesSync` | xray-core/proxy/proxy.go:244-253 | Of every run with a frame before its Direct frame: if a read ends behind the command byte of that frame, the reader outputs something else than what was written |
| `VisionHeaderCut.LosingRun` | xray-core/proxy/proxy.go:203-409 | Such a run from a new connection, with a server hello of TLS 1.3 and then a data record written, whatever these are, and the place of the cut |
| `VisionStream.NeverOpened` | xray-core/proxy/proxy.go:557-566 | A stream whose first chunk is too short for the test comes out as the wire itself |
| `VisionStream.KnownStream` | xray-core/proxy/proxy.go:337-399 | Every command in a writer's stream is one of the three known ones |
| `VisionEndpoint.Endpoint.Read` | xray-core/proxy/proxy.go:203-288 | A read on the state that a reader and a writer share spends the filter budget and leaves the writer's history and invariant alone; what all reads gave is the run of the reader on what has arrived, and the filter has been shown what came out |
| `VisionEndpoint.Endpoint.Write` | xray-core/proxy/proxy.go:325-409 | A write leaves what the reader has got alone; the history grows by what was written and sent. While calls of neither direction have shown a TLS hello, a write that frames anything leaves padding on if and only if fewer than seven buffers have been shown |
| `VisionEndpoint.EndToEnd` | xray-core/proxy/proxy.go:142-409 | Two ends that have read and written in any order: if all that one has sent has arrived at the other, that has got exactly what was written if and only if the wire was cleanly cut; that budgets are only spent is proved, not assumed |
| `VisionEndpoint.BudgetOfEnd` | xray-core/proxy/proxy.go:142-409 | At any time an end has eight packets less the buffers that calls of both directions have shown, and none once one of them has settled a server hello |
| `ReplayWindow.ReplayWindow.Check` | agent/internal/securechan/securechan.go:119-144 | The shift-and-mask test on a 64-bit map answers and updates as the set of accepted numbers does: bit d is set exactly if maxSeq - d has been accepted |
| `ReplayWindow.AcceptsFirstArrival` | agent/internal/securechan/securechan.go:113-144 | After any sequence of calls a number is accepted if and only if it is not zero, has never arrived, and is above the largest arrival or less than 64 behind it |
| `ReplayWindow.WindowKnows` | agent/internal/securechan/securechan.go:113-144 | The window's maximum is the largest arrival, and it has accepted every arrival that is not 64 or more behind |
| `ReplayWindow.NeverTwice` | agent/internal/securechan/securechan.go:113-144 | No number is accepted twice |
| `SecureSession.MakeNonce` | agent/internal/securechan/securechan.go:255-264 | The nonce is the base with its last eight bytes combined with the big-endian counter |
| `SecureSession.NoncesDiffer` | agent/internal/securechan/securechan.go:255-264 | Different counters give different nonces under every base (section 5.3 of RFC 8446) |
| `SecureSession.NonceNeverReused` | agent/internal/securechan/securechan.go:212-226 | No two of fewer than 2^64 calls of Encrypt use the same nonce |
| `SecureSession.BothEndsNeverReuse` | agent/internal/securechan/securechan.go:148-226 | Both ends together, over fewer than 2^64 calls each: no key meets a nonce twice if and only if the directions have different keys or no two of the numbers used differ as the nonce bases do |
| `SecureSession.MeetExactly` | agent/internal/securechan/securechan.go:255-264 | Over the whole life of a session such numbers exist if and only if the bases agree in their first four bytes |
| `SecureSession.WholeLife` | agent/internal/securechan/securechan.go:148-226 | So over the whole life of a session no key meets a nonce twice if and only if the keys or the first four bytes of the bases differ |
| `SecureSession.BigEndianRoundTrip` | agent/internal/securechan/securechan.go:218-222 | Writing and reading the counter as eight bytes is the identity |
| `SecureSession.Session.Encrypt` | agent/internal/securechan/securechan.go:212-226 | The counter goes up by one modulo 2^64 and the envelope is version, counter and sealed text under that counter |
| `SecureSession.Session.Decrypt` | agent/internal/securechan/securechan.go:228-252 | All four errors and the success case, and the window afterwards, replays included |
| `SecureSession.DecryptRefusals` | agent/internal/securechan/securechan.go:228-252 | Fewer than 25 bytes are too short, a first byte other than 1 is an unknown version, and a number the window does not take is a replay; only an envelope past all three moves the window |
| `SecureSession.DeriveSession` | agent/internal/securechan/securechan.go:148-209 | The first 88 bytes of the key stream are, one after the other, the key for sending, the key for receiving, the nonce base for sending and that for receiving of the master, and the same crosswise of the agent; keys have 32 bytes |
| `SecureSession.GenuineEnvelope` | agent/internal/securechan/securechan.go:212-252 | A genuine envelope is opened if the window accepts its number and is refused as a replay otherwise |
| `SecureSession.DeliveryAmidAnything` | agent/internal/securechan/securechan.go:212-252 | After any byte strings at all: a genuine envelope yields its own plaintext if and only if its number is not zero, has not been seen in an envelope of the right version and length, and no number 64 or more beyond it has; otherwise the replay error |
| `SecureSession.UnopenedNumberCounts` | agent/internal/securechan/securechan.go:228-252 | A number is used up by an envelope that does not open: the genuine one with it, and those 64 or more behind it, are refused |
| `SecureSession.Delivery` | agent/internal/securechan/securechan.go:212-252 | Under any loss, repetition and reordering: an arriving envelope yields its own plaintext if and only if it has not arrived before and no envelope 64 or more numbers later has; otherwise the replay error |
| `SecureSession.DeliveredOnce` | agent/internal/securechan/securechan.go:212-252 | Every plaintext is delivered at most once |
| `SecureSession.Pair` | agent/internal/securechan/securechan.go:148-252 | Two sessions derived from the same inputs by opposite ends decrypt each other's first messages |
| `ConnAdmission.ExactStep` | agent/internal/limiter/limiter.go:146-175 | Every atomic instruction keeps the counter of each group equal to held connections plus those being tested or undone |
| `ConnAdmission.NeverOverLimit` | agent/internal/limiter/limiter.go:146-175 | In every interleaving, at every moment, a group whose connections came with limits between 1 and L holds at most L, however the limit changed in between |
| `ConnAdmission.NeverClamps` | agent/internal/dispatcher/default.go:147-168 | If each admitted connection is released once, the counter is never negative and the reset to zero never happens |
| `ConnAdmission.QuietCountIsExact` | agent/internal/limiter/limiter.go:167-175 | When nothing is in flight the counter is the number of live connections |
| `ConnAdmission.AloneAdmitsExactly` | agent/internal/limiter/limiter.go:146-164 | An attempt without interference is admitted if and only if the group is unlimited or not full, and a rejection leaves all counters as they were |
| `ConnAdmission.RejectionMeansFull` | agent/internal/limiter/limiter.go:146-164 | A rejection happens only if held, pending and undoing connections already fill the group |
| `ConnTracking.Fate` | agent/internal/limiter/limiter.go:71-109 | The first of a connection's cleanup and a kick of its group decides: it is interrupted exactly once or never, whatever happens before and after |
| `ConnTracking.KickedOnce` | agent/internal/limiter/limiter.go:71-109 | No connection is interrupted twice, and cleaning up an interrupted one changes nothing |
| `ConnTracking.RunIsConsistent` | agent/internal/limiter/limiter.go:71-109 | Over any run a connection is live, or has been interrupted exactly once, or is gone, never two of these |
| `ConnTracking.TrackOk` | agent/internal/limiter/limiter.go:71-79 | Tracking keeps the sets sound: only the active set of a group has entries, tickets are distinct, entries and live connections correspond |
| `ConnTracking.CleanOk` | agent/internal/limiter/limiter.go:80-91 | So does a cleanup, with its compare-and-delete of an emptied set |
| `ConnTracking.KickOk` | agent/internal/limiter/limiter.go:93-109 | So does a kick |
| `ConnRegistry.Registry.TrackConn` | agent/internal/limiter/limiter.go:71-91 | The live connections gain exactly the new one under its group; an empty group or a missing function tracks nothing |
| `ConnRegistry.Registry.Cleanup` | agent/internal/limiter/limiter.go:80-91 | The live connections lose exactly this one; for one that is no longer live nothing at all changes, even if its group has a new set |
| `ConnRegistry.Registry.KickConnGroup` | agent/internal/limiter/limiter.go:93-109 | Exactly the live connections of the group are interrupted, each once, and are no longer live |
| `RateBuckets.DetermineRate` | agent/internal/limiter/limiter.go:499-513 | The smaller of the limits that are not zero, zero if both are |
| `RateBuckets.CalcBurst` | agent/internal/limiter/limiter.go:487-496 | A quarter of a second's worth, but at least 64 and at most 256 KiB |
| `RateBuckets.StaticRate` | agent/internal/limiter/limiter.go:341-360 | A new bucket lets everything through if and only if node and user have no limit, and otherwise the smaller of their limits that are not zero |
| `RateBuckets.PrefixFindsEmail` | agent/internal/limiter/limiter.go:119-138 | For emails without the separator the key prefix matches the user of that email and no other |
| `RateBuckets.ScanFindsUser` | agent/internal/limiter/limiter.go:119-138 | So a scan in any order finds exactly the configured user of the email, if there is one |
| `RateBuckets.OneBucket` | agent/internal/limiter/limiter.go:218-470 | Through any run of synchronisations, updates, lookups by inbound or by email, speed overrides and collections of the online users the bucket of an email stays the same object if and only if every collection found the email seen since the last one or under an automatic limit |
| `RateBuckets.LiveConnectionsFollow` | agent/internal/limiter/limiter.go:218-281 | So a synchronisation reaches the connections already open, whatever happened before: their bucket gets the last limit other than zero that the new users have for the email, if and only if no collection found the email idle meanwhile |
| `RateBuckets.AutoLimitIsKept` | agent/internal/limiter/limiter.go:373-470 | While an automatic limit is in force no collection removes the bucket, through any operations that do not take the limit back |
| `RateBuckets.AutoLimitHolds` | agent/internal/limiter/limiter.go:218-470 | Bucket and rate of an automatic limit survive any run of collections, new connections and users without a limit of their own |
| `RateBuckets.IdleIsRemoved` | agent/internal/limiter/limiter.go:373-412 | Without one, two collections with no new connection in between remove the bucket |
| `RateBuckets.IdleConnectionIsMissed` | agent/internal/limiter/limiter.go:373-470 | After that an automatic limit goes to a new bucket, and a connection that is still open keeps the rate it had |
| `RateBuckets.LastLimitOfUser` | agent/internal/limiter/limiter.go:268-280 | With distinct emails that is the smaller limit of node and user |
| `RateBuckets.SpeedIsRestored` | agent/internal/limiter/limiter.go:437-470 | Overriding a speed and taking the override back leaves the bucket object in place with the rate that a new bucket would get |
| `RateBuckets.SyncInterrupts` | agent/internal/limiter/limiter.go:236-262 | A synchronisation interrupts exactly the connections of the groups configured before and not now, each once, and leaves all others tracked |
| `RateBuckets.SparesConfiguredExactly` | agent/internal/limiter/limiter.go:230-262 | Over all inbounds: no connection of a group that is still configured somewhere is interrupted, whatever is tracked, if and only if no other inbound has a group that this one loses |
| `RateBuckets.DisabledUserIsInterrupted` | agent/internal/limiter/limiter.go:111-164 | A connection admitted for an email is interrupted by a synchronisation if and only if no user of the new configuration has its group |
| `LateTracking.LiveIsConfigured` | agent/internal/dispatcher/default.go:147-168 | Over any run of acquire, track, clean-up and synchronise: a connection that is still tracked is in the group it was let in with, and that is configured now if and only if it was when the connection came to be tracked, or has been since |
| `LateTracking.NoneIsMissed` | agent/internal/dispatcher/default.go:147-168 | If no synchronisation takes the group away between acquire and track, the group of every tracked connection is configured, after any run |
| `LateTracking.MissedForGood` | agent/internal/dispatcher/default.go:147-168 | If one does and none brings the group back, no synchronisation interrupts the connection |
| `LateTracking.DisabledInBetween` | agent/internal/dispatcher/default.go:147-168 | Such a run: a user disabled between the two steps, whatever follows |
| `LateTracking.ResyncIsSync` | agent/internal/limiter/limiter.go:230-262 | A synchronisation of these runs is one of the limiter's store: the same users come and the same connections go |
| `InboundLimiter.Limiter.AddInboundLimiter` | agent/internal/limiter/limiter.go:203-216 | A new inbound has exactly its users, if sound, its node limit and a fresh hub; no other inbound changes |
| `InboundLimiter.Limiter.SyncInboundLimiter` | agent/internal/limiter/limiter.go:230-281 | A scan finds exactly the new users, if sound, under the new node limit, and no other inbound changes; on an existing inbound the hub is kept, the removed groups are interrupted and the buckets of the others re-rated; on a new one nothing is interrupted |
| `InboundLimiter.Limiter.UpdateInboundLimiter` | agent/internal/limiter/limiter.go:283-307 | More users for an inbound, found by a scan from then on, and their limits, other than zero, in the existing buckets; on a new one nothing is re-rated |
| `InboundLimiter.Limiter.Rerate` | agent/internal/limiter/limiter.go:268-280 | The loop writes the new limits into existing buckets only, and never a zero |
| `InboundLimiter.Limiter.GetUserBucket` | agent/internal/limiter/limiter.go:313-365 | The address is recorded, and the bucket of the email returned, a new one with the static rate if there is none yet, nil if the inbound is not configured |
| `InboundLimiter.Limiter.LookupBucketByEmail` | agent/internal/limiter/conn.go:84-120 | The ranges over inbounds and users, in any order, give the email's bucket, a new one with the static rate if there is none yet, in some inbound where a user with the email has a limit; nil only if in every inbound there is none, or one without a limit |
| `InboundLimiter.Limiter.SetUserSpeed` | agent/internal/limiter/limiter.go:437-484 | A positive speed marks the email and overrides or creates the bucket; zero clears the mark and restores an existing bucket in place |
| `InboundLimiter.Limiter.GetOnlineUsers` | agent/internal/limiter/limiter.go:373-412 | The ranges over both tables, in any order, return the addresses seen, reset them, and remove exactly the buckets of emails neither seen nor marked |
| `InboundLimiter.Limiter.LookupUserInfo` | agent/internal/limiter/limiter.go:119-138 | A scan yields some user whose key has the prefix, and none only if there is none |
| `LimitsInForce.SyncPutsInForce` | agent/internal/limiter/limiter.go:252-261 | After a synchronisation with sound users a scan finds a user for an email exactly if he is one of them and has it, the groups are theirs, the node limit is the new one, buckets and addresses are kept, and no other inbound has changed |
| `LimitsInForce.AddPutsInForce` | agent/internal/limiter/limiter.go:203-216 | The same after adding, with neither buckets nor addresses |
| `LimitsInForce.UpdatePutsInForce` | agent/internal/limiter/limiter.go:283-291 | After an update with sound users a scan finds these, and of the former ones those whose email and id no new user has |
| `LimitsInForce.LimitInForce` | agent/internal/limiter/limiter.go:325-339 | The limit that a scan yields for the email of such a user is his |
| `LimitsInForce.OnlineIsSeen` | agent/internal/limiter/limiter.go:341-412 | After any run of operations the addresses reported for an email are those of the connections from it since the last collection |
| `LimiterRuns.SyncAgain` | agent/internal/limiter/limiter.go:236-262 | A synchronisation that follows another interrupts exactly the connections of the groups that the first had and the second has not |
| `LimiterRuns.SyncThenConnect` | agent/internal/limiter/limiter.go:230-365 | After a synchronisation the next connection of one of its users gets a bucket at the smaller of the node's limit and his own, whether his email had a bucket or not; without any limit a new bucket is unlimited |
| `LimiterRuns.SpeedIsSet` | agent/internal/limiter/limiter.go:437-484 | An automatic limit sets exactly the bucket of its email, the same object if there was one, and marks the email; zero takes the mark back and sets the static limit again |
| `LogTail.TailLogFile` | agent/internal/handler/management_handler.go:1530-1569 | Reading 8192-byte blocks backwards until more than n newlines are seen gives the last n lines of the part read |
| `LogTail.TailExact` | agent/internal/handler/management_handler.go:1530-1569 | That is the last n lines of the whole file if and only if the part read shows them |
| `LogTail.TailExactly` | agent/internal/handler/management_handler.go:1530-1569 | The same in terms of the file alone: if and only if n is zero, the file has only newlines, or no block boundary cuts it short, which one does that has more than n newlines behind it but not the last n lines |
| `LogTail.TailOfLog` | agent/internal/handler/management_handler.go:1530-1569 | It holds for every file that does not end in two newlines, for every n |
| `LogTail.TrailingNewlinesHideLines` | agent/internal/handler/management_handler.go:1541-1557 | A file with a line and a block of newlines behind it, of which the code shows nothing |
| `LogTail.PartShowsExactly` | agent/internal/handler/management_handler.go:1558-1569 | When the last n lines of a part are those of the whole |
| `LogTail.LastLinesAre` | agent/internal/handler/management_handler.go:1558-1569 | What the last n lines of a text are: its end from the start of a line on with n - 1 newlines in it, or all of it if it has fewer than n newlines |
| `ConfigMerge.MergeTaggedArray` | agent/cmd/mmw-agent/main.go:1106-1134 | The two loops give the template's items and then, in order, the existing items whose tag the template does not have |
| `ConfigMerge.ArrayMergeIsStable` | agent/cmd/mmw-agent/main.go:1106-1134 | Merging the same template again changes nothing if and only if all its items are tagged objects |
| `ConfigMerge.ArrayMergeKeepsEntries` | agent/cmd/mmw-agent/main.go:1106-1134 | No existing item is lost unless the template has its tag |
| `ConfigMerge.ArrayMergeExactly` | agent/cmd/mmw-agent/main.go:1106-1134 | An item is in the merged array if and only if it is one of the template's, or an existing one whose tag no item of the template has; the template's stand first |
| `ConfigMerge.SignatureIgnoresOrder` | agent/cmd/mmw-agent/main.go:1202-1230 | Rules that agree under 13 keys but for the order of array items have the same signature |
| `ConfigMerge.RuleSurvivesExactly` | agent/cmd/mmw-agent/main.go:1159-1198 | A rule is in the result if and only if the template has it, or it is the user's and is not an object or shares neither a marktag nor the signature with a rule of the template |
| `ConfigMerge.OtherKeysAreIgnored` | agent/cmd/mmw-agent/main.go:1202-1230 | A user's rule that differs from one of the template's only under other keys is lost |
| `ConfigMerge.CommaHidesRule` | agent/cmd/mmw-agent/main.go:1202-1230 | So is one with a different list that prints alike |
| `RuleSignatures.SignatureTells` | agent/cmd/mmw-agent/main.go:1204-1229 | Rules whose values print without `|`, and without `,` in items and `[` in front elsewhere, have the same signature if and only if under each of the 13 keys they print alike, arrays up to order |
| `RuleSignatures.PlainRuleSurvives` | agent/cmd/mmw-agent/main.go:1159-1184 | Among such rules a user's rule survives if and only if it has no marktag of the template's and differs from each of its rules under one of the 13 keys |
| `ConfigMerge.MergeRules` | agent/cmd/mmw-agent/main.go:1159-1198 | Two passes and a stable sort give the template's rules and the unclaimed existing ones, in this order: outboundTag nginx, outboundTag tunnel-..., marktag routed: with four parts, other marktags routed:, the two presets, everything else |
| `ConfigMerge.MergeIsInOrder` | agent/cmd/mmw-agent/main.go:1185-1196 | The merged rules are in that order, said on the fields of the rules |
| `ConfigMerge.ForwardIsAhead` | agent/cmd/mmw-agent/main.go:1185-1196 | A port forward comes ahead of every rule that is neither a port forward nor one to nginx, and so of the template's rules that catch everything |
| `ConfigMerge.RoutingSettings` | agent/cmd/mmw-agent/main.go:1148-1158 | In a merged routing block the template's settings win, those that only one side has are kept, and the rules are in order |
| `ConfigMerge.MergeRouting` | agent/cmd/mmw-agent/main.go:1138-1200 | Both nil cases, the overlay of all fields but the rules, and the merged rules |
| `ConfigMerge.MergeXrayConfig` | agent/cmd/mmw-agent/main.go:1074-1102 | The loop over the template's keys, in any order: under every key that is not merged entry by entry the template's value wins, and what only one side has is kept |
| `ConfigMerge.RulesMergeIsStable` | agent/cmd/mmw-agent/main.go:1159-1198 | Merging the same rules again changes nothing if and only if all template rules are objects |
| `ConfigMerge.RulesSurvive` | agent/cmd/mmw-agent/main.go:1159-1198 | Within each priority class the template's rules come first and every unclaimed existing rule follows in its order, and the result is sorted |
| `ConfigMerge.RoutingMergeIsStable` | agent/cmd/mmw-agent/main.go:1138-1200 | When a second routing merge changes nothing: an if-and-only-if on the two inputs |
| `ConfigMerge.MergeIsStable` | agent/cmd/mmw-agent/main.go:1074-1200 | Restart stability: merging the same template a second time changes nothing if and only if its inbounds and outbounds are tagged objects, its rules are objects, and, where there was no routing yet, they are sorted |
| `ConfigMerge.RestartKeepsAddedRule` | agent/cmd/mmw-agent/main.go:1185-1198 | A rule added at run time to any merged configuration: the restart that follows keeps the running rules if and only if the template has only objects, does not claim the new rule and has no rule of its class, and the rule was put where its class belongs |
| `RoutingRules.ClassesSorted` | agent/cmd/mmw-agent/main.go:1188-1194 | The stable sort by class is sorted |
| `RoutingRules.ClassOfClasses` | agent/cmd/mmw-agent/main.go:1188-1194 | It moves no rule within its class |
| `RoutingRules.SortPermutes` | agent/cmd/mmw-agent/main.go:1188-1194 | It neither loses nor invents a rule |
| `RoutingRules.SortIsUnique` | agent/cmd/mmw-agent/main.go:1188-1194 | A sorted list with the same classes is the stable sort |
| `RoutingRules.AddRule` | agent/internal/handler/management_handler.go:3597-3614 | The search loop inserts in front of the first object of the same or a later class; added to objects in the router's order, the rule leaves them in it |
| `RoutingRules.AddRuleIsStableSort` | agent/internal/handler/management_handler.go:3597-3614 | Adding a rule to a sorted list is sorting it in from the front, if and only if no rule that is not an object stands where it belongs |
| `RoutingRules.KindOfPriority` | agent/internal/handler/management_handler.go:6215-6242 | The classes are: rules to nginx; port forwards; routed marktags that split at colons into four parts; other routed marktags; the two presets; the rest |
| `RoutingRules.SortedIsInOrder` | agent/cmd/mmw-agent/main.go:1185-1196 | A list is sorted by class if and only if it is in that order |
| `OutboundReorder.Reorder` | agent/internal/handler/management_handler.go:3405-3438 | Queues of indices, the set of used ones and the two loops give the specified order |
| `OutboundReorder.IndexTags` | agent/internal/handler/management_handler.go:3408-3417 | Each tag's queue holds all its indices in order |
| `OutboundReorder.ReorderPermutes` | agent/internal/handler/management_handler.go:3405-3438 | The result is a permutation of the outbounds |
| `OutboundReorder.RequestIsServed` | agent/internal/handler/management_handler.go:3420-3431 | The k-th request for a tag gets the tag's k-th occurrence, right behind what earlier requests got, or is skipped if there is none |
| `OutboundReorder.SameTagSameOrder` | agent/internal/handler/management_handler.go:3405-3438 | Outbounds with the same tag never overtake each other |
| `OutboundReorder.OthersKeepTheirOrder` | agent/internal/handler/management_handler.go:3432-3437 | The outbounds that no request got follow in their old order |
| `OutboundReorder.ReorderIsIdempotent` | agent/internal/handler/management_handler.go:3405-3438 | Asking again for the same order changes nothing |
| `ClientList.AddClient` | agent/internal/handler/management_handler.go:2858-2886 | No change if a client matches, else the first with the same email is replaced, else the client is appended |
| `ClientList.RemoveClient` | agent/internal/handler/management_handler.go:2887-2902 | Exactly the matching clients are dropped, in order, and counted |
| `ClientList.EditsKeepSound` | agent/internal/handler/management_handler.go:2857-2902 | Pairwise distinct emails and primary keys survive any sequence of additions and removals |
| `ClientList.AddIsIdempotent` | agent/internal/handler/management_handler.go:2858-2886 | Adding twice is adding once, if and only if the client has its primary key or an email |
| `ClientList.MatchIsEitherExactly` | agent/internal/handler/management_handler.go:3121-3163 | The code agrees with the documented rule, either key or email, if and only if the two clients are not such that both have a primary key, these differ, and the emails are equal |
| `ClientList.OneEmailTwoIds` | agent/internal/handler/management_handler.go:3121-3163 | Two vless clients with one email, on which it does not agree |
| `ClientList.KeysOfProtocol` | agent/internal/handler/management_handler.go:3136-3158 | The field that identifies a client, and the one that lists them, for each of the ten protocols in any case of letters |
| `ClientList.UnknownProtocol` | agent/internal/handler/management_handler.go:3136-3158 | Of any other protocol neither is known |
| `ClientList.Trimmed` | agent/internal/handler/management_handler.go:3165-3169 | Emails are compared without the spaces at both ends, and with everything else |
| `ClientList.RemoveUndoesAdd` | agent/internal/handler/management_handler.go:2857-2902 | Removing straight after adding restores the list, if and only if the client can be recognised, none matched and none had its email |
| `ClientList.ApplyAddClient` | agent/internal/handler/management_handler.go:3789-3838 | The search for the tag, the settings created on the way, and all four outcomes |
| `ClientList.BatchKeepsSound` | agent/internal/handler/management_handler.go:3942-3959 | A batch over a configuration keeps the clients of every inbound distinct |
| `TagDedupe.MergeInboundClients` | agent/internal/handler/management_handler.go:2170-2217 | All early returns, and the list with the copy's unknown clients appended under the deciding protocol |
| `TagDedupe.AbsorbClients` | agent/internal/handler/management_handler.go:2195-2214 | The nested loops add exactly the clients that match no earlier one by credential or email, and everything that is not an object |
| `TagDedupe.MergeOutcome` | agent/internal/handler/management_handler.go:2170-2217 | With settings on both sides, of the protocol that the copy names or, if it names none, the first: the first's list of that protocol stays in front, every client of the copy is covered behind it, nothing that was known is added, and no other list changes |
| `TagDedupe.MergeExtends` | agent/internal/handler/management_handler.go:2170-2217 | Nothing but the client lists of the first changes, and these only grow |
| `TagDedupe.DedupeTaggedArray` | agent/internal/handler/management_handler.go:2129-2166 | The loop gives the deduplicated array and the exact difference in length |
| `TagDedupe.DedupeKeepsFirsts` | agent/internal/handler/management_handler.go:2129-2166 | Kept are, in order, all untagged items and the first of each tag, changed at most by added clients |
| `TagDedupe.DedupeMakesUnique` | agent/internal/handler/management_handler.go:2129-2166 | Afterwards non-empty tags are unique |
| `TagDedupe.DedupeIsIdempotent` | agent/internal/handler/management_handler.go:2129-2166 | Deduplication changes nothing if and only if the tags were unique, so a second one changes nothing |
| `DedupeLoss.MergeLosesNoClient` | agent/internal/handler/management_handler.go:2170-2217 | For one merge: with a deciding protocol that lists and identifies clients as the first's own, the first serves the copy's clients afterwards if and only if it has settings or there are none; without settings it serves none |
| `DedupeLoss.NoClientLost` | agent/internal/handler/management_handler.go:2120-2217 | In the whole array every client is served by the kept inbound under its own protocol, or one it takes for the same, if the first has settings and the protocols are alike |
| `DedupeLoss.DedupeLosesNoClient` | agent/internal/handler/management_handler.go:2120-2217 | For one array: with alike protocols the clients of a dropped inbound survive if and only if the first has settings or there were none; without settings if and only if there were none |
| `DedupeLoss.SafeFromLossExactly` | agent/internal/handler/management_handler.go:2120-2217 | Over all contents of an array with given tags and protocols: a dropped inbound is safe from losing clients if and only if the first of its tag has settings and the deciding protocol is known and lists and identifies clients as the first's |
| `DedupeLoss.SomeClientLost` | agent/internal/handler/management_handler.go:2120-2217 | For every other array, contents that lose a client |
| `DedupeLoss.VlessAndSocks` | agent/internal/handler/management_handler.go:2170-2217 | An account that ends up in a list the kept inbound does not read |
| `DedupeLoss.VlessAndUnknown` | agent/internal/handler/management_handler.go:2182-2190 | Clients dropped with a copy whose protocol is not known |
| `DedupeSound.DedupeKeepsSound` | agent/internal/handler/management_handler.go:2129-2217 | Deduplication keeps the clients of every inbound distinct if no copy shares a list with the first of its tag under another primary key |
| `DedupeSound.DedupeIsSoundExactly` | agent/internal/handler/management_handler.go:2129-2217 | Over all contents of an array with given tags and protocols: if and only if |
| `DedupeSound.SomeUnsound` | agent/internal/handler/management_handler.go:2129-2217 | For every other array, sound contents that become unsound |
| `DedupeSound.VlessAndTrojan` | agent/internal/handler/management_handler.go:2170-2217 | A trojan copy that brings a second client with the same id into a vless inbound |
| `DedupeSound.BatchOutcome` | agent/internal/handler/management_handler.go:3942-3990 | After any batch and the deduplication behind it tags are unique; and the clients of every inbound are distinct, whatever the contents and the batch, if and only if every copy is compatible with the first of its tag |
| `FeatureResolution.ReadyInput` | xray-core/core/xray.go:47-67 | A callback whose dependencies are there gets for every parameter the first feature that fits, so the panic is never reached |
| `FeatureResolution.RunTracks` | xray-core/core/xray.go:279-361 | Over any run a resolution is pending, in the list it belongs to and in order, exactly if some dependency is absent |
| `FeatureResolution.ExactlyOnce` | xray-core/core/xray.go:279-373 | Over any run each callback has run exactly once if its dependencies are there, and not at all otherwise |
| `FeatureResolution.CalledWhenComplete` | xray-core/core/xray.go:279-373 | A callback runs in the event that completes its dependencies: its own request, or the feature that brings the last of them |
| `FeatureResolution.NothingPending` | xray-core/core/xray.go:235-240 | The pending list is empty if and only if the dependencies of every required callback are there |
| `FeatureResolution.AllRequiredHaveRun` | xray-core/core/xray.go:235-240 | It is empty if and only if every required callback has run as often as it was asked for |
| `FeatureResolution.Instance.RequireFeatures` | xray-core/core/xray.go:279-316 | Call at once, or append to the list for required or optional ones |
| `FeatureResolution.Instance.AddFeature` | xray-core/core/xray.go:319-373 | Append the feature, split both lists, run what is free, required first, and return the last error; on a running instance only start it |
| `FeatureResolution.Instance.Start` | xray-core/core/xray.go:384-399 | The features are started in order up to the first that fails, whose error is returned; the instance counts as running in any case |
| `FeatureResolution.Instance.CallbackResolution` | xray-core/core/xray.go:47-81 | One call with the first fitting feature for each parameter |
| `FeatureResolution.Instance.AllResolved` | xray-core/core/xray.go:235-240 | The nil test answers whether anything required is pending |
| `FeatureResolution.Sift` | xray-core/core/xray.go:328-345 | The loop splits a list into what is free and what is not, and its result is nil exactly if the latter is empty |

## Left out

- Buffer pool, aliasing and in-place updates: buffers and multi-buffers are values, so that a buffer is consumed, resized or returned to the pool is not visible.
- Buffers of more than 8192 bytes: the pool never hands one out.
- The framed and the raw connection are one byte stream; `UnwrapRawConn`, `CopyRawConnIfExist`, splice flags, the TLS library's own buffers and traffic counters are not part of this model.
- A failing random source, failing writes and closed connections.
- Everything that rests on the strength of the cryptography itself; key files, identities, session caches.
- SecureSession.Encrypt: does not model a failing cipher setup, because the key length is fixed by the derivation.
- SecureSession.DeriveSession: requires 88 bytes of key material, which the key derivation can always deliver.
- The counter of rejections that is reported to the controller, and the snapshots of counters.
- Races inside TrackConn, its cleanup and kickConnGroup: each is one step, so a set that is emptied between its lookup and an insertion is not modelled.
- DeleteInboundLimiter, the times at which addresses were seen, and the token arithmetic and clock of a bucket; concurrent calls of the bucket operations, each of which is one step.
- RateBuckets.OneBucket: is about runs in which the inbound is neither deleted nor added anew.
- Rates are exact numbers, where the code converts to floating point.
- JSON text, file writes, backups, atomic renames, process control and HTTP handling around the configuration algorithms; removal of the keys that start with an underscore from an edited inbound.
- ClientList.ApplyAddClient: lower-casing of protocol names is exact for comparison with the known names only.
- TagDedupe.DedupeTaggedArray: works on the array itself; that the configuration keeps its old array value when nothing is removed makes no difference to a value.
- FeatureResolution.Instance.AddFeature: does not model callbacks that call back into the instance.
- Close of an instance.
- The user additions of a batch to routing rules, the promotion of missing tags, the other merge variants, the dispatcher's reader cache and the speed monitor: they would only add easier members.
