# H.265 streaming board: little-core model

This project models the four components through which the little core turns messages from the big core
into an RTP stream and snapshots, and proves what they guarantee.

- **Annex-B splitter and RTP packetiser** (`src/rtp.c`). `AnnexB` says what splitting is, `AnnexBWriter` is
  the inverse, `StartCodes` holds the scanners and loops. `Rtp` and `Transport` say what a NAL unit and a pack
  become on the wire, `Depacketiser` is an RFC 7798 receiver, `RtpLinks` is the code with its buffers.
- **Playback gate and DATAFIFO loop** (`src/RTSP_Create.c`, `src/rtsp.c`, `src/nalu_datafifo.c`). `PlaybackGate`
  is the gate as a transition system, the `Gate...` modules prove its properties, `Playbacks` is the code.
  `SenderLoop` is the loop as a run from program start, `SenderRuns`, `SenderItems`, `SenderInput`, `SenderWire` and
  `SenderTraffic` prove what holds of every run, `SenderSessions` what it takes for sessions to be safe,
  `SenderService` what a client is served, `SessionWitness` shows runs that go wrong, and `SenderThreads` is the code.
- **Snapshot GOP cache** (`src/datafifo_snapshot.c`). `ByteBuffers` and `Snapshot` say what the buffers go
  through, `SnapshotHistory` and `SnapshotRefinement` compare them with a plain history of flagged messages,
  `SnapshotUnbroken` says what holds when memory is refused, `SnapshotCaches` is the code on six growable buffers,
  `SnapshotWitness` a message that goes wrong.
- **Asynchronous writer** (`src/snapshot_writer.c`). `WriterQueue` is the transition system, `SnapshotWriters`
  the code, `SnapshotDelivery` follows the snapshots of a run into it, `ShellQuote` is the quoter.

## How to read it

Code that changes state is a class whose methods are proved equal, on the abstract state, to functions; the
properties are proved of those functions, so they hold of the methods. `SenderThreads.SenderThread.TakeTurns`
closes the chain: n turns of the class reach `SenderLoop.Run(w, n)`, which every `Run...` lemma is about.

What the program does not control is a parameter. `Env`, `SnapEnv` and `World` are infinite tables of outcomes:
whether the k-th `sendto`, allocation, mapping or unmapping succeeds, which item the k-th poll finds, and which
RTSP steps run just before each critical section of the sender and before each NAL unit it hands over. A lemma
without a condition on them holds for every schedule. The conditions that do appear are:

- `BetweenMessages`: RTSP steps fall between messages only.
- `NoSetupInside`: no SETUP while a message is processed. `NoRequestInside`: no SETUP or PLAY between the reading
  of the need flag and the sends and the clearing that follow it. Both are simple conditions under which
  `GateSession.NoHarm`, the exact condition for per-session safety, holds throughout.
- `AlwaysSends`, `AlwaysAllocates`, `Ample`: no failure of that kind. `Smooth`: the first two and
  `BetweenMessages`.
- `TriedTransportable`: NAL units have types 0..47 or are long enough to be fragmented; `HeardExactly` shows why.

Gate properties speak of attempted sends: the code stops waiting for an IDR before it sends the IDR
(`src/RTSP_Create.c:534-540`), so a failed send of it still opens the gate.

## Findings

- A SETUP or PLAY that runs between `src/RTSP_Create.c:521` and `:525` is forgotten: its client gets an IDR
  without a parameter-set triple (`SessionWitness.PlayAtClearing`).
- A client that sets up and plays between the sampling of the target (`:776`) and the reading of the flag loses
  its triple and IDR to the client before it (`SessionWitness.TakeoverBeforeReading`).
- A PLAY between that reading and the send (`:540`) gets a picture that is no IDR (`SessionWitness.PlayBeforeSend`).
  `GateSession.ProcessNaluExactly` and `SenderSessions.RunSessionsExactly` have the exact condition for all of these.
- The target is sampled once per message, so after a TEARDOWN or a takeover the rest of the message still goes to the
  client sampled (`SessionWitness.TeardownBeforeSend`, exactly when: `SenderSessions.RunOnTargetExactly`).
- A changed parameter set that arrives while the sender waits for an IDR is cached but not sent, so the client
  decodes with the old one until the next triple or the next set of that type (`SessionWitness.NewSpsHeldBack`,
  exactly when: `SenderRuns.RunInStep`).
- A one-byte unit ends a pack for the ungated sender and is stepped over by the gated one
  (`Paths.OneByteParts`, exactly when: `Paths.SameDatagramsExactly`).
- A NAL unit of type 48 or more that fits one packet cannot be recovered (`Depacketiser.HeardExactly`).
- A raw pack with a start code inside makes a snapshot that re-parses to other NAL units
  (`SnapshotWitness.RawPackMisparses`).
- The 32-bit sum of `nalu_datafifo_validate_msg` cannot overflow, and the packet-too-large branch cannot be taken.

## Model

| member | source | states |
|---|---|---|
| AnnexB.SplitSpans | src/rtp.c:122-187 | The NAL units found are in bounds, in order, disjoint with a start code between any two, non-empty, end in a non-zero byte, hold no start code, and only the last can be unterminated |
| AnnexB.SplitCovers | src/rtp.c:122-187 | Nothing else is lost: from the first start code on, every byte lies in a unit or in a start code, or is zero |
| AnnexBWriter.RoundTrip | src/rtp.c:122-187 | Any list of proper NAL units, written with any mix of 3- and 4-byte start codes, leading zeros and trailing padding, splits back into exactly that list |
| AnnexBWriter.NormalForm | src/rtp.c:122-187 | For every byte buffer: splitting, writing with 4-byte start codes and splitting again gives the same list |
| AnnexBWriter.RoundTripExactly | src/datafifo_snapshot.c:181-199 | Writing with 4-byte start codes and splitting is the identity if and only if every NAL unit is non-empty, ends in a non-zero byte and holds no start code |
| StartCodes.FindStartCode | src/rtp.c:61-91 | The scanner reports the first start code at or after the offset, one position earlier and of length 4 when a zero precedes it there, and -1 when there is none |
| StartCodes.FindStartCodeLocal | src/RTSP_Create.c:312-336 | The second scanner reports the same position and length as the first on every input |
| StartCodes.SnapshotFindStartCode | src/datafifo_snapshot.c:129-157 | The third scanner reports the same length, and the same position cut to a 32-bit int |
| StartCodes.IntPositionExact | src/datafifo_snapshot.c:129-157 | That cut keeps the position if and only if it is below 2^31 |
| StartCodes.Scan | src/datafifo_snapshot.c:294-303 | So on buffers up to 2 GiB, hence on every pack a valid message can hold, the three scanners agree |
| StartCodes.CutUnit | src/rtp.c:347-384 | One round of the splitting loop that four functions share: either no start code is left and nothing remains to split, or it cuts off the head of the remaining units and says where to go on |
| StartCodes.LoadAnnexbNalus | src/rtp.c:122-187 | The growing list ends up as exactly the units of the buffer when every reallocation that so many units need, at 0, 128, 256, 512 ... entries, succeeds; otherwise, and only then, the call fails and returns nothing |
| StartCodes.BufferStartsWithStartCode | src/rtp.c:93-119 | True exactly when the buffer begins with a 3- or 4-byte start code; the two copies of the function are the same |
| Rtp.HeaderRoundTrip | src/rtp.c:37-58 | A receiver parsing the twelve header bytes (section 5.1 of RFC 3550) gets back the sequence number, timestamp, SSRC and marker, and the payload after them |
| Rtp.FragmentShape | src/rtp.c:261-304 | A NAL unit longer than 1200 bytes takes ceil((n-2)/1197) >= 2 payloads, each with data and at most 1200 bytes, with S only on the first, E only on the last, never both, and type and layer bits carried over |
| Rtp.FragmentsPartition | src/rtp.c:261-304 | The fragments' data joined in order are the NAL unit after its two header bytes |
| Rtp.PayloadFits | src/rtp.c:214-219 | No payload of a NAL unit can reach the packet-too-large branch |
| RtpLinks.BuildRtpHeader | src/rtp.c:37-58 | Fills the first twelve bytes of the packet buffer in place with the header a receiver parses, and leaves the rest alone |
| RtpLinks.FillFragment | src/rtp.c:274-285 | Fills the fragment buffer in place with FU indicator, second header byte, FU header and the given slice of the NAL unit |
| RtpLinks.RtpLink.SendRtpPacket | src/rtp.c:201-240 | One `sendto`: on success the datagram is on the wire and the number advances modulo 2^16, on failure neither changes |
| RtpLinks.RtpLink.SendFragments | src/rtp.c:261-304 | The fragment loop sends the payloads in order, the marker on the last, and stops at the first failure |
| RtpLinks.RtpLink.SendH265Nalu | src/rtp.c:243-305 | A NAL unit shorter than two bytes is refused; any other goes out whole or fragmented, up to the first failed `sendto` |
| RtpLinks.RtpLink.SendH265Buffer | src/rtp.c:307-389 | A pack is split and its units sent in order up to the first failure; a pack without a leading start code is one NAL unit; success means at least one unit and no failure |
| Depacketiser.SendNaluHeard | src/rtp.c:243-305 | For every schedule of `sendto` failures, an RFC 7798 depacketiser (section 4.4.3) at the addressed client recovers the NAL unit if the send returned 0 and otherwise nothing; other clients hear nothing |
| Depacketiser.HeardExactly | src/rtp.c:243-305 | A client between NAL units recovers a NAL unit sent with success if and only if its type is below 48 or it is long enough to be fragmented |
| Depacketiser.ShortType49Lost | src/rtp.c:261-264 | A concrete 4-byte NAL unit of type 49 whose send returns 0 and of which the client recovers nothing |
| Transport.PackHeard | src/rtp.c:307-389 | Under any failures the client recovers a prefix of the split pack, in order, and all of it exactly when the call returns 0 |
| Transport.NaluShape | src/rtp.c:243-305 | A NAL unit sent in full adds one datagram per payload; all carry its timestamp and destination, the marker can only be on the last and is there exactly when asked for |
| Transport.SendAnswered | src/rtp.c:201-305 | The send of a NAL unit succeeds if and only if each of its packets has a call of `sendto` that succeeds: one call for each packet, in order, up to the first that fails, which leaves no datagram |
| Transport.PackMarked | src/rtp.c:363-365 | A pack sent in full ends in a marked datagram exactly when the marker was asked for and the pack does not end in a bare start code |
| Transport.TimestampsDiffer | src/RTSP_Create.c:835-838 | Two messages sent carry the same timestamp if and only if they are a multiple of 2^28 messages apart |
| GateLanguage.ProcessNaluInv | src/RTSP_Create.c:495-548 | One NAL unit, under any failures and any RTSP steps at the flag's critical sections, keeps the gate's invariant: a full triple before anything else, an IDR next after every triple, cached sets attempted only in the order VPS, SPS, PPS |
| GateLanguage.ProcessNaluOpens | src/RTSP_Create.c:521-548 | A NAL unit for a client is attempted if and only if no triple is due and the gate is not waiting, or its first byte carries type 19 or 20 and a triple that is due went out in full; processing it fails if and only if it was attempted and its send failed |
| GateLanguage.CraHeldBack | src/RTSP_Create.c:363-367 | A CRA picture, type 21, is held back by a waiting gate and leaves it waiting |
| GateLanguage.NotedExactly | src/RTSP_Create.c:409-456 | A NAL unit takes the place of the cached set of its own type 32, 33 or 34, and of no other, if it has at most 16384 bytes and memory is granted; memory is asked for only if it differs from that set |
| GateSession.ProcessNaluExactly | src/RTSP_Create.c:495-548 | One NAL unit, under any failures and any RTSP steps: per-session safety is kept and no request forgotten if and only if no SETUP or PLAY gets in right before a send with the flag down, nor, with the flag up, between the VPS and what follows it (SPS, PPS, clearing, IDR) as far as the sender gets, and the session's client is still the target when a triple that goes out in full begins |
| GateSession.MarkAnswersExactly | src/RTSP_Create.c:517-528 | Clearing the need flag after a triple leaves no request unanswered for the session's client if and only if no SETUP or PLAY came since its VPS was handed over and the target sampled for the message is still that client |
| GateSession.ClearingExactly | src/RTSP_Create.c:517-528 | That is the condition wherever the sender gets to the clearing, under any interleaving and failure, and it can be read off the schedule: nothing before the SPS, the PPS and the clearing |
| SessionWitness.PlayAtClearing | src/RTSP_Create.c:521-525 | A run from program start: a PLAY between the triple and the clearing, and the IDR follows it without a triple |
| SessionWitness.TakeoverBeforeReading | src/RTSP_Create.c:776-777 | A run: another client sets up and plays after the target was sampled and before the flag is read; the first client gets the triple and IDR, the other a trailing picture first |
| SessionWitness.PlayBeforeSend | src/RTSP_Create.c:521-540 | A run: a PLAY between the reading of the flag and the send it allowed, and the next NAL unit to the client is a trailing picture |
| SessionWitness.TeardownBeforeSend | src/RTSP_Create.c:776-777 | A run: a TEARDOWN after the target was sampled, and the picture goes out all the same |
| SessionWitness.NewSpsHeldBack | src/RTSP_Create.c:530-533 | A run without failures: a new SPS comes between a triple and the IDR behind it, and the playing client's depacketiser ends with the old one while the cache has the new |
| GateHistory.ProcessNaluHistory | src/RTSP_Create.c:409-548 | One NAL unit keeps these: every client recovered what was sent to it with success, the cache is the last set of each type seen, and every attempt is aimed at the current session |
| GateHistory.FlagsMean | src/rtsp.c:235-276 | `g_play` is set exactly when the last RTSP step is a PLAY, and `g_client_addr` is valid and equals an address exactly when the last SETUP named it |
| GateHistory.OnTargetMeans | src/RTSP_Create.c:198-213 | So nothing is attempted after SETUP, TEARDOWN or disconnect until the next PLAY, and only to the client of the last SETUP |
| GateHistory.StillPlaysExactly | src/rtsp.c:235-276 | A session that plays for a client still does after further RTSP steps if and only if they are none or end in a PLAY, and the last SETUP among them, if any, names that client |
| GateInStep.ProcessNaluInStep | src/RTSP_Create.c:495-548 | One NAL unit keeps what the playing client holds of each set: the one of the latest triple if sets of its type came only before the IDR behind it, otherwise the last one that came |
| GateInStep.InStepExactly | src/RTSP_Create.c:517-548 | So its last set is the cached one if and only if the set did not change since the latest triple, or one of its type came after the IDR |
| GateInStep.ProcessNaluCached | src/RTSP_Create.c:409-493 | One NAL unit, when memory is granted, keeps the cache at the last set of each type, and whatever goes out from it was the last of its type at that time |
| GateInStep.WaitingStaysInStep | src/RTSP_Create.c:530-533 | A parameter set that arrives while the sender waits for an IDR leaves the client in step if and only if it changes nothing |
| GateInStep.LastRecovered | src/RTSP_Create.c:458-548 | The last set of a type in what a client was sent with success is the last one its event history names |
| GateProgress.OneNalu | src/RTSP_Create.c:495-548 | With no failure and no RTSP step, exactly what one NAL unit adds: the triple if needed and complete, then the unit unless the gate is shut, or nothing while a set is missing |
| SenderService.RunServes | src/RTSP_Create.c:733-869 | End to end over any run without failures, for the last PLAY of it: since then the client's depacketiser recovered the three sets, with the first NAL unit that finds all known, then, from the first IDR on, every NAL unit of at least two bytes in the packs mapped of the messages accepted, in order, and nothing else |
| Paths.SameDatagrams | src/RTSP_Create.c:550-625 | With the gate held open, gated and ungated sender make the same `sendto` calls and put the same datagrams on the wire, under any failures, on packs where no one-byte unit precedes a longer one |
| Paths.SameDatagramsExactly | src/rtp.c:254-257 | When no send fails, they do so on a split pack if and only if no one-byte unit precedes a longer one |
| Paths.OneByteParts | src/rtp.c:254-257 | A concrete nine-byte pack, a one-byte unit and an IDR: the ungated sender fails without a datagram, the gated one goes on to the IDR |
| Playbacks.Playback.HandleRequest | src/rtsp.c:235-276 | Each RTSP critical section: SETUP, PLAY, TEARDOWN or disconnect, as a step on the shared flags |
| Playbacks.Playback.HandleRequests | src/rtsp.c:191-277 | RTSP critical sections that win the mutex run in order before the sender's own |
| Playbacks.Playback.GetRtspTarget | src/RTSP_Create.c:198-213 | Reports the play and need flags and the target address, zeroed when none was set |
| Playbacks.Playback.NeedsParameterSets | src/RTSP_Create.c:215-224 | Reads the flag as left by the RTSP steps that came first |
| Playbacks.Playback.MarkParameterSetsSent | src/RTSP_Create.c:226-231 | Clears the flag after whatever RTSP steps came first, and starts waiting for an IDR |
| Playbacks.Playback.CacheParameterSet | src/RTSP_Create.c:409-456 | Replaces the cached set of the NAL unit's type unless it is too long, unchanged, or memory is refused |
| Playbacks.Playback.SendCachedParameterSets | src/RTSP_Create.c:458-493 | Attempts the cached VPS, SPS, PPS in order up to the first failure; fails without an attempt while one is missing |
| Playbacks.Playback.ProcessNaluForPlayback | src/RTSP_Create.c:495-548 | The gated sender on one NAL unit is the transition about which the gate's properties are proved |
| Playbacks.Playback.ProcessBufferForPlayback | src/RTSP_Create.c:550-625 | The splitting loop hands the pack's units to the gate in order, the marker on an unterminated last one, up to the first failure |
| DataFifo.ValidateMsg | src/nalu_datafifo.c:285-365 | Accepts a message exactly when magic and version match, it has 1 to 8 packs, each at a non-zero address and of 1 byte to 8 MiB, and its total, if given, is their sum; the 32-bit overflow check is never the reason for a refusal |
| SenderThreads.SenderThread.ProcessPackForPlayback | src/RTSP_Create.c:627-675 | One pack: mapped, processed and unmapped, or passed over when it cannot be mapped; a failed unmapping makes the result a failure |
| SenderThreads.SenderThread.ProcessPacksForPlayback | src/RTSP_Create.c:813-833 | All packs in order, the marker asked for on the last only, a failing pack not stopping the next |
| SenderThreads.SenderThread.ProcessSnapshot | src/RTSP_Create.c:796-801 | A flagged message goes through the snapshot cache before playback |
| SenderThreads.SenderThread.HandleMessage | src/RTSP_Create.c:779-852 | A valid message that is not stale: its number noted, its snapshot taken, its packs processed, and the timestamp stepped only if there was a target |
| SenderThreads.SenderThread.TakeTurn | src/RTSP_Create.c:752-869 | One turn of the loop is one step of the run about which the whole-run properties are proved |
| SenderThreads.SenderThread.TakeTurns | src/RTSP_Create.c:733-869 | From program start, n turns of the code reach exactly the n-th state of the run |
| SenderRuns.RunLanguage | src/RTSP_Create.c:458-548 | Over every run, interleaving and failure: no NAL unit before a full cached triple, an IDR next after every successful triple, cached sets only in order |
| SenderRuns.RunTypes | src/RTSP_Create.c:458-548 | The same by NAL unit type bits: every triple is of types 32, 33 and 34, and the first stream NAL unit attempted after it has type 19 or 20 |
| SenderRuns.RunStarved | src/RTSP_Create.c:437-443 | Over every run in which memory is refused every time nothing is ever attempted |
| SenderSessions.RunSessionsExactly | src/RTSP_Create.c:733-869 | Over every run: per-session safety holds and no request is forgotten after every NAL unit put to the gate if and only if none of them met a request where it does harm |
| SenderSessions.RunSessions | src/RTSP_Create.c:517-548 | So over every run in which no SETUP comes inside a message and no request between the reading of the flag and what is sent on the strength of it: after every SETUP and PLAY the first NAL unit attempted to a client is the cached VPS, and the first stream NAL unit an IDR behind a full triple for that client |
| SenderRuns.RunFromCache | src/RTSP_Create.c:458-493 | Over every run in which memory is granted: every cached set attempted carries the bytes of the last VPS, SPS or PPS, of at most 16 KiB, looked at before |
| SenderRuns.RunOnTarget | src/RTSP_Create.c:775-777 | Over every run with RTSP steps between messages: every attempt goes to the client of the last SETUP, after a PLAY not yet undone |
| SenderSessions.RunOnTargetExactly | src/RTSP_Create.c:775-833 | Over every run: that holds if and only if, for every attempt, the RTSP steps since its message's target was sampled are none or end in a PLAY, and the last SETUP among them, if any, names the sampled client |
| SenderRuns.RunRecovered | src/RTSP_Create.c:733-869 | Over every run: each client recovers, in order, exactly the NAL units whose send to it returned 0 |
| SenderRuns.RunCache | src/RTSP_Create.c:409-456 | Over every run in which memory is granted: each cache entry is the last NAL unit of its type, of at most 16 KiB, that the gate looked at, played or not; after a failed send that leaves out the rest of the pack |
| SenderInput.RunCacheOfItems | src/RTSP_Create.c:409-456 | Over every run in which sends succeed and memory is granted: each cache entry is the last NAL unit of its type, of at most 16 KiB, in the packs mapped of the valid messages that are not stale |
| SenderRuns.RunInStep | src/RTSP_Create.c:458-548 | Over every run without failures: what the playing client recovered ends with the cached set of each type if and only if that set did not change since the latest triple, or one of its type came after the IDR behind it |
| SenderRuns.RunFraming | src/rtp.c:221-239 | Over every run: the i-th datagram carries i modulo 2^16; every datagram belongs to one message and carries its timestamp; only a message's last datagram can be marked; timestamps repeat only 2^28 messages apart |
| SenderRuns.PacksExtends | src/RTSP_Create.c:813-838 | The datagrams of one message share its stamp, only the very last can be marked, and without a target none is sent |
| SenderRuns.RunNumbered | src/rtp.c:221-239 | Over every run: there are as many datagrams as calls of `sendto` that succeeded, and the i-th carries i modulo 2^16 |
| SenderWire.RunOneSource | src/RTSP_Create.c:738-823 | Over every run: every datagram is a packet of the one source 0x22334455 |
| SenderWire.ProcessNaluMarks | src/RTSP_Create.c:540-548 | When a NAL unit goes out with success, under any interleaving and failure, behind a triple or as the IDR that opens the gate, its last datagram is marked if and only if the marker was asked for; otherwise no datagram is marked |
| SenderWire.RunMarks | src/RTSP_Create.c:813-833 | Over every run: a message processed leaves a marked datagram if and only if its last pack was mapped and ends in a NAL unit of at least two bytes with no start code behind it, and that NAL unit went out with success |
| SenderWire.RunSent | src/RTSP_Create.c:835-838 | Over every run: exactly the messages processed with a target use up a timestamp, and the next one is 0x12345678 plus 6000 for each |
| SenderItems.RunItems | src/RTSP_Create.c:752-869 | Over every run: items are read in turn and each gets exactly one READ_DONE before the next read; packs are read only while mapped and before that READ_DONE, and every mapping gets one unmapping |
| SenderTraffic.RunTraffic | src/RTSP_Create.c:642-671 | Over every run, the whole traffic from the items and the answers of the mapping calls: each item read and given back once; for a valid message that is not stale, its packs mapped for the snapshot up to the first refusal if it is flagged, then all of them for playback; a pack is used and unmapped if and only if its own call was answered with success |
| SenderItems.RunClimbs | src/RTSP_Create.c:784-794 | Over every run: the numbers of the messages processed strictly increase once one is not zero |
| SenderItems.RunSnapped | src/datafifo_snapshot.c:450-595 | Over every run: the GOP cache invariant always; when memory is granted the caches equal what the flagged messages say, and what was handed to the writer are exactly the snapshots they ask for, one for one and in order |
| SenderItems.RunReparses | src/datafifo_snapshot.c:391-438 | When raw packs hold no start code, the i-th of them splits into exactly the NAL units it must hold |
| SenderInput.RunFaithful | src/RTSP_Create.c:752-869 | Over every run: the messages processed are exactly the valid items each newer than the last one accepted, in order; each flagged one has one snapshot record, of exactly the packs mapped before the first refusal; and if no send fails the gate looks at every NAL unit of at least two bytes of every pack that was mapped, and no other, in order, played or not |
| SenderInput.PackLookedAt | src/RTSP_Create.c:550-625 | Under any failures the gate looks at the NAL units of a pack in order and leaves some out only behind one whose own send failed; a triple that could not be sent in full stops nothing |
| ByteBuffers.AppendExact | src/datafifo_snapshot.c:98-112 | An append adds exactly the data or changes nothing, and fails exactly when the sum exceeds SIZE_MAX or memory it needs is refused |
| ByteBuffers.AppendThrifty | src/datafifo_snapshot.c:60-96 | Memory is asked for only when it is short, the first time for at least 4096 bytes, and always for less than twice what is needed, or for 4096 |
| ByteBuffers.GrownDoubles | src/datafifo_snapshot.c:79-86 | Below half of the address range growing at least doubles the capacity |
| ByteBuffers.MovesBounded | src/datafifo_snapshot.c:60-112 | Over any run of appends the bytes moved by growth never exceed the final capacity |
| ByteBuffers.ByteBuffer.GrowCap | src/datafifo_snapshot.c:79-86 | The doubling loop ends, at a capacity that suffices, without passing SIZE_MAX |
| ByteBuffers.ByteBuffer.ReserveBytes | src/datafifo_snapshot.c:60-96 | Makes room without touching the contents, or fails and leaves everything as it was |
| ByteBuffers.ByteBuffer.AppendBytes | src/datafifo_snapshot.c:98-112 | The in-place append, memory regrown as needed, is the append of the contents |
| ByteBuffers.ByteBuffer.ReplaceBytes | src/datafifo_snapshot.c:114-120 | The contents become the data, or nothing when memory is refused |
| Snapshot.ProcessKeepsGop | src/datafifo_snapshot.c:349-389 | After every message, whatever is refused: `current_gop_has_irap` holds exactly when the GOP is not empty, and it is at most 8 MiB |
| SnapshotHistory.FeedPacksIs | src/datafifo_snapshot.c:226-326 | With memory granted, feeding a message appends its NAL units, trimmed and behind 4-byte start codes, and sets the caches to its last sets, up to a one-byte unit in a pack and up to a pack that cannot be mapped |
| SnapshotRefinement.GopStep | src/datafifo_snapshot.c:349-389 | With memory granted, one access unit opens, extends, drops or leaves alone the cached GOP just as the history does, with the numbers and time stamps of its first and last message |
| SnapshotRefinement.ProcessRefines | src/datafifo_snapshot.c:450-532 | With memory granted, after every flagged message the caches are what the history of flagged messages says: last sets, last IRAP message, and all since it unless that passed 8 MiB |
| SnapshotRefinement.SnapshotIs | src/datafifo_snapshot.c:391-438 | With memory granted and the writer ready, a flagged message hands over a snapshot exactly when all its packs were mapped and the history has all three sets and an IRAP message: the NAL units due behind 4-byte start codes, with the GOP's time stamp if the GOP is used |
| SnapshotRefinement.SnapshotReparses | src/datafifo_snapshot.c:391-438 | Splitting the bytes handed over gives the latest VPS, SPS and PPS, then all NAL units from the latest flagged IRAP message on, or that message's own if the GOP was dropped |
| SnapshotRefinement.ReparsesExactly | src/datafifo_snapshot.c:181-199 | In general it does so if and only if none of those NAL units has a start code inside, which only a raw pack can bring in |
| SnapshotUnbroken.RunUnbroken | src/datafifo_snapshot.c:349-389 | Over every run, whatever memory and mappings are refused: a cached GOP is all that was gathered since the last access unit with an IRAP, without a hole, with its number and time stamp, and a cached IRAP access unit is that one |
| SnapshotUnbroken.PackCut | src/datafifo_snapshot.c:272-326 | Whatever memory is refused, what is gathered of a pack are its NAL units from the first on, none left out in between; a refused append ends the pack, at most with a bare start code |
| SnapshotUnbroken.SetReplaced | src/datafifo_snapshot.c:201-224 | A set just gathered replaces the cached one of its own type, which is left empty if the memory it needs is refused; nothing else changes |
| SnapshotUnbroken.IrapReplaced | src/datafifo_snapshot.c:518-532 | An access unit with an IRAP replaces the last one with its number and time stamp; if memory it needs is refused, that one is lost and number and time stamp stay |
| SnapshotUnbroken.GopReplaced | src/datafifo_snapshot.c:349-389 | An access unit that belongs to a GOP is appended if both stay within 8 MiB and the memory needed is granted, and otherwise the GOP is dropped |
| SnapshotUnbroken.RunWhole | src/datafifo_snapshot.c:391-438 | So every snapshot handed over, whatever was refused before, is three cached sets and then that GOP, or that access unit alone |
| SnapshotWitness.RawPackMisparses | src/datafifo_snapshot.c:280-282 | A valid flagged message with such a raw pack, whose snapshot from program start re-parses to something else |
| SnapshotCaches.SnapshotCache.AppendAnnexbNalu | src/datafifo_snapshot.c:181-199 | Appends a start code and the trimmed NAL unit, or nothing when fewer than two bytes are left; stops where an append fails |
| SnapshotCaches.SnapshotCache.UpdateParamSet | src/datafifo_snapshot.c:201-224 | What was just appended replaces the cached set of its type, also when it is empty |
| SnapshotCaches.SnapshotCache.FeedOneNalu | src/datafifo_snapshot.c:226-270 | Gathers one NAL unit into the access unit and the caches |
| SnapshotCaches.SnapshotCache.FeedOneBuffer | src/datafifo_snapshot.c:272-326 | Gathers a pack: its units in order up to the first that cannot be fed, or the pack itself as one NAL unit |
| SnapshotCaches.SnapshotCache.UpdateGopCache | src/datafifo_snapshot.c:349-389 | Opens, extends or drops the cached GOP in place |
| SnapshotCaches.SnapshotCache.UpdateLastIrap | src/datafifo_snapshot.c:518-532 | Keeps the access unit of a message with an IRAP as the last IRAP |
| SnapshotCaches.SnapshotCache.BuildSnapshot | src/datafifo_snapshot.c:391-438 | Builds the output from separate buffers that stay unchanged |
| SnapshotCaches.SnapshotCache.GatherPack | src/datafifo_snapshot.c:478-513 | One pack: mapped, gathered while mapped whether or not it parses, then unmapped once, each step recorded where it is taken |
| SnapshotCaches.SnapshotCache.GatherPacks | src/datafifo_snapshot.c:477-514 | The packs in order, giving up at the first that cannot be mapped; the recorded traffic is what the item discipline is proved of |
| SnapshotCaches.SnapshotCache.ProcessMessage | src/datafifo_snapshot.c:450-595 | The whole of a message on six buffers in place is the step the refinement is proved of |
| WriterQueue.RunSafe | src/snapshot_writer.c:323-505 | Over every interleaving of callers, worker, init and deinit: the ring is well formed with at most four jobs, cleared outside its window; accepted jobs are finished ++ in flight ++ queued; every buffer passed in is freed or held exactly once; the worker sleeps only with nothing to do |
| WriterQueue.NeverFreedTwice | src/snapshot_writer.c:96-104 | No buffer is freed more often than it was passed in |
| WriterQueue.EnqueueExactly | src/snapshot_writer.c:429-474 | In every reachable state a job is accepted and `true` returned if and only if it is real, the writer is started and not stopping, and fewer than four jobs wait; otherwise its buffer is freed |
| WriterQueue.WorkExactly | src/snapshot_writer.c:323-357 | In every reachable state a worker step finishes and frees the job in hand, or takes the oldest accepted job not yet begun, or, with none waiting, returns if told to stop and else goes to sleep |
| WriterQueue.InitStarts | src/snapshot_writer.c:377-399 | Init of a stopped writer leaves it started and empty if the worker could be created, and otherwise as it was |
| WriterQueue.DeinitStops | src/snapshot_writer.c:481-489 | Deinit of a started writer sets stop and wakes the worker; of any other it changes nothing, nor does a second init |
| WriterQueue.DeinitEnds | src/snapshot_writer.c:491-502 | Its second half waits for the worker to return and leaves a writer that is not started, with every accepted job finished and every buffer freed |
| WriterQueue.StopProgress | src/snapshot_writer.c:336-352 | Once stop is set nothing is accepted any more, and each worker step, and no other, lowers the work left by one |
| WriterQueue.Drains | src/snapshot_writer.c:323-357 | From stop on, any interleaving that gives the worker those steps reaches a point where it has returned, all accepted jobs are finished in order and all buffers are freed |
| WriterQueue.IdleMeansClean | src/snapshot_writer.c:477-505 | Whenever the writer is not started, before init or after deinit, the ring is clear and every buffer ever passed in has been freed |
| SnapshotWriters.SnapshotWriter.PopJob | src/snapshot_writer.c:107-118 | Takes the oldest job off the ring and clears its slot, or reports an empty queue |
| SnapshotWriters.SnapshotWriter.EnqueueH265Take | src/snapshot_writer.c:429-474 | Accepts the job at the tail and wakes the worker, or frees the buffer: empty, not started, stopping or full |
| SnapshotWriters.SnapshotWriter.WorkerTurn | src/snapshot_writer.c:323-357 | One step of the worker: sleep, return, take a job, or finish and free one |
| SnapshotWriters.SnapshotWriter.BeginInit | src/snapshot_writer.c:377-395 | First half of init: nothing if started, else a reset ring and, unless thread creation fails, a worker |
| SnapshotWriters.SnapshotWriter.EndInit | src/snapshot_writer.c:397-399 | Second half of init: jobs are accepted from here on |
| SnapshotWriters.SnapshotWriter.StopDeinit | src/snapshot_writer.c:481-489 | First half of deinit: stop and wake the worker, or nothing if not started |
| SnapshotWriters.SnapshotWriter.ReclaimDeinit | src/snapshot_writer.c:491-502 | Second half, after the join: every slot freed and the writer reset |
| SnapshotDelivery.SnapshotsWritten | src/datafifo_snapshot.c:567-574 | Put through the queue under any interleaving, the snapshots of a run are written at most once each and in order; all of them if the queue refused none and the worker has returned |
| ShellQuote.AppendText | src/snapshot_writer.c:193-210 | Appends the text and a terminator in place exactly when both fit, and otherwise changes nothing |
| ShellQuote.SnapshotShellQuote | src/snapshot_writer.c:212-236 | Succeeds exactly when 2 + length + 3 times the number of single quotes is less than the size, and then holds the quoted text and its terminator |
| ShellQuote.EscapedLength | src/snapshot_writer.c:219-233 | Each single quote costs three characters more |
| ShellQuote.QuoteThen | src/snapshot_writer.c:212-236 | Wherever it stands on a command line, a POSIX shell (sections 2.2 and 2.3 of the Shell Command Language) takes quoted text as exactly the text, added to the word it stands in |
| ShellQuote.QuoteReadsBack | src/snapshot_writer.c:212-236 | On its own, quoted text is one word, the text, for every text |
| ShellQuote.CommandReads | src/snapshot_writer.c:238-273 | The command line built from two quoted paths splits into the program's arguments with both paths in their places, byte for byte, whatever they contain |
| PageMap.Masks | src/nalu_datafifo.c:35-38 | For every page size 2^k up to 2^62 the masks round down to pages and no 64-bit step wraps |
| PageMap.SmallestCover | src/nalu_datafifo.c:35-64 | The range mapped is page-aligned, covers the pack, and lies inside every other aligned range that does; base plus offset is the physical address |
| PageMap.UnmapsWhatWasMapped | src/nalu_datafifo.c:85-88 | From the address returned, unmapping recomputes exactly the start and size of the mapping, wherever it was |

## Left out

- Sockets, `/dev/mem`, file writes, `ffmpeg`, the DATAFIFO and MPI libraries: only their outcomes appear, as the tables above.
- RTSP request parsing, responses and SDP: only the effect of SETUP, PLAY, TEARDOWN and disconnect on the shared flags is modelled.
- Logging, rate limits, clocks, argument parsing, `src/file.c` and the statistics of the loop.
- File mode (`src/RTSP_Create.c:678-731`): it marks every NAL unit and steps the timestamp each time, so there is no framing to claim.
- `send_datafifo_pack` (`src/rtp.c:392-455`), which nothing in the loop calls.
- Everything under `little_app/src`, an older variant without the gate and the stale check.
- Null pointers passed between functions of the program: every caller passes real ones. A null text given to the quoter counts as the empty one.
- The C heap: cached parameter sets, packets handed to `sendto` and snapshot jobs are values or addresses, so double use of memory after `free` is covered for the writer's jobs only.
- `malloc` addresses may be reused, so the writer's conservation law counts how often an address was passed in and freed.
- SnapshotWriters.SnapshotWriter.BeginInit: assumes one thread starts and stops the writer; two concurrent calls of init are not modelled.
- `snprintf` of the command line: only the line it makes when it fits (`src/snapshot_writer.c:251-260`), for a program name without special characters.
- SnapshotWriters.SnapshotWriter.WorkerTurn: writing the file and converting it are one step without effect on the queue; whether they succeed is not modelled.
- The marks `has_vps`, `has_sps`, `has_pps` of frame and IRAP cache, which only logging reads, and the `reason` text of a job.
- SnapshotDelivery.SnapshotsWritten: takes the bytes of a buffer as fixed from its handing over to its being freed, and a snapshot as written when its job is finished, whether or not the file system took it.
- SnapshotRefinement.ProcessRefines: assumes memory is granted; with memory refused an access unit may be cut short where it was refused, and `SnapshotUnbroken` takes it as it was gathered.
- RtpLinks.RtpLink.SendRtpPacket: a `sendto` that sends part of a datagram does not occur; it sends all or fails.
- SenderSessions.RunSessionsExactly: counts a forgotten request as a breach at once; that its client may send another SETUP or PLAY before anything more is sent to it is not followed up.
- GateInStep.ProcessNaluInStep: assumes that no send or allocation fails; a failed send of a set leaves the client behind until the next triple.
- ByteBuffers.MovesBounded: excludes the overflow fallback near SIZE_MAX, where the capacity no longer doubles.
- Rtp.HeaderRoundTrip: the receiver checks version, flags and payload type only as far as this sender sets them.
- H.265 below the NAL unit header: flagged messages need not be consecutive frames, so a snapshot need not decode.
