# Verification of the voice relay, its downlink and its termination protocol

This project models the stateful cores of the repository and proves what they keep over whole runs. Each core is a
state machine: a value of its state, one step function per atomic piece of the code (a database transaction, a
database call, a socket callback, or the code between two awaits), and theorems over every legal sequence of steps.
Where the source updates an object in place, a class with the same fields does the same, and every method is proved to
take the state to what the step function says, so the theorems speak about it. The step functions in turn are held to
accounts that do not name them: what each state and answer is, told from the events before it (`AckHistory`,
`TerminationAnswers`, `SessionHistory`, `AudioHistory`, `SessionPacing`, `BridgeHistory`, `PairingHistory`, the
histories inside `IntentClaims`), or from an independent definition (`FilterLaws`, `RelayDelivery`).

`dafny verify dfyconfig.toml` checks everything.

## The five parts

**Termination ledger** (`Termination*.dfy`, `AckHistory.dfy`, `Request*.dfy`, `Canonical*.dfy`, `TextDigest.dfy`,
`Numerals.dfy`, `JsText.dfy`). Sessions, terminations and idempotency requests are three collections; every
`runTransaction` body is one step. Text is a sequence of UTF-16 code units and is hashed as UTF-8, where every
unpaired surrogate is replaced by U+FFFD; SHA-256 is an injective function of those octets. Nothing in the repository
writes the results `partial` and `timeout` that retries, status and session states expect, so one step (`Conclude`)
stands for the environment that gives up on a pending termination. Results: one linear retry chain per session with
agreement between session and leaf, the five-way quorum in both directions, on file and by the last reports taken,
finality, idempotent replay, exactly when two requests share a key, that the canonical text and the payload hash
determine a JSON value up to the order of object keys, and that a request id names one terminate or retry for good, up
to unpaired surrogates.

**Downlink with barge-in** (`FrameBuffer.dfy`, `*AudioQueue.dfy`, `*Shaper.dfy`, `Session*.dfy`, `AudioHistory.dfy`,
`BargeInTrigger.dfy`, `CutThrough*.dfy`, `CloudCut.dfy`, `PeerVoiceSession.dfy`, `Pacer.dfy`, `DownlinkLedger.dfy`,
`EndToEnd.dfy`). Audio goes through the frame buffer, the bounded queue, the pacing coroutine, the socket and the
sidecar's second queue. Handlers are cut at their awaits and interleave freely. One clock stands for the wall clock
and the monotonic clock that the code mixes; the send lock is first-in first-out, so the order of handing frames to
the socket is the order on the wire. Results: an interrupt by the local path lets at most one frame of all replies so
far through to the call, the one in hand, and it does so for every configuration with a given reply gap exactly when
the gap is no longer than 0.6 s; the trigger fires exactly on a sustained run of loud frames; frames arrive in order
and are cut from the stream whatever its chunks; eviction is optimal; counters balance; the pacing rate is bounded
from both sides; the three windows that discard audio, standby and its requests, the replies and all labels of every
frame are what the events say. The cloud path empties the queue before two awaits and sets its flag after them, and
two things follow. Audio that arrives in between is queued and still sent: at most the frames cut there come on top of
the one in hand (`CloudInterruptBound`), none does exactly when no queued frame is young once the pacing loop looks
(`CutsOffIffNothingYoung`), and with the default gap two frames can (`AudioSlipsIntoCloudInterrupt`). And a window can
open while nothing is playing; it stays open, with all downlink audio discarded, until a peer re-enters
(`InsideIffNoLateCloud`, `WedgedForGood`).

**Resampler and WAV files** (`Resampler*.dfy`, `FilterLaws.dfy`, `Downsampler.dfy`, `WavFile.dfy`). The filter works
on real numbers with arbitrary taps; rounding and clamping to 16 bits are those of the code. Results: splitting the
input into frames is invisible exactly when the frame length divided by the ratio is whole; the impulse response is
the taps and every output is the nearest sample to the filtered signal at its position; the WAV reader returns the
first data chunk of any RIFF file and inverts the writer.

**Relay registry** (`Relay*.dfy`). Registration waits once while it holds the lock, so it is two steps with heartbeats
and forwards between them. Results: at most one open connection per code and role, peers never point at a third
connection, a frame goes to the single open connection on the other side exactly when the link names it, a pair
delivers both ways until it is disturbed, and links stay mutual exactly until the late unregistration of a replaced
connection.

**Connection and claims** (`Bridge*.dfy`, `Pairing*.dfy`, `IntentClaims.dfy`, `Devices.dfy`, `Signing.dfy`). Stale
sockets of the bridge client and clients racing on conditional updates, each database call a step of its own. Results:
one hello per socket and only its creator's, at most one disconnect per session, no socket left unclosed but the
current one; one device per pairing code; an exact balance of issued intents, and exactly when a consumer is given the
session of the intent it consumed.

Where the code and its own comments disagree, the model follows the code:

- `signing.js` documents that `consume` refuses expired intents; its update looks only at the consumed mark
  (`PromiseKeptIffNoneExpiredWaits`, `ExpiredIntentIsConsumed`).
- `rtc.js` says the DNL4 balance must be 0; it is minus the frames that were pending when the reply began
  (`BalanceIsZeroIffPacerWasEmpty`, `BalanceCanMissByTwo`).
- The request key is meant to tell requests apart; ids that differ only in unpaired surrogates share one
  (`KeyTellsScrubbedRequestsApart`, `TwoRequestIdsShareAKey`), and so do ids where a session id or a request id holds
  a numeral after a NUL (`KeyCollidesIffSplittable`, `SharesItsKeyIff`).
- `consume` reads the session back in a second call; it is not always that of the intent consumed
  (`ConsumerGetsTheSessionItTook`, `ReissueGivesOneSessionTwice`, `UnreadableGivesTheRoom`).

## Model

| member | source | states |
|---|---|---|
| TerminationTheorems.ChainShapeAndAgreement | deploy/trtc-sign/termination-store.js:57-151 | In every reachable store a session's terminations form one linear chain; it is ACTIVE iff there are none, TERMINATING iff exactly the leaf is pending, TERMINATED iff the leaf is complete |
| TerminationTheorems.ChainIsUnique | deploy/trtc-sign/termination-store.js:136-150 | A session has only one root-to-leaf chain |
| TerminationTheorems.FiveWayQuorum | deploy/trtc-sign/termination-store.js:131-192 | A session is TERMINATED iff for each of the five names some termination of its chain holds confirmed reports from all required reporters |
| TerminationTheorems.ConfirmedUpTo | deploy/trtc-sign/termination-store.js:131-142 | A name is confirmed in a document iff it or an ancestor in the chain reached the quorum for it |
| TerminationTheorems.StepKeeps | deploy/trtc-sign/termination-store.js:57-193 | Every transaction keeps chains, quorum bookkeeping, contexts and request files consistent |
| TerminationTheorems.RunPersists | deploy/trtc-sign/termination-store.js:167-191 | Over any run a finished document only ever learns its child, a complete one never changes, and inherited acknowledgements are never altered |
| TerminationTheorems.TerminatedIsFinal | deploy/trtc-sign/termination-store.js:188-191 | TERMINATED is absorbing: no later transaction writes the session again |
| AckHistory.FiledIsTheLastReport | deploy/trtc-sign/termination-store.js:169-180 | In every reachable store the report on file for a termination, name and reporter is the last one taken, with its verdict, error code and time, and there is none where none was taken |
| AckHistory.ReportIsTakenIff | deploy/trtc-sign/termination-store.js:156-171 | A report is taken exactly in the termination's own context, while it is pending, on a name not inherited, from a reporter who must confirm it; the answer is the document as filed, or 40403 or 40901 with no change |
| AckHistory.AckReadsWhatWasLastSaid | deploy/trtc-sign/termination-store.js:173-183 | A name not inherited reads failed iff some reporter last said so and confirmed iff everyone who must confirm last did; on an inherited one nothing was reported |
| AckHistory.TerminatedByLastReports | deploy/trtc-sign/termination-store.js:131-192 | After every run a session is TERMINATED iff each of the five names was, on some termination of its chain, last reported confirmed by everyone who must confirm it |
| AckHistory.FailureBlocks | deploy/trtc-sign/termination-store.js:173-192 | A reporter whose last word is failed keeps the termination from completing |
| AckHistory.TerminalAtIsTheFinish | deploy/trtc-sign/termination-store.js:184-192 | terminalAt is the time of the event that ended the termination, and is set iff it is no longer pending |
| TerminationAnswers.SessionIsFirstCreate | deploy/trtc-sign/termination-store.js:57-71 | The sessions on file are those registered, each with the device, room, generation and time of its first registration |
| TerminationAnswers.CreateAnswers | deploy/trtc-sign/termination-store.js:57-71 | Registering again is answered with the document iff the context is the first one, and 40916 otherwise, with no change |
| TerminationAnswers.TerminateStartsIff | deploy/trtc-sign/termination-store.js:73-105 | A terminate starts a termination iff it names the first registered context, its key is new and the session has no termination; the other answers |
| TerminationAnswers.RetryStartsIff | deploy/trtc-sign/termination-store.js:113-154 | A retry starts a termination iff its parent is of the session, has no retry and ended as the reason says, and its key is new: the session's own state adds nothing |
| TerminationAnswers.DocumentTellsItsRequest | deploy/trtc-sign/termination-store.js:73-154 | A termination carries the session, request id, hash, parent and time of the request that made it |
| TerminationAnswers.DocumentTellsItsContext | deploy/trtc-sign/termination-store.js:73-154 | and the device, room and generation of its session's first registration |
| TerminationAnswers.WritesAreStamped | deploy/trtc-sign/termination-store.js:57-194 | Whatever a transaction writes carries its time |
| TerminationReplay.IdempotentReplay | deploy/trtc-sign/termination-store.js:84-88 | In every reachable state a repeated terminate or retry, its request id the same up to unpaired surrogates, returns the original termination and changes no document, even after completion |
| TerminationReplay.OtherPayloadIsRefused | deploy/trtc-sign/termination-store.js:118-123 | The same request id with another payload is always refused without a change; terminate and retry share one key space |
| TerminationStore.TerminationStore.CreateSession | deploy/trtc-sign/termination-store.js:57-71 | A new session is filed ACTIVE; an equal context returns the existing document untouched, a different one is 40916 |
| TerminationStore.TerminationStore.BeginTermination | deploy/trtc-sign/termination-store.js:73-105 | Unknown session 40402, other context 40916, key on file replayed, not ACTIVE 40916; otherwise document, request file and session state change together |
| TerminationStore.TerminationStore.Replay | deploy/trtc-sign/termination-store.js:84-88 | The original termination for the same payload hash, 40912 for another, and no change either way |
| TerminationStore.TerminationStore.Inherit | deploy/trtc-sign/termination-store.js:132-135 | The loop collects exactly the confirmed names of the parent |
| TerminationStore.TerminationStore.RetryTermination | deploy/trtc-sign/termination-store.js:113-154 | Only a partial or timed-out leaf with the matching reason gets a child that inherits its confirmed names, links it and puts the session back to TERMINATING; every refusal changes nothing |
| TerminationStore.TerminationStore.RecordAck | deploy/trtc-sign/termination-store.js:156-194 | Only a listed reporter may report on a pending, not inherited name; the fifth confirmation completes document and session together |
| TerminationContract.InitialAcks | deploy/trtc-sign/termination-contract.js:28-30 | All five acknowledgements start pending |
| CanonicalJson.StringReadsBack | deploy/trtc-sign/termination-contract.js:103-109 | String escapes lose nothing (section 7 of RFC 8259), lone surrogates included |
| CanonicalJson.KeyOrderIsIgnored | deploy/trtc-sign/termination-contract.js:103-109 | Values that differ only in the order of object keys have one canonical text |
| CanonicalJson.TextIsUnambiguous | deploy/trtc-sign/termination-contract.js:103-109 | The text of a value followed by a delimiter determines the value and the rest |
| CanonicalJson.CanonicalIsUnambiguous | deploy/trtc-sign/termination-contract.js:103-113 | Two values have the same canonical text iff they are the same up to key order |
| CanonicalDigest.CanonicalIsWhole | deploy/trtc-sign/termination-contract.js:103-113 | Canonical text holds no unpaired surrogate, whatever the value holds |
| CanonicalDigest.PayloadHashIsUnambiguous | deploy/trtc-sign/termination-contract.js:111-113 | Two values have the same payload hash iff they are the same up to key order |
| TextDigest.DigestsAgreeIffScrubbedAgree | deploy/trtc-sign/termination-contract.js:115-118 | Two texts hash alike iff they agree once every unpaired surrogate is replaced by U+FFFD |
| Numerals.NumeralIsInjective | deploy/trtc-sign/termination-contract.js:115-118 | Generations print differently, exponents from 1e21 on included |
| Numerals.ExponentFrom | deploy/trtc-sign/termination-contract.js:115-118 | Plain digits that read back below 1e21, an exponent from there on |
| TextDigest.OctetsOfExamples | deploy/trtc-sign/termination-contract.js:111-118 | One to four octets, and U+FFFD for half a pair |
| RequestIdentity.KeyTellsScrubbedRequestsApart | deploy/trtc-sign/termination-contract.js:115-118 | When neither session id can be split at the other's generation, two requests share a key iff their generations are equal and session and request ids agree up to unpaired surrogates |
| RequestIdentity.NulFreeIsUnsplittable | deploy/trtc-sign/termination-contract.js:115-118 | Session ids without NUL cannot be split |
| RequestIdentity.SharesItsKeyIff | deploy/trtc-sign/termination-contract.js:115-118 | A request shares its key with one of another session id iff its session id can be split at some generation or its request id, after the separator, holds a numeral between NULs |
| RequestIdentity.NulFreeIdSharesItsKey | deploy/trtc-sign/termination-contract.js:115-118 | Even a session id without NUL: a NUL in the request id is enough |
| RequestIdentity.OwnKeyIffNothingToReplace | deploy/trtc-sign/termination-contract.js:115-118 | Within its session and generation a request id has a key of its own iff it holds neither an unpaired surrogate nor U+FFFD |
| RequestIdentity.TwoRequestIdsShareAKey | deploy/trtc-sign/termination-contract.js:115-118 | Two different valid request ids with one key |
| RequestIdentity.KeyCollidesIffSplittable | deploy/trtc-sign/termination-contract.js:115-118 | For every generation: a key is shared with a request of that generation and a shorter session id iff the session id ends, up to a separator, in NUL and the numeral of that generation |
| RequestBodies.TerminateHashIsInjective | deploy/trtc-sign/termination-service.js:10-19 | The payload hash tells terminate bodies apart |
| RequestBodies.RetryHashIsInjective | deploy/trtc-sign/termination-service.js:27-41 | The payload hash tells retries apart by session, parent and reason |
| RequestBodies.TerminateIsNeverRetry | deploy/trtc-sign/termination-service.js:27-41 | No terminate body has the hash of a retry |
| RequestService.RequestIdNamesOneRequest | deploy/trtc-sign/termination-service.js:10-41 | Once a terminate or a retry is accepted under a request id, the same request is answered with its termination and every other terminate or retry under that id is refused, with no change |
| RequestService.LookalikeRetryIsReplayed | deploy/trtc-sign/termination-service.js:27-41 | A second retry whose request id differs in an unpaired surrogate is answered with the first one's child |
| FrameBuffer.FramesAreTheStream | backend/rtc_bridge/frame_buffer.py:30-46 | Frames followed by the residue are the stream; the residue is shorter than a frame |
| FrameBuffer.CutIsIrrelevant | backend/rtc_bridge/frame_buffer.py:30-46 | Cutting the stream anywhere changes neither frames nor residue |
| FrameBuffer.ChunkingIsIrrelevant | backend/rtc_bridge/frame_buffer.py:30-46 | The frames of any chunking are the frames of the whole |
| FrameBuffer.PcmFrameBuffer.Feed | backend/rtc_bridge/frame_buffer.py:30-46 | The loop cuts exactly the complete frames of residue and chunk and keeps the rest |
| FrameBuffer.PcmFrameBuffer.Flush | backend/rtc_bridge/frame_buffer.py:48-60 | The tail is dropped or zero-padded to one frame, and the buffer is empty |
| FrameBuffer.PcmFrameBuffer.Reset | backend/rtc_bridge/frame_buffer.py:62-64 | Nothing is held back afterwards |
| AudioQueue.HeadScanFilters | backend/rtc_bridge/bounded_audio_queue.py:191-205 | With nondecreasing push times the head-only expiry scan equals filtering the whole queue by age |
| AudioQueue.EvictionStops | backend/rtc_bridge/bounded_audio_queue.py:98-116 | Eviction stops at the first suffix that fits both budgets with the new entry |
| AudioQueue.EvictionIsOptimal | backend/rtc_bridge/bounded_audio_queue.py:92-123 | After an accepted push the queue is the longest fitting suffix of the unexpired entries, then the new entry |
| AudioQueue.DropAccountingIsExact | backend/rtc_bridge/bounded_audio_queue.py:92-216 | Pushes = depth + pops + drops + flushed, drops = overload + age, the high watermark stays within the frame budget |
| AudioQueue.PopTakesTheOldestYoung | backend/rtc_bridge/bounded_audio_queue.py:92-146 | After any timed run a pop takes the oldest young entry and leaves the young ones after it; a payload beyond the byte budget costs only the expired |
| AudioQueue.UnexpiredAreTheYoung | backend/rtc_bridge/bounded_audio_queue.py:191-205 | Young means not older than the limit |
| AudioQueue.FlushKeepsTheOthers | backend/rtc_bridge/bounded_audio_queue.py:153-181 | Flushing a generation keeps exactly the entries of the others |
| AudioQueue.NotOfAppends | backend/rtc_bridge/bounded_audio_queue.py:153-181 | piece by piece, so in their order |
| AudioQueue.CountersTellTheirEvents | backend/rtc_bridge/bounded_audio_queue.py:92-205 | What each operation adds to each counter, by lengths and ages |
| BoundedAudioQueue.BoundedAudioQueue.Push | backend/rtc_bridge/bounded_audio_queue.py:92-125 | Expired entries go, an oversized payload is refused and counted, the oldest entries make room, the new one is last; every counter |
| BoundedAudioQueue.BoundedAudioQueue.Pop | backend/rtc_bridge/bounded_audio_queue.py:127-146 | The oldest unexpired entry, if any |
| BoundedAudioQueue.BoundedAudioQueue.DropExpiredHead | backend/rtc_bridge/bounded_audio_queue.py:191-205 | The head scan removes and counts exactly the expired prefix |
| BoundedAudioQueue.BoundedAudioQueue.Flush | backend/rtc_bridge/bounded_audio_queue.py:153-181 | Flush of everything, counted |
| BoundedAudioQueue.BoundedAudioQueue.FlushGeneration | backend/rtc_bridge/bounded_audio_queue.py:153-181 | Flush of one generation keeps the others in order |
| BoundedAudioQueue.BoundedAudioQueue.BumpGeneration | backend/rtc_bridge/bounded_audio_queue.py:183-189 | Flush, then a new generation |
| Shaper.SendingRateIsBounded | backend/rtc_bridge/shaper.py:125-173 | A busy period, which begins with the first pop that finds a young frame after one that found none, sends at most 1 + floor((t - start + 2 ms) / frame) frames by t, however late earlier ones ran |
| Shaper.SlotsAreExact | backend/rtc_bridge/shaper.py:137-150 | A popped frame waits for its slot start + n * frame when that is more than 2 ms ahead and may go at once otherwise |
| Shaper.TakesTheFirstYoung | backend/rtc_bridge/shaper.py:130-140 | A pop takes the first queued frame that is still young, if there is one |
| DownlinkShaper.DownlinkShaper.Push | backend/rtc_bridge/shaper.py:86-105 | A chunk becomes its complete frames, numbered consecutively within the current reply, each pushed in order; the residue is kept |
| DownlinkShaper.DownlinkShaper.Reset | backend/rtc_bridge/shaper.py:113-117 | Queue and residue are emptied |
| DownlinkShaper.DownlinkShaper.BeginReply | backend/rtc_bridge/shaper.py:65-71 | A new reply starts at frame number 0 |
| DownlinkShaper.DownlinkShaper.TakeNext | backend/rtc_bridge/shaper.py:130-167 | The popped frame is held until its slot t0 + n * frame when it is more than 2 ms early; an empty queue ends the busy period |
| DownlinkShaper.DownlinkShaper.SendHeld | backend/rtc_bridge/shaper.py:150-171 | The popped frame is the one sent |
| CutThrough.InterruptCutsThrough | backend/rtc_bridge/session.py:269-292 | Once the local path opens a window, until a peer re-enters, no frame is sent except the one already popped, be it of the interrupted reply or of any reply so far, under every interleaving |
| CutThrough.StepKeepsBudget | backend/rtc_bridge/session.py:499-651 | Every step adds at most the frames it cuts to what is sent, in hand and queued of any replies |
| CutThrough.StepKeepsBar | backend/rtc_bridge/session.py:499-586 | Every step but a peer's re-entry keeps the interrupted replies barred |
| CloudCut.CloudInterruptBound | backend/rtc_bridge/session.py:416-448 | Of the replies begun before a cloud interrupt's window opens, at most the frame in hand and the frames cut between the handler's two halves are sent until a peer re-enters |
| CloudCut.CutsOffIffNothingYoung | backend/rtc_bridge/session.py:416-448 | In every reachable open window nothing but the frame in hand gets through iff no queued frame is young when the pacing loop is free to look |
| CloudCut.CloudCutsOffIffNothingYoung | backend/rtc_bridge/session.py:416-448 | The same for the window a cloud interrupt leaves, whatever ran between its two halves |
| CutThroughLimits.CutsThroughIffGapFitsWindow | backend/rtc_bridge/session.py:540-586 | The cut-through holds for a configuration family iff the reply gap is at most the 0.6 s that close the window |
| CutThroughLimits.TwoFramesSlipThrough | backend/rtc_bridge/session.py:572-586 | A longer gap lets two frames of the interrupted reply through |
| CutThroughLimits.AudioSlipsIntoCloudInterrupt | backend/rtc_bridge/session.py:416-448 | With the default gap, audio between the two halves of a cloud interrupt gets two frames of the interrupted reply through |
| CutThroughLimits.InsideIffNoLateCloud | backend/rtc_bridge/session.py:416-440 | Over a whole run every window lies inside a speaking spell iff the cloud handler never resumes, to set its flag, after speaking has ended |
| CutThroughLimits.AtomicCloudIsNeverLate | backend/rtc_bridge/session.py:416-440 | With the cloud handler in one piece that never happens |
| CutThroughLimits.LateCloudWedges | backend/rtc_bridge/session.py:416-440 | It takes three steps: the cloud event, the end of speaking, the handler's resumption |
| CutThroughLimits.WedgedForGood | backend/rtc_bridge/session.py:499-586 | Such a window stays open until a peer re-enters |
| BargeInTrigger.TriggerIsExact | backend/rtc_bridge/session.py:269-303 | The window opens iff the last barge_sustain_frames uplink frames were loud, consecutive, past the grace period and inside one speaking spell; while the path is on, playback speaks and no window is open the counter is that run's length, and it always stays below the threshold |
| SessionOrder.FramesArriveInOrder | backend/rtc_bridge/session.py:540-559 | Sent frames are a subsequence of the frames cut, strictly increasing in (reply, frame number); the payloads cut since the last reset are the frames of the accepted audio, whatever its chunks, and the buffer is its residue |
| SessionPacing.SessionsSendNoFaster | backend/rtc_bridge/shaper.py:125-173 | The same bound over every session, with interrupts, resets, pushes and silences in between |
| SessionPacing.SessionsSendInTheirSlots | backend/rtc_bridge/shaper.py:130-150 | Over every session a pop takes the first young frame, which may be sent in its slot |
| SessionHistory.FlagsAreHistory | backend/rtc_bridge/session.py:252-303 | In every reachable state the speaking spell, the interruption, the run of loud frames, the dropped tail, the standby request and standby are what the events before say |
| SessionHistory.ActiveEndsStandby | backend/rtc_bridge/session.py:653-690 | [ACTIVE] outside an interruption ends standby and takes back a request |
| SessionHistory.StandbyMutes | backend/rtc_bridge/session.py:561-604 | [STANDBY] while playback speaks and then more than 0.6 s of silence with nothing played, interrupted or woken puts the session in standby, and the next chunk is not cut |
| AudioHistory.AudioIsHistory | backend/rtc_bridge/session.py:499-559 | In every reachable state the residue, the reply and chunk numbers and the next frame number are what the events say |
| AudioHistory.CutIsHistory | backend/rtc_bridge/session.py:499-559 | Every frame ever cut has the payload, reply, frame number, chunk number and time that the events ask for |
| AudioHistory.WireCarriesWhatEventsSay | backend/rtc_bridge/session.py:499-651 | The frames on the wire are, in order, some of those frames |
| AudioHistory.EveryFrameIsAccountedFor | backend/rtc_bridge/session.py:269-448 | Each of them is on the wire, in hand, queued, dropped or thrown away, and flush orders are those the events ask for |
| PeerVoiceSession.PeerVoiceSession.OnUpAudio | backend/rtc_bridge/session.py:252-303 | The frame that completes the sustained run opens the window, empties the queue and orders the flush before the first await; any other frame counts or resets the run |
| PeerVoiceSession.PeerVoiceSession.OnAudioOut | backend/rtc_bridge/session.py:499-538 | A chunk is discarded in standby, in a marker tail (which keeps the spell alive) and in a window; otherwise it keeps or starts the spell and is pushed under its reply |
| PeerVoiceSession.PeerVoiceSession.MintReplyIfNeeded | backend/rtc_bridge/session.py:540-559 | A gap longer than the threshold starts a new reply |
| PeerVoiceSession.PeerVoiceSession.CheckDownSpeakingOver | backend/rtc_bridge/session.py:561-629 | 0.6 s of silence closes the spell, the window and the marker tail; buffered markers apply |
| PeerVoiceSession.PeerVoiceSession.OnText | backend/rtc_bridge/session.py:653-684 | In a window text changes nothing; otherwise markers open the tail window, request standby or end it |
| PeerVoiceSession.PeerVoiceSession.OnServerUserSpeechBegins | backend/rtc_bridge/session.py:416-434 | While speaking, queue and flush order as on the local path, but the window flag is not set yet |
| PeerVoiceSession.PeerVoiceSession.OnServerUserSpeechEnds | backend/rtc_bridge/session.py:434-448 | The window flag is set whatever happened in between |
| PeerVoiceSession.PeerVoiceSession.OnPeerEnter | backend/rtc_bridge/session.py:710-746 | All windows and the queue are reset |
| PeerVoiceSession.PeerVoiceSession.RunTakes | backend/rtc_bridge/shaper.py:130-150 | The pacing loop pops on the session's clock and touches nothing of the session's own state |
| PeerVoiceSession.PeerVoiceSession.SendFrame | backend/rtc_bridge/session.py:631-651 | Exactly the held frame goes to the socket, once due |
| Pacer.LedgerBalances | sidecar/downlink_pacer.js:66-111 | queued = sent + dropped + pending and ticks = sent + underruns after any run |
| Pacer.DelayIsBounded | sidecar/downlink_pacer.js:66-111 | A frame that is sent goes out within maxFrames ticks of its push and with no clear in between |
| Pacer.PendingAreTheNewest | sidecar/downlink_pacer.js:66-79 | After any run the pending frames are the newest pushed: the oldest make room |
| Pacer.OutputsInOrder | sidecar/downlink_pacer.js:83-93 | Frames go out in the order of their pushes, each at most once |
| Pacer.WhatStaysPending | sidecar/downlink_pacer.js:66-111 | What each call leaves pending, sends and counts |
| Pacer.DownlinkPacer.PushFrame | sidecar/downlink_pacer.js:66-79 | Append, then drop the oldest beyond the limit |
| Pacer.DownlinkPacer.TickOnce | sidecar/downlink_pacer.js:83-93 | The oldest frame, or an underrun |
| Pacer.DownlinkPacer.ClearAll | sidecar/downlink_pacer.js:104-111 | Everything pending is dropped and counted |
| DownlinkLedger.BalanceIsMinusPending | sidecar/rtc.js:117-151 | Within a reply the DNL4 balance is minus the frames pending at its first frame |
| DownlinkLedger.BalanceIsZeroIffPacerWasEmpty | sidecar/rtc.js:139-150 | "must be 0" holds iff the pacer was empty then |
| DownlinkLedger.BalanceCanMissByTwo | sidecar/rtc.js:139-150 | Two frames still waiting when the next reply begins make it -2 |
| DownlinkLedger.FiguresAreOfTheReply | sidecar/rtc.js:117-151 | The figures logged, arrived, sent, dropped and underruns, are counted from the first frame of the current reply |
| DownlinkLedger.SidecarDownlink.OnDown | sidecar/rtc.js:117-136 | Reply change, base snapshot, push |
| DownlinkLedger.SidecarDownlink.OnFlushDownlink | sidecar/rtc.js:165-168 | The flush order clears the pacer |
| EndToEnd.InterruptIsInaudible | sidecar/rtc.js:163-168 | From the moment the sidecar reads the flush order it injects at most the one in-hand frame of the interrupted reply, and of all replies so far, whatever both sides do |
| EndToEnd.CloudInterruptInjectsAtMost | sidecar/rtc.js:163-168 | From the moment it reads the flush order of a cloud interrupt it injects, of replies begun before the window opens, at most the in-hand frame and the frames cut between the two halves of the handler |
| Resampler.StreamingEqualsBatch | sidecar/resample.js:70-104 | For frames whose length divided by the ratio is whole, frames shorter than the history included, the concatenated outputs are the output of the whole |
| Resampler.SplitAfterWhole | sidecar/resample.js:70-104 | Splitting the input after such a frame is invisible |
| Resampler.HistoryIsTheLastSamples | sidecar/resample.js:94-102 | The history is the last N-1 samples of zeros and input |
| FilterLaws.ConvolutionIsDot | sidecar/resample.js:106-111 | The loop's sum is the dot product of the taps with the samples latest first |
| FilterLaws.ImpulseResponseIsTheTaps | sidecar/resample.js:106-111 | A sample of 1 that lies k steps back gives tap k |
| FilterLaws.ConvolutionIsLinear | sidecar/resample.js:106-111 | The filter is linear in the signal |
| FilterLaws.OutputIsTheFilteredSignal | sidecar/resample.js:83-93 | Output i is the nearest sample to the filtered signal at i times the ratio, in proportion between two samples and exactly at whole positions |
| FilterLaws.ImpulseComesOutAsTaps | sidecar/resample.js:83-111 | A lone sample j steps back, in the frame or in the history, shows as tap j times its value |
| FilterLaws.QuantiseIsNearest | sidecar/resample.js:92 | Rounding to the nearest, halves up, clamped to 16 bits |
| FilterLaws.OutputsFillTheFrame | sidecar/resample.js:83 | As many outputs as multiples of the ratio fit |
| ResamplerLimits.SplitIsInvisibleIffWhole | sidecar/resample.js:83-93 | A split after n samples is invisible for all taps and all continuations iff n divided by the ratio is whole |
| ResamplerLimits.SplitIsInvisibleIff | sidecar/resample.js:83-93 | For continuations of one length: iff that, or the continuation adds no output |
| ResamplerLimits.NormalisedHasUnitGain | sidecar/resample.js:42 | Normalised taps sum to 1 |
| ResamplerLimits.ConstantIsPreserved | sidecar/resample.js:83-93 | With such taps a constant signal comes out unchanged |
| Downsampler.Downsampler.Process | sidecar/resample.js:70-104 | Output is the filter of history and frame, and the in-place history is that of the specification; a rate not above the target passes through |
| Downsampler.Downsampler.UpdateHistory | sidecar/resample.js:94-102 | The shift in place leaves the last N-1 samples, for frames longer and shorter than the history |
| Downsampler.Downsampler.Convolve | sidecar/resample.js:106-111 | The accumulation loop computes the convolution sum |
| WavFile.WavRoundTrip | sidecar/audio.js:92-130 | Writing succeeds iff the sizes fit 32 bits, and reading back returns the concatenated buffers |
| WavFile.ReadIsTheFirstDataChunk | sidecar/audio.js:114-130 | On any RIFF/WAVE bytes the reader answers with the first data chunk and refuses iff there is none |
| WavFile.ReadInvertsEncoding | sidecar/audio.js:121-128 | Padded or not, the chunks before the data chunk are skipped |
| WavFile.HeaderTells | sidecar/audio.js:97-108 | The header says uncompressed 16-bit mono at 16 kHz, with rates, alignment and sizes that fit |
| WavFile.ReadWav | sidecar/audio.js:114-130 | The scan terminates on every byte string |
| WavFile.WriteWav | sidecar/audio.js:92-111 | The header filled field by field, then the buffers |
| WavFile.SplitIntoFrames | sidecar/audio.js:82-89 | Complete frames, the rest left out |
| RelaySafety.LinkSafety | backend/relay/relay_server.py:62-158 | In every reachable registry an open registered connection is the entry for its key, peers share the code with opposite roles, and the peer of an open connection points back or nowhere |
| RelaySafety.OneOpenPerKey | backend/relay/relay_server.py:66-70 | At most one open registered connection per code and role |
| RelaySafety.RegistrationPairs | backend/relay/relay_server.py:70-82 | A registration is linked both ways with the open connection of the other side, if there is one |
| RelaySafety.FrameGoesToTheOtherSide | backend/relay/relay_server.py:102-127 | A frame is passed on unchanged to at most one connection, the single open one of the same code and the other role |
| RelayDelivery.FrameOutcome | backend/relay/relay_server.py:102-125 | In every reachable registry text and bytes alike are passed on iff the link names an open peer; otherwise text is answered with no_peer and bytes are dropped; a heartbeat is answered |
| RelayDelivery.PairDelivers | backend/relay/relay_server.py:102-125 | Both ways every frame is delivered for as long as neither side is closed, unregistered or replaced and nobody linked to one of them unregisters |
| RelayDelivery.RegistrationBringsTogether | backend/relay/relay_server.py:62-83 | A registration that finds someone makes such a pair |
| RelayDelivery.OlderIsClosed | backend/relay/relay_server.py:62-69 | Taking the lock closes exactly the other open connections registered under the key |
| RelayDelivery.RegistrationOutcome | backend/relay/relay_server.py:70-83 | Both sides are told they are paired iff someone waits; otherwise the connection is only filed |
| RelayDelivery.UnregistrationOutcome | backend/relay/relay_server.py:85-99 | The connection, its link and its own entry go; exactly the open peer its link names loses its link and is told |
| RelaySafety.MutualUnlessSevered | backend/relay/relay_server.py:85-99 | A step breaks mutual links iff it unregisters a connection whose open peer is already linked to another open one |
| RelaySafety.RunStaysMutual | backend/relay/relay_server.py:62-158 | Without such a step links stay mutual over the whole run |
| RelayLimits.LateUnregistrationSevers | backend/relay/relay_server.py:85-99 | Such a step is reachable: a phone reconnects before its first connection unregisters |
| RelayLimits.SeveredIsOneWay | backend/relay/relay_server.py:102-127 | Afterwards frames, text or bytes, pass in one direction only |
| RelayLimits.SeveredUntilRegistration | backend/relay/relay_server.py:62-99 | A cleared link stays cleared until someone on the code registers |
| RelayServer.RelayServer.BeginRegister | backend/relay/relay_server.py:62-69 | An older open connection under the key is closed while the lock is held; nothing else changes |
| RelayServer.RelayServer.FinishRegister | backend/relay/relay_server.py:70-83 | The connection becomes the entry; the caller learns its peer, open, of the same code and other role, linked both ways, or nothing was linked |
| RelayServer.RelayServer.Unregister | backend/relay/relay_server.py:85-99 | The entry is removed only if it is this connection; the open peer is cleared and told |
| RelayServer.RelayServer.Forward | backend/relay/relay_server.py:102-125 | Heartbeats answered, missing peers reported for text only, the rest passed on |
| RelayServer.RelayServer.SafeClose | backend/relay/relay_server.py:152-158 | Only the closed mark changes: links and entries stay |
| BridgeSafety.OneHelloPerSocket | sidecar/bridge.js:52-95 | Every socket has its own generation and says at most one hello, first and that of its creating startSession |
| BridgeSafety.OneDisconnectPerSession | sidecar/bridge.js:99-109 | onDisconnect fires at most once per started session |
| BridgeSafety.NoSocketLeaks | sidecar/bridge.js:52-111 | Every socket but the current one was closed by the client or by the other side |
| BridgeSafety.OnlyTheCurrentSocketSpeaks | sidecar/bridge.js:82-111 | Messages, closes and hellos take effect iff the socket is current, and the session in force is then its creator |
| BridgeSafety.StaleForever | sidecar/bridge.js:52-111 | A socket that is not current never is again, sends nothing and never reaches the client |
| BridgeSafety.SessionsMixUpIffAmbiguous | sidecar/bridge.js:54-56 | Two valid sessions can share a key iff an id holds a NUL that reads as a separator |
| BridgeHistory.ClientIsHistory | sidecar/bridge.js:52-144 | In every reachable state the session in force, its socket, what each socket was sent, on which close was called and what the callbacks were told are what the events say |
| BridgeHistory.StartReplaces | sidecar/bridge.js:52-65 | Starting another session puts it in force on a new socket and closes the old one, even while a session is in force |
| BridgeClient.BridgeClient.StartSession | sidecar/bridge.js:52-65 | Another session gets a new generation and a new current socket, the old one is closed; the same key only lifts the stop flag |
| BridgeClient.BridgeClient.Connect | sidecar/bridge.js:82-85 | A socket is made only for an active session of this generation without one |
| BridgeClient.BridgeClient.ClearSession | sidecar/bridge.js:71-80 | No session, no current socket, a new generation, so every open socket is stale; the dropped one is closed |
| BridgeClient.BridgeClient.OnOpen | sidecar/bridge.js:86-95 | A current socket of an active session says its hello; a stale one changes nothing for the client |
| BridgeClient.BridgeClient.OnMessage | sidecar/bridge.js:96-98 | Delivered iff the socket is current |
| BridgeClient.BridgeClient.OnClose | sidecar/bridge.js:99-109 | A current socket's close ends its session with one disconnect; a stale one's does nothing |
| BridgeClient.BridgeClient.OnError | sidecar/bridge.js:110 | An error closes the socket and changes nothing else |
| BridgeClient.BridgeClient.SendWhenReady | sidecar/bridge.js:125-144 | Payloads go to the open current socket of an active session only |
| PairingClaims.OneDevicePerCode | deploy/trtc-sign/devices.js:94-133 | However many registrations race, a code yields at most one device |
| PairingClaims.FirstClaimWins | deploy/trtc-sign/devices.js:107-112 | A claim succeeds iff it is the first of its code |
| PairingClaims.ClaimIsForGood | deploy/trtc-sign/devices.js:107-112 | A claimed code is never available again, even if the winner stops before its insert |
| PairingClaims.LoneRegistrationIffUsable | deploy/trtc-sign/devices.js:94-133 | Without a competitor registration succeeds iff the code has a use left and is not past its expiry |
| PairingHistory.DocumentsAreHistory | deploy/trtc-sign/devices.js:68-133 | In every reachable state every code, call and device document is what the calls say |
| PairingHistory.DevicesAreGenuine | deploy/trtc-sign/devices.js:94-127 | Every device came from a check of its code no later than the code's expiry, and carries that call's name, secret and dates |
| PairingHistory.CheckPassesIff | deploy/trtc-sign/devices.js:104-106 | A check passes iff the code is on file, has a use left and is not past its expiry, 300 seconds after its creation |
| Devices.Registry.CreatePairingCode | deploy/trtc-sign/devices.js:68-86 | A code for one use that expires after 300 seconds, with its platform, hint and creation |
| Devices.Registry.ReadCode | deploy/trtc-sign/devices.js:94-106 | The call goes on iff the code exists, has a use left and is unexpired, and it remembers the limit it read |
| Devices.Registry.ClaimCode | deploy/trtc-sign/devices.js:107-112 | Succeeds iff a use is left under the remembered limit, and then none is left for anyone and the time of use is on file |
| Devices.Registry.InsertDevice | deploy/trtc-sign/devices.js:114-127 | The device of a claimed code, valid for a year, with the hash of its secret and no owner |
| IntentClaims.IntentsBalance | deploy/trtc-sign/signing.js:36-92 | Every issued intent is consumed once, lost once or pending: exact balance under every interleaving |
| IntentClaims.ConsumesNeverOutnumberIssues | deploy/trtc-sign/signing.js:75-81 | Successful consumes of a device never outnumber its issues |
| IntentClaims.FreshLossMeansReissue | deploy/trtc-sign/signing.js:49-68 | The clean-up removes an intent that is fresh by then only if it was issued again after the listing |
| IntentClaims.FreshIsLostIffReissued | deploy/trtc-sign/signing.js:49-68 | After every run, the clean-up loses a pending fresh intent iff the latest issue still waits, is no earlier than the listing and no older than the limit |
| IntentClaims.FreshIntentIsRemoved | deploy/trtc-sign/signing.js:49-68 | Such a run: listed when just expired, issued again, then removed |
| IntentClaims.ConsumerGetsWhatIsLeft | deploy/trtc-sign/signing.js:75-92 | Whatever happens between its two database calls, a consumer is given what the last issue or removal in between left, the session it took if there was none, and the room when reading fails |
| IntentClaims.ConsumerGetsTheSessionItTook | deploy/trtc-sign/signing.js:75-92 | The session read back is that of the intent consumed iff nothing was written in between or an issue for the same session came last; after a removal, or when reading fails, iff that session is the room |
| IntentClaims.UnreadableGivesTheRoom | deploy/trtc-sign/signing.js:82-92 | With nobody interfering, a failed read-back gives the room for the session taken |
| IntentClaims.ReissueGivesOneSessionTwice | deploy/trtc-sign/signing.js:82-92 | When the intent is issued again before the first consumer reads back, two consumers are given the same, newer session |
| IntentClaims.PendingIsWaiting | deploy/trtc-sign/signing.js:36-81 | What is pending, and since when, is the device's latest issue unless it was consumed or removed since |
| IntentClaims.PromiseKeptIffNoneExpiredWaits | deploy/trtc-sign/signing.js:71-81 | After every run, a consume keeps the documented refusal of consumed, missing and expired intents iff the latest issue is not still waiting from before the freshness limit |
| IntentClaims.ExpiredIntentIsConsumed | deploy/trtc-sign/signing.js:71-81 | Such a run: an intent is consumed just after it expired |
| IntentClaims.ClaimNamesItsConsumer | deploy/trtc-sign/signing.js:75-81 | After every run a document is consumed iff a consume took it, and names who and when |
| Signing.AnswersAreTheFresh | deploy/trtc-sign/signing.js:49-60 | The listing answers with exactly the fresh documents it saw |
| Signing.OneMoreAnswer | deploy/trtc-sign/signing.js:49-60 | In order, a document no older than the limit is answered with its room, its session or else the room, and its time |
| Signing.Intents.Issue | deploy/trtc-sign/signing.js:36-46 | A fresh unconsumed intent replaces whatever was there; the session defaults to the room |
| Signing.Intents.ListPending | deploy/trtc-sign/signing.js:49-68 | The loop answers with the fresh ones in order and schedules exactly the stale ones for removal |
| Signing.Intents.RemoveOne | deploy/trtc-sign/signing.js:61-68 | The removal is unconditional: whatever intent is there by then goes |
| Signing.Intents.ConsumeIntent | deploy/trtc-sign/signing.js:75-81 | Succeeds iff an unconsumed intent is there, whatever its age, and records consumer and time |
| Signing.Intents.ReadSession | deploy/trtc-sign/signing.js:82-92 | The session now on file, or the room when there is none or it cannot be read |

## Left out

- The environment step `Conclude` is not code of the repository; it leaves acknowledgements and reports untouched.
- `consumeNonce`, `getTermination` and `statusData`: one lookup each, with nothing that spans operations.
- The text checks of the validators: requests enter the model validated; the path session id equals the body's.
- JSON numbers are taken as the text JavaScript prints for them; a generation stands for the integer its shortest decimal text denotes; objects have distinct keys, as parsed objects do.
- Random ids of terminations, devices and pairing codes do not repeat.
- Session start, stop and close, the uplink queue and its consumer, standby statistics and latency logs.
- Loudness of an uplink frame and the markers found in text are step inputs; the energy measure and the router are not part of this model.
- The await inside a shaper push and the age sampling for metrics do not change the model's state.
- The FIR coefficients (sine, cosine, window) are arbitrary taps; floating-point rounding inside the filter is not modelled, only the final rounding and clamping.
- `frameToS16Mono16k` and `makeAudioFrame16k`: per-sample conversion around the filter.
- WavFile.SplitIntoFrames: frame lengths are whole milliseconds, so that the byte count is a whole number.
- RelayServer.RelayServer.FinishRegister: the `paired` messages are logged at once, although the code awaits each send under the lock; session ids and counters are left out.
- A text frame that is valid JSON but not an object ends the connection's loop; in the model that is an unregistration at any time.
- The relay's token check, frame codec and replay guard.
- BridgeClient.BridgeClient.StartSession: the hello arrives validated (an invalid one throws before any change); the back-off index, which is only ever set to 0, is left out.
- BridgeClient.BridgeClient.OnMessage: parsing of messages into audio and control is left out, delivery is what is modelled.
- Devices.Registry.InsertDevice: of the secret only its hash is modelled; owner binding and revocation by later calls are left out.
- Signing.Intents.ListPending: database errors of a removal are removals that never happen.
- The server's connection handler and clean-up, HTTP and WebSocket plumbing, cryptography, the user interface, scripts and the duplicate deployments.
