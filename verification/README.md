# Candor: verified models of its stateful protocols

Candor records meetings locally: a Rust core captures audio, verifies packaged models and runs
local AI jobs; an Electron shell supervises the core, imports media, owns a global shortcut and
validates every answer. This project models the protocols whose guarantees span whole runs and
proves them with Dafny, for all inputs, interleavings and crash points.

`dafny verify dfyconfig.toml` checks everything.

How the models are built:

- A component that interleaves with others (capture threads, the probe's teardown, media import,
  the shortcut service, the supervisor) is a state machine: `Event`, `Enabled`, `Step`, and a
  `Run` of states and events. One event is one critical section, one atomic access, or the code
  between two awaits. Theorems are about every state of every run.
- A component that updates its fields is also a class. Each method is proved to compute exactly
  the `Step` or the specification function that the theorems are about.
- A loop of the source is a method with a loop, proved against a declarative statement or a
  recursive function whose properties are proved beside it.
- Where a promise does not hold of the code, the exact condition is proved, with a concrete
  reachable state that breaks it.

Files: `CaptureSession`, `CaptureProgress`, `ChunkGrid`, `LivePcmTap`, `ObservedCapture` (durable capture and its
observer); `MicrophoneProbe`, `ProbeTeardown`, `DeviceOwnership` (the microphone test);
`WavSample`, `Base64`, `MicrophoneSample` (its sample on the wire); `PreferenceFile`,
`FallbackPolicy` (crash-safe settings and what they permit); `BundledAssets`; `CoreSupervisor`,
`RequestRegistry`, `JsonlFraming`; `MediaImport`, `MediaHash`; `GlobalShortcut`, `Accelerator`;
`TrustHistory`; `Arith`, `Common`, `Histories` (shared vocabulary; flags told by their history).

## What the proofs found

- A late send on a disconnected live channel detaches a newer consumer, because that branch of
  `publish` is not guarded by a generation (`LateSendCanDetachNewerConsumer`,
  `AttachedUntilUnseated`); a stale token detaches a newer consumer exactly when the generation
  has saturated, after 2^64 attachments (`SaturatedTokenDetachesNewerConsumer`).
- A media import whose reconciliation reply arrives after its release removes the listener of
  the import retained since, which then keeps its lock (`LateReconcileSilencesNewerFlight`).
  That, a teardown and another flight's terminal event are the only ways a retained import loses
  its listener while keeping its lock (`RetainedListensUnlessSilenced`).
- A capture stop reports needs-recovery for a fault only if no thread panicked; a panic makes it
  return the join error before it marks the recording (`ReportedExactly`).
- Hashing compares only the size afterwards, so a file rewritten between two reads is accepted
  with bytes it never held (`SameSizeRewriteIsAccepted`); `HashesContentExactly` says when not.
- The shortcut service can report a shortcut as registered while nothing is bound: a write that
  fails after a suspend or dispose restores the old fields but not the old binding
  (`RegisteredWhileStoppedIsReachable`), and a resume onto disabled settings carries that into
  operation. Configuring the same shortcut again then commits the settings without binding it
  (`RegisteredWithoutBindingIsReachable`). Nothing else does either (`RegisteredMeansHeld`,
  `ConfigureIsAtomic`).
- A capture stop that meets a panicked thread drops the remaining join handles, so a microphone
  test may open while a capture thread is un-joined (`DroppedHandleCanOverlap`).
- The probe's completion mark can appear after its state was cleared and stays until the worker
  or a further stop clears it (`LateMarkExactly`); the audio itself stays zero.
- Replacing the microphone preference while only the backup holds the current value can lose it;
  the AI fallback loader never looks at a lone backup, so a crash between its two renames forgets
  the preference and asks (`CrashConsistentIffSafe`, `FallbackKeepsOldOrNewIff`).
- With two verified language models the cached configuration takes the first and the targeted
  lookup the last (`LanguageModelQueryIsAmbiguous`); a manifest is safe from that exactly when no
  two records for the host match a query (`AgreesEverywhereIffMatchedOnce`).
- A packaged model id that is not blank but has, say, a blank inside generates results whose
  provenance is then refused (`ModelIdWithBlankIsRefused`).
- The WAV validator reads its text tags as ASCII, which drops the top bit of each byte, so it
  accepts the encoder's outputs up to those bits (`AcceptsExactlyEncoderOutput`) and so some
  bytes no encoder writes (`TopBitOfTagIsIgnored`).

## Model

| member | source | states |
|---|---|---|
| ChunkGrid.OpenStream | crates/candor-core/src/capture_service.rs:2722-2729 | a stream's target size is a positive multiple of its frame size, so flushing terminates |
| ChunkGrid.ChunkLastsRequestedTime | crates/candor-core/src/capture_service.rs:2722-2729 | below saturation a stream with channels has two bytes a sample and cuts chunks of floor(rate * ms / 1000) whole frames, but at least one |
| ChunkGrid.GridExtend | crates/candor-core/src/capture_service.rs:2948-2986 | appending the next cut keeps every chunk but the last at the target size and every start on the frame grid |
| ChunkGrid.GridPayload | crates/candor-core/src/capture_service.rs:2948-2986 | the frames counted by a grid are exactly the frames its chunks carry |
| ChunkGrid.GridAt | crates/candor-core/src/capture_service.rs:2948-2986 | chunk k starts at floor(1000 F / rate), F being the frames of all earlier chunks |
| ChunkGrid.ChunkStartsDoNotDrift | crates/candor-core/src/capture_service.rs:3519-3521 | starts never decrease and stay within 1 ms of the exact time, for any run length below saturation |
| ChunkGrid.FlushPending | crates/candor-core/src/capture_service.rs:2948-2966 | the flush loop cuts only full chunks, keeps the remainder below the target and loses no byte |
| CaptureSession.CallbackKeepsInv | crates/candor-core/src/capture_service.rs:2923-2946 | a callback either queues its buffer or records the overflow; nothing is lost silently |
| CaptureSession.EmitKeepsInv | crates/candor-core/src/capture_service.rs:2948-2986 | emitting a chunk keeps durable bytes, pending bytes and queue equal to what was produced |
| CaptureSession.StepKeepsInv | crates/candor-core/src/capture_service.rs:2835-2945 | every step of callbacks, capture threads, writer and stop keeps the session invariant, and taints exactly on a fault |
| CaptureSession.RunLogsCallbacks | crates/candor-core/src/capture_service.rs:2923-2946 | the log in the state is the concatenation of everything the run's callbacks delivered |
| CaptureSession.VerifiedMeansComplete | crates/candor-core/src/capture_service.rs:1803-1863 | over every interleaving, a session reported verified has stored, per source, all bytes its callbacks delivered, in order, cut to whole frames and on the grid |
| CaptureSession.VerifiedIffFaultFree | crates/candor-core/src/capture_service.rs:1897-1934 | once stop reported, the outcome is verified if and only if no overflow, stream error, write failure or panic occurred in the run |
| CaptureSession.ReportedExactly | crates/candor-core/src/capture_service.rs:1897-1934 | and the other outcomes are exact too: the join error if and only if a thread or the writer panicked, needs-recovery if and only if some other fault occurred and nothing panicked |
| CaptureSession.ReportEndsRun | crates/candor-core/src/capture_service.rs:1897-1934 | nothing happens after stop has reported on the recording; only a join error, returned at the first panicked thread, can come while other threads still run |
| CaptureSession.RecordingKeepsUp | crates/candor-core/src/capture_service.rs:2835-2891 | over every run, while a thread records it has handed on everything it took from its queue but less than one chunk, with nothing marked as lost that is all that was delivered except the queue, and it leaves its loop only for the stop flag or an error it will report |
| CaptureSession.LeavesLoopExactly | crates/candor-core/src/capture_service.rs:2838-2871 | a thread leaves its loop if and only if it sees the stop flag, a recorded failure or the end of its stream |
| CaptureProgress.StoppedSessionCanReport | crates/candor-core/src/capture_service.rs:1897-1934 | from every point of every run at which the threads were told to stop, the session can get to its report by its own steps alone |
| CaptureProgress.OwnStepGetsCloser | crates/candor-core/src/capture_service.rs:2838-2891 | and then every step of a thread brings it strictly closer to its end, in chunks to cut, buffers to drain and program points |
| CaptureProgress.OthersDoNotDelay | crates/candor-core/src/capture_service.rs:2838-2891 | which no step of anyone else takes away again |
| CaptureProgress.AlwaysAStep | crates/candor-core/src/capture_service.rs:1035-1095 | a thread that has not ended can take a step, or waits for a writer that can |
| CaptureProgress.StoppedExactly | crates/candor-core/src/capture_service.rs:1803-1863 | over every run the threads are told to stop if and only if stop was called or a thread ended with an error |
| CaptureProgress.LoopStep | crates/candor-core/src/capture_service.rs:2838-2877 | where a thread goes from each point of its loop and of its end |
| CaptureProgress.CutStep | crates/candor-core/src/capture_service.rs:2948-2986 | the loop cuts full chunks and the end all whole frames, off the front of what is pending |
| CaptureProgress.TakeStep | crates/candor-core/src/capture_service.rs:2843-2876 | receiving and draining take the oldest buffer, whole |
| CaptureProgress.EnvironmentStep | crates/candor-core/src/capture_service.rs:2902-2946 | a callback queues its buffer if there is room and otherwise notes the overflow; of several failures the first stays |
| CaptureProgress.ErrorStep | crates/candor-core/src/capture_service.rs:2839-2891 | which error a thread notes where, and that taking a failure empties its slot |
| CaptureProgress.WriteStep | crates/candor-core/src/capture_service.rs:1035-1095 | a write that fails ends the loop or the thread with its error noted |
| CaptureProgress.SharedStep | crates/candor-core/src/capture_service.rs:1803-1934 | which steps set the stop flag, end the writer and report, and that the first error is the one kept |
| LivePcmTap.StaleTokenDetaches | crates/candor-core/src/capture_service.rs:269-277 | an older token leaves the newer consumer attached if and only if its generation is below saturation |
| LivePcmTap.SaturatedTokenDetachesNewerConsumer | crates/candor-core/src/capture_service.rs:191-223 | the saturated case, reached by 2^64 attachments |
| LivePcmTap.OwnTokenDetaches | crates/candor-core/src/capture_service.rs:309-311 | a token always detaches its own consumer |
| LivePcmTap.TrySendDetachesExactlyWhenDisconnected | crates/candor-core/src/capture_service.rs:258-266 | a publish detaches exactly when the receiver it selected is gone, whoever is attached by then |
| LivePcmTap.LateSendCanDetachNewerConsumer | crates/candor-core/src/capture_service.rs:258-287 | a concrete sequence in which that removes a newer consumer |
| LivePcmTap.OfferAccounts | crates/candor-core/src/capture_service.rs:258-266 | an offer is queued (at most four) or counted as dropped, and the accounting still balances |
| LivePcmTap.SentExactly | crates/candor-core/src/capture_service.rs:258-266 | one try_send offers the chunk to the live receiver it was sent to and to nobody else, and keeps it at the end of the queue if and only if there is room |
| LivePcmTap.ReceivedExactly | crates/candor-core/src/capture_service.rs:293-299 | a receive hands over the oldest queued chunk of that consumer, and a receiver that goes away gives up what is still queued |
| LivePcmTap.TakeAccounts | crates/candor-core/src/capture_service.rs:199-216 | a receive delivers the oldest queued chunk and keeps the balance |
| LivePcmTap.LivePcmTap.AttachConsumer | crates/candor-core/src/capture_service.rs:191-223 | attach on the object computes the modelled step: a fresh generation, or the active error |
| LivePcmTap.LivePcmTap.DetachGeneration | crates/candor-core/src/capture_service.rs:269-277 | detach by generation on the object |
| LivePcmTap.LivePcmTap.SendOn | crates/candor-core/src/capture_service.rs:258-266 | one try_send on the object, with its full and disconnected branches |
| ObservedCapture.SinkRefines | crates/candor-core/src/capture_service.rs:1035-1095 | the observed write, with its early returns, its question to the tap and its cloned or moved send, is the plain sink step whatever the tap answers |
| ObservedCapture.StepRefines | crates/candor-core/src/capture_service.rs:1035-1095 | every observed step is the plain capture step of that name or leaves the core alone; a publishing thread counts as having written |
| ObservedCapture.ErasureIsCaptureRun | crates/candor-core/src/capture_service.rs:1043-1095 | erasing the observer from any observed run leaves a run of the capture alone |
| ObservedCapture.EveryCaptureRunLifts | crates/candor-core/src/capture_service.rs:1043-1095 | conversely, under any consumer behaviour acting before every step, each capture run is the core of an observed run |
| ObservedCapture.ObserverCannotAffectCapture | crates/candor-core/src/capture_service.rs:1043-1095 | two runs with the same capture events and any observer behaviour store identical chunk sequences and report the same outcome |
| ObservedCapture.AnyConsumersSameCapture | crates/candor-core/src/capture_service.rs:1043-1095 | what any observed run stored and reported is also stored and reported under any other consumer behaviour |
| ObservedCapture.VerifiedMeansCompleteWhenObserved | crates/candor-core/src/capture_service.rs:1022-1097 | the integrity theorem with any observer attached |
| ObservedCapture.EveryConsumerIsAccounted | crates/candor-core/src/capture_service.rs:234-267 | per consumer and over every run: accepted publishes are delivered in order, queued, discarded with it, or counted as dropped |
| ObservedCapture.SeatedExactly | crates/candor-core/src/capture_service.rs:191-223 | attaching to a free tap seats the consumer with an empty channel for the sources it asked for |
| ObservedCapture.ConsumerStep | crates/candor-core/src/capture_service.rs:191-316 | no step of one consumer touches another's channel |
| ObservedCapture.OfferedOnlySelected | crates/candor-core/src/capture_service.rs:234-257 | over every run whatever a consumer is offered is of a source it selected when it attached |
| ObservedCapture.PublishesExactly | crates/candor-core/src/capture_service.rs:1035-1095 | a thread publishes exactly the chunk its sink has just taken: one it stored itself, or one it queued after it saw its source observed |
| ObservedCapture.NoticesExactly | crates/candor-core/src/capture_service.rs:225-232 | the queue sink finds a chunk observed if and only if a consumer is attached that selected its source |
| ObservedCapture.SendsExactly | crates/candor-core/src/capture_service.rs:242-250 | a published chunk goes to the attached consumer if and only if that one selected its source |
| ObservedCapture.SelectedIsOffered | crates/candor-core/src/capture_service.rs:234-266 | over every run such a chunk is offered to that consumer, whatever happens in between, unless the thread dies or the receiver goes away first |
| ObservedCapture.UnseatedExactly | crates/candor-core/src/capture_service.rs:258-287 | exactly which steps detach the attached consumer: stop, a token of its generation, a send on any channel whose receiver is gone |
| ObservedCapture.AttachedUntilUnseated | crates/candor-core/src/capture_service.rs:258-287 | over every run a consumer stays attached if and only if no such step has occurred since it attached |
| ObservedCapture.PublishEnds | crates/candor-core/src/capture_service.rs:234-267 | whatever consumers do in between, a publish ends after at most two steps of its own thread, with the core as it was |
| ObservedCapture.RoundsAreRun | crates/candor-core/src/capture_service.rs:1043-1095 | runs with consumers acting before each step are runs of the interleaved system |
| MicrophoneProbe.ResamplerIsExact | crates/candor-core/src/capture_service.rs:476-487 | after n frames at rate R exactly floor(16000 n / R) samples are out and the accumulator is 16000 n mod R |
| MicrophoneProbe.SplitDoesNotMatter | crates/candor-core/src/capture_service.rs:455-496 | from a cleared state, any split into frame-aligned callbacks gives the same frames, and the ring holds the last 80,000 of the exact count |
| MicrophoneProbe.RmsBelowPeak | crates/candor-core/src/capture_service.rs:489-494 | squared rms never exceeds squared peak in a callback |
| MicrophoneProbe.PcmFitsSixteenBits | crates/candor-core/src/capture_service.rs:466-481 | the mix stays within full scale, so the cast to 16 bits never truncates |
| MicrophoneProbe.MixIsMean | crates/candor-core/src/capture_service.rs:466-470 | a frame is mixed to the mean of its clamped samples |
| MicrophoneProbe.SumOfParts | crates/candor-core/src/capture_service.rs:466-469 | each sample of the frame counts once in it, wherever it stands |
| MicrophoneProbe.SumOfOne | crates/candor-core/src/capture_service.rs:468-468 | and counts with its clamped value |
| MicrophoneProbe.ClampIsNearest | crates/candor-core/src/capture_service.rs:468-468 | no value within full scale is nearer to a sample than its clamped value |
| MicrophoneProbe.RoundIsNearest | crates/candor-core/src/capture_service.rs:481-481 | scaling rounds to the nearest integer, away from zero at a half |
| MicrophoneProbe.FrameAt | crates/candor-core/src/capture_service.rs:465-470 | frame k is the mix of the k-th group of samples |
| MicrophoneProbe.FrameCount | crates/candor-core/src/capture_service.rs:465-465 | there are as many frames as whole groups |
| MicrophoneProbe.EmittedAt | crates/candor-core/src/capture_service.rs:476-487 | sample j is that of the frame n with floor(16000 n / R) <= j < floor(16000 (n + 1) / R) |
| MicrophoneProbe.PeakIsLoudest | crates/candor-core/src/capture_service.rs:471-473 | the peak is the loudest frame of the callback |
| MicrophoneProbe.SquaresOfParts | crates/candor-core/src/capture_service.rs:472-472 | each frame's square counts once in the sum of squares |
| MicrophoneProbe.EmitFrame | crates/candor-core/src/capture_service.rs:476-487 | the resampling loop turns the state of n frames into the state of n + 1 |
| MicrophoneProbe.MixAndResample | crates/candor-core/src/capture_service.rs:465-488 | the frame loop measures and resamples every whole frame of the buffer |
| MicrophoneProbe.MicrophoneProbeState.ProcessInterleaved | crates/candor-core/src/capture_service.rs:455-495 | one callback on the object: ring and accumulator are those of all frames heard, flags only turn on, a buffer without a whole frame changes no level |
| MicrophoneProbe.MicrophoneProbeState.TakeSamples | crates/candor-core/src/capture_service.rs:1280-1291 | a sample request takes the ring and restarts the stream, keeping the levels |
| MicrophoneProbe.MicrophoneProbeState.ZeroAudioState | crates/candor-core/src/capture_service.rs:497-512 | clearing zeroes samples, levels, flags and the completion mark |
| ProbeTeardown.StepKeepsInv | crates/candor-core/src/capture_service.rs:2429-2471 | every step of callback, worker, stream error and manager keeps the silence invariant |
| ProbeTeardown.StoppedProbeStaysSilent | crates/candor-core/src/capture_service.rs:1319-1350 | once the manager cleared a stopping probe, samples, levels and flags stay zero in every later state of every run, timeouts included |
| ProbeTeardown.StoppedWorkerLeavesNothing | crates/candor-core/src/capture_service.rs:1203-1222 | however it ends, a stopped or failed worker leaves silence and no completion mark |
| ProbeTeardown.CompletedTestIsFrozen | crates/candor-core/src/capture_service.rs:2429-2445 | after completion a step keeps the audio or empties it; no callback adds to it |
| ProbeTeardown.AudioStep | crates/candor-core/src/capture_service.rs:2429-2445 | exactly which steps change the audio, and to what |
| ProbeTeardown.HeardStays | crates/candor-core/src/capture_service.rs:2429-2445 | over every run what a callback stored stays until another callback, a clear or a taken sample |
| ProbeTeardown.CallbackStep | crates/candor-core/src/capture_service.rs:2429-2445 | a callback is let in unless the flag is up, and stopped at its second look if and only if the flag or the completion mark is up |
| ProbeTeardown.PastSecondLook | crates/candor-core/src/capture_service.rs:2429-2445 | over every run a callback past its second look stores what it heard, whatever stops, fails or clears meanwhile |
| ProbeTeardown.FlagsExactly | crates/candor-core/src/capture_service.rs:1203-1222 | over every run: the stop flag is up if and only if someone raised it, the test complete exactly from its mark to the next clear, failed exactly from a reported failure to the next clear by the manager |
| ProbeTeardown.WorkerStep | crates/candor-core/src/capture_service.rs:2239-2392 | how the worker gets to each of its points: failures are reported before the clearing, a flag seen at any look leads to it |
| ProbeTeardown.StreamStep | crates/candor-core/src/capture_service.rs:2239-2392 | the stream is live from its opening until the worker drops it |
| ProbeTeardown.TestCanComplete | crates/candor-core/src/capture_service.rs:2380-2391 | reachable: a test that nobody stops, complete with whatever its callback heard |
| ProbeTeardown.LateMarkStep | crates/candor-core/src/capture_service.rs:2380-2391 | exactly which steps leave a cleared probe marked complete |
| ProbeTeardown.LateMarkExactly | crates/candor-core/src/capture_service.rs:2380-2391 | over every run a silenced probe is marked complete if and only if its worker marked it after the clear and no clear has come since |
| ProbeTeardown.LateMarkOutlivesTheClear | crates/candor-core/src/capture_service.rs:2380-2391 | reachable: the completion mark set after the clear |
| DeviceOwnership.ProbeAndSessionExclude | crates/candor-core/src/capture_service.rs:1515-1521 | over every run, no capture session is active while a probe thread is un-joined |
| DeviceOwnership.OrphansIffHandlesDropped | crates/candor-core/src/capture_service.rs:1897-1915 | capture threads stay un-joined after their session if and only if some stop met a panic before its last handle |
| DeviceOwnership.OverlapExactlyAfterDroppedHandles | crates/candor-core/src/capture_service.rs:1897-1915 | an un-joined probe thread and an un-joined capture thread coexist if and only if a probe is owned after such a stop |
| DeviceOwnership.ProbeStartsExactly | crates/candor-core/src/capture_service.rs:1183-1258 | exactly when a test starts, is refused or fails, and when its thread is owned all the same |
| DeviceOwnership.ProbeStopsExactly | crates/candor-core/src/capture_service.rs:1323-1350 | a test stops, well or badly, if and only if its thread ends in time |
| DeviceOwnership.CaptureStartsExactly | crates/candor-core/src/capture_service.rs:1509-1521 | a capture starts if and only if none is active, a running test is joined without a panic and every thread is ready; it then owns all its threads |
| DeviceOwnership.CaptureStopsExactly | crates/candor-core/src/capture_service.rs:1897-1934 | a stop always ends the session and succeeds if and only if no thread panicked |
| DeviceOwnership.OwnedExactly | crates/candor-core/src/capture_service.rs:1183-1350 | over every run a session is active exactly from a successful start to the next stop, and a test owned exactly from a thread that came up to the join of it |
| DeviceOwnership.DroppedHandleCanOverlap | crates/candor-core/src/capture_service.rs:1897-1915 | a concrete run in which a probe thread is spawned while a capture thread is un-joined |
| DeviceOwnership.JoinInOrder | crates/candor-core/src/capture_service.rs:1897-1915 | the join loop stops right after the first panicked thread |
| DeviceOwnership.CaptureManager.MicTestStart | crates/candor-core/src/capture_service.rs:1183-1258 | starting a test on the object, with its refusals, failure and timeout |
| DeviceOwnership.CaptureManager.MicTestStop | crates/candor-core/src/capture_service.rs:1323-1350 | stopping it; a timeout keeps the probe owned |
| DeviceOwnership.CaptureManager.StartCapture | crates/candor-core/src/capture_service.rs:1515-1521 | a capture starts only after the probe was joined |
| DeviceOwnership.CaptureManager.Stop | crates/candor-core/src/capture_service.rs:1897-1934 | stop takes the session and joins its threads in order |
| WavSample.Pcm16MonoWav | crates/candor-core/src/capture_service.rs:2615-2634 | the encoder writes the twelve header fields, then the samples in order up to the size limit |
| WavSample.DataRoundTrip | crates/candor-core/src/capture_service.rs:2630-2632 | little-endian two's complement data decodes back to the samples |
| WavSample.HeaderIsPinned | electron/core/operation-registry.ts:1934-1949 | all checks of the validator together hold if and only if every header field is the encoder's, tags read as ASCII |
| WavSample.AcceptsExactlyEncoderOutput | electron/core/operation-registry.ts:1934-1949 | accepted bytes are exactly the encoder's outputs for that many samples, up to the tags' top bits |
| WavSample.TopBitOfTagIsIgnored | electron/core/operation-registry.ts:1934-1949 | for every sample list: the encoded bytes with a tag byte's top bit set are accepted and are no encoder output |
| WavSample.EncoderPassesExactlyWhileSizeFits | crates/candor-core/src/capture_service.rs:2615-2634 | the encoder's bytes pass if and only if their size fits the 32-bit header field |
| WavSample.EncodedDataDecodes | crates/candor-core/src/capture_service.rs:2615-2634 | the data section of the encoder's bytes decodes to the samples |
| Base64.EncodeDecode | crates/candor-core/src/capture_service.rs:1297-1297 | base64 round trip for all bytes, with the pattern's shape and four characters per three bytes begun (section 4 of RFC 4648) |
| Base64.CanonicalIffEncoding | electron/core/operation-registry.ts:1992-1995 | a text equals its re-encoding if and only if it is some bytes' encoding |
| Base64.RfcVectors | crates/candor-core/src/capture_service.rs:1297-1297 | the test vectors of section 10 of RFC 4648 |
| MicrophoneSample.TextLength | electron/core/operation-registry.ts:1384-1388 | the text never exceeds 213,392 characters and has exactly that many at 80,000 samples |
| MicrophoneSample.AnswerAcceptedExactlyUpToLimit | electron/core/operation-registry.ts:1951-2016 | an answer is accepted if and only if it holds at most 80,000 samples, and its text decodes to the encoder's bytes |
| MicrophoneSample.AcceptedAnswerIsEncoded | electron/core/operation-registry.ts:1992-1999 | the text of every accepted answer encodes an encoder's output for the claimed count, tags aside |
| MicrophoneSample.AcceptedExactly | electron/core/operation-registry.ts:1951-2016 | an answer is accepted if and only if it is, field by field, the core's answer about at most 80,000 samples, tags aside |
| MicrophoneSample.ProbeSampleIsAccepted | crates/candor-core/src/capture_service.rs:1267-1316 | whatever the callbacks delivered at whatever rate and channel count, the sample taken is accepted |
| PreferenceFile.WriteLeaves | crates/candor-core/src/capture_service.rs:856-939 | the five states a write can leave target and backup in, over every failure and death |
| PreferenceFile.WrittenExactly | crates/candor-core/src/capture_service.rs:856-939 | a write succeeds if and only if every operation its files call for happens, dropping the new backup aside |
| PreferenceFile.BackupDropped | crates/candor-core/src/capture_service.rs:856-939 | after success a backup is left exactly when dropping it failed |
| PreferenceFile.LeftExactly | crates/candor-core/src/capture_service.rs:856-939 | what a write leaves in target and backup, told by how far it got |
| PreferenceFile.TemporaryExactly | crates/candor-core/src/capture_service.rs:856-939 | and in the temporary file |
| PreferenceFile.EndsExactly | crates/candor-core/src/capture_service.rs:856-939 | a write ends the way its first operation that does not happen ends it, unless undoing a failed commit dies in turn |
| PreferenceFile.InEffectExactly | crates/candor-core/src/capture_service.rs:1370-1399 | the value in effect is the target, or the backup of a target that is gone or unreadable, or the default where there is neither |
| PreferenceFile.LoadRestoresExactly | crates/candor-core/src/capture_service.rs:1370-1399 | a load changes the files only to put a readable backup in the place of an absent target |
| PreferenceFile.FallbackInEffectExactly | crates/candor-core/src/ai_fallback_preference.rs:166-183 | Automatic or Never is in effect if and only if the target says so, or the backup of a target that is there but unreadable |
| PreferenceFile.CrashConsistentIffSafe | crates/candor-core/src/capture_service.rs:856-939 | every crash or failure leaves the old or new value in effect if and only if no backup is the only holder of the current value |
| PreferenceFile.LoadMakesSafe | crates/candor-core/src/capture_service.rs:1370-1399 | a successful load from an interrupted state restores the target and makes the next write crash-consistent for every value |
| PreferenceFile.RunKeepsOldOrNew | crates/candor-core/src/capture_service.rs:1370-1399 | over any run with a load before each write: a value is always in effect, loads never change it, writes leave old or new, success means new, failure means old |
| PreferenceFile.FallbackStaysSafe | crates/candor-core/src/ai_fallback_preference.rs:193-267 | from any files through any crash the effective preference is the prior one, the new one, or AskFirst |
| PreferenceFile.FallbackKeepsOldOrNewIff | crates/candor-core/src/ai_fallback_preference.rs:166-183 | old or new always, if and only if one of them is AskFirst |
| PreferenceFile.PreferenceFiles.Write | crates/candor-core/src/ai_fallback_preference.rs:193-267 | the write on the files, operation by operation, with the fate of each |
| PreferenceFile.PreferenceFiles.Load | crates/candor-core/src/capture_service.rs:1370-1399 | the load on the files: it returns and preserves the value in effect |
| FallbackPolicy.StableCodeKeepsReason | crates/candor-core/src/background_jobs.rs:994-1073 | stabilising a code keeps its fallback reason, is idempotent, and no code is both a reason and a prohibition |
| FallbackPolicy.ReasonlessExactly | crates/candor-core/src/background_jobs.rs:994-1073 | exactly which codes are no reason to fall back |
| FallbackPolicy.HeuristicExactlyWhenAuthorised | crates/candor-core/src/background_jobs.rs:380-454 | exactly when a request ends in a heuristic result, per preference, intent, failure code and cancellation; never under Never |
| FallbackPolicy.LocalExactlyWhenIdentified | crates/candor-core/src/background_jobs.rs:392-454 | exactly when a request ends in a result of the local model: ready, identified, the same identity afterwards, not cancelled, saved; and each digest of that identity is in its own field |
| FallbackPolicy.HeuristicNamesNoModel | crates/candor-core/src/background_jobs.rs:380-391 | a heuristic result names no model and carries a reason the consumer knows |
| FallbackPolicy.ReasonsAreDistinct | crates/candor-core/src/background_jobs.rs:691-734 | the five reasons have five distinct texts |
| FallbackPolicy.HexSpells | crates/candor-core/src/bundled_ai_assets.rs:910-934 | a formatted digest spells its bytes, most significant digit first |
| FallbackPolicy.FallbackDisclosesItsReason | crates/candor-core/src/background_jobs.rs:691-734 | a default request's fallback carries the reason of the failure it covers |
| FallbackPolicy.FirstErrorWins | crates/candor-core/src/background_jobs.rs:545-621 | of several errors the first is reported: generating, a late cancellation, saving |
| FallbackPolicy.StrictRefusals | crates/candor-core/src/background_jobs.rs:392-454 | what a request that may not fall back is told, case by case |
| FallbackPolicy.UpdateNeverInventsPermission | crates/candor-core/src/ai_fallback_preference.rs:134-160 | through any crash of an update, a default fallback needs Automatic before or after; a successful update to Never excludes every heuristic result |
| FallbackPolicy.RunJob | crates/candor-core/src/background_jobs.rs:545-621 | a job with its early returns; under a policy requiring the local model a result is the local model's |
| FallbackPolicy.AcceptedExactlyWhenWellFormed | electron/core/operation-registry.ts:1191-1240 | attached provenance passes the consumer if and only if the clock formatted and a local model's id has the consumer's shape |
| FallbackPolicy.AcceptedNamesItsEngine | electron/core/operation-registry.ts:1191-1240 | what the consumer can rely on once provenance is accepted |
| FallbackPolicy.HexIsLowerCase | electron/core/operation-registry.ts:1204-1205 | a formatted digest is lower-case hexadecimal of twice the length |
| FallbackPolicy.ModelIdWithBlankIsRefused | electron/core/operation-registry.ts:1203-1203 | a model id with a blank is used and its result refused, under every preference |
| BundledAssets.SelectorIdentifiesSlot | crates/candor-core/src/bundled_ai_assets.rs:461-481 | selector strings are injective on slots for valid records, though model ids may contain the separator |
| BundledAssets.ReadyExactly | crates/candor-core/src/bundled_ai_assets.rs:632-681 | an asset is ready if and only if its file and notices are there, it has the recorded size, a runtime is executable, and the digest of that very file is the recorded one up to case; it is reported with that path and digest |
| BundledAssets.FailuresExactly | crates/candor-core/src/bundled_ai_assets.rs:632-681 | each failure code has its one cause, the first test the asset fails |
| BundledAssets.LookupIsVerified | crates/candor-core/src/bundled_ai_assets.rs:419-506 | every asset a lookup hands out is that of the last record for this host matching the query in a valid manifest, with a digest that is both the file's and the recorded one |
| BundledAssets.FirstFailureIsFirst | crates/candor-core/src/bundled_ai_assets.rs:616-618 | a snapshot is ready if and only if all assets are, and otherwise has the state and code of the first that is not |
| BundledAssets.LookupAgreesWithInspection | crates/candor-core/src/bundled_ai_assets.rs:419-506 | for every manifest, file system and query the early-exit lookup answers as the last match of the full inspection |
| BundledAssets.UniqueQueryHasOneAsset | crates/candor-core/src/bundled_ai_assets.rs:461-481 | a unique query matches at most one asset of a snapshot |
| BundledAssets.UniqueLookupMatchesSnapshot | crates/candor-core/src/bundled_ai_assets.rs:508-630 | where the selector is unique the lookup returns asset, code or nothing exactly as the snapshot holds it |
| BundledAssets.CachedModelAgrees | crates/candor-core/src/bundled_ai_assets.rs:338-350 | the cached speech model is the targeted lookup's answer |
| BundledAssets.CachedAgreesExactly | crates/candor-core/src/bundled_ai_assets.rs:338-381 | for every manifest, file system and non-library query, the cached first verified match equals the lookup's asset if and only if no ready match comes before the last match |
| BundledAssets.AgreesEverywhereIffMatchedOnce | crates/candor-core/src/bundled_ai_assets.rs:419-506 | the two agree on every file system if and only if no two records for this host match the query |
| BundledAssets.LanguageModelQueryIsAmbiguous | crates/candor-core/src/bundled_ai_assets.rs:365-381 | a concrete valid manifest with two verified language models on which they differ |
| BundledAssets.ScanDecidesValidity | crates/candor-core/src/bundled_ai_assets.rs:461-481 | the scan over growing sets rejects exactly the manifests with an invalid record or a repeated id or selector |
| BundledAssets.ScanForMatch | crates/candor-core/src/bundled_ai_assets.rs:461-492 | the lookup's loop decides validity and finds the last match |
| BundledAssets.BundledAiAssets.CachedSha256 | crates/candor-core/src/bundled_ai_assets.rs:683-709 | the digest cache is transparent for files fixed by path, size and time |
| BundledAssets.BundledAiAssets.VerifiedAsset | crates/candor-core/src/bundled_ai_assets.rs:419-506 | the targeted lookup on the object, cache included, is the specified lookup |
| BundledAssets.BundledAiAssets.Inspect | crates/candor-core/src/bundled_ai_assets.rs:508-630 | the full inspection on the object, cache included, is the specified snapshot |
| CoreSupervisor.RequestsSettleExactlyOnce | electron/core/core-client.ts:280-322 | over every run each request is pending with a live child or settled exactly once; none survives an exit |
| CoreSupervisor.SettlementIsFinal | electron/core/core-client.ts:466-498 | the first settlement stands against later responses, timeouts, rejections and exits |
| CoreSupervisor.SettledExactly | electron/core/core-client.ts:466-548 | a pending request keeps its place until a step settles it and then has the outcome of that step: answered, rejected, timed out or rejected with all others |
| CoreSupervisor.RegisteredExactly | electron/core/core-client.ts:280-322 | a request becomes pending if and only if it is written to a child, started for it if need be |
| CoreSupervisor.ChildExactly | electron/core/core-client.ts:381-438 | the held child is the one just spawned for a call, until that child exits |
| CoreSupervisor.EarlierChildrenAreIgnored | electron/core/core-client.ts:440-441 | over every run nothing an earlier child still says or does changes anything |
| CoreSupervisor.ActivityStep | electron/core/core-client.ts:575-612 | which events start and which end a capture, both ways |
| CoreSupervisor.CaptureActiveExactly | electron/core/core-client.ts:575-612 | over every run a capture is taken to be active if and only if one was confirmed, reported or timed out at its start and has not ended since |
| CoreSupervisor.GuardPhaseExactly | electron/core/core-client.ts:176-180 | over every run the guard is finalizing, starting, recording or idle exactly as the pending requests and that history say |
| CoreSupervisor.NoShutdownWhileRecording | electron/core/core-client.ts:336-350 | a shutdown is only asked for while no capture runs, starts or stops |
| CoreSupervisor.KnownByLastName | electron/core/core-client.ts:575-601 | over every run the recording is known by the id named last |
| CoreSupervisor.RecoveryIsRequiredExactlyWhenOwed | electron/core/core-client.ts:575-629 | over every run and any number of restarts recovery is required if and only if the events lost sight of a recording capture and have not accounted for it since; degraded implies metadata implies the obligation |
| CoreSupervisor.ObligationStep | electron/core/core-client.ts:524-548 | which events set and which clear the obligation, both ways |
| CoreSupervisor.MetadataNamesTheRecording | electron/core/core-client.ts:614-625 | over every run the degraded metadata is that of the last loss not withdrawn since: its trigger, and the recording named last before it |
| CoreSupervisor.MetadataHasALoss | electron/core/core-client.ts:614-625 | and there is none without such a loss |
| CoreSupervisor.FaultStep | electron/core/core-client.ts:479-522 | exactly which events are protocol faults; a fault stands until the next child is started |
| CoreSupervisor.LifecycleStep | electron/core/core-client.ts:524-629 | how each kind of event leaves the connection |
| CoreSupervisor.LifecycleStands | electron/core/core-client.ts:524-629 | and no other event moves it |
| CoreSupervisor.CoreClient.RawCall | electron/core/core-client.ts:280-322 | registering, spawning and writing a request on the object |
| CoreSupervisor.CoreClient.Fail | electron/core/core-client.ts:516-522 | a protocol failure on the object |
| CoreSupervisor.CoreClient.HandleResponse | electron/core/core-client.ts:466-498 | a response on the object, unknown ids and contract rejections included |
| CoreSupervisor.CoreClient.UpdateCapture | electron/core/core-client.ts:575-601 | the capture state after each kind of reply |
| CoreSupervisor.CoreClient.HandleTimeout | electron/core/core-client.ts:603-612 | a timeout on the object |
| CoreSupervisor.CoreClient.HandleExit | electron/core/core-client.ts:524-548 | an exit on the object |
| RequestRegistry.SettleKeepsExactlyOnce | electron/core/request-registry.ts:36-52 | settling keeps every issued request pending and unsettled, or gone and settled once |
| RequestRegistry.SettleAllKeepsExactlyOnce | electron/core/request-registry.ts:54-60 | so does a mass rejection |
| RequestRegistry.OutcomesStand | electron/core/request-registry.ts:36-60 | no later settlement changes an outcome |
| RequestRegistry.RejectEach | electron/core/request-registry.ts:54-60 | the rejecting loop settles every pending request once |
| RequestRegistry.RequestRegistry.Add | electron/core/request-registry.ts:18-30 | register on the object, with its duplicate check |
| RequestRegistry.RequestRegistry.SettleOne | electron/core/request-registry.ts:36-52 | resolve, reject and timeout on the object |
| JsonlFraming.SplitIsFaithful | electron/core/core-client.ts:440-508 | the reference newline split loses nothing |
| JsonlFraming.PiecesHoldNoNewline | electron/core/core-client.ts:440-508 | and none of its pieces holds a newline |
| JsonlFraming.FrameMatchesSplit | electron/core/core-client.ts:440-514 | the lines handed on are those before the first over-limit line; a fault occurs exactly when a line or the trailing part exceeds the limit |
| JsonlFraming.FrameAppend | electron/core/core-client.ts:440-508 | framing a buffer after what an earlier one retained is framing both together |
| JsonlFraming.FramingIgnoresChunking | electron/core/core-client.ts:440-508 | any split of the bytes into chunks hands on the same lines with the same fault |
| JsonlFraming.StdoutFramer.HandleStdout | electron/core/core-client.ts:440-508 | the loop over the shrinking buffer does that framing |
| MediaImport.AtMostOneUnfinishedJob | electron/ipc/media-import-ipc.ts:577-795 | under every interleaving at most one submitted job is undecided or unfinished, and the handler holds its lock for it |
| MediaImport.StepKeepsInv | electron/ipc/media-import-ipc.ts:577-795 | every step of handler, confirmation, core and teardown keeps the single-flight invariant |
| MediaImport.PollExactly | electron/ipc/media-import-ipc.ts:419-465 | after a poll the flight still polls if and only if the reply is a report on its own import in queued, running, cancelling or paused, and is done, its lock free, if and only if the import is reported over |
| MediaImport.CancelledExactly | electron/ipc/media-import-ipc.ts:577-730 | over every run the core is asked to cancel an accepted job if and only if there was an abort, an interrupted poll, a malformed or late acceptance, or a bad poll reply |
| MediaImport.CancelStartsOnce | electron/ipc/media-import-ipc.ts:611-622 | and only once: after that only its own replies move the cancellation |
| MediaImport.AbortedExactly | electron/ipc/media-import-ipc.ts:602-626 | over every run a flight is aborted if and only if its window went away or the handler was torn down around it |
| MediaImport.NoSubmitAfterAbort | electron/ipc/media-import-ipc.ts:692-698 | nothing is submitted for an aborted flight |
| MediaImport.LockExactly | electron/ipc/media-import-ipc.ts:595-788 | which call takes the lock, and exactly which steps give it back |
| MediaImport.RetainedExactly | electron/ipc/media-import-ipc.ts:739-780 | the catch block retains a flight if and only if its accepted job's end is unconfirmed, listening if it could subscribe |
| MediaImport.PcStep | electron/ipc/media-import-ipc.ts:626-788 | where a step leaves a flight: how it starts, submits, polls, falls into the catch block and ends |
| MediaImport.SubmissionStep | electron/ipc/media-import-ipc.ts:694-708 | a submission is undecided from its call until an answer arrives, and the job's id is that of the acceptance |
| MediaImport.CoreStep | electron/ipc/media-import-ipc.ts:694-698 | what the core holds of a submission is what its own steps made of it |
| MediaImport.ConfirmationStep | electron/ipc/media-import-ipc.ts:493-541 | how a confirmation moves on with each reply and when it gives up |
| MediaImport.CancelReplyCounts | electron/ipc/media-import-ipc.ts:493-510 | what a cancel reply settles: cancelled and failed at once, completed only if nothing else is heard |
| MediaImport.FirstDecisionCounts | electron/ipc/media-import-ipc.ts:512-541 | the first job reply that is about another job or verifies an end gives the verdict, and nothing else does |
| MediaImport.ConfirmMediaImportCancellation | electron/ipc/media-import-ipc.ts:485-542 | the confirmation loop, with its attempts and its give-up |
| MediaImport.MissingJobIdReleasesLock | electron/ipc/media-import-ipc.ts:695-708 | an accepted reply without a job id makes the handler give its lock back while the job runs |
| MediaImport.MissingJobIdBreaksSingleFlight | electron/ipc/media-import-ipc.ts:695-708 | a reachable state in which such a reply has left two jobs unfinished at once |
| MediaImport.LostSubmitKeepsLock | electron/ipc/media-import-ipc.ts:730-787 | a lost submit keeps the lock for good |
| MediaImport.ListenerLostExactly | electron/ipc/media-import-ipc.ts:739-775 | exactly which steps take a retained flight's listener while it keeps its lock: the teardown, or the release of another flight |
| MediaImport.RetainedListensUnlessSilenced | electron/ipc/media-import-ipc.ts:739-775 | over every run, a retained flight that holds the lock still listens if and only if no such step has occurred since |
| MediaImport.LateReconcileSilencesNewerFlight | electron/ipc/media-import-ipc.ts:739-775 | reachable: a late reconciliation leaves a newer locked import without its listener |
| MediaHash.HashCanonicalMediaSource | electron/ipc/media-import-ipc.ts:184-291 | the hashing of a source with its checks and early errors; the buffer is wiped however it ends |
| MediaHash.FeedAll | electron/ipc/media-import-ipc.ts:231-254 | the read loop feeds each filled part of the buffer once, in order |
| MediaHash.SuccessFeedsWholeSize | electron/ipc/media-import-ipc.ts:231-270 | success means uninterrupted reads that together deliver exactly the announced size, each fed once in order |
| MediaHash.SucceedsExactly | electron/ipc/media-import-ipc.ts:231-254 | the read loop succeeds if and only if some first reads, uninterrupted and within the buffer, deliver the announced size |
| MediaHash.HashedExactly | electron/ipc/media-import-ipc.ts:184-270 | a source is hashed if and only if it is a regular file of an admissible size, its reads deliver that size, and the last look finds a file of the same size |
| MediaHash.FirstObjectionWins | electron/ipc/media-import-ipc.ts:205-254 | of several objections the first is reported: the first look, the reads, the last look |
| MediaHash.ReadErrorsExactly | electron/ipc/media-import-ipc.ts:231-252 | how a read ends the loop, by the checks around it, by failing, or as a change of the source |
| MediaHash.HashesContentExactly | electron/ipc/media-import-ipc.ts:231-254 | a successful hash is that of a given content if and only if every read fed delivered its bytes at its position, whatever lengths the reads came in |
| MediaHash.SameSizeRewriteIsAccepted | electron/ipc/media-import-ipc.ts:262-270 | a rewrite of the same size between two reads is accepted with bytes the file never held |
| GlobalShortcut.NoLeakedBinding | electron/shortcuts/global-shortcut-service.ts:103-167 | at every await of every run the held set is within active and pending, and nothing is held once the queue drains after suspend or dispose |
| GlobalShortcut.InitialReadExactly | electron/shortcuts/global-shortcut-service.ts:256-280 | the first read takes over the settings and binds the shortcut if and only if it is enabled and the OS accepts it, says why not otherwise, and lets the operation that asked go on |
| GlobalShortcut.InitialReadGivesUp | electron/shortcuts/global-shortcut-service.ts:256-260 | a read that fails or finds the service stopped binds nothing and ends the operation |
| GlobalShortcut.ResumeExactly | electron/shortcuts/global-shortcut-service.ts:211-236 | a resumed service has the settings it read, or those it had, bound if and only if enabled and accepted |
| GlobalShortcut.StartsExactly | electron/shortcuts/global-shortcut-service.ts:103-115 | what initialize, configure and resume do to a service at rest |
| GlobalShortcut.StopsExactly | electron/shortcuts/global-shortcut-service.ts:194-254 | suspending and disposing release and forget both bindings, say why nothing is bound, and do nothing a second time |
| GlobalShortcut.StoppedConfigureCommitsNothing | electron/shortcuts/global-shortcut-service.ts:116-157 | a write that ends after the service was stopped commits nothing but the file |
| GlobalShortcut.ResumeGivesUp | electron/shortcuts/global-shortcut-service.ts:213-216 | a resume that finds the service disposed leaves it as it is |
| GlobalShortcut.HeldSinceGranted | electron/shortcuts/global-shortcut-service.ts:103-280 | over every run the active accelerator is the one bound last and is held, as long as nothing has replaced or withdrawn it |
| GlobalShortcut.EnabledShortcutIsHeldExactlyWhenGranted | electron/shortcuts/global-shortcut-service.ts:103-280 | over every run, in operation with the queue drained, the OS holds the configured accelerator if it is enabled and was bound and not withdrawn since, and otherwise nothing |
| GlobalShortcut.StoppedExactly | electron/shortcuts/global-shortcut-service.ts:194-254 | over every run the service is suspended exactly between a suspend and a resume or disposal, and disposed exactly once it was asked to be |
| GlobalShortcut.ConfigureIsAtomic | electron/shortcuts/global-shortcut-service.ts:110-167 | from every state, an uninterrupted configure that is refused or fails to persist leaves all as before, and a successful one commits settings and file, and the binding with them if and only if it is not the renewal of an active binding that is no longer held |
| GlobalShortcut.ConfigureBindsUnlessStale | electron/shortcuts/global-shortcut-service.ts:110-167 | over every run that exception is exactly the renewal of a stale binding |
| GlobalShortcut.OnlyLifecycleIntervenes | electron/shortcuts/global-shortcut-service.ts:365-369 | with the promise queue built into which events are enabled, only suspend and dispose can come between a configure and its write |
| GlobalShortcut.DisposedForGood | electron/shortcuts/global-shortcut-service.ts:238-254 | disposal is final |
| GlobalShortcut.BoundExactly | electron/shortcuts/global-shortcut-service.ts:136-148 | exactly which steps leave the active binding held: all but a rollback while suspended or disposed, or one that rebinds, from any state |
| GlobalShortcut.BoundUnlessStale | electron/shortcuts/global-shortcut-service.ts:136-148 | over every run the active binding is held if and only if no such rollback is still unrepaired |
| GlobalShortcut.RegisteredMeansHeld | electron/shortcuts/global-shortcut-service.ts:173-187 | at every point of every run, suspended and disposed included, a shortcut reported as registered is held if and only if its binding is not stale, and then nothing else is but a binding being persisted |
| GlobalShortcut.RegisteredWhileStoppedIsReachable | electron/shortcuts/global-shortcut-service.ts:136-148 | reachable: a suspended and a disposed service reporting a shortcut as registered while nothing is held |
| GlobalShortcut.RegisteredWithoutBindingIsReachable | electron/shortcuts/global-shortcut-service.ts:211-236 | reachable: an uninterrupted configure of a service in operation that commits settings and file and reports the shortcut as registered while nothing is held |
| GlobalShortcut.GlobalShortcutService.SuspendForShutdownSync | electron/shortcuts/global-shortcut-service.ts:194-209 | suspending on the object |
| GlobalShortcut.GlobalShortcutService.DisposeSync | electron/shortcuts/global-shortcut-service.ts:238-254 | disposing on the object |
| GlobalShortcut.GlobalShortcutService.FinishInitialize | electron/shortcuts/global-shortcut-service.ts:256-280 | the code after the first read on the object |
| GlobalShortcut.GlobalShortcutService.ContinueConfigure | electron/shortcuts/global-shortcut-service.ts:110-150 | configure up to the write of the settings |
| GlobalShortcut.GlobalShortcutService.FinishConfigure | electron/shortcuts/global-shortcut-service.ts:136-167 | commit or roll back after it |
| GlobalShortcut.GlobalShortcutService.FinishResume | electron/shortcuts/global-shortcut-service.ts:211-236 | resuming on the object |
| Accelerator.NormalFormIsStable | electron/shortcuts/accelerator-policy.ts:88-155 | normalizing twice is normalizing once, and the normal form fits the limit |
| Accelerator.OrderAndCaseDoNotMatter | electron/shortcuts/accelerator-policy.ts:100-126 | texts with the same bag of lower-case tokens are accepted alike with one normal form |
| Accelerator.AcceptedExactly | electron/shortcuts/accelerator-policy.ts:88-155 | a text is accepted as a normal form if and only if its tokens are modifiers, each once, and one key, to which the policy has no objection |
| Accelerator.AllowedExactly | electron/shortcuts/accelerator-policy.ts:127-143 | the policy has no objection if and only if there are at least two modifiers, no two for the same key, and nothing reserved |
| Accelerator.ReservedByKey | electron/shortcuts/accelerator-policy.ts:68-86 | what is reserved, key by key, and that every other key is free |
| Accelerator.SpelledExactly | electron/shortcuts/accelerator-policy.ts:23-36 | exactly which words stand for each modifier |
| Accelerator.PlainKeysExactly | electron/shortcuts/accelerator-policy.ts:58-66 | a letter stands for its upper case, a digit for itself, a function key for its name, and nothing else is a key but the named ones |
| Accelerator.SpacingWords | electron/shortcuts/accelerator-policy.ts:38-56 | the words for spacing keys |
| Accelerator.EditingWords | electron/shortcuts/accelerator-policy.ts:38-56 | the words for editing keys |
| Accelerator.PagingWords | electron/shortcuts/accelerator-policy.ts:38-56 | the words for paging keys |
| Accelerator.ArrowWords | electron/shortcuts/accelerator-policy.ts:38-56 | the words for arrow keys |
| Accelerator.TrimExactly | electron/shortcuts/accelerator-policy.ts:88-99 | trimming takes the spaces off both ends and nothing else |
| Accelerator.TextObjectionsExactly | electron/shortcuts/accelerator-policy.ts:88-103 | exactly which texts are refused before their tokens are looked at |
| Accelerator.ObjectionsExactly | electron/shortcuts/accelerator-policy.ts:124-149 | which objection the policy raises, in its order |
| Accelerator.FirstFaultDecides | electron/shortcuts/accelerator-policy.ts:104-123 | a text whose tokens do not scan is refused for the first token that does not fit |
| Accelerator.ScanIffCounts | electron/shortcuts/accelerator-policy.ts:104-126 | the token loop ends with a set and a key if and only if the tokens are these, in any order |
| Accelerator.NamesLeaveRoom | electron/shortcuts/accelerator-policy.ts:127-135 | without conflicting modifiers the printed names leave room for any key |
| Accelerator.SplitJoin | electron/shortcuts/accelerator-policy.ts:100-100 | printing words with separators and splitting gives the words |
| Accelerator.NormalizeAccelerator | electron/shortcuts/accelerator-policy.ts:88-155 | the parser with its early errors is the specified normalization |
| TrustHistory.Parse | electron/core/operation-registry.ts:395-482 | the validator accepts exactly the histories with a lineage and fitting receipts, and returns their canonical form |
| TrustHistory.ParseRevisions | electron/core/operation-registry.ts:424-438 | the one-pass check over growing sets decides the global lineage |
| TrustHistory.ParseReceipts | electron/core/operation-registry.ts:451-466 | the receipt pass decides that all receipts are valid, distinct and name revisions of the stated kind |
| TrustHistory.WalksDescend | electron/core/operation-registry.ts:426-438 | every ancestor walk strictly decreases the version, so it is finite |
| TrustHistory.EveryRevisionHasAnOrigin | electron/core/operation-registry.ts:241-283 | every revision has an ancestor walk to a parentless revision that is not ai-cleaned |
| TrustHistory.ReceiptsNameRevisions | electron/core/operation-registry.ts:285-393 | a successful non-recap receipt names an existing revision, a successful recap an existing input of the stated kind |
| TrustHistory.CanonicalFormIsStable | electron/core/operation-registry.ts:395-482 | validating the canonical output again accepts it and returns it unchanged |
| TrustHistory.RevisionKeepsGiven | electron/core/operation-registry.ts:241-283 | the canonical revision keeps every field that was given and fills in only the kind and parent |
| TrustHistory.ReceiptKeepsGiven | electron/core/operation-registry.ts:285-393 | the canonical receipt keeps every field that was given, with the defaults of eleven |
| TrustHistory.HistoryKeepsGiven | electron/core/operation-registry.ts:468-482 | the canonical history keeps header, order and lengths |

## Left out

- The macOS capture adapter, device enumeration and stream building: foreign code; the streams' callbacks are events.
- Dropping a stream is assumed to end its callbacks, and mutexes are assumed unpoisoned.
- Samples, rms and peak are reals, so f32 rounding is not modelled; the probe keeps the square of the rms.
- Sizes and counts are unbounded integers where the source uses 64-bit `usize`; saturating u64 and u32 arithmetic is written out.
- Capture threads, the probe's threads and the media-import closures are modelled on values, since their interleavings are the point; the objects behind one lock are classes.
- The file store, job manager, live transcript and transcription services: only their results appear, as choices of the environment.
- SHA-256 and the JSON codec: digests and parsed values are abstract. A file's digest is fixed by path, size and time.
- `BundledAssets` does not spell out every syntactic check of a record (licence, source, paths); they are one abstract condition.
- `capability_status`, `status_from_snapshot` and the other renderer summaries: flat case lists over a snapshot.
- The dialog, path and eligibility checks of media import, and the late wipe of a read that outlives its deadline.
- HashSource: a file rewritten in place with its size unchanged goes unnoticed, as in the source; `SameSizeRewriteIsAccepted` shows it.
- A core that answers untruthfully, or accepts without a well-formed job id, except where `MissingJobIdReleasesLock` says what then happens.
- `stopForRestart` and the smoke harness; core event lines, blank lines and stderr.
- Shortcut activation and its debounce; unregistering is assumed not to fail.
- The `cleanup`, `export` and dictionary jobs, and the progress and receipts the AI jobs record, beyond whether saving succeeded.
- The clamping of the chunk duration, the asset-count limit and the default line limit: the models hold for every value of them.
- A store that fails to mark a recording as needing recovery; stop then returns that error instead of its report.
- Renaming and removing a file are assumed atomic, and a synced file to survive a crash.
- Array elements of a trust history that are no objects, and JavaScript strings with lone surrogates.
- The length limit of an accelerator counts characters, not UTF-16 units; only the error code of text that is refused anyway could differ.
- Which of several errors an accelerator is refused with depends on token order (`FirstFaultDecides`); `OrderAndCaseDoNotMatter` is about acceptance and output.
