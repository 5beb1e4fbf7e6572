# Verified model of remote-vlm

remote-vlm captures a screen, decides which frames are worth sending, ships them to a server, and streams a
vision-language model's answers back to a prompt application. This project models the parts of it that keep state
over time and proves what they keep over whole runs. `dafny verify dfyconfig.toml` checks all of it.

## What is modelled

| file | what it covers |
|---|---|
| `Words.dfy`, `PerceptualHash.dfy`, `SceneChange.dfy` | the scene-change detector: median-threshold hash, Hamming gate, baseline |
| `AdaptiveFilter.dfy` | the rate, similarity and sharpness gates and their stored history |
| `CaptureMode.dfy`, `GrabLoop.dfy` | the capture mode and the grab loop, with other threads' steps between the loop's own |
| `FramePacket.dfy`, `FrameBuffer.dfy`, `VlmEngine.dfy` | packet codec, bounded frame buffer, the post-window wait shared by several queries, window selection, sampling, answer chunks |
| `ResponseStream.dfy`, `StreamProofs.dfy`, `StreamTheorems.dfy` | the query/response protocol as a transition system, its invariant, and what every caller is promised |
| `OwnStream.dfy` | exactly when a caller is given the stream of its own query |
| `QueryLock.dfy` | the capture-mode lock of a query |
| `PromptService.dfy` | the gRPC service's session map, chunk buffer and consumer loop, the server's sender, the prompt app's receive loop |
| `TypingDebouncer.dfy` | the two threads of the typing debouncer |
| `Arithmetic.dfy`, `Options.dfy` | shared helpers |

Code that updates objects in place is modelled by classes and methods. Most are proved against a specification function
(`Step`, `Iterate`, `Polled`, ...), and the theorems are about those functions and their runs; a few, such as the
debouncer's undisturbed polling loop, state a property of their own. A concurrent component is a
transition system in which one action is one lock region, one atomic access, one message, or one stretch between
awaits. A run is any sequence of enabled actions, so a statement about `Run(actions)` covers every interleaving.

Definitions that serve as an independent reference read only the whole history: `SceneChange.IsChange`,
`AdaptiveFilter.DecisionAt`, `CaptureMode.Locked`, `FrameBuffer.Window` over everything ever accepted, and
`ResponseStream.StreamOf`, the stream one query deserves. `log`, `accepted`, `origin`, `base`, `dispatched`,
`consumed`, `sent`, `routed`, `keys` and `flips` are history; no step reads them to decide anything.

## Assumptions

- One positive clock that never goes back stands for the steady clock, the system clock and Python's clocks, which the
  code mixes. It counts nanoseconds in the client and microseconds in the server and the prompt app.
- Thresholds and ratios are compared as exact reals. `nth_element` is the library's guarantee (a permutation split at
  one position); the body given here is a stand-in for it. Coefficients are numbers: NaN does not occur.
- A channel of one peer connection delivers its messages one at a time and in order, and a send that reports failure
  put nothing on it.
- A filter reset is one step, and so is each call of `IsSceneChange`, `Evaluate` and `EvaluateForced` against it, although
  the client resets from another thread without a lock.
- `asyncio.wait_for` starts waiting in the step that calls it, as in Python 3.12 and later. For earlier versions a
  run that loses a wakeup is proved to exist, with the exact condition (`SplitWaitLosesWakeup`, `SplitExactly`).
- Configurations have a positive grab rate and a positive work size; `Reset` and the gates see images of that size.
- Loops that run for ever are proved over every finite script of passes.

## What was found

- The stream of a caller whose query was sent is a gap-free beginning of what the server sent for its id, whatever ids
  other callers use. Every call stays attached to its own buffer throughout a run if and only if no call of the run
  registers a live id.
- A call is guaranteed its *own* query's whole stream when it leaves through `done`, against whatever any call does from
  then on, if and only if its id was silent when it registered: nobody about to ask under it, and no request, running task or
  response for it under way (`OwnStreamExactly`). Reuse as such is harmless. What is not is reusing the id of a call
  that is still live, was cancelled or failed to write, while its answer is on the way. Callers that keep ids in use at the
  same time distinct, and whose earlier calls with the id all left through `done` or were refused, meet the condition
  (`HeardOutIsSilent`).
- The `finished`-and-empty exit of the consumer loop (`prompt_app_service.cpp:95`) is never taken.
- The query lock is exact throughout a run if and only if no step of the run gives up on the only outstanding query,
  closes one of several, or stores a typing mode loaded before a query began. `capture_pipeline.h:54` promises a lock "until the matching
  response stream completes"; `EndQuery` ignores its id, so with two queries in flight that does not hold, and after a
  failed send the mode stays locked with nothing in flight.
- The server's documentation speaks of a qualifying frame being in the buffer; the code looks at the newest frame only
  (`webrtc_server.py:197`). In a reachable state no query sleeps, or can be asked and sleep, beside a buffered frame it
  waits for if and only if no buffered frame that a query could wait for is ahead of the newest one.
- Where `wait()` runs in a task of its own, as in `asyncio.wait_for` before Python 3.12, wakeups are lost over a run if
  and only if some step clears the event while another query, between its check and its sleep, already has its frame.
- Debouncer notifications are conserved over every interleaving, but a start held up in its call can be delivered after
  the stop of the same burst and leave the client in typing mode. `shutdown` can send its stop twice, exactly when its
  wait times out on a polling thread that is still asleep.
- `scene_change_detector.cpp:41` says the DC coefficient is set to the median. The code leaves it, so bit 0 of the hash
  compares the actual DC value. No AC bit depends on it.
- The `capture_ts_us` field is stamped when the packet is built (`webrtc_client.cpp:218`), after JPEG encoding.

## Model

| member | source | states |
|---|---|---|
| `Words.SetNextBit` | client/src/scd/scene_change_detector.cpp:53-58 | OR-ing in bit k, or leaving it out, extends the word of the first k bits by one bit |
| `Words.BitOfWord` | client/src/scd/scene_change_detector.cpp:53-58 | bit i of the word is the i-th of the bits it was made from |
| `Words.PopcountOfWord` | client/src/scd/scene_change_detector.cpp:78 | the population count of a word is its number of set bits |
| `Words.HammingOfWords` | client/src/scd/scene_change_detector.cpp:78 | XOR then population count is the number of positions that differ |
| `Words.HammingTriangle` | client/src/scd/scene_change_detector.cpp:78-80 | the distance the gate compares obeys the triangle inequality, at any width |
| `PerceptualHash.NthElement` | client/src/scd/scene_change_detector.cpp:50 | what the library promises: a permutation with nothing larger before position n and nothing smaller after it |
| `PerceptualHash.MedianSelected` | client/src/scd/scene_change_detector.cpp:50-51 | any such split yields the one value that sorting would put at position 31 |
| `PerceptualHash.ComputePHash` | client/src/scd/scene_change_detector.cpp:39-60 | the loops compute a 64-bit word whose bit i is set exactly when coefficient i is above the value at position 31 of the sorted AC coefficients |
| `PerceptualHash.HashOrderInvariant` | client/src/scd/scene_change_detector.cpp:39-60 | any strictly increasing map of all coefficients leaves the hash unchanged |
| `PerceptualHash.HashContrastInvariant` | client/src/scd/scene_change_detector.cpp:39-60 | so does any positive gain with any offset |
| `PerceptualHash.DcTouchesBitZeroOnly` | client/src/scd/scene_change_detector.cpp:39-59 | changing the DC coefficient changes no bit but bit 0, and says exactly when it changes that one |
| `PerceptualHash.HashWeight` | client/src/scd/scene_change_detector.cpp:50-58 | at most 31 AC bits and 32 bits in all are set, exactly 31 AC bits when there are no ties |
| `PerceptualHash.AcDistanceEven` | client/src/scd/scene_change_detector.cpp:53-78 | the AC distance of two tie-free frames is even |
| `SceneChange.SceneChangeDetector.Reset` | client/src/scd/scene_change_detector.cpp:10-14 | forgets the baseline and keeps the object equal to its call history |
| `SceneChange.SceneChangeDetector.IsSceneChange` | client/src/scd/scene_change_detector.cpp:63-86 | a frame is suppressed exactly when there is a baseline, the histogram distance is at most its threshold and the Hamming distance below its own; otherwise it becomes the baseline; and both as the whole call history prescribes |
| `SceneChange.StateIsHistorical` | client/src/scd/scene_change_detector.cpp:70-84 | the stored baseline is the last frame since a reset that was declared a change, if there is one |
| `SceneChange.DecisionIsHistorical` | client/src/scd/scene_change_detector.cpp:63-86 | every incremental decision is the one the whole trace prescribes |
| `SceneChange.SuppressedExactly` | client/src/scd/scene_change_detector.cpp:77-85 | against the last declared change, a frame is suppressed if and only if it is within the histogram threshold and short of the hash threshold |
| `SceneChange.FirstIsChange` | client/src/scd/scene_change_detector.cpp:70-75 | without a baseline since a reset, every frame is a change |
| `SceneChange.SuppressedNearBase` | client/src/scd/scene_change_detector.cpp:77-85 | a suppressed frame is within both thresholds of its baseline |
| `SceneChange.SuppressionRadius` | client/src/scd/scene_change_detector.cpp:77-85 | two frames suppressed against one baseline are at most 2*(threshold-1) bits apart |
| `AdaptiveFilter.AdaptiveFrameFilter.Reset` | client/src/aff/adaptive_frame_filter.cpp:9-12 | forgets both the baseline image and the last emission |
| `AdaptiveFilter.AdaptiveFrameFilter.DiffRatio` | client/src/aff/adaptive_frame_filter.cpp:23-40 | the share of the pixels, counted as a set, that moved by more than the threshold, 1.0 without a baseline, and the image always becomes the baseline |
| `AdaptiveFilter.AdaptiveFrameFilter.Evaluate` | client/src/aff/adaptive_frame_filter.cpp:42-64 | each of the four decisions if and only if its condition holds, the rate gate's in frames per second; what is stored afterwards; and both as the whole call history prescribes |
| `AdaptiveFilter.AdaptiveFrameFilter.EvaluateForced` | client/src/aff/adaptive_frame_filter.cpp:66-72 | accepts, makes the image the baseline and restarts the rate gate |
| `AdaptiveFilter.StateIsHistorical` | client/src/aff/adaptive_frame_filter.cpp:23-72 | the stored time is that of the last emission since a reset; the stored image is the last one forced or past the rate gate, even if then dropped |
| `AdaptiveFilter.DecisionIsHistorical` | client/src/aff/adaptive_frame_filter.cpp:42-64 | every incremental decision is the one the whole trace prescribes |
| `AdaptiveFilter.RateDroppedExactly` | client/src/aff/adaptive_frame_filter.cpp:46-52 | after an emission, a frame is dropped for its rate if and only if the time since then and one more nanosecond is at most 1/maxFps of a second |
| `AdaptiveFilter.BudgetHolds` | client/src/aff/adaptive_frame_filter.cpp:42-72 | over any stretch of calls, accepts beyond resets plus one each cost a full interval before the last emission |
| `AdaptiveFilter.RateBound` | client/src/aff/adaptive_frame_filter.cpp:9-72 | in any interval of length L with R resets at most L/min_interval + R + 1 evaluations are accepted: beyond R + 1, no more than maxFps a second but for the nanosecond lost to rounding |
| `CaptureMode.ModeIsHistorical` | client/src/pipeline/capture_pipeline.cpp:53-79 | with atomic handlers the mode is query exactly while the latest query event is a begin, and typing exactly when unlocked and last turned on |
| `GrabLoop.CapturePipeline.SetTyping` | client/src/pipeline/capture_pipeline.cpp:53-67 | the new mode, and both filters reset exactly when typing mode ended |
| `GrabLoop.CapturePipeline.BeginQuery` | client/src/pipeline/capture_pipeline.cpp:69-72 | locks the mode from any state, touching no filter |
| `GrabLoop.CapturePipeline.EndQuery` | client/src/pipeline/capture_pipeline.cpp:74-79 | unlocks from any state and resets both filters |
| `GrabLoop.CapturePipeline.Emit` | client/src/pipeline/capture_pipeline.cpp:143-155 | with a connection or a reconnection the next number, modulo 2^64, is taken and handed to the sender; without either nothing is sent and no number consumed |
| `GrabLoop.CapturePipeline.ForcedStep` | client/src/pipeline/capture_pipeline.cpp:123-134 | the forced branch: at most one decision a second, remembered across everything |
| `GrabLoop.CapturePipeline.IdleStep` | client/src/pipeline/capture_pipeline.cpp:135-141 | the idle branch: the filter sees a frame only when the detector declared a change |
| `GrabLoop.CapturePipeline.Iteration` | client/src/pipeline/capture_pipeline.cpp:114-158 | one iteration, with other threads' steps between its own, ends in the specified state |
| `GrabLoop.CapturePipeline.GrabLoop` | client/src/pipeline/capture_pipeline.cpp:105-159 | the loop ends in the state the specification reaches over all its rounds |
| `GrabLoop.IterateAccounted` | client/src/pipeline/capture_pipeline.cpp:114-158 | an iteration keeps the accounts, and the mode it loaded decides which gate it may touch |
| `GrabLoop.RunAccounted` | client/src/pipeline/capture_pipeline.cpp:121-155 | over every run: frames let through are numbered or met a dead connection, forced decisions all reach the filter, and the filter sees exactly the declared changes |
| `GrabLoop.IterateDelivers` | client/src/pipeline/capture_pipeline.cpp:143-155 | a frame let through in an iteration is lost if and only if there is neither a connection nor a reconnection, and otherwise sent under one number |
| `GrabLoop.RunDelivers` | client/src/pipeline/capture_pipeline.cpp:143-155 | over every run, the frames sent are the rounds that let one through with a connection, and the frames lost those that did without |
| `GrabLoop.IterateAsks` | client/src/pipeline/capture_pipeline.cpp:116-141 | what one iteration asks of the detector and the filter, in full: which frame, at what time, under which mode, and when a forced decision is due |
| `GrabLoop.RunIsHistorical` | client/src/pipeline/capture_pipeline.cpp:121-141 | what is let through and declared a change over any run is what the whole history prescribes |
| `GrabLoop.IterateSchedule` | client/src/pipeline/capture_pipeline.cpp:115-157 | an iteration moves the schedule by one interval, never ends before its tick, and hands out at most the next number |
| `GrabLoop.Pacing` | client/src/pipeline/capture_pipeline.cpp:105-159 | after k iterations of any kind the clock is at least start + k ticks, and the schedule has not drifted; k ticks span k/grab_fps seconds but for less than a nanosecond each |
| `GrabLoop.IteratePrompt` | client/src/pipeline/capture_pipeline.cpp:117-157 | an iteration ends when its work is done or sleeps until its tick, and no longer |
| `GrabLoop.Numbering` | client/src/pipeline/capture_pipeline.cpp:151-152 | the numbers handed to the sender over a run are consecutive, modulo 2^64 |
| `GrabLoop.ForcedRateBound` | client/src/pipeline/capture_pipeline.cpp:123-134 | over every run, forced decisions in any interval of length L number at most L/1s + 1, whatever the mode switching, resets and failures |
| `GrabLoop.ForcedCadence` | client/src/pipeline/capture_pipeline.cpp:123-134 | through any stretch of iterations with a frame and a forcing mode, successive forced decisions are less than a second plus the longest gate-to-gate pause apart, and the latest is less than a second old at the last gate |
| `GrabLoop.IdleRateBound` | client/src/pipeline/capture_pipeline.cpp:135-141 | the filter's rate bound, in frames per second, holds over every run of the loop with resets from other threads |
| `FramePacket.Memcpy` | client/src/webrtc/webrtc_client.cpp:226-229 | overwrites exactly the given stretch of the buffer |
| `FramePacket.BuildPacket` | client/src/webrtc/webrtc_client.cpp:216-231 | the buffer filled by offset is the specified packet: number modulo 2^32 in bytes 0-3, timestamp in 4-11, size modulo 2^32 in 12-15, little-endian, and then the body |
| `FramePacket.ParseExactly` | server/webrtc_server.py:87-102 | byte by byte, a packet is accepted if and only if it has a header and a body of at least the declared size, and what is read then |
| `FramePacket.RoundTrip` | server/webrtc_server.py:90-93 | parsing gives back the number modulo 2^32, the full timestamp and, if and only if it is under 4 GiB, the whole body; trailing bytes change nothing |
| `FramePacket.TruncatedRejected` | server/webrtc_server.py:87-102 | every strict prefix of a packet is rejected |
| `VlmEngine.SampleGap` | server/vlm_engine.py:154-155 | neighbouring samples are the floor or the ceiling of (n-1)/(m-1) apart, and at least one |
| `VlmEngine.SampleEnds` | server/vlm_engine.py:154 | sampling starts at the first frame and ends at the last |
| `VlmEngine.SampleTruncates` | server/vlm_engine.py:154 | each position is the exact place rounded down; a single sample is the first frame |
| `VlmEngine.SampleIncreasing` | server/vlm_engine.py:154-155 | sampled positions strictly increase |
| `VlmEngine.SampleKeepsOrder` | server/vlm_engine.py:149-155 | the samples are a subsequence of the frames; with two or more, the first and the newest frame are among them |
| `VlmEngine.PiecesExact` | server/vlm_engine.py:158-159 | the pieces concatenate to the text, all of full size but the last, which is not empty |
| `VlmEngine.PiecesCount` | server/vlm_engine.py:158-159 | there are ceiling(length/size) pieces |
| `VlmEngine.ChunksRebuild` | server/vlm_engine.py:158-159 | the chunks of an answer put together again are the answer, 64 characters each but the last, and one empty chunk for an empty answer |
| `FrameBuffer.Session.Append` | server/webrtc_server.py:73-75 | the deque stays the last 30 of everything accepted |
| `FrameBuffer.Session.OnFramePacket` | server/webrtc_server.py:86-111 | a packet that parses and decodes is appended, recorded and announced; any other leaves the session as it was |
| `FrameBuffer.Session.AwaitPostWindow` | server/webrtc_server.py:186-206 | after every wake-up the loop makes the transition system's check; it waits on exactly while the newest frame is before trigger + post and less than post + 2 s has passed, and says which ended it, or that a wait timed out |
| `FrameBuffer.Session.TakeSnapshot` | server/webrtc_server.py:155-168 | without a hint, the buffered frames from pre before the trigger to post after it, both three seconds by default; with one, that many from the end |
| `FrameBuffer.WindowSelects` | server/webrtc_server.py:163 | a window is the frames with timestamps between its ends, both included, each once and in order, in whatever order they came |
| `FrameBuffer.WindowHolds` | server/webrtc_server.py:161-163 | a query's window, in the query's own fields, holds exactly the frames it asks for |
| `FrameBuffer.Retention` | server/webrtc_server.py:48-75 | with frames at least g apart, every accepted frame newer than newest - 30*g is still buffered, at its place |
| `FrameBuffer.WindowExact` | server/webrtc_server.py:161-163 | a window over the buffer is the window over the whole history if and only if no evicted and no later frame lies in it |
| `FrameBuffer.RunInv` | server/webrtc_server.py:155-206 | over every interleaving of frames, queries, wakeups and timeouts, every query's record is truthful |
| `FrameBuffer.NoLostWakeup` | server/webrtc_server.py:194-206 | a query that sleeps unsignalled has no qualifying newest frame, although other queries clear the shared event; where the newest buffered frame leads, no buffered frame qualifies; in timestamp order, no accepted one ever did |
| `FrameBuffer.SleepExactly` | server/webrtc_server.py:192-206 | in a reachable state no query sleeps, or can be asked and sleep, beside a buffered frame it waits for, if and only if no buffered frame late enough to be waited for is ahead of the newest |
| `FrameBuffer.GivesUpOnlyLate` | server/webrtc_server.py:195-206 | a wait not ended by a frame lasted two seconds longer than the post window |
| `FrameBuffer.SnapshotExact` | server/webrtc_server.py:155-168 | however the wait ended, for any hint: the snapshot is the selection over everything accepted if no later frame is in the window and no evicted one either, unless the buffered ones meet the hint; and only then, where frames are one of a kind or the hint is not met |
| `FrameBuffer.SnapshotComplete` | server/webrtc_server.py:155-168 | in timestamp order, a query woken by a frame, with nothing evicted or the oldest frame at or before the window, saw the selection over all past and every future |
| `FrameBuffer.SpacedFramesCover` | server/webrtc_server.py:48-50 | frames at least g apart and a window starting within 29*g of the newest meet that guard |
| `FrameBuffer.ReorderedFrameStrandsWaiter` | server/webrtc_server.py:197 | out of order, a reachable query sleeps although a qualifying frame is buffered |
| `FrameBuffer.SplitWaitLosesWakeup` | server/webrtc_server.py:199-204 | with `wait()` in a task of its own, a reachable query sleeps past the frame it waited for |
| `FrameBuffer.SplitStep` | server/webrtc_server.py:197-204 | with `wait()` in a task of its own, a step loses a wakeup if and only if it clears the event over a query that is about to sleep and has its frame |
| `FrameBuffer.SplitExactly` | server/webrtc_server.py:197-204 | over a whole such run, no query is ever asleep, or about to sleep, past a newest frame it waits for if and only if no step clears the event over one |
| `FrameBuffer.ModelInputSound` | server/webrtc_server.py:155-172 | the model gets four frames, or all it was given if fewer, in the order of the selection, ending with the newest selected one |
| `FrameBuffer.SelectionSound` | server/webrtc_server.py:161-163 | in timestamp order the selection holds exactly the buffered frames of the window, in order |
| `StreamProofs.PolledFits` | client/src/grpc_service/prompt_app_service.cpp:76-94 | one pass of the consumer's lock region loses nothing and never takes the finished-and-empty branch |
| `StreamProofs.WroteFits` | client/src/grpc_service/prompt_app_service.cpp:95-97 | after a write, what was written is what was taken, and a closing message ends the loop |
| `StreamProofs.RunKeeps` | client/src/grpc_service/prompt_app_service.cpp:49-139 | the protocol invariant holds after every run over every interleaving |
| `StreamTheorems.ProducerConsumer` | client/src/grpc_service/prompt_app_service.cpp:74-133 | consumed followed by queued is what was dispatched; finished means a closing message is queued or taken; the drained exit never happens |
| `StreamTheorems.WrittenIsPrefix` | client/src/grpc_service/prompt_app_service.cpp:74-134 | what a caller that was not refused is written is, with no other hypothesis, a gap-free beginning of what the server sent for its id since it registered |
| `StreamTheorems.RefusedGetsError` | client/src/grpc_service/prompt_app_service.cpp:62-72 | a refused caller gets the local error or nothing, and its query is never answered |
| `StreamTheorems.AttachedStep` | client/src/grpc_service/prompt_app_service.cpp:56-60 | the one step that detaches a call is registering an id that is still live, and it always does |
| `StreamTheorems.DistinctStayAttached` | client/src/grpc_service/prompt_app_service.cpp:56-139 | with distinct live ids every call between registration and erasure is the one its id leads to |
| `StreamTheorems.AttachedExactly` | client/src/grpc_service/prompt_app_service.cpp:56-139 | calls are attached at every moment of a run if and only if no call of it registers a live id |
| `StreamTheorems.RegisteredGetsAll` | client/src/grpc_service/prompt_app_service.cpp:114-134 | then its buffer has been given every response received for the id, in order, and nothing else |
| `StreamTheorems.StreamPrints` | server/webrtc_server.py:170-184 | printing a query's stream gives the concatenated chunks followed by the error text, if there was one |
| `StreamTheorems.ReusedLiveIdStrandsBoth` | client/src/grpc_service/prompt_app_service.cpp:56-139 | two reachable quiet states after two queries under one live id: the first call waiting with nothing left to come, its answer pushed to the second; and, after the first one's erasure, the second waiting with its closing response received and dropped |
| `StreamTheorems.ReusedDeadIdInheritsStream` | client/src/grpc_service/prompt_app_service.cpp:114-134 | a reachable run in which a reused id, never live twice, is given the earlier query's stream |
| `OwnStream.RunContinues` | client/src/grpc_service/prompt_app_service.cpp:49-139 | continuing a run from the state it reached is the same as one run of both parts |
| `OwnStream.QuietStep` | client/src/grpc_service/prompt_app_service.cpp:49-139 | only a registration of the id can bring anything more under way for it |
| `OwnStream.OwnStep` | client/src/grpc_service/prompt_app_service.cpp:49-139 | whatever any call does next, what a call was given stays a beginning of its own query's stream |
| `OwnStream.OwnStreamExactly` | client/src/grpc_service/prompt_app_service.cpp:56-98 | from any reachable state, registering an id guarantees the call its own whole stream if it leaves through done, in every continuation, if and only if the id is silent at that moment |
| `OwnStream.HeardOutIsSilent` | client/src/grpc_service/prompt_app_service.cpp:56-101 | with distinct live ids, a free id all of whose earlier calls left through done or were refused is silent |
| `OwnStream.DoneMeansComplete` | client/src/grpc_service/prompt_app_service.cpp:95-98 | a call that registered a silent id and left through done wrote exactly its query's whole stream: the chunks numbered from 0 modulo 2^32, and one closing message with the error, if any |
| `OwnStream.EndToEndText` | server/webrtc_server.py:170-184 | the caller of such a call prints exactly the text the engine cut up, or the chunks and the error |
| `QueryLock.QueriesConserved` | client/src/pipeline/capture_pipeline.cpp:69-103 | over every interleaving, locks taken are locks released, failed sends, and queries in flight |
| `QueryLock.LoadArms` | client/src/pipeline/capture_pipeline.cpp:53-60 | what a typing handler will store after its load: nothing once it has seen a query, and an end of typing nothing unless it saw typing |
| `QueryLock.LockStep` | client/src/pipeline/capture_pipeline.cpp:53-79 | from an exact lock, the steps that break it are precisely the three named ones |
| `QueryLock.LockExactly` | client/src/pipeline/capture_pipeline.cpp:53-90 | the lock is exact at every moment of a run if and only if no step of it is one of those three |
| `QueryLock.LockHolds` | client/src/pipeline/capture_pipeline.cpp:69-103 | one query at a time, atomic typing and successful sends: locked from a query's begin until the closing message of that same query |
| `QueryLock.OverlapUnlocks` | client/src/pipeline/capture_pipeline.cpp:74-79 | a reachable run in which the first of two answers unlocks while the second query is outstanding |
| `QueryLock.FailedSendStaysLocked` | client/src/pipeline/capture_pipeline.cpp:81-90 | a reachable state, all callers gone and nothing in flight, with the mode still locked |
| `QueryLock.SplitTypingUnlocks` | client/src/pipeline/capture_pipeline.cpp:53-59 | a reachable run in which a query beginning between load and store loses its lock |
| `PromptService.DecimalInjective` | client/src/grpc_service/prompt_app_service.cpp:52-54 | distinct counters give distinct generated ids |
| `PromptService.DecimalReads` | client/src/grpc_service/prompt_app_service.cpp:53 | a generated id carries the counter in decimal digits, without leading zeros |
| `PromptService.SameIdWasRequested` | client/src/grpc_service/prompt_app_service.cpp:52-54 | two calls share an id only if one of them asked for it by name |
| `PromptService.ServeFits` | client/src/grpc_service/prompt_app_service.cpp:74-98 | whatever arrives, is cancelled or fails, the loop loses nothing, writes in order and exits only as described |
| `PromptService.WrittenArrived` | client/src/grpc_service/prompt_app_service.cpp:74-98 | what the loop wrote is the beginning of everything that arrived |
| `PromptService.ServedOneAPass` | client/src/grpc_service/prompt_app_service.cpp:74-98 | one chunk a pass whenever one is queued is the least, over all moments, of what had arrived by then and the passes since |
| `PromptService.MustLeave` | client/src/grpc_service/prompt_app_service.cpp:74-98 | where nothing fails and a closing chunk arrives with as many passes to follow as there are chunks up to it, the loop leaves through done |
| `PromptService.ChunkBuffer.Push` | client/src/grpc_service/prompt_app_service.cpp:123-132 | appends the chunk and marks the buffer finished on a closing one |
| `PromptService.ChunkBuffer.Poll` | client/src/grpc_service/prompt_app_service.cpp:77-94 | decides cancellation, chunk, drained or nothing in that order and takes the oldest chunk |
| `PromptService.ServiceImpl.Register` | client/src/grpc_service/prompt_app_service.cpp:56-60 | gives the id a fresh empty buffer, replacing whatever it led to |
| `PromptService.ServiceImpl.EraseSession` | client/src/grpc_service/prompt_app_service.cpp:136-139 | removes the id, whichever call registered it |
| `PromptService.ServiceImpl.DispatchChunk` | client/src/grpc_service/prompt_app_service.cpp:114-134 | a response reaches the buffer its id leads to and no other, or is dropped |
| `PromptService.ServiceImpl.ConsumerLoop` | client/src/grpc_service/prompt_app_service.cpp:74-98 | a pass writes one chunk whenever one is queued; exactly what has been written and why the loop left, for every way to leave; and when it must leave through done |
| `PromptService.ServiceImpl.SubmitQuery` | client/src/grpc_service/prompt_app_service.cpp:49-102 | a whole call: the requested id or the next generated one, the error of a refused call word for word, all that was written and why it left, when it must leave through done, and that the map is left without the id |
| `PromptService.ResponseSender.SendResponse` | server/webrtc_server.py:208-224 | sends, or drops the response when there is no channel |
| `PromptService.ResponseSender.Answer` | server/webrtc_server.py:170-184 | puts exactly the query's stream on the channel: each chunk under its number, and a closing message with the next number and the error, if any |
| `PromptService.ReceiveLoop` | prompt_app/app.py:147-151 | prints the texts of the messages up to and including the first closing one, or of all of them, and no further |
| `TypingDebouncer.RunsKeep` | prompt_app/app.py:73-114 | the invariant of both threads is kept along every run |
| `TypingDebouncer.NotificationsConserved` | prompt_app/app.py:73-114 | over every interleaving, starts less stops, sent or in flight, is one while typing and zero otherwise, until shutdown reads the flag |
| `TypingDebouncer.StopsAfterSilence` | prompt_app/app.py:104-110 | the flag changes alternate, and it is turned off only the idle time after every keystroke processed by then |
| `TypingDebouncer.BurstStart` | prompt_app/app.py:76-93 | the reported start is when the flag was last turned on, by the first keystroke after the last time it was turned off |
| `TypingDebouncer.StartKnown` | prompt_app/app.py:85-93 | there is a start to report exactly when a keystroke has been processed |
| `TypingDebouncer.ChecksApart` | prompt_app/app.py:102-110 | from any moment the polling thread is awake, its next check is at least a tenth of a second away |
| `TypingDebouncer.ReadWaits` | prompt_app/app.py:95-98 | shutdown reads the flag only once the polling thread has left or a second after asking it to |
| `TypingDebouncer.ShutdownBalances` | prompt_app/app.py:95-99 | a shutdown balances the totals, however the run goes on, if and only if it did not read a set flag while the polling thread was still asleep |
| `TypingDebouncer.ShutdownStopsTwice` | prompt_app/app.py:95-99 | a reachable run with one start and two stops |
| `TypingDebouncer.OvertakingStep` | prompt_app/app.py:82-114 | the next step can break the order of delivery if and only if a start and a stop are in flight together |
| `TypingDebouncer.SeparateSendsFollowFlag` | prompt_app/app.py:73-114 | where sends never overlap, delivery follows the flag's changes, and the client's mode is the flag whenever nothing is in flight |
| `TypingDebouncer.StopOvertakesStart` | prompt_app/app.py:82-114 | a reachable run that ends quiet with the flag off and the client in typing mode |
| `TypingDebouncer.TypingDebouncer.Keystroke` | prompt_app/app.py:73-83 | one keystroke's new state, and a start sent exactly when it opened a burst |
| `TypingDebouncer.TypingDebouncer.PollRegion` | prompt_app/app.py:104-112 | the poll's new state, and a notification due exactly when it turned the flag off |
| `TypingDebouncer.TypingDebouncer.RunLoop` | prompt_app/app.py:101-114 | undisturbed, the loop ends at the first pass that finds the stop event and sends one stop exactly when the flag was set and some pass came late enough |
| `TypingDebouncer.TypingDebouncer.FinishShutdown` | prompt_app/app.py:98-99 | from any state of the two threads that lets shutdown read the flag it takes the machine's steps, and in a state keeping the invariant as many stops as starts have then been sent, but for one the polling thread may still be sending |

## Left out

- Screen capture, sockets, HTTP, SDP and ICE, server start-up and shut-down, logging, command lines and health endpoints: input and output around libraries that are not visible here.
- Colour conversion, resizing, DCT, histogram, sharpness and JPEG coding: their results are inputs of the model.
- JSON syntax and badly formed control messages: a control message is a record, as `SendQuery` builds it.
- Model loading, inference and the stub answer: a query yields an arbitrary finite list of chunks, possibly ending in a failure.
- Rounding in `linspace` and in the threshold comparisons: exact numbers are used. The one call of `_sample_frames` takes four frames.
- Reconnection of a peer while queries are in flight, and loss of a message in the channel.
- Failure of `NotifyTyping`: a notification counts as sent when its call returns, whatever the call returned.
- Progress: no theorem says that a query is answered, that a waiting thread is scheduled, or that a loop ends.
- Queries entering the debouncer's view of the client: its theorems about the client's mode are for stretches without queries.
- FrameBuffer.SnapshotExact: where two accepted frames are the same label at the same time and the buffered ones meet the hint, only the half from sufficiency to completeness is stated; there a snapshot can be complete by coincidence.
- FrameBuffer.Session.OnFramePacket: `last_frame_at` is not modelled, because nothing reads it.
- PromptService.SameIdWasRequested: the counter is unbounded, where the code's wraps after 2^64 calls.
- GrabLoop.CapturePipeline.GrabLoop: starting and stopping the thread is not modelled; the run ends where the script of rounds does.
- TypingDebouncer.TypingDebouncer.Keystroke: with no poll between its lock region and its send; that case is the transition system's.
- PromptService.ServiceImpl.SubmitQuery: one call with nothing else touching the session map; calls that overlap are the transition system's.
- FrameBuffer.Session.AwaitPostWindow: one query's loop over a script of wake-ups; several queries sharing the event are the transition system's.
- TypingDebouncer.TypingDebouncer.RunLoop: without keystrokes in between; both threads together are the transition system's.
