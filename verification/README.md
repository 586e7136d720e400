# Verified model of the YOLOv8n capture pipeline

A Dafny model of the multi-process drone-watching pipeline in
`yolov8n_cap_multithread`: camera frames go through a multi-threaded inference
process, detections go over sockets to a tracker, a temporal service and an
event summarizer, and the summarizer takes the NPU away from the pipeline for a
language-model run when a drone has left. `dafny verify dfyconfig.toml` checks
the whole project.

The project has four parts, one module a file.

**Inference pipeline.** `PipelineModel` is the interleaving of the main thread,
any number of workers and the control thread, one atomic access a step, with
N_THREADS and N_BUF >= N_THREADS as parameters. `PipelineBooks`,
`PipelineShutdown`, `PipelineContexts` and `PipelineHandshake` are invariants
kept by every step, and so are `PipelineCycles`, on which dark period a resume
command belongs to, and `PipelineLeaks`, on which contexts exist;
`PipelineRuns` states them for every reachable state. `PipelinePause` says when
a worker takes the NPU path. `PipelineProgress` bounds the drain and the joins,
`PipelineRequests` follows a stored blackout request and `PipelineEnding` a
shutdown request. `PipelineCounterexamples` holds concrete runs. `Queues` has
the two shared containers and `PipelineThreads` the code of the threads over
them, tied to the steps.

**Post-processing.** `RankSort`, `Nms`, `BoxDecode` and `PostProcess` are the
loops of `post_process()` over arrays and vectors, proved against
specification functions; `Suppression` relates the tombstone loop to greedy
selection, and `DflFacts` says what `fast_expf` and the sides decoded with it
mean. `DrawBox` draws the results. Floats are reals, except that
`fast_expf` keeps its bit pattern; the sigmoid is an arbitrary function.

**Tracking and summaries.** `GreedyMatching` and `Tracker` are the tracker,
`TrackState` and `TrackManager` the temporal manager, `Aggregate` and
`Summarizer` the summarizer. `TrackLife` follows one track over a run,
`Lockstep` the two ageing rules side by side, `Links` carries each stage's
output to the next as bytes, and `EndToEnd` is the way from raw detections to
the model run.

**Transport.** `BoundedQueue` is the drop-oldest queue against its history,
`Wire` the record layouts and the framing, `WireLayout` the place of every value
in a frame's bytes, `Streams` the byte loops under arbitrary short reads and
writes.

`Options`, `Sequences`, `RealFacts` and `Cells`, rectangles as sets of points,
hold what several modules share.

## What the code does not promise

Where a natural property is false of the code, the code is modelled as it is, a
lemma names an input, and the exact condition is proved.

- The result of `rknn_dup_context` is not checked on resume (`src/main.cc:487`),
  so a worker can run on a destroyed context (`FailedDupIsUsed`). A context in
  use exists if and only if its last duplication succeeded (`NpuPathIsSafe`).
- A shutdown that ends a blackout destroys every context a second time
  (`src/main.cc:618` after `:459`), and so does a failed re-init; the exact
  condition is `DestroyedTwiceIff`. No context is left over
  (`NoContextLeaks`).
- A blackout request stored between `src/main.cc:513` and `:518` is erased and
  inference stays off (`BlackoutCanBeLost`). A request can be erased under its
  waiting handler if and only if, as it is stored, main is clearing the flag,
  is re-initialising, or has a resume request left over and no shutdown
  (`RequestErasedIff`); with no resume timeout only the first remains
  (`RequestOutcome`).
- After a timed-out resume wait a stale request can end the next blackout at
  once, and its ok can go out while contexts exist (`StaleResumeEndsBlackout`).
  A dark period ends in a re-init only on a command of its own, and its
  blackout oks are given with no context left, if and only if no resume request
  is left over when it is announced, or a shutdown is requested
  (`DarkEndsOnCommandIff`, `BlackoutOkIsHonestIff`). A timeout of the period's own resume command can
  always spoil the ok (`BlackoutOkIsAlwaysHonestIff`). A resume ok is right in
  every run (`RepliesAreTrue`).
- The running maximum of `process()` starts at 0, so cells whose quantised score
  is not positive are dropped whatever the threshold (`AcceptsIff`).
- The quantised threshold saturates at 127, and then values far below the
  threshold pass (`PassingIsNearlyConfidentIff`).
- A DFL side is 0/0 when all its weights underflow (`DecodeDefinedIff`).
- `nms()` reads the class list by rank (`TwoClassesMix`); with one class it is
  greedy suppression.
- `draw_box_sw` paints outside a box thinner than the border (`SpillsIff`).
- The tracker and the temporal service process a frame whose records were cut
  off, the tracker padding it with blank detections; it is the frame that was
  being sent if and only if the tracker pads and the missing records are blank
  (`CutShort`, `TruncatedStream`).
- The summarizer says it aggregates every record of an active episode, but the
  frame that opens an episode is left out (`OpeningFrameIsLost`,
  `ModelSeesEpisode`).

## Assumptions

- A relaxed atomic access is one step of the interleaving, and a critical
  section of a mutex is one step.
- Stopping the control server ends as soon as its thread is between commands:
  a client that stays connected without sending one would hold it up, and the
  sentinels with it.
- Links lose no frame in the results that compare stages, and no receive
  timeout falls inside a frame.
- One object class in post-processing. Track ids do not wrap around 32 bits.
- Wall-clock differences are taken modulo 2^64 as the code takes them, so a
  clock that moves backwards counts as a very long time.

## Model

| member | source | states |
|---|---|---|
| Queues.TSQueue.Push | yolov8n_cap_multithread/src/main.cc:78-81 | the item goes to the back; everything ever pushed is what was popped followed by what is queued |
| Queues.TSQueue.Pop | yolov8n_cap_multithread/src/main.cc:82-86 | the oldest item leaves; the popped history is a prefix of the pushed history |
| Queues.BufPool.Acquire | yolov8n_cap_multithread/src/main.cc:122-127 | hands out an index below the capacity that nobody holds |
| Queues.BufPool.Release | yolov8n_cap_multithread/src/main.cc:128-131 | the index goes back; every index is free or lent, never both, never twice |
| PipelineThreads.Pipeline.CaptureAndSubmit | yolov8n_cap_multithread/src/main.cc:399-420 | the shared state afterwards is the one the model reaches by its acquire and submit steps |
| PipelineThreads.CapturedIsTwoSteps | yolov8n_cap_multithread/src/main.cc:399-420 | the acquire and submit steps of the model compose to one capture |
| PipelineThreads.Pipeline.Fill | yolov8n_cap_multithread/src/main.cc:417-420 | the pre-fill and refill loops capture one frame per inference thread |
| PipelineThreads.FilledJobs | yolov8n_cap_multithread/src/main.cc:417-420 | a fill takes the oldest free buffers and numbers its frames consecutively |
| PipelineThreads.Pipeline.InferenceTurn | yolov8n_cap_multithread/src/main.cc:184-229 | one turn of a worker is the composition of its model steps: a sentinel ends it, a job becomes a result; the network ran if and only if the job's turn loaded inference_enabled as true, which is when the model's worker takes the NPU path |
| PipelineThreads.Pipeline.DrainLoop | yolov8n_cap_multithread/src/main.cc:453-457 | with the results arrived, the drain loop is the repetition of the model's drain steps |
| PipelineThreads.DrainStepIsModelled | yolov8n_cap_multithread/src/main.cc:453-457 | one round of that loop is two steps of the model |
| PipelineThreads.DrainedReturnsBuffers | yolov8n_cap_multithread/src/main.cc:453-457 | a drain empties result_q, brings in_flight to 0 and returns the buffers in result order |
| PipelineThreads.Pipeline.PushSentinels | yolov8n_cap_multithread/src/main.cc:605-606 | one sentinel per inference thread, behind everything queued |
| PipelineRuns.NpuPathIsSafe | yolov8n_cap_multithread/src/main.cc:194-214 | in every reachable state of every interleaving, a worker on the NPU path uses its current handle, and that context exists if and only if its last duplication succeeded |
| PipelinePause.EntersIff | yolov8n_cap_multithread/src/main.cc:194-224 | in any step of any thread, a worker takes the NPU path if and only if the step is its own, it holds a job and inference is on; with inference off its step hands the job on unprocessed |
| PipelinePause.InferenceFollows | yolov8n_cap_multithread/src/ipc/unix_control_server.cc:195-204 | resume_yolo and the announcement of a re-init turn inference on, pause_yolo and blackout turn it off, no other step of any thread touches it |
| PipelinePause.NobodyEntersWhilePaused | yolov8n_cap_multithread/src/main.cc:451-457 | from a pause or blackout command through any run up to the next resume_yolo or announced re-init, no worker takes the NPU path, drains included |
| PipelineContexts.ContextsStep | yolov8n_cap_multithread/src/main.cc:459-490 | every step keeps the invariant that says, for each place in main, which contexts exist and which handle each worker has |
| PipelineRuns.ContextsDieIdle | yolov8n_cap_multithread/src/main.cc:453-460 | in every reachable state, a step that destroys a context finds nothing in flight, or every worker gone |
| PipelineRuns.NoContextLeaks | yolov8n_cap_multithread/src/main.cc:459-490 | in every reachable state the contexts that exist are main's own, and none exists while the pipeline is dark, nor at the end of the process |
| PipelineRuns.DestroyedTwiceIff | yolov8n_cap_multithread/src/main.cc:618 | the final loop hands rknn_destroy a context that is already destroyed if and only if the pipeline was drained before, by a blackout, or the duplication of that context had failed |
| PipelineContexts.NothingInferring | yolov8n_cap_multithread/src/main.cc:453-459 | in_flight 0 means no worker is on the NPU path |
| PipelineRuns.BuffersAreOwnedOnce | yolov8n_cap_multithread/src/main.cc:107-131 | in every reachable state each buffer has exactly one owner, in_flight counts the jobs queued, held and answered, and acquire finds a free buffer whenever it is called |
| PipelineRuns.FramesAreConserved | yolov8n_cap_multithread/src/main.cc:528-575 | every captured frame is displayed, drained or in flight, exactly one of them, once; the publisher was offered exactly the displayed frames |
| PipelineBooks.CrewConserves | yolov8n_cap_multithread/src/main.cc:182-230 | a worker step moves its job, or nothing, from one place to the next |
| PipelineBooks.BooksStep | yolov8n_cap_multithread/src/main.cc:432-596 | every step of every thread keeps the ownership and conservation books |
| PipelineRuns.RepliesAreTrue | yolov8n_cap_multithread/src/ipc/unix_control_server.cc:242-269 | in every run, a resume ok answers the command of the dark period just ended; a blackout ok finds the pipeline drained, and every context destroyed if and only if no re-init has created one; with no resume timeout no re-init runs |
| PipelineRuns.DarknessEndsOnCommand | yolov8n_cap_multithread/src/main.cc:472-476 | main leaves the dark loop for a re-init if and only if no shutdown was requested and, with no resume timeout, for a command of the same dark period that still waits |
| PipelineRuns.DarkEndsOnCommandIff | yolov8n_cap_multithread/src/main.cc:463-476 | in every run: a dark period can only end in a re-init on a command of its own if and only if no resume request is left over when it is announced, or a shutdown is requested |
| PipelineRuns.BlackoutOkIsHonestIff | yolov8n_cap_multithread/src/ipc/unix_control_server.cc:249-254 | in every run: no blackout ok of a dark period is given while a context exists, resume timeouts of the period itself aside, if and only if the same condition holds |
| PipelineRuns.BlackoutOkIsAlwaysHonestIff | yolov8n_cap_multithread/src/ipc/unix_control_server.cc:257-266 | with those timeouts counted in, if and only if a shutdown is requested |
| PipelineHandshake.HandshakeStep | yolov8n_cap_multithread/include/ipc/yolo_control_state.h:50-66 | every step keeps the meaning of the four lifecycle flags |
| PipelineRuns.BlackoutWaitIsDecided | yolov8n_cap_multithread/src/main.cc:513-519 | a waiting blackout request is still stored, or its handler can only time out |
| PipelineRequests.RequestErasedIff | yolov8n_cap_multithread/src/main.cc:472-519 | in every run: the request a blackout command is about to store can be erased under its waiting handler if and only if main is clearing the flag, is re-initialising, or has a resume request left over and no shutdown |
| PipelineRequests.RequestOutcome | yolov8n_cap_multithread/src/main.cc:513-519 | with no resume timeout, once main has moved, a stored request is gone if and only if it was stored just as main cleared the flag, and then its handler is hung |
| PipelineRequests.RequestIsServed | yolov8n_cap_multithread/src/main.cc:432-467 | a stored request that main is heading for is served: after at most 15 * N + 14 steps of main and workers, some of which can always be taken, the dark is announced or a shutdown noticed |
| PipelineHandshake.RequestedStep | yolov8n_cap_multithread/src/main.cc:518 | a waiting handler's request disappears in a step if and only if that step is main clearing the flag |
| PipelineHandshake.HungOnlyTimesOut | yolov8n_cap_multithread/src/ipc/unix_control_server.cc:249-252 | once its request was erased, a handler stays without an ok until it times out |
| PipelineCounterexamples.BlackoutCanBeLost | yolov8n_cap_multithread/src/main.cc:513-519 | a run in which a blackout request is erased unseen, leaving inference switched off |
| PipelineCounterexamples.StaleResumeEndsBlackout | yolov8n_cap_multithread/src/ipc/unix_control_server.cc:257-266 | a run in which a resume left over from a timed-out wait ends the next blackout, whose ok goes out during re-initialisation |
| PipelineCounterexamples.FailedDupIsUsed | yolov8n_cap_multithread/src/main.cc:486-490 | a run in which an unchecked rknn_dup_context failure puts a worker on a destroyed context |
| PipelineRuns.NobodyWaitsInVain | yolov8n_cap_multithread/src/main.cc:529-608 | in every reachable state in which main waits for a result or in a join, some worker can step |
| PipelineProgress.WorkerStepsDecrease | yolov8n_cap_multithread/src/main.cc:184-229 | every worker step lowers the rank of the outstanding work |
| PipelineProgress.DrainEnds | yolov8n_cap_multithread/src/main.cc:453-457 | however the control thread interferes, a drain takes at most Rank steps of main and workers |
| PipelineRuns.DrainIsBounded | yolov8n_cap_multithread/src/main.cc:453-457 | from every reachable state a drain takes at most six steps of main and workers per inference thread |
| PipelineProgress.JoinsEnd | yolov8n_cap_multithread/src/main.cc:605-608 | the joins end after boundedly many steps |
| PipelineEnding.ShutdownEnds | yolov8n_cap_multithread/src/main.cc:432-608 | once a shutdown is requested, every run has at most 20 * N + 11 more steps of main and workers, whatever else is commanded and wherever main is; until the end main, a worker or the command handler main waits for can step |
| PipelineShutdown.ShuttingStep | yolov8n_cap_multithread/src/main.cc:598-608 | every real job precedes the sentinels; sentinels queued plus workers exited equal sentinels pushed |
| PipelineRuns.ShutdownLosesNoJob | yolov8n_cap_multithread/src/main.cc:605-618 | after the joins every worker exited, as many as sentinels were pushed, none of which is left; infer_q is empty and each job in flight has its result |
| PipelineShutdown.JoinedCleanly | yolov8n_cap_multithread/src/main.cc:605-608 | the sentinels pushed are as many as the workers that left on one, and none is still queued |
| RankSort.QuickSort | yolov8n_cap_multithread/src/postprocess.cc:158-185 | terminates; scores end up descending; scores and indices are rearranged together and nothing outside [left, right] moves |
| RankSort.Partition | yolov8n_cap_multithread/src/postprocess.cc:160-180 | the hole-filling loop is a partition around the pivot |
| RankSort.SortedKeepsPairs | yolov8n_cap_multithread/src/postprocess.cc:330-336 | after sorting a fresh list each score is still its candidate's, and every candidate appears once |
| Suppression.LoopIsGreedy | yolov8n_cap_multithread/src/postprocess.cc:125-156 | the tombstone loop equals textbook recursive greedy suppression |
| Suppression.SuppressionIsCorrect | yolov8n_cap_multithread/src/postprocess.cc:125-156 | rank 0 stands, survivors keep their order, none is ruled out by another, every suppressed one is ruled out by a better survivor |
| Suppression.SurvivesIff | yolov8n_cap_multithread/src/postprocess.cc:125-156 | a candidate survives if and only if no better-ranked survivor rules it out |
| Suppression.TwoClassesMix | yolov8n_cap_multithread/src/postprocess.cc:129 | with two classes the rank-indexed class test lets one class suppress the other |
| Nms.SuppressInPlace | yolov8n_cap_multithread/src/postprocess.cc:125-156 | the in-place loops write exactly the tombstones of the pass, and nothing past validCount |
| Nms.OverlapIsIou | yolov8n_cap_multithread/src/postprocess.cc:115-123 | overlap of proper boxes lies in [0, 1] |
| Nms.OverlapCounts | yolov8n_cap_multithread/src/postprocess.cc:115-123 | for boxes with integer corners, both included, overlap times the pixels in either box is the pixels in both |
| Nms.OverlapSymmetric | yolov8n_cap_multithread/src/postprocess.cc:115-123 | overlap does not depend on the order of the boxes |
| Nms.OverlapSelf | yolov8n_cap_multithread/src/postprocess.cc:115-123 | a proper box overlaps itself fully |
| BoxDecode.DecodeBox4 | yolov8n_cap_multithread/src/postprocess.cc:218-232 | the one-pass loops compute each side's expected bin over weights taken against the anchor maximum |
| DflFacts.FloatIs | yolov8n_cap_multithread/src/postprocess.cc:193-197 | the float with exponent bits e >= 1 and fraction bits r is 2^-126 * (1 + r / 2^23), doubled e - 1 times |
| DflFacts.FastExpAtZero | yolov8n_cap_multithread/src/postprocess.cc:189-197 | fast_expf(0) is 1 |
| DflFacts.FastExpMonotone | yolov8n_cap_multithread/src/postprocess.cc:193-197 | fast_expf never falls |
| DflFacts.FastExpDoubles | yolov8n_cap_multithread/src/postprocess.cc:193-197 | arguments whose bit patterns are k exponents apart differ by the factor 2^k |
| DflFacts.FastExpAtPowers | yolov8n_cap_multithread/src/postprocess.cc:193-197 | at -k * 2^23 / 12102203, the k-th step of ln 2, it is 2^-k exactly |
| DflFacts.BitsWithin | yolov8n_cap_multithread/src/postprocess.cc:195 | the bit pattern is the scaled argument, cut toward zero, plus the bias |
| DflFacts.DominantBin | yolov8n_cap_multithread/src/postprocess.cc:223-231 | a side whose bin k outweighs every other bin by 1/e decodes to k up to 225 * e |
| DflFacts.PeakDecodes | yolov8n_cap_multithread/src/postprocess.cc:218-231 | if bin k of a side holds the anchor's maximum and its other bins lie at least gap below, the side decodes to k up to 225 times the weight of the gap |
| DflFacts.RaisedBinPulls | yolov8n_cap_multithread/src/postprocess.cc:223-231 | raising a bin moves the side toward it, never past it, and does move it when its weight rises |
| DflFacts.RaisedValuePulls | yolov8n_cap_multithread/src/postprocess.cc:218-231 | raising one value of an anchor, not above its maximum, pulls its own side only |
| BoxDecode.SidesInRange | yolov8n_cap_multithread/src/postprocess.cc:218-232 | every defined side lies in [0, 15] |
| BoxDecode.DecodeDefinedIff | yolov8n_cap_multithread/src/postprocess.cc:193-197 | no int8 anchor divides 0 by 0 if and only if 255 * scale stays above the underflow point of fast_expf |
| BoxDecode.AcceptsIff | yolov8n_cap_multithread/src/postprocess.cc:250-259 | the class test is the plain threshold test on all int8 values if and only if the quantised threshold is positive |
| BoxDecode.ConfidentPasses | yolov8n_cap_multithread/src/postprocess.cc:207-214 | a value whose dequantised logit reaches the threshold passes the int8 threshold |
| BoxDecode.PassingIsNearlyConfidentIff | yolov8n_cap_multithread/src/postprocess.cc:201-214 | every int8 value that passes misses the threshold by less than one quantisation step if and only if the threshold is not cut off at the top of the range |
| BoxDecode.ToCameraOrdered | yolov8n_cap_multithread/src/postprocess.cc:362-365 | clamping and scaling back keeps order and stays within the scaled model size |
| BoxDecode.AnchorBoxReadsBack | yolov8n_cap_multithread/src/postprocess.cc:264-267 | about the centre of its cell the box reaches side 0 to the left, side 1 up, side 2 to the right and side 3 down, in strides |
| BoxDecode.Letterbox | yolov8n_cap_multithread/src/rga_func.cc:49-59 | one scale chosen by the longer side; either side is the scaled source side cut to an integer; into a square model the resized image fits |
| BoxDecode.LetterboxRoundTrip | yolov8n_cap_multithread/src/rga_func.cc:49-59 | a camera coordinate sent through the letterbox and back never grows and loses less than 1/scale + 1 |
| PostProcess.Process | yolov8n_cap_multithread/src/postprocess.cc:234-281 | the three parallel vectors grow by exactly the accepted cells' boxes and scores, row by row |
| PostProcess.DecodeCell | yolov8n_cap_multithread/src/postprocess.cc:260-274 | an accepted cell's box is read back about the cell's centre as the four decoded sides of its distributions |
| PostProcess.CellsCoverInput | yolov8n_cap_multithread/src/postprocess.cc:254-262 | the cells tile the tensor row by row: every input value is one value of one cell |
| PostProcess.Run | yolov8n_cap_multithread/src/postprocess.cc:283-378 | for some ranking of the candidates by descending score, the results are exactly the first at most 64 survivors of greedy suppression over its top 200, each with its own box and score |
| PostProcess.ResultsAreOrdered | yolov8n_cap_multithread/src/postprocess.cc:346-375 | whatever the ranking, results come best first, at most 64, each with its sides in order and inside the scaled model area |
| PostProcess.EmittedBoxesInside | yolov8n_cap_multithread/src/postprocess.cc:355-365 | 0 <= left <= right <= model width / scale, and likewise vertically |
| PostProcess.DetectedNear | yolov8n_cap_multithread/src/postprocess.cc:362-366 | each side of a detection is the camera pixel of its own side of the box, x cut to the model width and y to its height, and it has the box's score |
| DrawBox.Draw | yolov8n_cap_multithread/src/rga_func.cc:94-139 | exactly the border pixels of the clipped box take the colour, every other pixel keeps its own |
| DrawBox.SpillsIff | yolov8n_cap_multithread/src/rga_func.cc:102-138 | the drawing leaves its box if and only if the box is thinner than the border and there is image beyond it |
| DrawBox.FlatInside | yolov8n_cap_multithread/src/rga_func.cc:109-137 | the three bytes of every pixel of the image lie inside the flat buffer |
| DrawBox.FlatApart | yolov8n_cap_multithread/src/rga_func.cc:109-137 | no two pixels of the image share a byte of it |
| GreedyMatching.ScanFindsPick | yolov8n_cap_multithread/tracker/src/iou_tracker.cc:61-74 | a full scan finds the first pair of greatest IoU above 0.3, or shows none is left |
| GreedyMatching.Match | yolov8n_cap_multithread/tracker/src/iou_tracker.cc:56-77 | the two arrays are the two readings of one injective partial matching |
| GreedyMatching.MatchIsStable | yolov8n_cap_multithread/tracker/src/iou_tracker.cc:56-77 | only pairs above 0.3 are joined; an eligible pair left out lost a side to an IoU at least as large |
| GreedyMatching.PicksNeverIncrease | yolov8n_cap_multithread/tracker/src/iou_tracker.cc:60-77 | no picked IoU exceeds an earlier one |
| Tracker.IouRange | yolov8n_cap_multithread/tracker/src/iou_tracker.cc:34-45 | IoU is symmetric and lies in [0, 1] |
| Tracker.IouCounts | yolov8n_cap_multithread/tracker/src/iou_tracker.cc:34-45 | for any two boxes, IoU times the points in either is the points in both, right and bottom excluded |
| Tracker.IouSelf | yolov8n_cap_multithread/tracker/src/iou_tracker.cc:34-45 | a box with points in it has IoU 1 with itself |
| Tracker.FrameMatching | yolov8n_cap_multithread/tracker/src/iou_tracker.cc:56-77 | a frame's matching joins same-class pairs only, and is stable among same-class pairs |
| Tracker.IouTracker.BestPair | yolov8n_cap_multithread/tracker/src/iou_tracker.cc:61-73 | the nested scanning loops find the pick of the round |
| Tracker.IouTracker.MatchAll | yolov8n_cap_multithread/tracker/src/iou_tracker.cc:56-77 | the matching loop terminates with the greedy matching |
| Tracker.IouTracker.Step | yolov8n_cap_multithread/tracker/src/iou_tracker.cc:49-111 | the loops of update() leave exactly the state and outputs of the specification function |
| TrackerFacts.UpdateMoves | yolov8n_cap_multithread/tracker/src/iou_tracker.cc:79-110 | every detection is reported once, under a live same-class id or a never used one; reported tracks are fresh, the others one older, those unseen for more than 30 frames gone |
| TrackerFacts.SolePairKeepsId | yolov8n_cap_multithread/tracker/src/iou_tracker.cc:56-88 | a detection that overlaps one same-class track only, and that track no other detection, is reported with the track's id |
| TrackerFacts.UnpairedGetsNewId | yolov8n_cap_multithread/tracker/src/iou_tracker.cc:89-99 | a detection that overlaps no same-class track enough gets an id never given out |
| TrackerFacts.MovedBounded | yolov8n_cap_multithread/tracker/src/iou_tracker.cc:101-108 | a frame of at most 64 detections keeps every age at 64 tracks or fewer |
| TrackStates.LoiterIff | yolov8n_cap_multithread/temporal/src/track_state.cc:79-93 | loiter is positive if and only if at least 4 observations are held and all lie strictly within 25 pixels per axis |
| TrackStates.LoiterExact | yolov8n_cap_multithread/temporal/src/track_state.cc:79-93 | the score falls by 1/25 for each pixel between the two observations farthest apart on an axis, down to 0 |
| TrackStates.SeenCentre | yolov8n_cap_multithread/temporal/src/track_manager.cc:15-20 | a centroid is the middle of its box on each axis, cut toward zero, and lies in a proper box |
| TrackStates.ContainsIff | yolov8n_cap_multithread/temporal/include/track_state.h:20-26 | the region is the set of its pixels, left and top included, right and bottom excluded, while enabled |
| TrackStates.TrackState.Update | yolov8n_cap_multithread/temporal/src/track_state.cc:47-100 | the new state of every field, from the old one and the observation |
| TrackStates.TrackState.MarkMissed | yolov8n_cap_multithread/temporal/src/track_state.cc:40-45 | a missed frame counts, and clears the region events |
| TrackLife.CountersAndHistory | yolov8n_cap_multithread/temporal/src/track_state.cc:47-77 | over any run the counters count frames, sightings and trailing misses, and history holds the last min(16, seen) observations |
| TrackLife.VisibilityRange | yolov8n_cap_multithread/temporal/src/track_state.cc:20-23 | visibility is sightings over frames, in (0, 1], and 1 if and only if no frame was missed |
| TrackLife.StatusTold | yolov8n_cap_multithread/temporal/src/track_state.cc:34-38 | lost if and only if the latest frame missed it, else tentative up to the third sighting and active from it on |
| TrackLife.DurationTold | yolov8n_cap_multithread/temporal/src/track_state.cc:15-18 | whole milliseconds from the first stamp to the latest sighting, modulo 2^32, and 0 if time ran backwards |
| TrackLife.CrossingsAlternate | yolov8n_cap_multithread/temporal/src/track_state.cc:95-99 | published region events strictly alternate starting with an entry; entries minus exits equal in_roi |
| TrackLife.VelocityWithin | yolov8n_cap_multithread/temporal/src/track_state.cc:55-64 | smoothing never overshoots the fastest displacement between successive observations |
| TrackLife.VelocityFollows | yolov8n_cap_multithread/temporal/src/track_state.cc:55-64 | in any run, after a displacement over more than 100 microseconds twice the new velocity is the old one plus the distance over the time; after a shorter one, a first sighting or a miss it is unchanged; both axes |
| TrackLife.FirstVelocity | yolov8n_cap_multithread/temporal/src/track_state.cc:55-64 | after two sightings the velocity is half the displacement over the time |
| TrackLife.SteadyConverges | yolov8n_cap_multithread/temporal/src/track_state.cc:55-64 | after n displacements, all at w pixels per second, the velocity is w / 2^n short of w |
| TrackManagers.TrackManager.Observe | yolov8n_cap_multithread/temporal/src/track_manager.cc:12-29 | one record updates or starts exactly its own track; id 0 changes nothing |
| TrackManagers.TrackManager.AgeUnseen | yolov8n_cap_multithread/temporal/src/track_manager.cc:32-43 | the erase-while-iterating loop, in any order of ids, ages every unseen track once and drops those past 30 |
| TrackManagers.TrackManager.EndFrame | yolov8n_cap_multithread/temporal/src/track_manager.cc:31-50 | ages and drops, and the view lists every live track once |
| TrackManagers.TrackManager.ProcessFrame | yolov8n_cap_multithread/temporal/src/temporal_service.cc:185-191 | one frame of the service is begin, observe each record, end; the new value is the one Lockstep reasons about |
| Lockstep.FrameKeepsLink | yolov8n_cap_multithread/tracker/src/iou_tracker.cc:83-108 | a losslessly relayed frame keeps tracker and manager on the same ids with the same ages and classes |
| Lockstep.AlwaysLinked | yolov8n_cap_multithread/temporal/src/track_manager.cc:7-49 | so they agree after every run of relayed frames |
| Lockstep.IdentityIsStable | yolov8n_cap_multithread/temporal/src/track_manager.cc:12-27 | across any stretch of a run a live id keeps its first-seen time and class, and an id that appears was never used |
| Lockstep.NeverRevived | yolov8n_cap_multithread/temporal/src/track_manager.cc:31-43 | an id dropped by either stage never comes back in either |
| Lockstep.CountFits | yolov8n_cap_multithread/temporal/src/temporal_service.cc:113-116 | with at most 64 detections a frame, at most 64 * 31 tracks are held, so the 16-bit count never truncates |
| Lockstep.PublishedTracks | yolov8n_cap_multithread/temporal/src/temporal_service.cc:83-108 | every published track is exactly what the records since its first frame tell, one event a frame, under the name of its first record; its visibility and loiter score are as promised and it missed at most 30 frames |
| Aggregate.AggregateIsFold | yolov8n_cap_multithread/tools/event_summarizer.cc:163-187 | the aggregate has exactly the records' ids, each entry holding the maxima, first and last positions and or-ed region flags of its records |
| Summarizer.EventSummarizer.UpdateAggregate | yolov8n_cap_multithread/tools/event_summarizer.cc:163-187 | the field-by-field update is the specified one and touches no other id |
| Summarizer.EventSummarizer.ReceiveFrame | yolov8n_cap_multithread/tools/event_summarizer.cc:364-375 | the frame loop sets present and aggregates the frame's drone records |
| Summarizer.EventSummarizer.Step | yolov8n_cap_multithread/tools/event_summarizer.cc:361-432 | one turn of the receive loop is the specified transition |
| Summarizer.AlwaysExplained | yolov8n_cap_multithread/tools/event_summarizer.cc:334-432 | after every run the state is the one the history of ticks calls for |
| Summarizer.RunsWhenDue | yolov8n_cap_multithread/tools/event_summarizer.cc:376-397 | the model runs in a turn if and only if an episode opened since its last run, the drone left, no drone frame came since and the cooldown has passed |
| Summarizer.ModelSeesEpisode | yolov8n_cap_multithread/tools/event_summarizer.cc:364-411 | it is given the fold of exactly the drone records after the opening frame, across any number of reappearances |
| Summarizer.OncePerEpisode | yolov8n_cap_multithread/tools/event_summarizer.cc:428-430 | between two model runs a drone frame came |
| Summarizer.OpeningFrameIsLost | yolov8n_cap_multithread/tools/event_summarizer.cc:366-383 | a drone seen in one frame only is reported with no track at all |
| Links.LinkRelays | yolov8n_cap_multithread/tracker/src/bytetrack_service.cc:121-147 | the bytes of a tracker frame reach the manager as the same records, names cut to 15 bytes |
| Links.DetectionsArrive | yolov8n_cap_multithread/src/ipc/unix_data_publisher.cc:132-162 | the bytes of a detection frame reach the tracker as the same detections, names cut to 15 bytes |
| Links.SummariesArrive | yolov8n_cap_multithread/temporal/src/temporal_service.cc:83-125 | the bytes of a published frame reach the summarizer as one summary per live track |
| EndToEnd.FrameThroughBytes | yolov8n_cap_multithread/temporal/src/temporal_service.cc:185-195 | a frame of raw detections carried as bytes over all three links shows the summarizer a drone if and only if it held one, and leaves the two stages in lockstep |
| EndToEnd.PresentIffDetected | yolov8n_cap_multithread/temporal/src/track_state.cc:34-38 | a published frame shows a drone that is not lost if and only if the detection frame behind it held one |
| EndToEnd.PresenceIsTrue | yolov8n_cap_multithread/tools/event_summarizer.cc:364-375 | after each received frame, present is true if and only if its raw detections held the drone class |
| EndToEnd.ModelRunsOnDetections | yolov8n_cap_multithread/tools/event_summarizer.cc:378-397 | end to end, the model runs in a turn if and only if an episode of raw detections has been over for the cooldown |
| EndToEnd.ModelRunsOnBytes | yolov8n_cap_multithread/tools/event_summarizer.cc:364-397 | the same with every link carrying its frames as bytes |
| BoundedQueues.BoundedQueue.Push | yolov8n_cap_multithread/include/ipc/bounded_queue.h:48-66 | the new content and history for both policies, and when true is returned |
| BoundedQueues.BoundedQueue.Pop | yolov8n_cap_multithread/include/ipc/bounded_queue.h:76-86 | the oldest item leaves, or nothing changes |
| BoundedQueues.RunRefines | yolov8n_cap_multithread/include/ipc/bounded_queue.h:48-86 | over any operations the content is a contiguous suffix of the accepted pushes, within capacity |
| BoundedQueues.HistoryIsConserved | yolov8n_cap_multithread/include/ipc/bounded_queue.h:48-86 | accepted = received + evicted + queued, and what the consumer receives is an ordered subsequence of the accepted pushes |
| BoundedQueues.ReceivedIsPopped | yolov8n_cap_multithread/include/ipc/bounded_queue.h:76-86 | the sequence of items a run's pops return is exactly the items whose fate is to be popped, in order |
| BoundedQueues.PoppedIsRecent | yolov8n_cap_multithread/include/ipc/bounded_queue.h:83-84 | a popped item is among the newest capacity accepted at that moment |
| BoundedQueues.DropNewestKeeps | yolov8n_cap_multithread/include/ipc/bounded_queue.h:57-59 | the reject-newest policy never evicts |
| BoundedQueues.ClosedOnlyDrains | yolov8n_cap_multithread/include/ipc/bounded_queue.h:99-104 | after close nothing is accepted and the rest can still be popped in order |
| Wire.RecordSizes | yolov8n_cap_multithread/include/ipc/wire_protocol.h:80-140 | record sizes 36, 40 and 104 |
| WireLayout.HeaderInFrame | yolov8n_cap_multithread/include/ipc/wire_protocol.h:72-78 | read byte by byte, least significant first, a frame begins with its length, frame id, timestamp and count at 0, 4, 12 and 20, and six zero bytes |
| WireLayout.RecInFrame | yolov8n_cap_multithread/include/ipc/wire_protocol.h:80-92 | record k of a frame stands at 28 + k record sizes |
| WireLayout.DetRecStands | yolov8n_cap_multithread/include/ipc/wire_protocol.h:80-88 | wherever a detection record stands: at most 15 bytes of its name padded with zeros to 16, the confidence at 16 and the four sides, in two's complement, at 20 to 32 |
| WireLayout.OutputRecStands | yolov8n_cap_multithread/include/ipc/wire_protocol.h:95-104 | the same in a track record, with the track id at 36 |
| WireLayout.SummaryRecStands | yolov8n_cap_multithread/include/ipc/wire_protocol.h:115-140 | wherever a summary record stands, each of its 23 fields is read at its documented offset, the reserved bytes as zeros |
| Wire.RecRoundTrip | yolov8n_cap_multithread/include/ipc/wire_protocol.h:80-104 | a decoded record is the encoded one with its name cut to 15 bytes |
| Wire.FrameRoundTrip | yolov8n_cap_multithread/tracker/src/bytetrack_service.cc:177-207 | a whole frame is delivered and exactly body_len + 4 bytes are consumed |
| Wire.StreamRoundTrip | yolov8n_cap_multithread/temporal/src/temporal_service.cc:110-125 | for every list of frames each reader recovers exactly those frames |
| Wire.CutShort | yolov8n_cap_multithread/tracker/src/bytetrack_service.cc:196-210 | a stream ending inside a frame makes a reader process a frame if and only if the header arrived and the reader is not the summarizer: the whole records that arrived, padded by the tracker; that is the frame being sent if and only if the tracker pads and every missing record is blank |
| Wire.TruncatedStream | yolov8n_cap_multithread/temporal/src/temporal_service.cc:185-191 | so the frames processed are exactly those sent whole, if and only if the cut falls before the end of a header, or at the summarizer |
| Streams.Source.ReadExact | yolov8n_cap_multithread/tracker/src/bytetrack_service.cc:46-54 | for every chunking of reads: all n bytes, or false with the stream used up |
| Streams.Sink.WriteExact | yolov8n_cap_multithread/src/ipc/unix_data_publisher.cc:21-30 | for every chunking of sends: everything, or false with only a proper prefix sent |
| Streams.SendFrame | yolov8n_cap_multithread/src/ipc/unix_data_publisher.cc:132-162 | the bytes sent are the encoded frame, or a proper prefix of it |
| Streams.ReadFrame | yolov8n_cap_multithread/tools/event_summarizer.cc:254-280 | one round of a reader consumes what Deliver says and decides whether to go on |
| Streams.ServeConnection | yolov8n_cap_multithread/tracker/src/bytetrack_service.cc:177-223 | the frame loop processes exactly the frames Deliver names |

## Left out

- PostProcess.Process: requires an output scale for which no DFL side is 0/0, because NaN is not modelled; BoxDecode.DecodeDefinedIff says exactly when that is so.
- PostProcess.Run: takes the score threshold as a logit, because logf in unsigmoid is not modelled, and inherits the scale condition of PostProcess.Process.
- PipelineThreads.Pipeline.DrainLoop: does not model main blocking between results; it starts when they have arrived, and PipelineProgress.DrainEnds shows that they do.
- PipelineRequests.RequestOutcome: only for runs in which no resume wait timed out; PipelineRequests.RequestErasedIff is the statement for all runs.
- PipelineRuns.BlackoutOkIsHonestIff: sets aside runs in which a resume wait times out during the period itself; PipelineRuns.BlackoutOkIsAlwaysHonestIff counts them.
- Links.LinkRelays: requires coordinates, ids and counts within their wire widths; wrap-around of ids is not modelled.
- Links.SummariesArrive: takes the conversion of floats to and from their bits as two arbitrary functions, so rounding on the wire is not modelled further.
- Aggregate.AggregateIsFold: does not model the sums behind the circular mean of the heading.
- Summarizer.EventSummarizer.UpdateAggregate: does not model the two heading sums, because they need a sine and a cosine.
- DrawBox.Draw: works on a two-dimensional array of pixels; DrawBox.FlatInside and DrawBox.FlatApart are what the flat buffer adds.
- TrackStates.TrackState.Update: does not model acceleration, because it needs a square root of the velocity.
- Speed and heading of a track (square root and arc tangent); a track's speed is an arbitrary function of its velocity.
- IEEE rounding, and overflow of int32 coordinates in sums.
- The RKNN runtime, RGA, V4L2, DRM and GStreamer: foreign calls. A context is a handle that is alive or not; closing /dev/rknpu descriptors has no effect in the model.
- Sockets, accept and reconnect loops, signals and thread start-up; a connection is a byte stream with arbitrary chunking.
- The control server's JSON helpers and its get_status and set_dump_enabled commands, which change no lifecycle flag.
- state.frame_id, stored right after a job is pushed, is not a step of its own.
- FPS and latency averages, printing, the snapshot text and the shell command that runs the model.
- Multi-class suppression beyond the one counterexample: the code is configured for one class.
- The debug receivers and control_client repeat the framing.
