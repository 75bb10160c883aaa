# KRDP: frame pipeline, network detection, pointer cache, control loops and clipboard

A Dafny model of the parts of KRDP that hold state and arithmetic of their own, and
proofs about whole runs of them.

- **Frame pipeline** (`src/VideoStream.cpp`, `src/VideoStreamSurface.cpp`). Three threads
  share a frame queue, the set of unacknowledged frames, a window that changes at run time,
  the client's surface and the encoder's pause flag. `Pipeline` is a transition system with
  a step for each stretch of code under a lock; what is read under a lock and used later,
  such as the count that decides about the pause flag, is kept with the thread. Every
  theorem is for all interleavings. `PipelineWitness` has runs from a new stream into the
  two states that should not be reached.
  A client, driven only by messages that were sent successfully, holds its surfaces and
  the frames it still has to acknowledge ([MS-RDPEGFX] sections 2.2.2.9, 2.2.2.10 and
  2.2.2.13 to 2.2.2.15). `VideoStreamObject` has the source's fields and methods and is
  proved step by step against the transition system.
- **Queues and repaints.** `FrameQueue` and `PipelineQueue`: the H.264 queue never breaks a
  reference chain. `Raster`, `Damage` and `PipelineRaster`: what the client shows, pixel by
  pixel, when raster frames are merged in the queue, clipped, in flight, dropped, or painted
  on a new surface.
- **Network detection** (`src/NetworkDetection.cpp`, section 2.2.14 of [MS-RDPBCGR]): the
  wrapping allocator of request ids, bandwidth probing, and the published statistics.
- **Pointer cache** (`src/Cursor.cpp`, section 2.2.9.1.1.4 of [MS-RDPBCGR]): the server's
  cache against the client's, and against a list in order of use.
- **Control loops** (`src/VideoStream.cpp`): the window sized from round trips, the
  encoder's quality stepped towards a target.
- **Clipboard** (`src/Clipboard.cpp`): when a copy is announced, and what its text becomes.

Where the source is imperative there are two forms of it: a class with the source's fields,
whose methods update them in place, and a specification on values. Each method's `ensures`
equates the new fields with a specification step; the lemmas are about the steps and
about runs of them. Doubles are reals. Times are integer nanoseconds, except round trips
of the window control, which are real milliseconds. Clock readings, statuses of library
calls and the entry a hash iteration happens to find are inputs.

## What the proofs found

These are proved as exact conditions or with all their consequences.

- The surface counter has 16 bits and 0 stands for "no surface". The 65536th surface that
  is asked for gets id 0 and is recorded even if it cannot be mapped; no frame is shown
  from then on until a frame of another size, a reset, a new advertisement or the end
  (`ResetIsGoodUnlessZero`, `SurfaceZeroIsRecorded`, `SurfaceZeroRefusesFrames`). A new
  stream can come to that (`SurfaceZeroIsReached`).
- A frame that `sendFrame` or the submission loop drops on an early return posts no
  backpressure update. If it was the last one, the encoder stays paused; it need not even
  be paused yet, for the count that pauses it may be older than the drop
  (`StepWakesUnlessStranding`, `StrandedStaysPaused`, `StrandingIsReached`,
  `OldCountStrands`).
- A dropped raster frame takes its damage with it, and what it would have shown stays
  missing until a later frame damages the same pixels (`DropLosesExactlyUnseenDamage`,
  `DropHealsWhenRedrawn`). In the same way a new surface shows its own content wherever
  neither the frame held nor the queue nor a later frame has damage
  (`SurfaceShowsNewestWhenRedrawn`).
- Merging a raster frame that has no damage inside the picture, so would be sent whole,
  with one that has some is visible on a client that was not up to date, unless together
  they damage everything (`MergingTwoFramesExactly`, `SomeFramesDoNotMerge`).
- `bandwidth()` multiplies in 32 bits and is exact below 2^29 bytes per second only
  (`KilobitsAreExactBelow4Gbit`).
- The comment at `src/VideoStream.cpp:782-791` promises that the window never drops below
  the shortest round trip once one is known. The code falls back to 2 at every sample out
  of range (`FloorHeldUnlessSampleInvalid`). The floor it does apply never changes the
  smoothed value (`BaseFloorNeverBinds`).
- The target quality passes through a 32-bit `int`. With the bandwidth `bandwidth()` can
  give, that is harmless from 123 pixels on; below, `TargetIsExact` says which bandwidths
  are misread and `TinySurfaceIsMisread` shows one. A size that is not known yet, -1 by -1,
  passes the check for a size and counts as one pixel (`UnsetSizeCountsAsOnePixel`).
- The bitrate for full quality falls where the nearest anchor changes: a larger surface gets
  no smaller a bitrate exactly if it has the same anchor or is larger by the ratio of the
  rates (`FullQualityGrowsExactly`).
- After a failed start `initialize` keeps its context and reports success from then on,
  on a clipboard that stays disabled (`InitializeMayLie`, `FailedStartIsFinal`).
- A copied text that starts with a byte order mark does not come back whole
  (`TextRoundTrips`).

## Model

| member | source | states |
|---|---|---|
| PipelineStart.EveryReachableStateIsSound | src/VideoStream.cpp:311-331 | in every state any interleaving reaches from a new stream: the window is kept, every id is accounted for and owed by someone, the client's surfaces are the recorded ones |
| PipelineStart.EveryReachablePauseEnds | src/VideoStream.cpp:915-939 | in every run from a new stream without a silent drop of a last frame, and as long as the stream is open, an encoder that is paused, or will be on the count the main thread holds, has a queued frame, a frame being sent, or a posted update ahead of it |
| PipelineWitness.StrandingIsReached | src/VideoStream.cpp:872-877 | a new stream can come to drop the last frame of a paused encoder silently |
| PipelineWitness.OldCountStrands | src/VideoStream.cpp:924-938 | and to drop it while the encoder is still running and the main thread, on an old count, pauses it afterwards |
| PipelineWitness.SurfaceZeroIsReached | src/VideoStream.cpp:707-723 | a new stream can come to record surface 0 |
| PipelineFlow.EveryRunKeepsWindow | src/VideoStream.cpp:866-870 | over every run never more frames are pending than the window read by the last check that passed, and suspended acknowledgements mean that none is |
| PipelineFlow.StepKeepsWindow | src/VideoStream.cpp:585-606 | the same for each single step, including window changes and suspensions between a check and its insertion |
| PipelineFlow.FullWindowAdmitsNothing | src/VideoStream.cpp:311-316 | while the window is full, no run sends anything until an acknowledgement, a new window, a renegotiation or the end |
| PipelineFlow.EveryRunKeepsAccounts | src/VideoStream.cpp:895-913 | over every run, for the first 2^32 frames, the ids inserted are the disjoint union of those pending, acknowledged, rolled back and cleared |
| PipelineFlow.EveryRunStrandsNone | src/VideoStream.cpp:903-913 | every pending id belongs to a frame the client received and has not acknowledged, or to the one being sent |
| PipelineFlow.AcknowledgedClientIsServed | src/VideoStream.cpp:311-316 | in every reachable state a client that acknowledged all it received lets the next capacity check pass |
| PipelineDebts.EveryRunHoldsDebts | src/VideoStream.cpp:585-606 | over every run, for the first 2^32 frames, the pending set is exactly the frames that a history of the events has as delivered while acknowledgements were wanted and neither acknowledged nor forgotten since, and the one on its way |
| PipelineDebts.DebtsStayWithinWindow | src/VideoStream.cpp:866-901 | from a new stream each of these is pending and owed by the client, there are never more than the window read by the last check that passed, and a check passes exactly if there are fewer than the window allows |
| PipelineWakeup.StepWakesUnlessStranding | src/VideoStream.cpp:872-939 | a step keeps the wake-up of an encoder that is or will be paused exactly if it does not silently drop the last frame with no update posted; a count taken earlier and used after frames have gone is included |
| PipelineWakeup.EveryRunWakesUp | src/VideoStream.cpp:915-939 | the same over every run that never does that, as long as the stream is open |
| PipelineWakeup.StrandedStaysPaused | src/VideoStream.cpp:325-328 | an encoder without wake-up stays paused, or is once the main thread is idle, over every run without a new frame, a renegotiation or the end |
| PipelineWakeup.PauseHasHysteresis | src/VideoStream.cpp:930-938 | the pause flag rises only on a count above three and falls only when the queue is empty, though the count was read earlier |
| PipelineWakeup.EveryRunKeepsBound | src/VideoStream.cpp:924-930 | over every run the queue is never longer than the count the main thread holds |
| PipelineWakeup.PostedUpdateWakes | src/VideoStream.cpp:918-939 | a posted update, run without interruption, releases the encoder exactly if the queue is empty |
| PipelineSurfaces.EveryRunIsConsistent | src/VideoStream.cpp:636-742 | over every run of fewer than 65536 surfaces: frames reach only live, mapped surfaces of their size and codec context; the client holds the recorded surface and, unless a deletion failed, no other; none before capabilities are confirmed or after the end |
| PipelineSurfaces.ResetIsGoodUnlessZero | src/VideoStream.cpp:675-742 | a reset leaves the record and the client in step exactly if it does not make surface 0; a success leaves the new surface, a failure none |
| PipelineSurfaces.SurfaceZeroRefusesFrames | src/VideoStreamSurface.cpp:271-274 | once surface 0 is recorded, over every run until a frame of another size, a reset, an advertisement or the end, no frame is painted or submitted |
| PipelineSurfaces.SurfaceZeroIsRecorded | src/VideoStream.cpp:719-741 | a reset that makes surface 0 leaves it in the record, also when its context or its mapping fails |
| PipelineSurfaces.ResetsExactlyWhenDue | src/VideoStream.cpp:887-893 | the surface is made anew exactly when that was requested or the frame has another size; then nothing is pending, and if the calls succeed the surface is new, mapped, of the frame's size and with the mode's codec context |
| PipelineSurfaces.CloseLeavesNothing | src/VideoStream.cpp:351-370 | after the end nothing is queued or pending, and there is no surface |
| PipelineSurfaces.AdvertiseKeepsConsistent | src/VideoStream.cpp:491-496 | a second capability advertisement, at any point of a submission, leaves no surface and a reset to be made, and keeps the record and the client in step |
| PipelineHandshake.AdvertisedModeExactly | src/VideoStream.cpp:498-582 | an advertisement run to its end gives H.264 exactly if it is not disabled and a set of version 10.4 to 10.7 without AVC disabled or 8.1 with AVC420 enabled is among them, raster otherwise, nothing without a set; a new mode starts with an empty queue |
| PipelineQueue.RunFeedsQueue | src/VideoStream.cpp:318-324 | every run of the pipeline in one mode is a run of the queue, and the frames the submission thread gets, discarded ones included, are in order those taken |
| PipelineQueue.RunSettlesInOrder | src/VideoStream.cpp:872-913 | over every run the frames the thread gets are settled in that order, all but the one in hand, and the client has been shown those painted, in that order |
| PipelineQueue.PipelineKeepsChain | src/VideoStream.cpp:383-388 | in H.264 mode no interleaving breaks a reference chain in what the thread gets or the queue holds |
| PipelineQueue.PipelineFeedsDecoder | src/VideoStream.cpp:383-388 | from an unused queue a decoder fed with what the thread gets, settled or in hand, can use every frame, if the first accepted frame was a key frame; if all were painted, that is what the client was shown |
| PipelineQueue.PipelineHoldsOneRasterFrame | src/VideoStream.cpp:389-400 | in raster mode at most one frame waits, whatever the interleaving |
| FrameQueue.EveryRunStaysChained | src/VideoStream.cpp:376-388 | frames taken, then queued, are accepted frames in order, each key or directly after its predecessor |
| FrameQueue.DroppedRunsEndAtKeyFrame | src/VideoStream.cpp:385-387 | every dropped frame lies in a dropped run that a key frame ends |
| FrameQueue.DecoderNeverLosesReference | src/VideoStream.cpp:383-388 | a decoder that needs a key or the next frame each time is served at every position |
| Raster.CoalescingIsInvisible | src/VideoStream.cpp:389-400 | for all interleavings of arrivals, takes and paints, an up-to-date client ends with the picture it gets when each frame is sent singly, the newest one |
| Raster.StaleExactly | src/VideoStreamSurface.cpp:336-342 | from any picture, a pixel ends up wrong exactly if it was wrong to begin with and no frame painted in the run, held or queued repaints it |
| Raster.CoveredIsDamaged | src/VideoStreamSurface.cpp:35-54 | when every frame has damage inside, what a run repaints is what was due and what is damaged in the run |
| Raster.CoalescingEqualsSingleSends | src/VideoStream.cpp:389-400 | from any picture, with frames in flight, coalescing shows what single sends show, if each frame has damage inside it |
| Raster.MergingTwoFramesExactly | src/VideoStreamSurface.cpp:35-54 | merging two frames is invisible on every screen exactly if both have damage inside the picture, or neither has, or together they damage all of it |
| Raster.SomeFramesDoNotMerge | src/VideoStreamSurface.cpp:35-54 | two frames for which none of this holds |
| Raster.DropLosesExactlyUnseenDamage | src/VideoStream.cpp:875-885 | after a drop and any run, the client is wrong exactly in those pixels the dropped frame would have repainted, that were news, and that nothing in the run repaints |
| Raster.DropHealsWhenRedrawn | src/VideoStream.cpp:875-885 | after a drop the client is up to date again exactly when every pixel that was news has been damaged in the queue or by a later frame |
| Raster.SurfaceShowsNewestWhenRedrawn | src/VideoStream.cpp:887-908 | after a reset the client shows the newest frame exactly when every pixel in which the new surface differs from it is repainted by the frame held or damaged in the queue or later |
| PipelineRaster.RunFeedsRaster | src/VideoStream.cpp:311-331 | every raster run of the pipeline is a run of the raster path: queue, frame in flight and the client's screen |
| PipelineRaster.PipelineShowsNewest | src/VideoStream.cpp:311-331 | in every such run without a refused frame or a new surface, an up-to-date client shows the newest accepted frame whenever none waits or is in flight |
| Damage.ToRegion16 | src/VideoStreamSurface.cpp:30-57 | the region given to the encoder holds exactly the pixels to repaint: the damage inside the frame, or the frame if there is none; `None` only if a union fails |
| Damage.ConversionIsExact | src/VideoStreamSurface.cpp:20-28 | a 16-bit rectangle holds the same pixels exactly if both outer edges fit 16 bits |
| VideoStreamObject.VideoStream.constructor | src/VideoStream.cpp:143-190 | the new stream |
| VideoStreamObject.VideoStream.QueueFrame | src/VideoStream.cpp:376-402 | the arrival, count and flag steps in a row |
| VideoStreamObject.VideoStream.EnqueueFrame | src/VideoStream.cpp:378-400 | takes exactly the pipeline's arrival step: the 64-bit counter, and the queue for the active mode |
| VideoStreamObject.VideoStream.CountQueue | src/VideoStream.cpp:920-928 | the number of queued frames, kept for later, if there is an encoder |
| VideoStreamObject.VideoStream.SetEncoderPaused | src/VideoStream.cpp:930-938 | sets the pause flag by the count it is given |
| VideoStreamObject.VideoStream.UpdateBackpressure | src/VideoStream.cpp:918-939 | the count and flag steps in a row |
| VideoStreamObject.VideoStream.RunPostedUpdate | src/VideoStream.cpp:915-939 | one posted update is consumed and applied |
| VideoStreamObject.VideoStream.SetActiveEncodingMode | src/VideoStream.cpp:225-237 | a new mode empties the queue and replaces the encoder; the same mode changes nothing |
| VideoStreamObject.VideoStream.Close | src/VideoStream.cpp:338-374 | the state after closing |
| VideoStreamObject.VideoStream.OnFrameAcknowledge | src/VideoStream.cpp:585-606 | the acknowledgement step: one id removed, or all with suspension |
| VideoStreamObject.VideoStream.Negotiate | src/VideoStream.cpp:498-556 | the loop over capability sets chooses H.264 exactly if a set supports it and it is not disabled, nothing exactly without sets |
| VideoStreamObject.VideoStream.OnCapsAdvertise | src/VideoStream.cpp:485-558 | the reset of a second advertisement and the mode asked for, at any point of a submission |
| VideoStreamObject.VideoStream.ChooseMode | src/VideoStream.cpp:558-563 | the mode is set on the main thread |
| VideoStreamObject.VideoStream.ConfirmCaps | src/VideoStream.cpp:572-582 | capabilities count as confirmed exactly if they were and stay so, or the confirmation was sent |
| VideoStreamObject.VideoStream.DestroySurface | src/VideoStream.cpp:636-673 | record, client and pending set after the surface is destroyed |
| VideoStreamObject.VideoStream.PerformReset | src/VideoStream.cpp:687-742 | record and client after a reset for every combination of statuses |
| VideoStreamObject.VideoStream.InsertPending | src/VideoStream.cpp:895-901 | the frame's id, pending unless acknowledgements are suspended |
| VideoStreamObject.VideoStream.SendFrameH264 | src/VideoStreamSurface.cpp:265-323 | what the client receives, and success exactly if start and end were sent |
| VideoStreamObject.VideoStream.SendFrameProgressive | src/VideoStreamSurface.cpp:325-396 | what the client receives, and success exactly if the frame was encoded and sent |
| VideoStreamObject.VideoStream.SendFrame | src/VideoStream.cpp:872-916 | the steps of one submission in a row |
| VideoStreamObject.VideoStream.NextFrame | src/VideoStream.cpp:312-328 | the check and dequeue steps of the submission loop |
| VideoStreamObject.VideoStream.Pass | src/VideoStream.cpp:311-331 | one pass of the submission loop is the run of its steps |
| AutoDetect.SearchIsShort | src/NetworkDetection.cpp:265-273 | the wrapping counter cannot step over more ids than are outstanding, plus zero |
| AutoDetect.AtMost429Outstanding | src/NetworkDetection.cpp:29-32 | 70 ms spacing and 30 s expiry keep at most 429 requests outstanding, at any clock readings |
| AutoDetect.StepKeepsBounded | src/NetworkDetection.cpp:143-171 | every call keeps that bound, so an id is free at every call of every run |
| AutoDetect.NextId | src/NetworkDetection.cpp:265-273 | a nonzero 16-bit id that is not outstanding |
| AutoDetectOrder.IdsComeInCyclicOrder | src/NetworkDetection.cpp:251-273 | with a clock that does not go back, request and result ids together are 1, 2, ..., 65535, 1, 2, ..., over every run |
| AutoDetectOrder.NextIdIsFree | src/NetworkDetection.cpp:158-170 | the next id in cyclic order is never outstanding: an outstanding one is among the last 890 |
| AutoDetectRequests.EveryRequestIsAccountedFor | src/NetworkDetection.cpp:164-192 | over every run, with duplicate, late or invented responses, the requests sent are the disjoint union of those answered, expired after 30 s and outstanding, and the measurements are the times from sending to answer of some of them, in order and each once |
| AutoDetectRequests.EveryRunFromStart | src/NetworkDetection.cpp:173-242 | from start-up that holds in every run, and what is published while measurements are kept are minimum and average of these times, 0 < minimum <= average <= maximum |
| AutoDetect.ResultsTellPublished | src/NetworkDetection.cpp:246-262 | a result carries the published minimum and average in whole milliseconds and the bandwidth, and comes a second after the one before |
| AutoDetect.ResultIsSentWhenDue | src/NetworkDetection.cpp:230-253 | one is sent exactly if a measurement is recent, there is a bandwidth and a second has passed |
| AutoDetect.SampleIsRate | src/NetworkDetection.cpp:206-206 | a sample is the rate in whole bytes per second exactly if that fits 32 bits |
| AutoDetect.EqualSamplesConverge | src/NetworkDetection.cpp:207-212 | the first sample is taken over, and each equal one halves the error |
| AutoDetect.PublishedStatistics | src/NetworkDetection.cpp:221-242 | what is published is minimum and average of exactly the measurements no older than 500 ms, with 0 < minimum <= average <= maximum |
| AutoDetectProbes.EveryRunFromStart | src/NetworkDetection.cpp:122-156 | from start-up every run alternates start, stop and results, stops at least 500 ms after the start, starts at least 2 s apart, and smooths inside the range of the samples |
| AutoDetectProbes.EveryRunKeepsRhythm | src/NetworkDetection.cpp:143-156 | alternation and throttles from every state that has them |
| AutoDetectProbes.ResultsLog | src/NetworkDetection.cpp:194-200 | unsolicited results change nothing and send nothing |
| AutoDetectProbes.EveryRunStaysInHull | src/NetworkDetection.cpp:202-213 | the smoothed bandwidth lies in every interval that holds all accepted samples |
| AutoDetect.KilobitsAreExactBelow4Gbit | src/NetworkDetection.cpp:110-113 | the 32-bit product is the true one exactly below 2^29 bytes per second |
| NetworkDetectionObject.NetworkDetection.NextSequenceNumber | src/NetworkDetection.cpp:265-273 | the loop returns the specified id, within the outstanding count plus one steps |
| NetworkDetectionObject.NetworkDetection.Update | src/NetworkDetection.cpp:143-171 | the tick step and its messages |
| NetworkDetectionObject.NetworkDetection.OnRttMeasureResponse | src/NetworkDetection.cpp:173-192 | the response step and its messages |
| NetworkDetectionObject.NetworkDetection.OnBandwidthMeasureResults | src/NetworkDetection.cpp:194-219 | the results step and its messages |
| NetworkDetectionObject.NetworkDetection.UpdateAverageRtt | src/NetworkDetection.cpp:221-263 | the published statistics and the result message |
| NetworkDetectionObject.NetworkDetection.DropOldMeasurements | src/NetworkDetection.cpp:224-229 | exactly the recent measurements are left, in order |
| NetworkDetectionObject.NetworkDetection.MeasureAll | src/NetworkDetection.cpp:234-239 | the least round trip and the sum of all |
| CursorCache.CachesAgreeInEveryRun | src/Cursor.cpp:51-152 | over every run, at any clock readings, the client's cache is the server's, slots are 0..n-1 within the capacity, no shape is held twice, no message names a slot the client lacks |
| CursorCache.UpdateKeepsAgreement | src/Cursor.cpp:51-152 | one update keeps that and leaves the requested pointer, or the system default, on screen |
| CursorCache.StoredShapeIsShown | src/Cursor.cpp:114-147 | storing and selecting a shape shows it upright; it travels as a large pointer exactly from 96 pixels of width or height on |
| CursorCache.CacheRefinesRecencyList | src/Cursor.cpp:75-112 | with a strictly increasing clock the timestamp scan and a move-to-front list send the same messages and hold the same entries over every run |
| CursorCache.RequestRefines | src/Cursor.cpp:85-112 | the same for one request, whichever least entry the scan finds |
| CursorCache.ReferenceHoldsMostRecent | src/Cursor.cpp:105-112 | the list holds the most recently requested distinct shapes, as many as the capacity |
| CursorCache.CacheHoldsMostRecentPointers | src/Cursor.cpp:75-112 | so the cache holds exactly those after every run, silent repeats counted |
| CursorObject.Cursor.constructor | src/Cursor.cpp:40-45 | an empty cache, in agreement with a new client |
| CursorObject.Cursor.Update | src/Cursor.cpp:51-152 | the specified state and messages, and agreement with the client that receives them |
| CursorObject.Cursor.ShowImage | src/Cursor.cpp:70-152 | the specified state and messages when an image is shown |
| CursorObject.Cursor.FindCached | src/Cursor.cpp:85-87 | a slot that holds the shape exactly if there is one, in any iteration order |
| CursorObject.Cursor.LeastRecentlyUsed | src/Cursor.cpp:107-109 | an entry with the least timestamp, in any iteration order |
| CursorObject.Cursor.SetCursorType | src/Cursor.cpp:154-168 | the specified type change and its message |
| WindowSizing.WindowStaysInBounds | src/VideoStream.cpp:806-812 | over every run the window is at least 2 and at most one second of frames at the requested rate or 5 |
| WindowSizing.WindowIsLeastCover | src/VideoStream.cpp:806-810 | the window is the least count from 2 on that covers a round trip, or a second, of frames |
| WindowSizing.WindowCoversShortestTrip | src/VideoStream.cpp:795-810 | after each valid sample the window covers the shortest trip of the session and no more than the longest needs |
| WindowSizing.RttStaysBetweenSamples | src/VideoStream.cpp:795-805 | the base is the least valid sample and the smoothed trip lies between it and every upper bound of the samples |
| WindowSizing.BaseFloorNeverBinds | src/VideoStream.cpp:806-806 | the larger of base and smoothed trip is always the smoothed one |
| WindowSizing.FloorHeldUnlessSampleInvalid | src/VideoStream.cpp:782-812 | the window covers the shortest trip exactly if the sample was valid or 2 frames cover it |
| WindowSizing.WindowSettles | src/VideoStream.cpp:799-812 | under a steady trip time the window is within one of the right one after a stated number of samples |
| WindowSizing.SteadyRttConverges | src/VideoStream.cpp:800-805 | each equal sample leaves seven eighths of the error |
| WindowSizing.DecayVanishes | src/VideoStream.cpp:47-47 | what is left of an error after n samples is at most 7 / (7 + n) of it |
| WindowSizing.RateStaysBetweenMeasurements | src/VideoStream.cpp:744-780 | the smoothed producer rate lies between the requested start and the frames per second counted between readings, over every run |
| WindowSizing.IdleReadingHolds | src/VideoStream.cpp:774-776 | a reading without new frames or time leaves it as it was |
| WindowSizing.SteadyRateConverges | src/VideoStream.cpp:777-779 | each further reading of a steady producer leaves three quarters of the error |
| WindowSizing.WindowExactly | src/VideoStream.cpp:792-812 | over every run the window after a valid sample is the least count, 2 at least, that covers a smoothed round trip, or a second, of frames at the smoothed rate kept between 5 and the requested rate; after any other sample it is 2 |
| InFlightWindowObject.InFlightWindow.EffectiveProducerFps | src/VideoStream.cpp:744-780 | the specified producer state and the clamped rate |
| InFlightWindowObject.InFlightWindow.UpdateInFlightWindow | src/VideoStream.cpp:782-813 | the specified state, window included, and no other change |
| QualityControl.EveryRunIsControlled | src/VideoStream.cpp:439-466 | over every run the quality is at most the cap or 10, equals the cap when not adaptive, and is what the encoder was last told |
| QualityControl.QualityStaysBetweenFloorAndCap | src/VideoStream.cpp:439-466 | if no cap is below 10, the quality is between 10 and the cap over every run |
| QualityControl.CongestedStepIgnoresGoal | src/VideoStream.cpp:841-852 | a congested step is to the larger of 10 and the quality less 10, whatever the bandwidth; below 10 it does nothing |
| QualityControl.GoalExactly | src/VideoStream.cpp:831-838 | the target is the one a reading calls for: the whole percentage nearest to bandwidth over what the first nearest anchor grants width times height, cut to 32 bits and clamped |
| QualityControl.ReadingMovesQuality | src/VideoStream.cpp:815-860 | the whole effect of a reading that has a size: which ones count, the step of 5 up or 10 down towards that target, 10 down when slowed |
| QualityControl.QualityApproachesTarget | src/VideoStream.cpp:815-860 | while readings call for the same target the quality moves by 5 up or 10 down at each, reaches it after exactly the rounded-up number of steps, and stays |
| QualityControl.CongestionWearsDown | src/VideoStream.cpp:841-852 | n congested readings bring the quality to the larger of 10 and itself less 10 n |
| QualityControl.RegularReadingsAreTaken | src/VideoStream.cpp:815-834 | usable readings 1.5 s apart are never refused, and a run of them is the run of its steps |
| QualityControl.ChangesAreSpaced | src/VideoStream.cpp:826-859 | two changes by the controller are 1.5 s apart, even on a clock that goes back |
| QualityControl.PercentIsNearest | src/VideoStream.cpp:835-838 | the percentage is the whole number nearest to the measured share of full bitrate |
| QualityControl.TargetIsExact | src/VideoStream.cpp:837-838 | for every bandwidth and every surface the target is wrong exactly if the cap is above 10, the surface has at most 122 pixels and the percentage, truncated to 32 bits, is negative or below the cap |
| QualityControl.TinySurfaceIsMisread | src/VideoStream.cpp:837-838 | a surface of 122 pixels that gets quality 10 instead of 100 |
| QualityControl.UnsetSizeCountsAsOnePixel | src/VideoStream.cpp:831-838 | before the size is known, -1 by -1, readings are used as for one pixel: the target is the cap, and 10 at 34953 kbit/s |
| QualityControl.PercentIsQuotient | src/VideoStream.cpp:831-838 | on surfaces near the first anchor the percentage is the quotient by which `TargetIsExact` judges |
| QualityControl.FullQualityFollowsNearestAnchor | src/VideoStream.cpp:67-80 | full quality needs per pixel what it needs at a nearest anchor |
| QualityControl.FullQualityGrowsExactly | src/VideoStream.cpp:67-80 | a larger surface is given no smaller a bitrate exactly if it has the same nearest anchor or is larger by the ratio of the two rates per pixel |
| QualityControl.CongestionIsHalfAgain | src/VideoStream.cpp:840-842 | congestion is an average of more than one and a half minima in whole milliseconds, the minimum being one at least, whatever the integer division |
| AdaptiveQualityObject.AdaptiveQuality.SetVideoQuality | src/VideoStream.cpp:439-444 | the specified step |
| AdaptiveQualityObject.AdaptiveQuality.SetAdaptiveQuality | src/VideoStream.cpp:446-456 | the specified step |
| AdaptiveQualityObject.AdaptiveQuality.SeedQuality | src/VideoStream.cpp:458-466 | the specified step |
| AdaptiveQualityObject.AdaptiveQuality.UpdateAdaptiveQuality | src/VideoStream.cpp:815-864 | the specified step for every reading, refused ones included |
| AdaptiveQualityObject.AdaptiveQuality.NextStep | src/VideoStream.cpp:835-853 | the next quality, which fits 8 bits |
| ClipboardSharing.LatestCopyReachesClient | src/Clipboard.cpp:177-279 | for every order of copies, start and client events: once posted calls have run, a format list has been sent since the last copy, and a request yields the text copied then, if it is one that round-trips |
| ClipboardSharing.ServerDataIsLastCopy | src/Clipboard.cpp:177-181 | the data held are those of the last copy, over every run |
| ClipboardSharing.FlagsExactly | src/Clipboard.cpp:116-175 | over every run the clipboard is enabled exactly if the channel was started when its context was made and not stopped since, and the client ready exactly if it gave a sign |
| ClipboardSharing.PostedCallsRun | src/Clipboard.cpp:188-208 | posted calls run one by one and change nothing else |
| ClipboardSharing.OtherRequestsAreRefused | src/Clipboard.cpp:256-264 | a request for another format or without a copied text is refused, over every run |
| ClipboardSharing.ClientTextArrives | src/Clipboard.cpp:281-297 | the client's text arrives as it was encoded exactly if it is one that round-trips |
| ClipboardSharing.ListIsAnswered | src/Clipboard.cpp:217-246 | a format list is answered by one request for each text format in it and one acknowledgement |
| ClipboardSharing.EveryRunKeepsPromise | src/Clipboard.cpp:43-53 | since the last copy, if it may be announced, a format list has been sent or a call that sends one is posted, over every run |
| ClipboardSharing.NoListBeforeHandshake | src/Clipboard.cpp:188-208 | no format list is sent before a copy, a successful start and a sign from the client, in any order |
| ClipboardSharing.InitializeMayLie | src/Clipboard.cpp:116-157 | success is reported on a disabled clipboard exactly if a context was there and it was disabled |
| ClipboardSharing.FailedStartIsFinal | src/Clipboard.cpp:116-175 | such a clipboard stays disabled and never announces anything, over every run |
| ClipboardText.TextRoundTrips | src/Clipboard.cpp:266-297 | an encoded text is decoded to itself exactly if its length fits and it does not start with a byte order mark |
| ClipboardText.UnitsRoundTrip | src/Clipboard.cpp:266-293 | the code units come back for every text of fewer than 2^31 - 1 units |
| ClipboardText.EncodeEndsInZero | src/Clipboard.cpp:267-268 | the last unit sent is zero |
| ClipboardText.Units | src/Clipboard.cpp:287-293 | a response of at least 2 bytes yields half as many units less one, never a negative count |
| ClipboardObject.Clipboard.Initialize | src/Clipboard.cpp:116-157 | the specified step and return value |
| ClipboardObject.Clipboard.Close | src/Clipboard.cpp:164-175 | the specified step |
| ClipboardObject.Clipboard.SetServerData | src/Clipboard.cpp:177-181 | the specified step |
| ClipboardObject.Clipboard.MarkClientReady | src/Clipboard.cpp:46-53 | the first sign posts a call, later ones change nothing |
| ClipboardObject.Clipboard.SendServerData | src/Clipboard.cpp:188-208 | a format list exactly if there is data, enabled and ready |
| ClipboardObject.Clipboard.OnClientFormatList | src/Clipboard.cpp:217-246 | one data request for each text format of the list, then the response |
| ClipboardObject.Clipboard.OnClientFormatDataRequest | src/Clipboard.cpp:254-279 | the encoded text, or a failure without data or for another format |
| ClipboardObject.Clipboard.OnClientFormatDataResponse | src/Clipboard.cpp:281-300 | the client's data after a response: unchanged, dropped, or the decoded text |
| ClipboardObject.Clipboard.GetClipboard | src/Clipboard.cpp:183-186 | the data, which it takes away |

## Left out

- Encoding and decoding of pixels, DMA-BUF download and image conversion: submitting a frame copies its pixels where it repaints.
- FreeRDP, PipeWire, Qt, libei, D-Bus and Wayland: calls into them are statuses and events chosen by the environment.
- Session set-up, authentication, input handling, screencast requests, configuration and user interface: glue around those libraries, with easy properties only.
- The resets at the head of `sendFrame`, and the submission of a frame, are one step each relative to `onCapsAdvertise`: the code does not lock the surface record, and a race inside either is not modelled. Between them an advertisement may come at any point.
- `close` is taken between two passes of the submission loop, which it joins; the wait itself is not modelled.
- The legacy branch of `performReset` without a graphics context: `sendFrame` returns before it could be reached.
- A run of `Raster` has one size: after a change of size the theorems apply from the new surface on, whatever it shows.
- PipelineQueue.PipelineFeedsDecoder: a frame that is refused or fails to be submitted is missing at the client, which then may not be able to use the next ones.
- PipelineDebts.EveryRunHoldsDebts: says nothing about the ids after 2^32 frames, when they are used again.
- PipelineFlow.EveryRunKeepsAccounts: says nothing about the ids after 2^32 frames, when they are used again.
- AutoDetectOrder.IdsComeInCyclicOrder: needs a clock that starts at the epoch and does not go back, as the source's initial time points are the epoch.
- CursorCache.CacheRefinesRecencyList: needs strictly increasing readings; with equal ones the entry to evict depends on the iteration order of the hash.
- ClipboardText.TextRoundTrips: takes the byte order mark rule of `QString::fromUtf16` from Qt's documentation and a little-endian host, as the code does.
- Lemmas that only spell out one step (`PipelineSteps`, `CountDecidesPause`, `SettersMoveQuality`, `OtherAnswers`) have no row; they stand beside the properties of whole runs.
- Helper methods such as `ProbeBandwidth`, `TakeRequest`, `RequestRtt`, `PublishRtt`, `SmoothRtt`, `NextStep`, `EnqueueFrame`, `MakeReady` and `BeginSend` are parts of one source function each, split for the proofs; `InFlightWindow` and `AdaptiveQuality` hold fields that the source keeps in `VideoStream::Private`.
- Numeric capability versions and the version confirmed to the client: sets are classed by what the negotiation tells apart.
- Rounding of doubles, which are reals here.
- Logging.
