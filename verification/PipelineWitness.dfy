/** Runs from a new stream that end in the two bad states: a stranded encoder, and surface 0. */
module PipelineWitness {
  import opened Wrappers
  import opened Frames
  import opened Pipeline
  import opened PipelineSurfaces
  import opened PipelineWakeup
  import opened PipelineStart

  ghost predicate Reaches(s: Stream, t: Stream) {
    exists events :: Run(s, events) == t
  }

  lemma {:induction false} RunOneMore(s: Stream, events: seq<Event>, e: Event)
    ensures Run(s, events + [e]) == Step(Run(s, events), e)
    decreases |events|
  {
    if events == [] {
      assert Run(s, [e]) == Run(Step(s, e), []);
      assert [] + [e] == [e];
    } else {
      assert (events + [e])[0] == events[0] && (events + [e])[1..] == events[1..] + [e];
      RunOneMore(Step(s, events[0]), events[1..], e);
    }
  }

  lemma {:induction false} ReachesItself(s: Stream)
    ensures Reaches(s, s)
  {
    assert Run(s, []) == s;
  }

  lemma {:induction false} OneStepOn(s: Stream, t: Stream, e: Event)
    requires Reaches(s, t)
    ensures Reaches(s, Step(t, e))
  {
    var events :| Run(s, events) == t;
    RunOneMore(s, events, e);
  }

  // ------------------------------------------------------------------ the start

  /** An open H.264 stream whose submission thread has capacity. */
  predicate Streaming(s: Stream) {
    && s.link.open && s.link.capsConfirmed && s.link.mode == Some(H264)
    && s.intake.streaming && s.intake.enabled && s.intake.encoder.Encoder?
    && s.thread.Polling? && s.flow.pending == {} && !s.flow.suspended && s.flow.maxInFlight >= MINIMUM_WINDOW
  }

  lemma {:induction false} StreamingIsReached(s: Stream) returns (t: Stream)
    requires IsNew(s) && s.link.open
    ensures Reaches(s, t) && Streaming(t) && t.intake.queue == [] && t.intake.posted == 0 && t.intake.main.Idle?
    ensures t.intake.encoder == Encoder(false) && t.display.surface == NO_SURFACE && t.display.nextSurfaceId == 1
  {
    ReachesItself(s);
    t := Step(s, SetStreaming(true, true));
    OneStepOn(s, s, SetStreaming(true, true));
    var sets := [CapabilitySet(Version104To107, false, false)];
    assert SupportsH264(sets[0]);
    OneStepOn(s, t, CapsAdvertise(sets, false, true));
    t := Step(t, CapsAdvertise(sets, false, true));
    assert t.link.handshake == Asked(H264);
    OneStepOn(s, t, ChooseMode);
    t := Step(t, ChooseMode);
    OneStepOn(s, t, ConfirmCaps(true));
    t := Step(t, ConfirmCaps(true));
  }

  // --------------------------------------------------------- a stranded encoder

  const PIXEL := Size(1, 1)

  /** So many frames wait, and the encoder is paused exactly if there are more than three. */
  predicate Filling(s: Stream, n: nat) {
    && Streaming(s) && s.intake.posted == 0 && s.intake.main.Idle?
    && |s.intake.queue| == n && s.intake.encoder == Encoder(n > HIGH_QUEUE_COUNT)
    && forall i :: 0 <= i < n ==> s.intake.queue[i].size == PIXEL
  }

  /** A frame is queued and counted, and the main thread is left holding the count. */
  lemma {:induction false} FrameIsCounted(start: Stream, s: Stream, n: nat) returns (t: Stream)
    requires Reaches(start, s) && Filling(s, n) && n <= HIGH_QUEUE_COUNT
    ensures Reaches(start, t) && t.intake.main == Counted(n + 1) && t.intake.encoder == Encoder(false)
    ensures Streaming(t) && t.intake.posted == 0 && |t.intake.queue| == n + 1
    ensures forall i :: 0 <= i <= n ==> t.intake.queue[i].size == PIXEL
  {
    var f := Frame(PIXEL, [0], None, [], false);
    t := Step(s, FrameArrives(f));
    OneStepOn(start, s, FrameArrives(f));
    assert t.intake.queue == s.intake.queue + [f];
    OneStepOn(start, t, CountQueue);
    t := Step(t, CountQueue);
  }

  lemma {:induction false} FrameFills(start: Stream, s: Stream, n: nat) returns (t: Stream)
    requires Reaches(start, s) && Filling(s, n) && n <= HIGH_QUEUE_COUNT
    ensures Reaches(start, t) && Filling(t, n + 1)
  {
    t := FrameIsCounted(start, s, n);
    OneStepOn(start, t, SetPause);
    t := Step(t, SetPause);
  }

  lemma {:induction false} FramesFill(start: Stream, s: Stream, n: nat, m: nat) returns (t: Stream)
    requires Reaches(start, s) && Filling(s, n) && n <= m <= HIGH_QUEUE_COUNT + 1
    ensures Reaches(start, t) && Filling(t, m)
    decreases m - n
  {
    t := s;
    if n < m {
      t := FrameFills(start, s, n);
      t := FramesFill(start, t, n + 1, m);
    }
  }

  /** Paused, or soon to be, with so many frames left. */
  predicate Draining(s: Stream, n: nat) {
    && Streaming(s) && s.intake.posted == 0 && StaysPaused(s.intake)
    && |s.intake.queue| == n && forall i :: 0 <= i < n ==> s.intake.queue[i].size == PIXEL
  }

  /** The submission thread takes a frame. */
  lemma {:induction false} FrameIsTaken(start: Stream, s: Stream, n: nat) returns (t: Stream)
    requires Reaches(start, s) && Draining(s, n) && n > 0
    ensures Reaches(start, t) && t == s.(intake := s.intake.(queue := s.intake.queue[1..]), thread := t.thread, flow := t.flow)
    ensures t.thread.Holding? && t.flow == s.flow.(limit := s.flow.maxInFlight)
  {
    t := Step(s, CheckCapacity);
    OneStepOn(start, s, CheckCapacity);
    assert t.thread == Capable;
    OneStepOn(start, t, CheckLink);
    t := Step(t, CheckLink);
    assert t.thread == Admitted;
    OneStepOn(start, t, Dequeue);
    t := Step(t, Dequeue);
  }

  /** While writing is blocked all frames are taken and dropped, the last one stranding the encoder. */
  lemma {:induction false} BlockedWritesStrand(start: Stream, s: Stream, n: nat) returns (t: Stream, e: Event)
    requires Reaches(start, s) && Draining(s, n) && n > 0
    ensures Reaches(start, t) && Strands(t, e)
    ensures t.intake.encoder == s.intake.encoder && t.intake.main == s.intake.main
    decreases n
  {
    var none := ResetStatus(true, true, true, true, true, true);
    e := BeginSend(true, none, none);
    t := FrameIsTaken(start, s, n);
    if n > 1 {
      OneStepOn(start, t, e);
      t := Step(t, e);
      t, e := BlockedWritesStrand(start, t, n - 1);
    }
  }

  /** A new stream can come to silently drop the last frame of a paused encoder. */
  lemma {:induction false} StrandingIsReached(s: Stream) returns (t: Stream, e: Event)
    requires IsNew(s) && s.link.open
    ensures Reaches(s, t) && Strands(t, e) && Paused(t.intake)
  {
    t := StreamingIsReached(s);
    t := FramesFill(s, t, 0, 4);
    t, e := BlockedWritesStrand(s, t, 4);
  }

  /** The encoder need not even be paused yet: an old count pauses it when all frames are gone. */
  lemma {:induction false} OldCountStrands(s: Stream) returns (t: Stream, e: Event)
    requires IsNew(s) && s.link.open
    ensures Reaches(s, t) && Strands(t, e) && !Paused(t.intake)
    ensures Paused(Step(Step(t, e), SetPause).intake)
  {
    t := StreamingIsReached(s);
    t := FramesFill(s, t, 0, 3);
    t := FrameIsCounted(s, t, 3);
    t, e := BlockedWritesStrand(s, t, 4);
  }

  // ------------------------------------------------------------------ surface 0

  /** A stream without a surface, and the id that the next one would get. */
  predicate Surfaceless(s: Stream, id: nat) {
    && Streaming(s) && s.intake.queue == [] && s.intake.encoder == Encoder(false) && s.intake.main.Idle?
    && s.display.surface == NO_SURFACE && s.display.nextSurfaceId == id
  }

  /** A key frame comes in, is counted, and is taken. */
  lemma {:induction false} FrameIsHeld(start: Stream, s: Stream, id: nat, f: Frame) returns (t: Stream)
    requires Reaches(start, s) && Surfaceless(s, id) && f.size == PIXEL
    ensures Reaches(start, t) && t.thread == Holding(f) && Surfaceless(t.(thread := Polling), id)
  {
    t := Step(s, FrameArrives(f));
    OneStepOn(start, s, FrameArrives(f));
    assert t.intake.queue == [f];
    OneStepOn(start, t, CountQueue);
    t := Step(t, CountQueue);
    OneStepOn(start, t, SetPause);
    t := Step(t, SetPause);
    OneStepOn(start, t, CheckCapacity);
    t := Step(t, CheckCapacity);
    assert t.thread == Capable;
    OneStepOn(start, t, CheckLink);
    t := Step(t, CheckLink);
    OneStepOn(start, t, Dequeue);
    t := Step(t, Dequeue);
  }

  /** The channel refuses the reset that was requested, and the one for the size gets as far as `created`. */
  function Sending(created: bool): Event {
    BeginSend(false, ResetStatus(true, false, false, false, false, false),
              ResetStatus(true, true, created, true, true, true))
  }

  /** A surface the channel refuses to create uses up an id. */
  lemma {:induction false} CreateFails(start: Stream, s: Stream, id: nat, f: Frame) returns (t: Stream)
    requires Reaches(start, s) && s.thread == Holding(f) && Surfaceless(s.(thread := Polling), id) && f.size == PIXEL
    ensures Reaches(start, t) && t.thread == Ready(f) && Surfaceless(t.(thread := Polling), U16(id + 1))
  {
    t := Step(s, Sending(false));
    OneStepOn(start, s, Sending(false));
  }

  /** Without a surface the frame is rolled back. */
  lemma {:induction false} FrameIsRefused(start: Stream, s: Stream, id: nat, f: Frame) returns (t: Stream)
    requires Reaches(start, s) && s.thread == Ready(f) && Surfaceless(s.(thread := Polling), id)
    ensures Reaches(start, t) && Surfaceless(t, id)
  {
    OneStepOn(start, s, InsertPending);
    t := Step(s, InsertPending);
    assert t.thread.Sending? && t.flow.pending == {t.thread.id};
    var w := Wire(true, true, true, true, true);
    OneStepOn(start, t, Submit(w));
    t := Step(t, Submit(w));
    assert t.thread.Failed?;
    OneStepOn(start, t, Rollback);
    t := Step(t, Rollback);
    assert t.flow.pending == {};
    OneStepOn(start, t, PostUpdate);
    t := Step(t, PostUpdate);
  }

  lemma {:induction false} IdsRunOut(start: Stream, s: Stream, id: nat) returns (t: Stream)
    requires Reaches(start, s) && Surfaceless(s, id) && id < 0x1_0000
    ensures Reaches(start, t) && Surfaceless(t, 0)
    decreases if id == 0 then 0 else 0x1_0000 - id
  {
    t := s;
    if id != 0 {
      var f := Frame(PIXEL, [0], None, [], true);
      t := FrameIsHeld(start, s, id, f);
      t := CreateFails(start, t, id, f);
      t := FrameIsRefused(start, t, U16(id + 1), f);
      t := IdsRunOut(start, t, U16(id + 1));
    }
  }

  /** A new stream can come to record surface 0, after which `SurfaceZeroRefusesFrames` applies. */
  lemma {:induction false} SurfaceZeroIsReached(s: Stream) returns (t: Stream)
    requires IsNew(s) && s.link.open
    ensures Reaches(s, t) && AtSurfaceZero(t, PIXEL) && t.thread.Ready? && 0 in t.client.live
  {
    t := StreamingIsReached(s);
    t := IdsRunOut(s, t, 1);
    var f := Frame(PIXEL, [0], None, [], true);
    t := FrameIsHeld(s, t, 0, f);
    OneStepOn(s, t, Sending(true));
    t := Step(t, Sending(true));
  }
}
