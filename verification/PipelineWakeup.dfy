/** Backpressure: the encoder that was paused is woken again, and exactly when it is not. */
module PipelineWakeup {
  import opened Wrappers
  import opened Frames
  import opened Pipeline

  predicate Paused(i: Intake) {
    i.encoder == Encoder(true)
  }

  /**
   The encoder is paused and the main thread is not about to look again; or the count it
   holds, old as it may be, will make it pause or leave it paused.
   */
  predicate StaysPaused(i: Intake) {
    match i.main
    case Idle => Paused(i)
    case Looking => false
    case Counted(count) =>
      i.encoder.Encoder? && (if i.encoder.paused then count >= LOW_QUEUE_COUNT else count > HIGH_QUEUE_COUNT)
  }

  /** The submission thread will still post an update. */
  predicate WillPost(t: Thread) {
    t.Holding? || t.Ready? || t.Sending? || t.Failed? || t.Done?
  }

  /** As long as the stream is open, something is left to happen that leads to another look at the queue. */
  predicate WakesUp(s: Stream) {
    s.link.open && StaysPaused(s.intake) ==>
      s.intake.queue != [] || WillPost(s.thread) || s.intake.posted > 0
  }

  /** The frame taken from the queue, or held, is discarded without a word. */
  predicate DropsSilently(s: Stream, e: Event) {
    || (e.BeginSend? && s.thread.Holding? && Refuses(s.link, e.writeBlocked))
    || (e.Dequeue? && s.thread.Admitted? && s.intake.queue != [] && s.intake.queue[0].size.IsEmpty())
  }

  /** The last frame is dropped silently, with no update posted, while the encoder is or will be paused. */
  predicate Strands(s: Stream, e: Event) {
    && s.link.open && DropsSilently(s, e) && StaysPaused(s.intake) && s.intake.posted == 0
    && (if e.Dequeue? then |s.intake.queue| == 1 else s.intake.queue == [])
  }

  lemma {:induction false} MainStepWakes(s: Stream, e: Event)
    requires WakesUp(s) && (e.FrameArrives? || e.RunPostedUpdate? || e.CountQueue? || e.SetPause?)
    ensures WakesUp(Step(s, e))
  {
  }

  lemma {:induction false} StepWakesUnlessStranding(s: Stream, e: Event)
    requires WakesUp(s)
    ensures WakesUp(Step(s, e)) <==> !Strands(s, e)
  {
    if e.FrameArrives? || e.RunPostedUpdate? || e.CountQueue? || e.SetPause? {
      MainStepWakes(s, e);
    }
  }

  predicate NeverStrands(s: Stream, events: seq<Event>)
    decreases |events|
  {
    events == [] || (!Strands(s, events[0]) && NeverStrands(Step(s, events[0]), events[1..]))
  }

  /** As long as no last frame is dropped silently, a paused encoder always has a wake-up coming. */
  lemma {:induction false} EveryRunWakesUp(s: Stream, events: seq<Event>)
    requires WakesUp(s) && NeverStrands(s, events)
    ensures WakesUp(Run(s, events))
    decreases |events|
  {
    if events != [] {
      StepWakesUnlessStranding(s, events[0]);
      EveryRunWakesUp(Step(s, events[0]), events[1..]);
    }
  }

  /** What the encoder itself, a new mode or the end of the stream can still do. */
  predicate ComesFromOutside(e: Event) {
    e.FrameArrives? || e.ChooseMode? || e.CloseStream?
  }

  /** The encoder is paused or will be, and nothing is left that leads to another look. */
  predicate Stranded(s: Stream) {
    s.link.open && !WakesUp(s)
  }

  lemma {:induction false} StepLeavesStranded(s: Stream, e: Event)
    requires Stranded(s) && !ComesFromOutside(e)
    ensures Stranded(Step(s, e)) && (Paused(s.intake) ==> Paused(Step(s, e).intake))
  {
  }

  /**
   A stranded encoder stays paused whatever the other threads do, or is paused once the
   main thread goes on: only a frame, which a paused encoder does not produce, or a
   renegotiation could wake it.
   */
  lemma {:induction false} StrandedStaysPaused(s: Stream, events: seq<Event>)
    requires Stranded(s)
    requires forall k :: 0 <= k < |events| ==> !ComesFromOutside(events[k])
    ensures var end := Run(s, events);
            && Stranded(end)
            && (Paused(s.intake) ==> Paused(end.intake))
            && (end.intake.main.Idle? ==> Paused(end.intake))
    decreases |events|
  {
    if events != [] {
      StepLeavesStranded(s, events[0]);
      StrandedStaysPaused(Step(s, events[0]), events[1..]);
    }
  }

  // ------------------------------------------------------------- when it changes

  /** Only the main thread adds frames, so a count it holds is never too low. */
  predicate CountIsBound(i: Intake) {
    i.main.Counted? ==> |i.queue| <= i.main.count
  }

  lemma {:induction false} StepKeepsBound(s: Stream, e: Event)
    requires CountIsBound(s.intake)
    ensures CountIsBound(Step(s, e).intake)
  {
  }

  lemma {:induction false} EveryRunKeepsBound(s: Stream, events: seq<Event>)
    requires CountIsBound(s.intake)
    ensures CountIsBound(Run(s, events).intake)
    decreases |events|
  {
    if events != [] {
      StepKeepsBound(s, events[0]);
      EveryRunKeepsBound(Step(s, events[0]), events[1..]);
    }
  }

  /**
   The flag goes up only on a count above three, and down only on a count of none or with
   a new encoder. A count of none is still right when it is used; one above three need not be.
   */
  lemma {:induction false} PauseHasHysteresis(s: Stream, e: Event)
    requires CountIsBound(s.intake)
    ensures var s' := Step(s, e);
            && (!Paused(s.intake) && Paused(s'.intake) ==>
                  e.SetPause? && s.intake.main.Counted? && s.intake.main.count > HIGH_QUEUE_COUNT)
            && (Paused(s.intake) && !Paused(s'.intake) ==>
                  s'.intake.queue == [] && (e.SetPause? || s'.link.mode != s.link.mode))
  {
  }

  /** The count decides: a running encoder is paused on more than three, a paused one released on none. */
  lemma {:induction false} CountDecidesPause(s: Stream)
    requires s.intake.main.Counted? && s.intake.encoder.Encoder?
    ensures var s' := Step(s, SetPause);
            && s'.intake.main.Idle? && s'.intake.encoder.Encoder?
            && (s'.intake.encoder.paused <==>
                  if s.intake.encoder.paused then s.intake.main.count >= 1 else s.intake.main.count > 3)
  {
  }

  /** Run without interruption, a posted update releases the encoder exactly if the queue is empty. */
  lemma {:induction false} PostedUpdateWakes(s: Stream)
    requires Paused(s.intake) && s.intake.posted > 0 && s.intake.main.Idle?
    ensures var end := Run(s, [RunPostedUpdate, CountQueue, SetPause]);
            (Paused(end.intake) <==> s.intake.queue != []) && end.intake.main.Idle?
  {
    var events := [RunPostedUpdate, CountQueue, SetPause];
    assert events[1..] == [CountQueue, SetPause] && events[1..][1..] == [SetPause];
    var s1 := Step(s, RunPostedUpdate);
    var s2 := Step(s1, CountQueue);
    assert s2.intake.main == Counted(|s.intake.queue|);
    assert Run(s, events) == Run(s1, [CountQueue, SetPause]) == Run(s2, [SetPause]) == Step(s2, SetPause);
  }
}
