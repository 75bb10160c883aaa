/** The queue inside the pipeline is the one FrameQueue describes, for every interleaving. */
module PipelineQueue {
  import opened Wrappers
  import opened Frames
  import opened FrameQueue
  import P = Pipeline
  import PipelineFlow

  /** What a step of the pipeline does to the queue. */
  function Feeds(s: P.Stream, e: P.Event): seq<Feed> {
    if e.FrameArrives? && s.intake.main.Idle? && s.intake.streaming && s.intake.enabled && s.link.mode.Some? then [Arrive(e.frame)]
    else if e.Dequeue? && s.thread.Admitted? && s.intake.queue != [] then [Take]
    else []
  }

  function AllFeeds(s: P.Stream, events: seq<P.Event>): seq<Feed>
    decreases |events|
  {
    if events == [] then [] else Feeds(s, events[0]) + AllFeeds(P.Step(s, events[0]), events[1..])
  }

  predicate StaysIn(mode: EncodingMode, s: P.Stream, events: seq<P.Event>)
    decreases |events|
  {
    s.link.mode == Some(mode) && (events == [] || StaysIn(mode, P.Step(s, events[0]), events[1..]))
  }

  // --------------------------------------------------------- what the thread gets

  /** The frame a step hands to the submission thread, or has it discard because its size is empty. */
  function Handled(s: P.Stream, e: P.Event): seq<Frame> {
    var t := P.Step(s, e).thread;
    if !e.Dequeue? || !s.thread.Admitted? || s.intake.queue == [] then []
    else if t.Holding? then [t.frame]
    else [s.intake.queue[0]]
  }

  function AllHandled(s: P.Stream, events: seq<P.Event>): seq<Frame>
    decreases |events|
  {
    if events == [] then [] else Handled(s, events[0]) + AllHandled(P.Step(s, events[0]), events[1..])
  }

  function Fed(mode: EncodingMode, l: Line, feeds: seq<Feed>): Line {
    if feeds == [] then l else Advance(mode, l, feeds[0])
  }

  /** A step takes from the queue exactly what the thread gets, and discards only what has no size. */
  lemma {:induction false} StepFeedsQueue(mode: EncodingMode, s: P.Stream, e: P.Event, l: Line)
    requires s.link.mode == Some(mode) && P.Step(s, e).link.mode == Some(mode) && l.queue == s.intake.queue
    ensures var fed := Fed(mode, l, Feeds(s, e));
            fed.queue == P.Step(s, e).intake.queue && fed.taken == l.taken + Handled(s, e)
    ensures Handled(s, e) != [] ==>
              (P.Step(s, e).thread == P.Holding(Handled(s, e)[0]) <==> !Handled(s, e)[0].size.IsEmpty())
  {
  }

  /** Every run of the pipeline in one mode is a run of the queue, and the thread gets what is taken, in order. */
  lemma {:induction false} RunFeedsQueue(mode: EncodingMode, s: P.Stream, events: seq<P.Event>, l: Line)
    requires StaysIn(mode, s, events) && l.queue == s.intake.queue
    ensures var end := FrameQueue.Run(mode, l, AllFeeds(s, events));
            end.queue == P.Run(s, events).intake.queue && end.taken == l.taken + AllHandled(s, events)
    decreases |events|
  {
    if events != [] {
      var s', rest := P.Step(s, events[0]), events[1..];
      var l', later := Fed(mode, l, Feeds(s, events[0])), AllHandled(s', rest);
      StepFeedsQueue(mode, s, events[0], l);
      RunFeedsQueue(mode, s', rest, l');
      FedFirst(mode, l, Feeds(s, events[0]), AllFeeds(s', rest));
      Associate(l.taken, Handled(s, events[0]), later);
    }
  }

  lemma {:induction false} FedFirst(mode: EncodingMode, l: Line, feeds: seq<Feed>, rest: seq<Feed>)
    requires |feeds| <= 1
    ensures FrameQueue.Run(mode, l, feeds + rest) == FrameQueue.Run(mode, Fed(mode, l, feeds), rest)
  {
    if feeds == [] {
      assert feeds + rest == rest;
    } else {
      assert (feeds + rest)[0] == feeds[0] && (feeds + rest)[1..] == rest;
    }
  }

  // ------------------------------------------------------ what becomes of each frame

  datatype Outcome = Outcome(frame: Frame, painted: bool)

  /** The thread is done with a frame: discarded, refused by `sendFrame`, or submitted and painted or not. */
  function Outcomes(s: P.Stream, e: P.Event): seq<Outcome> {
    match e
    case Dequeue =>
      if s.thread.Admitted? && s.intake.queue != [] && s.intake.queue[0].size.IsEmpty()
      then [Outcome(s.intake.queue[0], false)] else []
    case BeginSend(writeBlocked, _, _) =>
      if s.thread.Holding? && P.Refuses(s.link, writeBlocked) then [Outcome(s.thread.frame, false)] else []
    case Submit(w) =>
      if s.thread.Sending? && s.link.mode.Some?
      then [Outcome(s.thread.frame, P.Paints(s.link.mode.value, s.display.surface, s.thread.frame, w))] else []
    case _ => []
  }

  function AllOutcomes(s: P.Stream, events: seq<P.Event>): seq<Outcome>
    decreases |events|
  {
    if events == [] then [] else Outcomes(s, events[0]) + AllOutcomes(P.Step(s, events[0]), events[1..])
  }

  function FramesOf(outcomes: seq<Outcome>): seq<Frame> {
    seq(|outcomes|, i requires 0 <= i < |outcomes| => outcomes[i].frame)
  }

  function PaintedOf(outcomes: seq<Outcome>): seq<Frame> {
    if outcomes == [] then []
    else (if outcomes[0].painted then [outcomes[0].frame] else []) + PaintedOf(outcomes[1..])
  }

  function InHand(t: P.Thread): seq<Frame> {
    if P.FrameOf(t).None? then [] else [P.FrameOf(t).value]
  }

  /** From one state to another these frames were handed over and these outcomes settled, in order. */
  predicate Settles(s: P.Stream, t: P.Stream, handled: seq<Frame>, outcomes: seq<Outcome>) {
    && InHand(s.thread) + handled == FramesOf(outcomes) + InHand(t.thread)
    && t.client.painted == s.client.painted + PaintedOf(outcomes)
  }

  lemma {:induction false} BeginSettles(s: P.Stream, e: P.Event)
    requires e.BeginSend?
    ensures Settles(s, P.Step(s, e), Handled(s, e), Outcomes(s, e))
  {
    PipelineFlow.BeginKeepsOwed(s, e);
  }

  lemma {:induction false} SubmitSettles(s: P.Stream, w: P.Wire)
    ensures Settles(s, P.Submitted(s, w), [], Outcomes(s, P.Submit(w)))
  {
  }

  lemma {:induction false} OthersSettle(s: P.Stream, e: P.Event)
    requires !e.BeginSend? && !e.Submit? && !e.Dequeue?
    ensures InHand(P.Step(s, e).thread) == InHand(s.thread) && P.Step(s, e).client.painted == s.client.painted
  {
  }

  lemma {:induction false} StepSettles(s: P.Stream, e: P.Event)
    ensures Settles(s, P.Step(s, e), Handled(s, e), Outcomes(s, e))
  {
    match e {
      case BeginSend(_, _, _) => BeginSettles(s, e);
      case Submit(w) => SubmitSettles(s, w);
      case Dequeue =>
      case _ => OthersSettle(s, e);
    }
  }

  lemma {:induction false} PaintedInOrder(a: seq<Outcome>, b: seq<Outcome>)
    ensures PaintedOf(a + b) == PaintedOf(a) + PaintedOf(b)
  {
    if a == [] {
      assert a + b == b;
    } else {
      assert (a + b)[0] == a[0] && (a + b)[1..] == a[1..] + b;
      PaintedInOrder(a[1..], b);
    }
  }

  /**
   Over every run the frames the thread gets are settled in the order it gets them, all but
   the one in hand at the end; the client has been shown those that were painted, in that order.
   */
  lemma {:induction false} RunSettlesInOrder(s: P.Stream, events: seq<P.Event>)
    ensures Settles(s, P.Run(s, events), AllHandled(s, events), AllOutcomes(s, events))
    decreases |events|
  {
    if events != [] {
      var s', rest := P.Step(s, events[0]), events[1..];
      StepSettles(s, events[0]);
      RunSettlesInOrder(s', rest);
      SettlesOn(s, s', P.Run(s', rest), Handled(s, events[0]), AllHandled(s', rest),
                Outcomes(s, events[0]), AllOutcomes(s', rest));
    }
  }

  lemma {:induction false} SettlesOn(s: P.Stream, m: P.Stream, t: P.Stream, h: seq<Frame>, h': seq<Frame>,
                                     o: seq<Outcome>, o': seq<Outcome>)
    requires Settles(s, m, h, o) && Settles(m, t, h', o')
    ensures Settles(s, t, h + h', o + o')
  {
    PaintedInOrder(o, o');
    FramesInOrder(o, o');
    Regroup(InHand(s.thread), h, h', FramesOf(o), InHand(m.thread), FramesOf(o'), InHand(t.thread));
    Associate(s.client.painted, PaintedOf(o), PaintedOf(o'));
  }

  lemma {:induction false} FramesInOrder(a: seq<Outcome>, b: seq<Outcome>)
    ensures FramesOf(a + b) == FramesOf(a) + FramesOf(b)
  {
  }

  lemma {:induction false} Associate<T>(a: seq<T>, b: seq<T>, c: seq<T>)
    ensures (a + b) + c == a + (b + c)
  {
  }

  lemma {:induction false} Regroup<T>(a: seq<T>, h: seq<T>, t: seq<T>, f: seq<T>, m: seq<T>, g: seq<T>, z: seq<T>)
    requires a + h == f + m && m + t == g + z
    ensures a + (h + t) == (f + g) + z
  {
    Associate(a, h, t);
    Associate(f, m, t);
    Associate(f, g, z);
  }

  // ------------------------------------------------------------ the reference chain

  /** So over every run in H.264 mode, what the thread gets never breaks a reference chain. */
  lemma {:induction false} PipelineKeepsChain(s: P.Stream, events: seq<P.Event>, l: Line)
    requires StaysIn(H264, s, events) && l.queue == s.intake.queue && Chained(l)
    ensures var end := FrameQueue.Run(H264, l, AllFeeds(s, events));
            && Chained(end) && end.taken == l.taken + AllHandled(s, events)
            && end.queue == P.Run(s, events).intake.queue
  {
    RunFeedsQueue(H264, s, events, l);
    EveryRunStaysChained(l, AllFeeds(s, events));
  }

  /** And in raster mode at most one frame waits. */
  lemma {:induction false} PipelineHoldsOneRasterFrame(s: P.Stream, events: seq<P.Event>, l: Line)
    requires StaysIn(Progressive, s, events) && l.queue == s.intake.queue && |l.queue| <= 1
    ensures |P.Run(s, events).intake.queue| <= 1
  {
    RunFeedsQueue(Progressive, s, events, l);
    RasterQueueHoldsAtMostOne(l, AllFeeds(s, events));
  }

  /**
   From an unused queue and an idle thread: what has been settled and what is in hand is, in
   order, what was taken; a decoder fed with it can use every frame, if the encoder's first
   frame is a key frame. If every outcome was a paint, that is what the client was shown.
   */
  lemma {:induction false} PipelineFeedsDecoder(s: P.Stream, events: seq<P.Event>, l: Line)
    requires StaysIn(H264, s, events) && l.queue == s.intake.queue && Unused(l)
    requires InHand(s.thread) == [] && s.client.painted == []
    ensures var end, last := FrameQueue.Run(H264, l, AllFeeds(s, events)), P.Run(s, events);
            && NeverStuck(end) && end.queue == last.intake.queue
            && end.taken == FramesOf(AllOutcomes(s, events)) + InHand(last.thread)
            && ((forall i :: 0 <= i < |AllOutcomes(s, events)| ==> AllOutcomes(s, events)[i].painted) ==>
                  end.taken == last.client.painted + InHand(last.thread))
  {
    RunFeedsQueue(H264, s, events, l);
    EveryRunFeedsDecoder(l, AllFeeds(s, events));
    RunSettlesInOrder(s, events);
    if forall i :: 0 <= i < |AllOutcomes(s, events)| ==> AllOutcomes(s, events)[i].painted {
      AllPainted(AllOutcomes(s, events));
    }
  }

  lemma {:induction false} AllPainted(outcomes: seq<Outcome>)
    requires forall i :: 0 <= i < |outcomes| ==> outcomes[i].painted
    ensures PaintedOf(outcomes) == FramesOf(outcomes)
  {
    if outcomes != [] {
      AllPainted(outcomes[1..]);
    }
  }
}
