/** Single steps of the pipeline, condition by condition. */
module PipelineSteps {
  import opened Wrappers
  import opened Frames
  import opened Pipeline

  /** A frame is accepted exactly while the session streams and the stream is enabled; it is counted, and looked at. */
  lemma {:induction false} ArrivalExactly(s: Stream, f: Frame)
    requires s.intake.main.Idle?
    ensures var i := Step(s, FrameArrives(f)).intake;
            if s.intake.streaming && s.intake.enabled then
              && i.produced == (s.intake.produced + 1) % 0x1_0000_0000_0000_0000 && i.main.Looking?
              && (if s.link.mode.Some? then i.queue != [] && i.queue[|i.queue| - 1].data == f.data else i.queue == s.intake.queue)
            else i == s.intake
  {
  }

  /** A frame is refused exactly if writing is blocked, no mode is set, or the link is not open and confirmed. */
  lemma {:induction false} RefusedExactly(s: Stream, writeBlocked: bool, first: ResetStatus, second: ResetStatus)
    requires s.thread.Holding?
    ensures Step(s, BeginSend(writeBlocked, first, second)).thread
            == if writeBlocked || s.link.mode.None? || !s.link.open || !s.link.capsConfirmed then Polling
               else Ready(s.thread.frame)
  {
  }

  /**
   A submission succeeds, and its frame is owed, exactly if there is something to send, a
   surface to send it to, and the calls that count succeed; it is shown exactly if its
   content got through, which for H.264 does not depend on the end of the frame.
   */
  lemma {:induction false} SubmissionExactly(s: Stream, w: Wire)
    requires s.thread.Sending? && s.link.mode.Some?
    ensures var s', f := Step(s, Submit(w)), s.thread.frame;
            var possible := s.display.surface.id != 0 && if s.link.mode == Some(H264) then f.data != [] else f.image.Some?;
            var delivered := possible && if s.link.mode == Some(H264) then w.start && w.end else w.encoded && w.surfaceFrame;
            var shown := possible && if s.link.mode == Some(H264) then w.start && w.command else w.encoded && w.surfaceFrame;
            && s'.thread == (if delivered then Done else Failed(s.thread.id))
            && s'.client.owed == (if delivered then s.client.owed + {s.thread.id} else s.client.owed)
            && s'.client.painted == if shown then s.client.painted + [f] else s.client.painted
  {
  }

  /** What other threads ask for is kept: a reset until a frame is begun, a window until the next one. */
  lemma {:induction false} RequestsAreKept(s: Stream, e: Event)
    ensures Step(s, RequestReset).display == s.display.(pendingReset := true)
    ensures s.display.pendingReset && !e.BeginSend? ==> Step(s, e).display.pendingReset
    ensures forall w :: w >= 2 ==> Step(s, SetWindow(w)).flow.maxInFlight == w
    ensures !e.SetWindow? ==> Step(s, e).flow.maxInFlight == s.flow.maxInFlight
  {
  }
}
