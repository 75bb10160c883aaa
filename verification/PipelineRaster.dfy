/**
 The client's picture in raster runs of the pipeline: it is the one Raster describes, for
 every interleaving, with frames arriving while others are in flight.
 */
module PipelineRaster {
  import opened Wrappers
  import opened Frames
  import opened PipelineQueue
  import R = Raster
  import P = Pipeline

  /** What a step of the pipeline is to the raster path; a new surface shows `blank`. */
  function Feeds(s: P.Stream, e: P.Event, blank: R.Picture): seq<R.Feed> {
    match e
    case FrameArrives(f) =>
      if s.intake.main.Idle? && s.intake.streaming && s.intake.enabled && s.link.mode.Some? then [R.Arrive(f)] else []
    case Dequeue => if s.thread.Admitted? && s.intake.queue != [] then [R.Take] else []
    case BeginSend(writeBlocked, _, _) =>
      if !s.thread.Holding? then []
      else if P.Refuses(s.link, writeBlocked) then [R.Drop]
      else if P.NeedsReset(s.display, s.thread.frame.size) then [R.Reset(blank)]
      else []
    case Submit(w) =>
      if !s.thread.Sending? || s.link.mode.None? then []
      else if P.Paints(s.link.mode.value, s.display.surface, s.thread.frame, w) then [R.Paint]
      else [R.Drop]
    case _ => []
  }

  function AllFeeds(s: P.Stream, events: seq<P.Event>, blank: R.Picture): seq<R.Feed>
    decreases |events|
  {
    if events == [] then [] else Feeds(s, events[0], blank) + AllFeeds(P.Step(s, events[0]), events[1..], blank)
  }

  /** What is on the client's screen after a step: a blank surface after a reset, a painted frame after a submission. */
  ghost function Shown(s: P.Stream, e: P.Event, screen: R.Picture, blank: R.Picture): R.Picture {
    if e.BeginSend? && s.thread.Holding? && !P.Refuses(s.link, e.writeBlocked)
       && P.NeedsReset(s.display, s.thread.frame.size) then blank
    else if e.Submit? && s.thread.Sending? && s.link.mode.Some?
            && P.Paints(s.link.mode.value, s.display.surface, s.thread.frame, e.wire) then
      Overlaid(screen, s.thread.frame)
    else screen
  }

  ghost function Overlaid(screen: R.Picture, f: Frame): R.Picture {
    if f.image.None? then screen
    else map p | p in screen ::
           if Repaints(p, f.damage, f.size) && p in f.image.value then f.image.value[p] else screen[p]
  }

  ghost function ShownAfter(s: P.Stream, events: seq<P.Event>, screen: R.Picture, blank: R.Picture): R.Picture
    decreases |events|
  {
    if events == [] then screen
    else ShownAfter(P.Step(s, events[0]), events[1..], Shown(s, events[0], screen, blank), blank)
  }

  ghost predicate Matches(s: P.Stream, screen: R.Picture, r: R.State) {
    && r.queue == s.intake.queue && r.held == P.FrameOf(s.thread) && r.screen == screen
    && R.WellFormed(r) && !r.size.IsEmpty()
  }

  lemma {:induction false} OneFeed(r: R.State, feed: R.Feed)
    requires R.WellFormed(r) && R.ValidRun(r, [feed])
    ensures R.Valid(r, feed) && R.Run(r, [feed]) == R.Advance(r, feed)
  {
    assert [feed][1..] == [];
    assert R.Run(r, [feed]) == R.Run(R.Advance(r, feed), []);
  }

  lemma {:induction false} SubmitFeedsRaster(s: P.Stream, w: P.Wire, screen: R.Picture, r: R.State, blank: R.Picture)
    requires Matches(s, screen, r) && s.link.mode == Some(Progressive) && s.thread.Sending?
    ensures var feed := if P.Paints(Progressive, s.display.surface, s.thread.frame, w) then R.Paint else R.Drop;
            && Feeds(s, P.Submit(w), blank) == [feed]
            && Matches(P.Submitted(s, w), Shown(s, P.Submit(w), screen, blank), R.Advance(r, feed))
  {
    PaintIsOverlay(screen, s.thread.frame, r.size);
  }

  lemma {:induction false} BeginFeedsRaster(s: P.Stream, e: P.Event, screen: R.Picture, r: R.State, blank: R.Picture)
    requires Matches(s, screen, r) && R.Covers(blank, r.size) && e.BeginSend?
    ensures var feeds := Feeds(s, e, blank);
            if feeds == [] then Matches(P.Step(s, e), Shown(s, e, screen, blank), r)
            else |feeds| == 1 && R.Valid(r, feeds[0]) && Matches(P.Step(s, e), Shown(s, e, screen, blank), R.Advance(r, feeds[0]))
  {
  }

  lemma {:induction false} OthersFeedRaster(s: P.Stream, e: P.Event, screen: R.Picture, r: R.State, blank: R.Picture)
    requires Matches(s, screen, r) && !e.BeginSend? && !e.Submit?
    requires s.link.mode == Some(Progressive) && P.Step(s, e).link.mode == Some(Progressive)
    requires Feeds(s, e, blank) != [] ==> R.Valid(r, Feeds(s, e, blank)[0])
    ensures var feeds := Feeds(s, e, blank);
            if feeds == [] then Matches(P.Step(s, e), Shown(s, e, screen, blank), r)
            else |feeds| == 1 && Matches(P.Step(s, e), Shown(s, e, screen, blank), R.Advance(r, feeds[0]))
  {
  }

  lemma {:induction false} StepFeedsRaster(s: P.Stream, e: P.Event, screen: R.Picture, r: R.State, blank: R.Picture)
    requires Matches(s, screen, r) && R.Covers(blank, r.size)
    requires s.link.mode == Some(Progressive) && P.Step(s, e).link.mode == Some(Progressive)
    requires R.ValidRun(r, Feeds(s, e, blank))
    ensures Matches(P.Step(s, e), Shown(s, e, screen, blank), R.Run(r, Feeds(s, e, blank)))
  {
    var feeds := Feeds(s, e, blank);
    if feeds != [] {
      OneFeed(r, feeds[0]);
      assert feeds == [feeds[0]];
    }
    if e.BeginSend? {
      BeginFeedsRaster(s, e, screen, r, blank);
    } else if !e.Submit? {
      OthersFeedRaster(s, e, screen, r, blank);
    } else if s.thread.Sending? {
      SubmitFeedsRaster(s, e.wire, screen, r, blank);
    }
  }

  lemma {:induction false} PaintIsOverlay(screen: R.Picture, f: Frame, size: Size)
    requires R.IsRaster(f, size) && R.Covers(screen, size)
    ensures R.Painted(screen, f, size) == Overlaid(screen, f)
  {
  }

  lemma {:induction false} ValidSplit(r: R.State, first: seq<R.Feed>, rest: seq<R.Feed>)
    requires R.WellFormed(r) && R.ValidRun(r, first + rest)
    ensures R.ValidRun(r, first) && R.ValidRun(R.Run(r, first), rest)
    ensures R.Run(r, first + rest) == R.Run(R.Run(r, first), rest)
    decreases |first|
  {
    if first == [] {
      assert first + rest == rest;
    } else {
      assert (first + rest)[0] == first[0] && (first + rest)[1..] == first[1..] + rest;
      ValidSplit(R.Advance(r, first[0]), first[1..], rest);
    }
  }

  /** Every raster run of the pipeline is a run of the raster path, queue, frame in flight and screen. */
  lemma {:induction false} RunFeedsRaster(s: P.Stream, events: seq<P.Event>, screen: R.Picture, r: R.State, blank: R.Picture)
    requires Matches(s, screen, r) && R.Covers(blank, r.size) && StaysIn(Progressive, s, events)
    requires R.ValidRun(r, AllFeeds(s, events, blank))
    ensures Matches(P.Run(s, events), ShownAfter(s, events, screen, blank), R.Run(r, AllFeeds(s, events, blank)))
    decreases |events|
  {
    if events != [] {
      var s', rest := P.Step(s, events[0]), events[1..];
      ValidSplit(r, Feeds(s, events[0], blank), AllFeeds(s', rest, blank));
      StepFeedsRaster(s, events[0], screen, r, blank);
      RunFeedsRaster(s', rest, Shown(s, events[0], screen, blank), R.Run(r, Feeds(s, events[0], blank)), blank);
    }
  }

  /**
   So an up-to-date client of the pipeline, if no frame is refused or fails and no surface is
   replaced, shows the newest accepted frame whenever none waits and none is in flight.
   */
  lemma {:induction false} PipelineShowsNewest(s: P.Stream, events: seq<P.Event>, screen: R.Picture, r: R.State, blank: R.Picture)
    requires Matches(s, screen, r) && R.Covers(blank, r.size) && StaysIn(Progressive, s, events)
    requires R.ValidRun(r, AllFeeds(s, events, blank)) && R.NothingLost(AllFeeds(s, events, blank)) && R.Synced(r)
    ensures var end := P.Run(s, events);
            end.intake.queue == [] && P.FrameOf(end.thread).None? ==>
              ShownAfter(s, events, screen, blank) == R.Run(r, AllFeeds(s, events, blank)).latest
  {
    RunFeedsRaster(s, events, screen, r, blank);
    R.CoalescingIsInvisible(r, AllFeeds(s, events, blank));
  }
}
