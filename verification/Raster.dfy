/**
 The raster path: frames are coalesced in the queue, taken by the submission thread and
 sent as repaints of what was damaged (src/VideoStream.cpp, src/VideoStreamSurface.cpp).
 The client is the picture it shows; the producer promises that a frame differs from the
 one before it only inside its own damage.
 */
module Raster {
  import opened Wrappers
  import opened Frames

  type Picture = map<Pixel, Color>

  /**
   A frame arrives; the submission thread takes the queued one, and paints or drops it.
   Before it does it may have to make a new surface, which shows whatever it shows.
   */
  datatype Feed = Arrive(frame: Frame) | Take | Paint | Drop | Reset(surface: Picture)

  /** `latest` is the picture of the newest frame that arrived. */
  datatype State = State(size: Size, queue: seq<Frame>, held: Option<Frame>, screen: Picture, latest: Picture)

  ghost predicate Covers(picture: Picture, size: Size) {
    forall p :: p in picture <==> InSize(p, size)
  }

  ghost predicate IsRaster(f: Frame, size: Size) {
    f.size == size && f.image.Some? && Covers(f.image.value, size)
  }

  /** The producer's promise about a new frame. */
  ghost predicate Follows(latest: Picture, f: Frame, size: Size) {
    && IsRaster(f, size)
    && (forall p :: InSize(p, size) && !InRegion(p, f.damage) && p in latest ==> f.image.value[p] == latest[p])
  }

  /** Submitting a frame copies it where it has to repaint. */
  ghost function Painted(screen: Picture, f: Frame, size: Size): (r: Picture)
    requires IsRaster(f, size) && Covers(screen, size)
    ensures Covers(r, size)
  {
    map p | p in screen :: if Repaints(p, f.damage, size) then f.image.value[p] else screen[p]
  }

  predicate InQueue(s: State, p: Pixel) {
    s.queue != [] && InRegion(p, s.queue[0].damage)
  }

  /** What has changed since a frame was taken is in the queue. */
  ghost predicate HeldIsCurrent(s: State)
    requires s.held.Some? ==> IsRaster(s.held.value, s.size)
    requires Covers(s.latest, s.size)
  {
    s.held.Some? ==> forall p :: InSize(p, s.size) && s.held.value.image.value[p] != s.latest[p] ==> InQueue(s, p)
  }

  ghost predicate WellFormed(s: State) {
    && Covers(s.screen, s.size) && Covers(s.latest, s.size)
    && |s.queue| <= 1
    && (s.queue != [] ==> IsRaster(s.queue[0], s.size) && s.queue[0].image.value == s.latest)
    && (s.held.Some? ==> IsRaster(s.held.value, s.size))
    && HeldIsCurrent(s)
  }

  ghost predicate Valid(s: State, e: Feed) {
    && (e.Arrive? ==> Follows(s.latest, e.frame, s.size))
    && (e.Reset? ==> Covers(e.surface, s.size))
  }

  ghost function Arrived(s: State, f: Frame): (r: State)
    requires WellFormed(s) && Follows(s.latest, f, s.size)
    ensures WellFormed(r) && r.size == s.size
    ensures forall p :: InQueue(r, p) <==> InQueue(s, p) || InRegion(p, f.damage)
  {
    var r := s.(queue := Enqueue(Progressive, s.queue, f), latest := f.image.value);
    assert forall p :: InQueue(r, p) <==> InQueue(s, p) || InRegion(p, f.damage) by {
      forall p {
        RegionUnion(p, f.damage, if s.queue == [] then [] else s.queue[0].damage);
      }
    }
    r
  }

  ghost function Advance(s: State, e: Feed): (r: State)
    requires WellFormed(s) && Valid(s, e)
    ensures WellFormed(r) && r.size == s.size
  {
    match e
    case Arrive(f) => Arrived(s, f)
    case Take => if s.queue == [] || s.held.Some? then s else s.(queue := s.queue[1..], held := Some(s.queue[0]))
    case Paint => if s.held.None? then s else s.(held := None, screen := Painted(s.screen, s.held.value, s.size))
    case Drop => s.(held := None)
    case Reset(surface) => if s.held.None? then s else s.(screen := surface)
  }

  ghost predicate ValidRun(s: State, events: seq<Feed>)
    requires WellFormed(s)
    decreases |events|
  {
    events == [] || (Valid(s, events[0]) && ValidRun(Advance(s, events[0]), events[1..]))
  }

  ghost function Run(s: State, events: seq<Feed>): (r: State)
    requires WellFormed(s) && ValidRun(s, events)
    ensures WellFormed(r) && r.size == s.size
    decreases |events|
  {
    if events == [] then s else Run(Advance(s, events[0]), events[1..])
  }

  /** The reference: every frame that arrives is sent on its own, at once. */
  ghost function SendSingly(s: State, screen: Picture, events: seq<Feed>): (r: Picture)
    requires WellFormed(s) && ValidRun(s, events) && Covers(screen, s.size)
    ensures Covers(r, s.size)
    decreases |events|
  {
    if events == [] then screen
    else
      SendSingly(Advance(s, events[0]),
                 if events[0].Arrive? then Painted(screen, events[0].frame, s.size) else screen, events[1..])
  }

  /** No frame is dropped and no surface replaced. */
  predicate NothingLost(events: seq<Feed>) {
    forall k :: 0 <= k < |events| ==> !events[k].Drop? && !events[k].Reset?
  }

  /** What the client shows once the frames held and queued, if any, have been sent. */
  ghost function Flushed(s: State): Picture
    requires WellFormed(s)
  {
    Advance(Advance(Advance(s, Paint), Take), Paint).screen
  }

  // ------------------------------------------- what the client shows, exactly

  /** The pixel is repainted by what is held or queued now. */
  ghost predicate Due(s: State, p: Pixel) {
    || (s.held.Some? && Repaints(p, s.held.value.damage, s.size))
    || (s.queue != [] && Repaints(p, s.queue[0].damage, s.size))
  }

  lemma {:induction false} FlushedShowsDue(s: State, p: Pixel)
    requires WellFormed(s) && InSize(p, s.size)
    ensures p in Flushed(s) && Flushed(s)[p] == if Due(s, p) then s.latest[p] else s.screen[p]
  {
  }

  /** The pixel is repainted by some frame painted during the run, or by what is left at its end. */
  ghost predicate Covered(s: State, events: seq<Feed>, p: Pixel)
    requires WellFormed(s) && ValidRun(s, events)
    decreases |events|
  {
    if events == [] then Due(s, p)
    else
      || (events[0].Paint? && s.held.Some? && Repaints(p, s.held.value.damage, s.size))
      || Covered(Advance(s, events[0]), events[1..], p)
  }

  /** The pixel is damaged in the queue, or repainted by the frame held: no merging loses it. */
  ghost predicate Owed(s: State, p: Pixel) {
    InSize(p, s.size) && (InQueue(s, p) || (s.held.Some? && Repaints(p, s.held.value.damage, s.size)))
  }

  lemma {:induction false} OwedIsCovered(s: State, events: seq<Feed>, p: Pixel)
    requires WellFormed(s) && ValidRun(s, events) && NothingLost(events) && Owed(s, p)
    ensures Covered(s, events, p)
    decreases |events|
  {
    if events != [] && !(events[0].Paint? && s.held.Some? && Repaints(p, s.held.value.damage, s.size)) {
      OwedIsCovered(Advance(s, events[0]), events[1..], p);
    }
  }

  /**
   From any picture whatsoever: after a run, what has been repainted shows the newest
   frame, and what has not is as it was, and has not changed in the newest frame either.
   */
  lemma {:induction false} RunShowsCovered(s: State, events: seq<Feed>, p: Pixel)
    requires WellFormed(s) && ValidRun(s, events) && NothingLost(events) && InSize(p, s.size)
    ensures var end, shown := Run(s, events), Flushed(Run(s, events));
            && p in shown && shown[p] == (if Covered(s, events, p) then end.latest[p] else s.screen[p])
            && (!Covered(s, events, p) ==> end.latest[p] == s.latest[p])
    decreases |events|
  {
    if events == [] {
      FlushedShowsDue(s, p);
    } else {
      var s', rest := Advance(s, events[0]), events[1..];
      RunShowsCovered(s', rest, p);
      if !Covered(s', rest, p) {
        if Owed(s', p) {
          OwedIsCovered(s', rest, p);
        }
        UnowedStepShows(s, events[0], p);
      }
    }
  }

  /** What one event does to a pixel that is not owed after it. */
  lemma {:induction false} UnowedStepShows(s: State, e: Feed, p: Pixel)
    requires WellFormed(s) && Valid(s, e) && !e.Drop? && !e.Reset? && InSize(p, s.size)
    requires !Owed(Advance(s, e), p)
    ensures var s' := Advance(s, e);
            && s'.latest[p] == s.latest[p]
            && s'.screen[p] == if e.Paint? && s.held.Some? && Repaints(p, s.held.value.damage, s.size)
                               then s.latest[p] else s.screen[p]
  {
  }

  /** A pixel ends up stale exactly if it was wrong to begin with and nothing repaints it. */
  lemma {:induction false} StaleExactly(s: State, events: seq<Feed>, p: Pixel)
    requires WellFormed(s) && ValidRun(s, events) && NothingLost(events) && InSize(p, s.size)
    ensures var end, shown := Run(s, events), Flushed(Run(s, events));
            p in shown && (shown[p] != end.latest[p] <==> !Covered(s, events, p) && s.screen[p] != s.latest[p])
  {
    RunShowsCovered(s, events, p);
  }

  // ------------------------------------------- when frames have damage inside

  ghost predicate AllTouch(s: State, events: seq<Feed>) {
    && (s.queue != [] ==> Touches(s.queue[0].damage, s.size))
    && forall k :: 0 <= k < |events| && events[k].Arrive? ==> Touches(events[k].frame.damage, s.size)
  }

  predicate DamagedIn(events: seq<Feed>, p: Pixel) {
    exists k :: 0 <= k < |events| && events[k].Arrive? && InRegion(p, events[k].frame.damage)
  }

  lemma {:induction false} TouchesStay(s: State, events: seq<Feed>)
    requires WellFormed(s) && ValidRun(s, events) && events != [] && AllTouch(s, events)
    ensures AllTouch(Advance(s, events[0]), events[1..])
  {
    var s' := Advance(s, events[0]);
    if events[0].Arrive? {
      var q :| InSize(q, s.size) && InRegion(q, events[0].frame.damage);
      assert InQueue(s', q);
    }
  }

  lemma {:induction false} DamagedFirstOrLater(events: seq<Feed>, p: Pixel)
    requires events != []
    ensures DamagedIn(events, p)
            <==> (events[0].Arrive? && InRegion(p, events[0].frame.damage)) || DamagedIn(events[1..], p)
  {
    var rest := events[1..];
    if DamagedIn(rest, p) {
      var k :| 0 <= k < |rest| && rest[k].Arrive? && InRegion(p, rest[k].frame.damage);
      assert events[k + 1] == rest[k];
    }
    if DamagedIn(events, p) {
      var k :| 0 <= k < |events| && events[k].Arrive? && InRegion(p, events[k].frame.damage);
      assert k > 0 ==> rest[k - 1] == events[k];
    }
  }

  /** If no frame has empty damage, what a run repaints is what was due and what is damaged in it. */
  lemma {:induction false} CoveredIsDamaged(s: State, events: seq<Feed>, p: Pixel)
    requires WellFormed(s) && ValidRun(s, events) && NothingLost(events) && InSize(p, s.size)
    requires AllTouch(s, events)
    ensures Covered(s, events, p) <==> Due(s, p) || DamagedIn(events, p)
    decreases |events|
  {
    if events != [] {
      TouchesStay(s, events);
      DamagedFirstOrLater(events, p);
      CoveredIsDamaged(Advance(s, events[0]), events[1..], p);
      DueAfter(s, events[0], p);
    }
  }

  /** How one event changes what is due. */
  lemma {:induction false} DueAfter(s: State, e: Feed, p: Pixel)
    requires WellFormed(s) && Valid(s, e) && !e.Drop? && !e.Reset? && InSize(p, s.size)
    requires s.queue != [] ==> Touches(s.queue[0].damage, s.size)
    requires e.Arrive? ==> Touches(e.frame.damage, s.size)
    ensures Due(s, p) || (e.Arrive? && InRegion(p, e.frame.damage))
            <==> Due(Advance(s, e), p) || (e.Paint? && s.held.Some? && Repaints(p, s.held.value.damage, s.size))
  {
    var s' := Advance(s, e);
    if e.Arrive? {
      var q :| InSize(q, s.size) && InRegion(q, e.frame.damage);
      assert InQueue(s', q) && Touches(s'.queue[0].damage, s.size);
      assert InQueue(s', p) <==> InQueue(s, p) || InRegion(p, e.frame.damage);
    }
  }

  // ------------------------------------------------ a client that is up to date

  /** Where the client differs from the newest frame is damaged in the queue or repainted by the frame held. */
  ghost predicate Synced(s: State)
    requires WellFormed(s)
  {
    forall p :: InSize(p, s.size) && s.screen[p] != s.latest[p] ==> Owed(s, p)
  }

  ghost predicate UpToDate(s: State)
    requires WellFormed(s)
  {
    Flushed(s) == s.latest
  }

  /** Sending a frame singly to an up-to-date client keeps it up to date. */
  lemma {:induction false} SingleKeepsLatest(latest: Picture, f: Frame, size: Size)
    requires Covers(latest, size) && Follows(latest, f, size)
    ensures Painted(latest, f, size) == f.image.value
  {
  }

  lemma {:induction false} SingleSendFollows(s: State, e: Feed)
    requires WellFormed(s) && Valid(s, e)
    ensures Advance(s, e).latest == if e.Arrive? then Painted(s.latest, e.frame, s.size) else s.latest
  {
    if e.Arrive? {
      SingleKeepsLatest(s.latest, e.frame, s.size);
    }
  }

  lemma {:induction false} SingleSendsShowLatest(s: State, events: seq<Feed>)
    requires WellFormed(s) && ValidRun(s, events)
    ensures SendSingly(s, s.latest, events) == Run(s, events).latest
    decreases |events|
  {
    if events != [] {
      SingleSendFollows(s, events[0]);
      SingleSendsShowLatest(Advance(s, events[0]), events[1..]);
    }
  }

  /**
   For every interleaving of arrivals, takes and paints, frames in flight included, an
   up-to-date client ends with the newest frame on screen, as if each had been sent singly.
   */
  lemma {:induction false} CoalescingIsInvisible(s: State, events: seq<Feed>)
    requires WellFormed(s) && Synced(s) && ValidRun(s, events) && NothingLost(events)
    ensures var end := Run(s, events);
            UpToDate(end) && Flushed(end) == SendSingly(s, s.latest, events)
  {
    SyncedRunIsUpToDate(s, events);
    SingleSendsShowLatest(s, events);
  }

  lemma {:induction false} SyncedPixelIsShown(s: State, events: seq<Feed>, p: Pixel)
    requires WellFormed(s) && Synced(s) && ValidRun(s, events) && NothingLost(events) && InSize(p, s.size)
    ensures p in Flushed(Run(s, events)) && Flushed(Run(s, events))[p] == Run(s, events).latest[p]
  {
    StaleExactly(s, events, p);
    if s.screen[p] != s.latest[p] {
      OwedIsCovered(s, events, p);
    }
  }

  lemma {:induction false} SyncedRunIsUpToDate(s: State, events: seq<Feed>)
    requires WellFormed(s) && Synced(s) && ValidRun(s, events) && NothingLost(events)
    ensures UpToDate(Run(s, events))
  {
    var shown, latest := Flushed(Run(s, events)), Run(s, events).latest;
    FlushedCovers(Run(s, events));
    forall p | InSize(p, s.size)
      ensures p in shown && shown[p] == latest[p]
    {
      SyncedPixelIsShown(s, events, p);
    }
    SamePicture(shown, latest, s.size);
  }

  lemma {:induction false} SamePicture(a: Picture, b: Picture, size: Size)
    requires Covers(a, size) && Covers(b, size)
    requires forall p :: InSize(p, size) ==> p in a && p in b && a[p] == b[p]
    ensures a == b
  {
  }

  lemma {:induction false} FlushedCovers(s: State)
    requires WellFormed(s)
    ensures Covers(Flushed(s), s.size)
  {
  }

  /**
   A frame that is dropped costs an up-to-date client, for good, exactly those of its
   pixels that were news and that no frame afterwards repaints.
   */
  lemma {:induction false} DropLosesExactlyUnseenDamage(s: State, events: seq<Feed>, p: Pixel)
    requires WellFormed(s) && Synced(s) && s.held.Some? && ValidRun(s, [Drop] + events) && NothingLost(events)
    requires InSize(p, s.size)
    ensures Advance(s, Drop) == s.(held := None) && ValidRun(s.(held := None), events)
    ensures var end := Run(s.(held := None), events);
            && p in Flushed(end)
            && (Flushed(end)[p] != end.latest[p] <==>
                  && s.screen[p] != s.latest[p] && Repaints(p, s.held.value.damage, s.size)
                  && !Covered(s.(held := None), events, p))
  {
    var dropped := Advance(s, Drop);
    assert ([Drop] + events)[1..] == events;
    StaleExactly(dropped, events, p);
    if s.screen[p] != s.latest[p] && InQueue(s, p) {
      OwedIsCovered(dropped, events, p);
    }
  }

  /**
   After a drop, with frames that all have damage inside, the client is up to date again
   exactly when every pixel that was news has been damaged in the queue or since.
   */
  lemma {:induction false} DropHealsWhenRedrawn(s: State, events: seq<Feed>)
    requires WellFormed(s) && Synced(s) && s.held.Some? && ValidRun(s, [Drop] + events) && NothingLost(events)
    requires AllTouch(s.(held := None), events)
    ensures Advance(s, Drop) == s.(held := None) && ValidRun(s.(held := None), events)
    ensures UpToDate(Run(s.(held := None), events)) <==>
            forall p :: InSize(p, s.size) && s.screen[p] != s.latest[p] ==> InQueue(s, p) || DamagedIn(events, p)
  {
    var dropped := Advance(s, Drop);
    assert ([Drop] + events)[1..] == events;
    RedrawnExactly(dropped, events);
    forall p | InSize(p, s.size)
      ensures Due(dropped, p) <==> InQueue(s, p)
    {
    }
  }

  /** From any picture, the client is up to date exactly when every wrong pixel was due or is damaged in the run. */
  lemma {:induction false} RedrawnExactly(s: State, events: seq<Feed>)
    requires WellFormed(s) && ValidRun(s, events) && NothingLost(events) && AllTouch(s, events)
    ensures UpToDate(Run(s, events)) <==>
            forall p :: InSize(p, s.size) && s.screen[p] != s.latest[p] ==> Due(s, p) || DamagedIn(events, p)
  {
    var shown, latest := Flushed(Run(s, events)), Run(s, events).latest;
    FlushedCovers(Run(s, events));
    forall p | InSize(p, s.size)
      ensures p in shown && (shown[p] == latest[p] <==> (s.screen[p] != s.latest[p] ==> Due(s, p) || DamagedIn(events, p)))
    {
      RedrawnPixel(s, events, p);
    }
    if forall p :: InSize(p, s.size) && s.screen[p] != s.latest[p] ==> Due(s, p) || DamagedIn(events, p) {
      SamePicture(shown, latest, s.size);
    }
  }

  lemma {:induction false} RedrawnPixel(s: State, events: seq<Feed>, p: Pixel)
    requires WellFormed(s) && ValidRun(s, events) && NothingLost(events) && AllTouch(s, events) && InSize(p, s.size)
    ensures var end, shown := Run(s, events), Flushed(Run(s, events));
            p in shown && (shown[p] == end.latest[p] <==> (s.screen[p] != s.latest[p] ==> Due(s, p) || DamagedIn(events, p)))
  {
    StaleExactly(s, events, p);
    CoveredIsDamaged(s, events, p);
  }

  /**
   A new surface, made while a frame is held, shows something of its own. The client is
   up to date exactly when every pixel in which that differs from the newest frame is
   repainted by the frame held, damaged in the queue, or damaged later.
   */
  lemma {:induction false} SurfaceShowsNewestWhenRedrawn(s: State, surface: Picture, events: seq<Feed>)
    requires WellFormed(s) && s.held.Some? && Covers(surface, s.size)
    requires ValidRun(s, [Reset(surface)] + events) && NothingLost(events) && AllTouch(s, events)
    ensures Advance(s, Reset(surface)) == s.(screen := surface) && ValidRun(s.(screen := surface), events)
    ensures UpToDate(Run(s.(screen := surface), events)) <==>
            forall p :: InSize(p, s.size) && surface[p] != s.latest[p] ==>
              Repaints(p, s.held.value.damage, s.size) || InQueue(s, p) || DamagedIn(events, p)
  {
    var made := Advance(s, Reset(surface));
    assert ([Reset(surface)] + events)[1..] == events;
    RedrawnExactly(made, events);
    forall p | InSize(p, s.size)
      ensures Due(made, p) <==> Repaints(p, s.held.value.damage, s.size) || InQueue(s, p)
    {
    }
  }

  // ------------------------------------------------- whatever the client shows

  /** From any picture at all, coalescing gives what single sends give if no frame has empty damage. */
  lemma {:induction false} CoalescingEqualsSingleSends(s: State, events: seq<Feed>)
    requires WellFormed(s) && ValidRun(s, events) && NothingLost(events) && AllTouch(s, events)
    ensures Covers(Flushed(s), s.size) && Flushed(Run(s, events)) == SendSingly(s, Flushed(s), events)
    decreases |events|
  {
    FlushedCovers(s);
    if events != [] {
      TouchesStay(s, events);
      FlushedFollows(s, events[0]);
      CoalescingEqualsSingleSends(Advance(s, events[0]), events[1..]);
    }
  }

  /** An arrival adds to what will be shown as a single send would; nothing else changes it. */
  lemma {:induction false} FlushedFollows(s: State, e: Feed)
    requires WellFormed(s) && Valid(s, e) && !e.Drop? && !e.Reset? && Covers(Flushed(s), s.size)
    requires s.queue != [] ==> Touches(s.queue[0].damage, s.size)
    requires e.Arrive? ==> Touches(e.frame.damage, s.size)
    ensures Flushed(Advance(s, e)) == if e.Arrive? then Painted(Flushed(s), e.frame, s.size) else Flushed(s)
  {
    var shown := Flushed(Advance(s, e));
    var single := if e.Arrive? then Painted(Flushed(s), e.frame, s.size) else Flushed(s);
    FlushedCovers(Advance(s, e));
    forall p | InSize(p, s.size)
      ensures p in shown && p in single && shown[p] == single[p]
    {
      FlushedPixelFollows(s, e, p);
    }
    SamePicture(shown, single, s.size);
  }

  lemma {:induction false} FlushedPixelFollows(s: State, e: Feed, p: Pixel)
    requires WellFormed(s) && Valid(s, e) && !e.Drop? && !e.Reset? && InSize(p, s.size)
    requires s.queue != [] ==> Touches(s.queue[0].damage, s.size)
    requires e.Arrive? ==> Touches(e.frame.damage, s.size)
    ensures p in Flushed(s) && p in Flushed(Advance(s, e))
    ensures Flushed(Advance(s, e))[p]
            == if e.Arrive? && Repaints(p, e.frame.damage, s.size) then e.frame.image.value[p] else Flushed(s)[p]
  {
    FlushedShowsDue(s, p);
    FlushedShowsDue(Advance(s, e), p);
    FlushStep(s, e, p);
  }

  lemma {:induction false} FlushStep(s: State, e: Feed, p: Pixel)
    requires WellFormed(s) && Valid(s, e) && !e.Drop? && !e.Reset? && InSize(p, s.size)
    requires s.queue != [] ==> Touches(s.queue[0].damage, s.size)
    requires e.Arrive? ==> Touches(e.frame.damage, s.size)
    ensures var s' := Advance(s, e);
            (if Due(s', p) then s'.latest[p] else s'.screen[p])
            == if e.Arrive? && InRegion(p, e.frame.damage) then e.frame.image.value[p]
               else if Due(s, p) then s.latest[p] else s.screen[p]
  {
    DueAfter(s, e, p);
  }

  // ------------------------------------------------------ two frames, exactly

  /** The frames both have damage inside the picture, or neither has, or their damage fills it. */
  ghost predicate Mergeable(f: Frame, g: Frame, size: Size) {
    || (Touches(f.damage, size) <==> Touches(g.damage, size))
    || (forall p :: InSize(p, size) ==> InRegion(p, g.damage + f.damage))
  }

  /** The merged frame repaints exactly what the two repaint. */
  ghost predicate MergeRepaintsBoth(f: Frame, g: Frame, size: Size) {
    forall p :: Repaints(p, g.damage + f.damage, size) <==> Repaints(p, f.damage, size) || Repaints(p, g.damage, size)
  }

  lemma {:induction false} MergedTouches(f: Frame, g: Frame, size: Size)
    ensures Touches(g.damage + f.damage, size) <==> Touches(g.damage, size) || Touches(f.damage, size)
    ensures forall p :: InRegion(p, g.damage + f.damage) <==> InRegion(p, g.damage) || InRegion(p, f.damage)
  {
    forall p
      ensures InRegion(p, g.damage + f.damage) <==> InRegion(p, g.damage) || InRegion(p, f.damage)
    {
      RegionUnion(p, g.damage, f.damage);
    }
    if Touches(g.damage, size) {
      var p :| InSize(p, size) && InRegion(p, g.damage);
      assert InRegion(p, g.damage + f.damage);
    }
    if Touches(f.damage, size) {
      var p :| InSize(p, size) && InRegion(p, f.damage);
      assert InRegion(p, g.damage + f.damage);
    }
  }

  lemma {:induction false} MergeableMeansSameRepaints(f: Frame, g: Frame, size: Size)
    ensures MergeRepaintsBoth(f, g, size) <==> Mergeable(f, g, size)
  {
    MergedTouches(f, g, size);
    if !Mergeable(f, g, size) {
      var p :| InSize(p, size) && !InRegion(p, g.damage + f.damage);
      assert !Repaints(p, g.damage + f.damage, size);
      assert Repaints(p, f.damage, size) || Repaints(p, g.damage, size);
    }
  }

  ghost function Merged(f: Frame, g: Frame): Frame {
    Enqueue(Progressive, [f], g)[0]
  }

  /**
   Merging two frames is invisible on every screen exactly when both have damage inside
   the picture, or neither has, or together they damage all of it.
   */
  lemma {:induction false} MergingTwoFramesExactly(f: Frame, g: Frame, size: Size)
    requires IsRaster(f, size) && Follows(f.image.value, g, size)
    ensures Mergeable(f, g, size) <==>
            forall screen :: Covers(screen, size) ==>
              Painted(screen, Merged(f, g), size) == Painted(Painted(screen, f, size), g, size)
  {
    MergeableMeansSameRepaints(f, g, size);
    if Mergeable(f, g, size) {
      forall screen | Covers(screen, size)
        ensures Painted(screen, Merged(f, g), size) == Painted(Painted(screen, f, size), g, size)
      {
        MergeIsInvisible(f, g, size, screen);
      }
    } else {
      var p :| Repaints(p, g.damage + f.damage, size) != (Repaints(p, f.damage, size) || Repaints(p, g.damage, size));
      MergeShows(f, g, size, p);
    }
  }

  lemma {:induction false} MergeIsInvisible(f: Frame, g: Frame, size: Size, screen: Picture)
    requires IsRaster(f, size) && Follows(f.image.value, g, size) && Covers(screen, size)
    requires MergeRepaintsBoth(f, g, size)
    ensures Painted(screen, Merged(f, g), size) == Painted(Painted(screen, f, size), g, size)
  {
    var once, twice := Painted(screen, Merged(f, g), size), Painted(Painted(screen, f, size), g, size);
    forall p | InSize(p, size)
      ensures once[p] == twice[p]
    {
    }
  }

  lemma {:induction false} MergeShows(f: Frame, g: Frame, size: Size, p: Pixel)
    requires IsRaster(f, size) && Follows(f.image.value, g, size)
    requires Repaints(p, g.damage + f.damage, size) != (Repaints(p, f.damage, size) || Repaints(p, g.damage, size))
    ensures exists screen :: Covers(screen, size) &&
              Painted(screen, Merged(f, g), size) != Painted(Painted(screen, f, size), g, size)
  {
    var screen := map q | q in f.image.value :: g.image.value[q] + 1;
    var once, twice := Painted(screen, Merged(f, g), size), Painted(Painted(screen, f, size), g, size);
    assert InSize(p, size);
    if !Repaints(p, g.damage + f.damage, size) {
      assert once[p] == g.image.value[p] + 1;
      assert twice[p] != once[p];
    } else {
      assert twice[p] == g.image.value[p] + 1;
      assert once[p] != twice[p];
    }
  }

  /** Two such frames: one without damage, so sent whole, and one that damages a corner of it. */
  lemma {:induction false} SomeFramesDoNotMerge() returns (f: Frame, g: Frame, size: Size)
    ensures IsRaster(f, size) && Follows(f.image.value, g, size) && !Mergeable(f, g, size)
  {
    size := Size(2, 1);
    var left, right := Pixel(0, 0), Pixel(1, 0);
    var image := map[left := 1, right := 1];
    f := Frame(size, [], Some(image), [], false);
    g := Frame(size, [], Some(image[left := 2]), [Rect(0, 0, 0, 0)], false);
    assert g.damage[0].Contains(left) && !g.damage[0].Contains(right);
    assert forall p :: InSize(p, size) <==> p == left || p == right;
    assert InSize(left, size) && InRegion(left, g.damage);
    assert forall p :: !InRegion(p, f.damage);
    assert InSize(right, size) && !InRegion(right, g.damage + f.damage);
  }
}
