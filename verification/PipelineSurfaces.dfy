/** Surfaces: what the client holds, and that frames only go where it can show them. */
module PipelineSurfaces {
  import opened Wrappers
  import opened Frames
  import opened Pipeline

  /** The record names a surface the client has, mapped, of that size and for that mode; or nothing. */
  predicate Tracks(d: Display, c: Client, mode: Option<EncodingMode>) {
    if d.surface.id == 0 then d.surface == NO_SURFACE
    else Usable(c, d.surface, d.surface.size, ContextId(mode))
  }

  function Current(d: Display): set<nat> {
    if d.surface.id == 0 then {} else {d.surface.id}
  }

  /** As long as every DeleteSurface got through, the client holds the current surface and no other. */
  predicate HoldsOnlyCurrent(d: Display, c: Client) {
    d.undeleted == 0 ==> c.live.Keys == Current(d)
  }

  predicate Good(d: Display, c: Client, mode: Option<EncodingMode>) {
    Tracks(d, c, mode) && HoldsOnlyCurrent(d, c)
  }

  // ---------------------------------------------------------- one reset, exactly

  lemma {:induction false} DestroyLeavesNone(d: Display, c: Client, deleted: bool, mode: Option<EncodingMode>)
    requires Good(d, c, mode)
    ensures var (d', c') := DestroySurface(d, c, deleted);
            && d'.surface == NO_SURFACE && HoldsOnlyCurrent(d', c')
            && d'.nextSurfaceId == d.nextSurfaceId && d'.creates == d.creates && d'.pendingReset == d.pendingReset
            && d'.undeleted == d.undeleted + (if d.surface.id != 0 && !deleted then 1 else 0)
            && c'.fault == c.fault && c'.owed == c.owed
  {
  }

  /** The calls that make a surface with id 0: the counter has wrapped and both calls succeed. */
  predicate MakesSurfaceZero(d: Display, st: ResetStatus) {
    d.nextSurfaceId == 0 && st.reset && st.created
  }

  predicate ResetSucceeds(mode: Option<EncodingMode>, st: ResetStatus) {
    st.reset && st.created && st.mapped && (mode == Some(Progressive) ==> st.context)
  }

  /**
   A reset keeps the record and the client in step exactly when it does not make a
   surface with id 0, which the record takes for none. When it does, a success leaves
   the new surface and a failure none, so that the next frame tries again.
   */
  lemma {:induction false} ResetIsGoodUnlessZero(d: Display, c: Client, mode: Option<EncodingMode>, size: Size, st: ResetStatus)
    requires Good(d, c, mode) && !size.IsEmpty()
    ensures var (d', c') := PerformReset(d, c, mode, size, st);
            && (Good(d', c', mode) <==> !MakesSurfaceZero(d, st))
            && (!MakesSurfaceZero(d, st) ==>
                  d'.surface == if ResetSucceeds(mode, st) then Surface(d.nextSurfaceId, ContextId(mode), size) else NO_SURFACE)
            && d'.nextSurfaceId == (if st.reset then U16(d.nextSurfaceId + 1) else d.nextSurfaceId)
            && d'.creates == d.creates + (if st.reset then 1 else 0)
            && d'.pendingReset == d.pendingReset && c'.fault == c.fault
  {
    DestroyLeavesNone(d, c, st.deleted, mode);
    var (d0, c0) := DestroySurface(d, c, st.deleted);
    if st.reset && st.created {
      var id := d0.nextSurfaceId;
      assert c0.live[id := size].Keys == c0.live.Keys + {id};
    }
  }

  /** A reset that makes surface 0 leaves it in the record, even when its context or its mapping fails. */
  lemma {:induction false} SurfaceZeroIsRecorded(d: Display, c: Client, mode: Option<EncodingMode>, size: Size, st: ResetStatus)
    requires MakesSurfaceZero(d, st)
    ensures PerformReset(d, c, mode, size, st).0.surface == Surface(0, ContextId(mode), size)
  {
  }

  // ------------------------------------------------------- after surface 0, for good

  /** Surface 0 is recorded, no reset is due, and every frame on its way has its size. */
  predicate AtSurfaceZero(s: Stream, size: Size) {
    && s.display.surface.id == 0 && s.display.surface.size == size && !s.display.pendingReset
    && (forall i :: 0 <= i < |s.intake.queue| ==> s.intake.queue[i].size == size)
    && (FrameOf(s.thread).Some? ==> FrameOf(s.thread).value.size == size)
  }

  /** A frame of another size, a reset, an advertisement or the end. */
  predicate MayReset(e: Event, size: Size) {
    (e.FrameArrives? && e.frame.size != size) || e.RequestReset? || e.CapsAdvertise? || e.CloseStream?
  }

  lemma {:induction false} ArrivalKeepsSizes(s: Stream, f: Frame, size: Size)
    requires AtSurfaceZero(s, size) && f.size == size
    ensures AtSurfaceZero(FrameArrived(s, f), size)
  {
  }

  lemma {:induction false} StepStaysAtZero(s: Stream, e: Event, size: Size)
    requires AtSurfaceZero(s, size) && !MayReset(e, size)
    ensures var s' := Step(s, e);
            AtSurfaceZero(s', size) && s'.client.painted == s.client.painted && s'.client.owed <= s.client.owed
  {
    if e.FrameArrives? {
      ArrivalKeepsSizes(s, e.frame, size);
    }
  }

  /**
   Once surface 0 is recorded, nothing is shown any more: over every run until a frame of
   another size, a reset, an advertisement or the end, no frame is painted or submitted.
   */
  lemma {:induction false} SurfaceZeroRefusesFrames(s: Stream, events: seq<Event>, size: Size)
    requires AtSurfaceZero(s, size)
    requires forall k :: 0 <= k < |events| ==> !MayReset(events[k], size)
    ensures var end := Run(s, events);
            AtSurfaceZero(end, size) && end.client.painted == s.client.painted && end.client.owed <= s.client.owed
    decreases |events|
  {
    if events != [] {
      StepStaysAtZero(s, events[0], size);
      SurfaceZeroRefusesFrames(Step(s, events[0]), events[1..], size);
    }
  }

  // --------------------------------------------------------------- invariant

  /** The surface counter, and how many surfaces can be asked for before it wraps. */
  predicate Counted(d: Display) {
    d.nextSurfaceId == U16(1 + d.creates)
  }

  /** A frame on its way has the size of the surface it is going to, if there is one. */
  predicate SizesMatch(t: Thread, d: Display) {
    match t
    case Ready(f) => d.surface.id == 0 || d.surface.size == f.size
    case Sending(f, _) => d.surface.id == 0 || d.surface.size == f.size
    case _ => true
  }

  predicate HeldFramesHaveSize(s: Stream) {
    s.thread.Holding? ==> !s.thread.frame.size.IsEmpty()
  }

  /** Before capabilities are confirmed, and after the stream is closed, there is no surface. */
  predicate NoSurfaceUnconfirmed(s: Stream) {
    && (!s.link.capsConfirmed || s.link.mode.None? ==> s.display.surface == NO_SURFACE)
    && (!s.link.handshake.Settled? ==> !s.link.capsConfirmed)
  }

  predicate Consistent(s: Stream) {
    && Counted(s.display) && HeldFramesHaveSize(s)
    && (s.display.creates < 0xffff + 1 ==>
          && Good(s.display, s.client, s.link.mode)
          && SizesMatch(s.thread, s.display)
          && NoSurfaceUnconfirmed(s)
          && !s.client.fault)
  }

  lemma {:induction false} CounterNotZero(d: Display)
    requires Counted(d) && d.creates < 0xffff
    ensures d.nextSurfaceId != 0
  {
  }

  lemma {:induction false} ResetCounts(d: Display, c: Client, mode: Option<EncodingMode>, size: Size, st: ResetStatus)
    requires Counted(d)
    ensures var d' := PerformReset(d, c, mode, size, st).0;
            Counted(d') && d.creates <= d'.creates <= d.creates + 1 && d'.pendingReset == d.pendingReset
  {
    var d0 := DestroySurface(d, c, st.deleted).0;
    assert d0.nextSurfaceId == d.nextSurfaceId && d0.creates == d.creates;
    assert U16(U16(1 + d.creates) + 1) == U16(2 + d.creates);
  }

  lemma {:induction false} ResetStaysGood(d: Display, c: Client, mode: Option<EncodingMode>, size: Size, st: ResetStatus)
    requires Counted(d) && Good(d, c, mode) && !size.IsEmpty()
    requires PerformReset(d, c, mode, size, st).0.creates <= 0xffff
    ensures var (d', c') := PerformReset(d, c, mode, size, st);
            && Good(d', c', mode) && (d'.surface.id == 0 || d'.surface.size == size) && c'.fault == c.fault
  {
    ResetIsGoodUnlessZero(d, c, mode, size, st);
    if st.reset {
      CounterNotZero(d);
    }
  }

  lemma {:induction false} PrepareStaysGood(d: Display, c: Client, mode: Option<EncodingMode>, size: Size, first: ResetStatus, second: ResetStatus)
    requires Counted(d) && !size.IsEmpty()
    ensures var (d', c') := Prepare(d, c, mode, size, first, second);
            && Counted(d') && d.creates <= d'.creates
            && (d'.creates <= 0xffff && Good(d, c, mode) ==>
                  Good(d', c', mode) && (d'.surface.id == 0 || d'.surface.size == size) && c'.fault == c.fault)
  {
    var d0 := d.(pendingReset := false);
    ResetCounts(d0, c, mode, size, first);
    var (d1, c1) := if d.pendingReset then PerformReset(d0, c, mode, size, first) else (d, c);
    ResetCounts(d1, c1, mode, size, second);
    if Prepare(d, c, mode, size, first, second).0.creates <= 0xffff && Good(d, c, mode) {
      if d.pendingReset {
        ResetStaysGood(d0, c, mode, size, first);
      }
      if d1.surface.size != size {
        ResetStaysGood(d1, c1, mode, size, second);
      }
    }
  }

  lemma {:induction false} BeginKeepsConsistent(s: Stream, e: Event)
    requires Consistent(s) && e.BeginSend?
    ensures Consistent(Step(s, e))
  {
    if s.thread.Holding? && !Refuses(s.link, e.writeBlocked) {
      PrepareStaysGood(s.display, s.client, s.link.mode, s.thread.frame.size, e.first, e.second);
    }
  }

  lemma {:induction false} SubmitKeepsConsistent(s: Stream, w: Wire)
    requires Consistent(s)
    ensures Consistent(Submitted(s, w))
  {
  }

  lemma {:induction false} ChannelResetIsGood(s: Stream, deleted: bool)
    requires s.link.capsConfirmed && Good(s.display, s.client, s.link.mode)
    ensures var s' := ChannelReset(s, deleted);
            && s'.display.surface == NO_SURFACE && s'.display.pendingReset && HoldsOnlyCurrent(s'.display, s'.client)
            && s'.display.nextSurfaceId == s.display.nextSurfaceId && s'.display.creates == s.display.creates
            && s'.client.fault == s.client.fault && s'.thread == s.thread
  {
    DestroyLeavesNone(s.display.(pendingReset := true), s.client, deleted, s.link.mode);
  }

  /** A second advertisement leaves no surface, a reset to be made, and everything in step. */
  lemma {:induction false} AdvertiseKeepsConsistent(s: Stream, e: Event)
    requires Consistent(s) && e.CapsAdvertise?
    ensures Consistent(Step(s, e))
    ensures s.link.capsConfirmed && s.link.handshake.Settled? && s.display.creates <= 0xffff ==>
              var s' := Step(s, e);
              s'.display.surface == NO_SURFACE && s'.display.pendingReset && !s'.link.capsConfirmed
  {
    if s.link.handshake.Settled? && s.link.capsConfirmed && s.display.creates <= 0xffff {
      ChannelResetIsGood(s, e.deleted);
    }
  }

  lemma {:induction false} ChoiceKeepsConsistent(s: Stream)
    requires Consistent(s)
    ensures Consistent(ModeChosen(s))
  {
  }

  lemma {:induction false} CloseKeepsConsistent(s: Stream, deleted: bool)
    requires Consistent(s)
    ensures Consistent(Closed(s, deleted))
  {
    if s.thread.Polling? && s.display.creates <= 0xffff {
      DestroyLeavesNone(s.display, s.client, deleted, s.link.mode);
    }
  }

  /** After the end there is no surface, nothing queued and nothing pending. */
  lemma {:induction false} CloseLeavesNothing(s: Stream, deleted: bool)
    requires Consistent(s) && s.display.creates <= 0xffff && s.thread.Polling? && s.intake.main.Idle?
    ensures var s' := Step(s, CloseStream(deleted));
            && !s'.link.open && s'.link.mode == None && s'.intake.queue == []
            && s'.flow.pending == {} && !s'.flow.suspended
            && s'.display.surface == NO_SURFACE && (s'.display.undeleted == 0 ==> s'.client.live == map[])
  {
    DestroyLeavesNone(s.display, s.client, deleted, s.link.mode);
    var s' := Step(s, CloseStream(deleted));
    if s'.display.undeleted == 0 {
      assert s'.client.live.Keys == {};
    }
  }

  /** The calls that a new surface takes all succeed. */
  predicate AllSucceed(mode: Option<EncodingMode>, st: ResetStatus) {
    st.reset && st.created && st.mapped && (mode == Some(Progressive) ==> st.context)
  }

  /**
   Before a frame is submitted, the surface is made anew exactly when that was requested or
   the frame has another size: then nothing is pending any more, and if the calls succeed
   the frame's surface is new, with the codec context of the mode. Otherwise all stays.
   */
  lemma {:induction false} ResetsExactlyWhenDue(s: Stream, first: ResetStatus, second: ResetStatus)
    requires s.thread.Holding? && s.link.open && s.link.capsConfirmed && s.link.mode.Some?
    ensures var s', size := Step(s, BeginSend(false, first, second)), s.thread.frame.size;
            && s'.thread == Ready(s.thread.frame)
            && (if !s.display.pendingReset && s.display.surface.size == size then
                  s'.display == s.display && s'.client == s.client && s'.flow == s.flow
                else
                  && s'.flow.pending == {} && !s'.flow.suspended && !s'.display.pendingReset
                  && (AllSucceed(s.link.mode, if s.display.pendingReset then first else second) ==>
                        && s'.display.surface.id == s.display.nextSurfaceId
                        && s'.display.surface.size == size
                        && s'.display.surface.codecContextId == (if s.link.mode == Some(Progressive) then 1 else 0)
                        && s'.display.nextSurfaceId == (s.display.nextSurfaceId + 1) % 0x1_0000
                        && s.display.nextSurfaceId in s'.client.live && s'.client.live[s.display.nextSurfaceId] == size
                        && s.display.nextSurfaceId in s'.client.mapped))
  {
    var due := if s.display.pendingReset then first else second;
    if !AllSucceed(s.link.mode, due) {
    } else if s.display.pendingReset {
      SuccessMakesSurface(s.display.(pendingReset := false), s.client, s.link.mode, s.thread.frame.size, first);
    } else {
      SuccessMakesSurface(s.display, s.client, s.link.mode, s.thread.frame.size, second);
    }
    PrepareClearsRequest(s.display, s.client, s.link.mode, s.thread.frame.size, first, second);
  }

  lemma {:induction false} SuccessMakesSurface(d: Display, c: Client, mode: Option<EncodingMode>, size: Size, st: ResetStatus)
    requires mode.Some? && AllSucceed(mode, st)
    ensures var (d', c') := PerformReset(d, c, mode, size, st);
            && d'.surface == Surface(d.nextSurfaceId, if mode == Some(Progressive) then 1 else 0, size)
            && d'.nextSurfaceId == (d.nextSurfaceId + 1) % 0x1_0000
            && d.nextSurfaceId in c'.live && c'.live[d.nextSurfaceId] == size && d.nextSurfaceId in c'.mapped
  {
  }

  lemma {:induction false} PrepareClearsRequest(d: Display, c: Client, mode: Option<EncodingMode>, size: Size, first: ResetStatus, second: ResetStatus)
    ensures !Prepare(d, c, mode, size, first, second).0.pendingReset
  {
  }

  lemma {:induction false} StepKeepsConsistent(s: Stream, e: Event)
    requires Consistent(s)
    ensures Consistent(Step(s, e))
  {
    match e {
      case BeginSend(_, _, _) => BeginKeepsConsistent(s, e);
      case Submit(w) => SubmitKeepsConsistent(s, w);
      case CapsAdvertise(_, _, _) => AdvertiseKeepsConsistent(s, e);
      case ChooseMode => ChoiceKeepsConsistent(s);
      case CloseStream(deleted) => CloseKeepsConsistent(s, deleted);
      case _ =>
    }
  }

  /**
   In every run in which fewer than 65536 surfaces are asked for: no frame reaches a
   surface the client cannot use for it, the client holds the current surface and no
   other unless a deletion failed, and none before capabilities are confirmed.
   */
  lemma {:induction false} EveryRunIsConsistent(s: Stream, events: seq<Event>)
    requires Consistent(s)
    ensures Consistent(Run(s, events))
    decreases |events|
  {
    if events != [] {
      StepKeepsConsistent(s, events[0]);
      EveryRunIsConsistent(Step(s, events[0]), events[1..]);
    }
  }
}
