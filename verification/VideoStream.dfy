/**
 The `VideoStream` object of src/VideoStream.cpp: the fields its threads share,
 updated in place. Each method is one stretch of code under a lock, or a sequence of
 them, and is proved against the steps of Pipeline.
 */
module VideoStreamObject {
  import opened Wrappers
  import opened Frames
  import P = Pipeline

  class VideoStream {
    var gfxContextOpen: bool
    var capsConfirmed: bool
    var activeEncodingMode: Option<EncodingMode>
    /** What the connection thread waits for in `onCapsAdvertise`. */
    var handshake: P.Handshake
    var sessionStreaming: bool
    var enabled: bool
    var frameQueue: seq<Frame>
    var producedFrames: nat
    var encodedStream: P.Encoder
    var postedUpdates: nat
    var pendingFrames: set<nat>
    var frameAcknowledgementSuspended: bool
    var frameId: nat
    var maxInFlight: int
    var surface: P.Surface
    var pendingReset: bool
    var nextSurfaceId: nat
    // What the code does not store: histories, the places of two threads and the client.
    ghost var limit: int
    ghost var started: nat
    ghost var ledger: P.Ledger
    ghost var creates: nat
    ghost var undeleted: nat
    ghost var mainThread: P.Main
    ghost var thread: P.Thread
    ghost var client: P.Client

    ghost function Link(): P.Link
      reads `gfxContextOpen, `capsConfirmed, `activeEncodingMode, `handshake
    {
      P.Link(gfxContextOpen, capsConfirmed, activeEncodingMode, handshake)
    }

    ghost function Intake(): P.Intake
      reads `sessionStreaming, `enabled, `frameQueue, `producedFrames, `encodedStream, `postedUpdates, `mainThread
    {
      P.Intake(sessionStreaming, enabled, frameQueue, producedFrames, encodedStream, postedUpdates, mainThread)
    }

    ghost function Flow(): P.Flow
      reads `pendingFrames, `frameAcknowledgementSuspended, `frameId, `maxInFlight, `limit, `started, `ledger
    {
      P.Flow(pendingFrames, frameAcknowledgementSuspended, frameId, maxInFlight, limit, started, ledger)
    }

    ghost function Display(): P.Display
      reads `surface, `pendingReset, `nextSurfaceId, `creates, `undeleted
    {
      P.Display(surface, pendingReset, nextSurfaceId, creates, undeleted)
    }

    ghost function Model(): P.Stream
      reads this
    {
      P.Stream(Link(), Intake(), Flow(), Display(), thread, client)
    }

    ghost predicate Matches(s: P.Stream)
      reads this
    {
      && Link() == s.link && Intake() == s.intake && Flow() == s.flow && Display() == s.display
      && thread == s.thread && client == s.client
    }

    /** A new stream; FreeRDP's context exists once `initialize` has succeeded. */
    constructor ()
      ensures Flow() == P.Flow({}, false, 0, P.MINIMUM_WINDOW, 0, 0, P.Ledger({}, {}, {}, {}))
      ensures Display() == P.Display(P.NO_SURFACE, true, 1, 0, 0)
      ensures Link() == P.Link(true, false, None, P.Settled) && Intake() == P.Intake(false, false, [], 0, P.NoEncoder, 0, P.Idle)
      ensures thread == P.Polling && client == P.Client(map[], {}, {}, [], false)
    {
      gfxContextOpen, capsConfirmed, activeEncodingMode, handshake := true, false, None, P.Settled;
      sessionStreaming, enabled, frameQueue, encodedStream, postedUpdates := false, false, [], P.NoEncoder, 0;
      pendingFrames, frameAcknowledgementSuspended, frameId, maxInFlight := {}, false, 0, P.MINIMUM_WINDOW;
      surface, pendingReset, nextSurfaceId := P.NO_SURFACE, true, 1;
      limit, started, ledger, creates, undeleted := 0, 0, P.Ledger({}, {}, {}, {}), 0, 0;
      producedFrames, mainThread := 0, P.Idle;
      thread, client := P.Polling, P.Client(map[], {}, {}, [], false);
    }

    // --------------------------------------------------------- the main thread

    /** `queueFrame` without interference: the frame is queued, then the encoder told. */
    method QueueFrame(frame: Frame)
      requires mainThread == P.Idle
      modifies `frameQueue, `producedFrames, `encodedStream, `mainThread
      ensures Matches(BackpressureUpdated(P.FrameArrived(old(Model()), frame)))
    {
      var queued := EnqueueFrame(frame);
      if queued {
        UpdateBackpressure();
      }
    }

    method EnqueueFrame(frame: Frame) returns (queued: bool)
      requires mainThread == P.Idle
      modifies `frameQueue, `producedFrames, `mainThread
      ensures Matches(P.FrameArrived(old(Model()), frame))
      ensures mainThread == if queued then P.Looking else P.Idle
    {
      if !sessionStreaming || !enabled {
        return false;
      }
      producedFrames := (producedFrames + 1) % 0x1_0000_0000_0000_0000;
      if activeEncodingMode == Some(H264) {
        if frame.isKeyFrame {
          frameQueue := [];
        }
        frameQueue := frameQueue + [frame];
      } else if activeEncodingMode == Some(Progressive) {
        var lastDamage: Region := [];
        if frameQueue != [] {
          lastDamage := frameQueue[|frameQueue| - 1].damage;
          frameQueue := [];
        }
        frameQueue := frameQueue + [frame.(damage := frame.damage + lastDamage)];
      }
      mainThread := P.Looking;
      return true;
    }

    /** `updateBackpressure` without interference: the queue is counted, then the flag set. */
    method UpdateBackpressure()
      requires mainThread == P.Looking
      modifies `encodedStream, `mainThread
      ensures Matches(BackpressureUpdated(old(Model())))
      ensures mainThread == P.Idle
    {
      var pendingSendQueueCount := CountQueue();
      if pendingSendQueueCount.Some? {
        SetEncoderPaused(pendingSendQueueCount.value);
      }
    }

    method CountQueue() returns (count: Option<nat>)
      requires mainThread == P.Looking
      modifies `mainThread
      ensures Matches(P.Step(old(Model()), P.CountQueue))
      ensures mainThread == if count.Some? then P.Counted(count.value) else P.Idle
      ensures count.Some? <==> encodedStream.Encoder?
    {
      if encodedStream.NoEncoder? {
        mainThread := P.Idle;
        return None;
      }
      mainThread := P.Counted(|frameQueue|);
      return Some(|frameQueue|);
    }

    /** Goes by the count, which may be old by now. */
    method SetEncoderPaused(pendingSendQueueCount: nat)
      requires mainThread == P.Counted(pendingSendQueueCount) && encodedStream.Encoder?
      modifies `encodedStream, `mainThread
      ensures Matches(P.Step(old(Model()), P.SetPause))
      ensures mainThread == P.Idle
    {
      if !encodedStream.paused && pendingSendQueueCount > P.HIGH_QUEUE_COUNT {
        encodedStream := P.Encoder(true);
      } else if encodedStream.paused && pendingSendQueueCount < P.LOW_QUEUE_COUNT {
        encodedStream := P.Encoder(false);
      }
      mainThread := P.Idle;
    }

    method RunPostedUpdate()
      requires postedUpdates > 0 && mainThread == P.Idle
      modifies `postedUpdates, `encodedStream, `mainThread
      ensures Matches(BackpressureUpdated(P.PostedUpdateRun(old(Model()))))
    {
      TakePostedCall();
      UpdateBackpressure();
    }

    method TakePostedCall()
      requires postedUpdates > 0 && mainThread == P.Idle
      modifies `postedUpdates, `mainThread
      ensures Matches(P.PostedUpdateRun(old(Model())))
      ensures mainThread == P.Looking
    {
      postedUpdates := postedUpdates - 1;
      mainThread := P.Looking;
    }

    method Reset()
      modifies `pendingReset
      ensures Matches(P.Step(old(Model()), P.RequestReset))
    {
      pendingReset := true;
    }

    method SetActiveEncodingMode(mode: EncodingMode)
      modifies `frameQueue, `encodedStream, `activeEncodingMode
      ensures Matches(P.SetMode(old(Model()), mode))
    {
      if activeEncodingMode == Some(mode) {
        return;
      }
      frameQueue := [];
      encodedStream := if mode == H264 then P.Encoder(false) else P.NoEncoder;
      activeEncodingMode := Some(mode);
    }

    /** `close`, after the submission thread was joined at the end of a pass. */
    method Close(deleted: bool)
      requires thread == P.Polling && mainThread == P.Idle
      modifies `pendingFrames, `frameAcknowledgementSuspended, `ledger, `frameQueue, `surface, `undeleted, `client
      modifies `gfxContextOpen, `activeEncodingMode
      ensures Matches(P.Closed(old(Model()), deleted))
    {
      DestroySurface(deleted);
      CloseChannel();
    }

    /** The queue is emptied, the channel closed and the mode forgotten. */
    method CloseChannel()
      modifies `frameQueue, `gfxContextOpen, `activeEncodingMode
      ensures Link() == old(Link()).(open := false, mode := None)
      ensures Intake() == old(Intake()).(queue := [])
    {
      frameQueue := [];
      gfxContextOpen, activeEncodingMode := false, None;
    }

    // --------------------------------------------------- the connection thread

    method OnFrameAcknowledge(id: nat, suspend: bool)
      modifies `pendingFrames, `frameAcknowledgementSuspended, `ledger, `client
      ensures Matches(P.FrameAcknowledged(old(Model()), id, suspend))
    {
      client := client.(owed := client.owed - {id});
      frameAcknowledgementSuspended := suspend;
      if frameAcknowledgementSuspended {
        ledger := ledger.(cleared := ledger.cleared + pendingFrames);
        pendingFrames := {};
        return;
      }
      if id !in pendingFrames {
        assert pendingFrames - {id} == pendingFrames && pendingFrames * {id} == {};
        return;
      }
      ledger := ledger.(acknowledged := ledger.acknowledged + pendingFrames * {id});
      pendingFrames := pendingFrames - {id};
    }

    method StoreWindow(window: int)
      requires window >= P.MINIMUM_WINDOW
      modifies `maxInFlight
      ensures Matches(P.Step(old(Model()), P.SetWindow(window)))
    {
      maxInFlight := window;
    }

    method Negotiate(sets: seq<P.CapabilitySet>, h264Disabled: bool) returns (mode: Option<EncodingMode>)
      ensures mode == P.Negotiate(sets, h264Disabled)
    {
      var supportsH264 := false;
      for k := 0 to |sets|
        invariant supportsH264 <==> exists i :: 0 <= i < k && P.SupportsH264(sets[i])
      {
        var avcSupported, yuv420Supported := false, false;
        match sets[k].version {
          case Version104To107 =>
            yuv420Supported := true;
            avcSupported := !sets[k].avcDisabled;
          case Version10To103 =>
            avcSupported := !sets[k].avcDisabled;
          case Version81 =>
            avcSupported, yuv420Supported := sets[k].avc420Enabled, sets[k].avc420Enabled;
          case Version8 =>
          case Unknown =>
        }
        supportsH264 := supportsH264 || (avcSupported && yuv420Supported);
      }
      mode := if !h264Disabled && supportsH264 then Some(H264) else if |sets| > 0 then Some(Progressive) else None;
    }

    /** `onCapsAdvertise` until it waits for the main thread. */
    method OnCapsAdvertise(sets: seq<P.CapabilitySet>, h264Disabled: bool, deleted: bool)
      requires handshake == P.Settled
      modifies `capsConfirmed, `pendingReset, `handshake
      modifies `pendingFrames, `frameAcknowledgementSuspended, `ledger, `surface, `undeleted, `client
      ensures Matches(P.Advertised(old(Model()), sets, h264Disabled, deleted))
    {
      ResetChannel(deleted);
      var negotiated := Negotiate(sets, h264Disabled);
      if negotiated.Some? {
        handshake := P.Asked(negotiated.value);
      }
    }

    /** The call it has posted, on the main thread. */
    method ChooseMode()
      requires handshake.Asked? && mainThread == P.Idle
      modifies `handshake, `frameQueue, `encodedStream, `activeEncodingMode
      ensures Matches(P.ModeChosen(old(Model())))
    {
      SetActiveEncodingMode(handshake.mode);
      handshake := P.Chosen;
    }

    /** The rest of it, on the connection thread. */
    method ConfirmCaps(sent: bool)
      requires handshake.Chosen?
      modifies `handshake, `capsConfirmed
      ensures Matches(P.CapsConfirmed(old(Model()), sent))
    {
      handshake := P.Settled;
      if sent {
        capsConfirmed := true;
      }
    }

    /** A second advertisement is a reset of the channel. */
    method ResetChannel(deleted: bool)
      modifies `capsConfirmed, `pendingReset, `pendingFrames, `frameAcknowledgementSuspended, `ledger
      modifies `surface, `undeleted, `client
      ensures Matches(P.ChannelReset(old(Model()), deleted))
    {
      if capsConfirmed {
        TearDown(deleted);
      }
    }

    method TearDown(deleted: bool)
      modifies `capsConfirmed, `pendingReset, `pendingFrames, `frameAcknowledgementSuspended, `ledger
      modifies `surface, `undeleted, `client
      ensures Link() == old(Link()).(capsConfirmed := false) && Flow() == P.Cleared(old(Flow()))
      ensures (Display(), client) == P.DestroySurface(old(Display()).(pendingReset := true), old(client), deleted)
    {
      capsConfirmed := false;
      pendingReset := true;
      DestroySurface(deleted);
    }

    // ---------------------------------------------------------------- surfaces

    method DestroySurface(deleted: bool)
      modifies `pendingFrames, `frameAcknowledgementSuspended, `ledger, `surface, `undeleted, `client
      ensures Flow() == P.Cleared(old(Flow()))
      ensures (Display(), client) == P.DestroySurface(old(Display()), old(client), deleted)
    {
      ledger := ledger.(cleared := ledger.cleared + pendingFrames);
      pendingFrames := {};
      frameAcknowledgementSuspended := false;
      if surface.id == 0 {
        return;
      }
      if deleted {
        client := client.(live := client.live - {surface.id}, mapped := client.mapped - {surface.id});
      } else {
        undeleted := undeleted + 1;
      }
      surface := P.NO_SURFACE;
    }

    method PerformReset(size: Size, st: P.ResetStatus)
      modifies `pendingFrames, `frameAcknowledgementSuspended, `ledger, `surface, `undeleted, `client
      modifies `nextSurfaceId, `creates
      ensures Flow() == P.Cleared(old(Flow()))
      ensures (Display(), client) == P.PerformReset(old(Display()), old(client), activeEncodingMode, size, st)
    {
      DestroySurface(st.deleted);
      if !st.reset {
        return;
      }
      var surfaceId := nextSurfaceId;
      nextSurfaceId := U16(nextSurfaceId + 1);
      creates := creates + 1;
      if !st.created {
        return;
      }
      client := client.(live := client.live[surfaceId := size]);
      surface := P.Surface(surfaceId,
                           if activeEncodingMode == Some(Progressive) then P.PROGRESSIVE_CODEC_CONTEXT_ID else 0,
                           size);
      if activeEncodingMode == Some(Progressive) && !st.context {
        DestroySurface(st.undone);
        return;
      }
      if !st.mapped {
        DestroySurface(st.undone);
        return;
      }
      client := client.(mapped := client.mapped + {surfaceId});
    }

    // --------------------------------------------------- the submission thread

    method HasInFlightCapacity() returns (capacity: bool)
      requires thread == P.Polling
      modifies `limit, `thread
      ensures Matches(P.CapacityChecked(old(Model())))
      ensures thread == if capacity then P.Capable else P.Polling
    {
      capacity := |pendingFrames| < maxInFlight;
      if capacity {
        limit, thread := maxInFlight, P.Capable;
      }
    }

    /** The early returns of `sendFrame` and the resets it may need. */
    method BeginSend(frame: Frame, writeBlocked: bool, first: P.ResetStatus, second: P.ResetStatus) returns (go: bool)
      requires thread == P.Holding(frame)
      modifies `pendingFrames, `frameAcknowledgementSuspended, `ledger, `surface, `undeleted, `client
      modifies `nextSurfaceId, `creates, `pendingReset, `thread
      ensures Matches(P.Begun(old(Model()), writeBlocked, first, second))
      ensures go <==> thread == P.Ready(frame)
      ensures go <==> !P.Refuses(Link(), writeBlocked)
    {
      if writeBlocked || activeEncodingMode.None? || !gfxContextOpen || !capsConfirmed {
        thread := P.Polling;
        return false;
      }
      MakeReady(frame, first, second);
      return true;
    }

    method MakeReady(frame: Frame, first: P.ResetStatus, second: P.ResetStatus)
      requires thread == P.Holding(frame) && !P.Refuses(Link(), false)
      modifies `pendingFrames, `frameAcknowledgementSuspended, `ledger, `surface, `undeleted, `client
      modifies `nextSurfaceId, `creates, `pendingReset, `thread
      ensures Matches(P.Begun(old(Model()), false, first, second))
      ensures thread == P.Ready(frame)
    {
      PrepareSurface(frame.size, first, second);
      thread := P.Ready(frame);
    }

    method PrepareSurface(size: Size, first: P.ResetStatus, second: P.ResetStatus)
      modifies `pendingFrames, `frameAcknowledgementSuspended, `ledger, `surface, `undeleted, `client
      modifies `nextSurfaceId, `creates, `pendingReset
      ensures Flow() == if P.NeedsReset(old(Display()), size) then P.Cleared(old(Flow())) else old(Flow())
      ensures (Display(), client) == P.Prepare(old(Display()), old(client), activeEncodingMode, size, first, second)
    {
      if pendingReset {
        pendingReset := false;
        PerformReset(size, first);
      }
      if surface.size != size {
        PerformReset(size, second);
      }
    }

    method InsertPending(frame: Frame) returns (id: nat)
      requires thread == P.Ready(frame)
      modifies `pendingFrames, `frameId, `started, `ledger, `thread
      ensures Matches(P.PendingInserted(old(Model())))
      ensures thread == P.Sending(frame, id)
    {
      id := InsertFrameId();
      thread := P.Sending(frame, id);
    }

    method InsertFrameId() returns (id: nat)
      modifies `pendingFrames, `frameId, `started, `ledger
      ensures Flow() == P.Inserted(old(Flow())) && id == old(frameId)
    {
      id := frameId;
      frameId := U32(frameId + 1);
      started := started + 1;
      if !frameAcknowledgementSuspended {
        ledger := ledger.(inserted := ledger.inserted + {id});
        pendingFrames := pendingFrames + {id};
      }
    }

    /** `sendFrameH264` */
    method SendFrameH264(frame: Frame, id: nat, w: P.Wire) returns (ok: bool)
      requires activeEncodingMode == Some(H264)
      modifies `client
      ensures ok <==> P.Submits(H264, surface, frame, w)
      ensures client == P.ReceiveFrame(old(client), H264, surface, frame, id, w)
    {
      if frame.data == [] || surface.id == 0 {
        return false;
      }
      if !w.start {
        return false;
      }
      if w.command {
        client := client.(painted := client.painted + [frame], fault := client.fault || !P.Usable(client, surface, frame.size, 0));
      }
      if !w.end {
        return false;
      }
      client := client.(owed := client.owed + {id});
      return true;
    }

    /** `sendFrameProgressive` */
    method SendFrameProgressive(frame: Frame, id: nat, w: P.Wire) returns (ok: bool)
      requires activeEncodingMode == Some(Progressive)
      modifies `client
      ensures ok <==> P.Submits(Progressive, surface, frame, w)
      ensures client == P.ReceiveFrame(old(client), Progressive, surface, frame, id, w)
    {
      if frame.image.None? || surface.id == 0 {
        return false;
      }
      if !w.encoded || !w.surfaceFrame {
        return false;
      }
      client := client.(painted := client.painted + [frame],
                        fault := client.fault || !P.Usable(client, surface, frame.size, P.PROGRESSIVE_CODEC_CONTEXT_ID));
      client := client.(owed := client.owed + {id});
      return true;
    }

    method Submit(frame: Frame, id: nat, w: P.Wire) returns (ok: bool)
      requires thread == P.Sending(frame, id) && activeEncodingMode.Some?
      modifies `client, `thread
      ensures Matches(P.Submitted(old(Model()), w))
      ensures thread == if ok then P.Done else P.Failed(id)
    {
      if activeEncodingMode == Some(H264) {
        ok := SendFrameH264(frame, id, w);
      } else {
        assert activeEncodingMode.value == Progressive;
        ok := SendFrameProgressive(frame, id, w);
      }
      thread := if ok then P.Done else P.Failed(id);
    }

    method RollBack(id: nat)
      requires thread == P.Failed(id)
      modifies `pendingFrames, `ledger, `thread
      ensures Matches(P.FailureUndone(old(Model())))
    {
      ledger := ledger.(rolledBack := ledger.rolledBack + pendingFrames * {id});
      pendingFrames := pendingFrames - {id};
      thread := P.Done;
    }

    method PostUpdate()
      requires thread == P.Done
      modifies `postedUpdates, `thread
      ensures Matches(P.UpdatePosted(old(Model())))
    {
      postedUpdates := postedUpdates + 1;
      thread := P.Polling;
    }

    /** `sendFrame` without interference: the steps of one submission in a row. */
    method SendFrame(frame: Frame, writeBlocked: bool, first: P.ResetStatus, second: P.ResetStatus, w: P.Wire)
      requires thread == P.Holding(frame)
      modifies this
      ensures Matches(Sent(old(Model()), writeBlocked, first, second, w))
    {
      var go := BeginSend(frame, writeBlocked, first, second);
      if !go {
        return;
      }
      var id := InsertPending(frame);
      var submitted := Submit(frame, id, w);
      if !submitted {
        RollBack(id);
      }
      PostUpdate();
    }

    /** The head of the submission thread's loop: the checks, then the next frame if there is one. */
    method NextFrame() returns (frame: Option<Frame>)
      requires thread == P.Polling
      modifies `frameQueue, `limit, `thread
      ensures Matches(P.Dequeued(P.LinkChecked(P.CapacityChecked(old(Model())))))
      ensures thread == if frame.Some? then P.Holding(frame.value) else P.Polling
    {
      var capacity := HasInFlightCapacity();
      if !capacity {
        return None;
      }
      var open := LinkIsReady();
      if !open {
        return None;
      }
      frame := TakeFrame();
    }

    method LinkIsReady() returns (open: bool)
      requires thread == P.Capable
      modifies `thread
      ensures Matches(P.LinkChecked(old(Model())))
      ensures thread == if open then P.Admitted else P.Polling
    {
      open := gfxContextOpen && capsConfirmed;
      thread := if open then P.Admitted else P.Polling;
    }

    method TakeFrame() returns (frame: Option<Frame>)
      requires thread == P.Admitted
      modifies `frameQueue, `thread
      ensures Matches(P.Dequeued(old(Model())))
      ensures thread == if frame.Some? then P.Holding(frame.value) else P.Polling
    {
      thread := P.Polling;
      if frameQueue == [] {
        return None;
      }
      var nextFrame := frameQueue[0];
      frameQueue := frameQueue[1..];
      if nextFrame.size.IsEmpty() {
        return None;
      }
      thread := P.Holding(nextFrame);
      return Some(nextFrame);
    }

    /** One pass of the submission thread's loop. */
    method Pass(writeBlocked: bool, first: P.ResetStatus, second: P.ResetStatus, w: P.Wire)
      requires thread == P.Polling
      modifies this
      ensures Matches(Sent(P.Dequeued(P.LinkChecked(P.CapacityChecked(old(Model())))), writeBlocked, first, second, w))
    {
      var frame := NextFrame();
      if frame.Some? {
        SendFrame(frame.value, writeBlocked, first, second, w);
      }
    }
  }

  /** The two steps of `updateBackpressure`. */
  ghost function BackpressureUpdated(s: P.Stream): P.Stream {
    P.Step(P.Step(s, P.CountQueue), P.SetPause)
  }

  /** The steps of a submission; those that do not apply change nothing. */
  ghost function Sent(s: P.Stream, writeBlocked: bool, first: P.ResetStatus, second: P.ResetStatus, w: P.Wire): P.Stream {
    P.UpdatePosted(P.FailureUndone(P.Submitted(P.PendingInserted(P.Begun(s, writeBlocked, first, second)), w)))
  }
}
