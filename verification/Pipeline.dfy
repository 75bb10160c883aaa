/**
 The frame pipeline of src/VideoStream.cpp as a transition system: the main thread,
 the connection thread and the submission thread. Each stretch of code under a lock is
 a step of its own; what is read under a lock and used after it has been released is
 kept with the thread. A step that is not enabled leaves the state alone.

 Calls into the graphics channel are statuses chosen by the environment. The client
 ([MS-RDPEGFX] sections 2.2.2.9, 2.2.2.10, 2.2.2.13 to 2.2.2.15) is driven only by
 the messages whose status is success.
 */
module Pipeline {
  import opened Wrappers
  import opened Frames

  const MINIMUM_WINDOW := 2
  const HIGH_QUEUE_COUNT := 3
  const LOW_QUEUE_COUNT := 1
  const PROGRESSIVE_CODEC_CONTEXT_ID := 1
  const FRAME_IDS := 0x1_0000_0000

  // ------------------------------------------------------------------- state

  datatype Surface = Surface(id: nat, codecContextId: nat, size: Size)

  const NO_SURFACE := Surface(0, 0, NO_SIZE)

  /** The surface record; `creates` counts the surfaces asked for, `undeleted` failed deletions. */
  datatype Display = Display(surface: Surface, pendingReset: bool, nextSurfaceId: nat, creates: nat, undeleted: nat)

  /** The ids put into the pending set so far, and those that left it by each way out. */
  datatype Ledger = Ledger(inserted: set<nat>, acknowledged: set<nat>, rolledBack: set<nat>, cleared: set<nat>)

  /** `limit` is the window read by the last capacity check that passed, `started` counts frame ids. */
  datatype Flow = Flow(pending: set<nat>, suspended: bool, frameId: nat, maxInFlight: int, limit: int, started: nat, ledger: Ledger)

  datatype Encoder = NoEncoder | Encoder(paused: bool)

  /** The main thread in `updateBackpressure`: about to count the queue, or holding the count. */
  datatype Main = Idle | Looking | Counted(count: nat)

  datatype Intake = Intake(streaming: bool, enabled: bool, queue: seq<Frame>, produced: nat, encoder: Encoder,
                           posted: nat, main: Main)

  /** The connection thread in `onCapsAdvertise`: waiting for the main thread to set a mode, or about to confirm. */
  datatype Handshake = Settled | Asked(mode: EncodingMode) | Chosen

  datatype Link = Link(open: bool, capsConfirmed: bool, mode: Option<EncodingMode>, handshake: Handshake)

  /** Where the submission thread is in its loop. */
  datatype Thread =
    | Polling
    | Capable
    | Admitted
    | Holding(frame: Frame)
    | Ready(frame: Frame)
    | Sending(frame: Frame, id: nat)
    | Failed(id: nat)
    | Done

  /** `painted` are the frames shown; `fault` records one for a surface the client cannot use for it. */
  datatype Client = Client(live: map<nat, Size>, mapped: set<nat>, owed: set<nat>, painted: seq<Frame>, fault: bool)

  /** The frame a thread has in hand. */
  function FrameOf(t: Thread): Option<Frame> {
    match t
    case Holding(f) => Some(f)
    case Ready(f) => Some(f)
    case Sending(f, _) => Some(f)
    case _ => None
  }

  datatype Stream = Stream(link: Link, intake: Intake, flow: Flow, display: Display, thread: Thread, client: Client)

  // ---------------------------------------------------------------- in flight

  function Cleared(f: Flow): Flow {
    f.(pending := {}, suspended := false, ledger := f.ledger.(cleared := f.ledger.cleared + f.pending))
  }

  predicate HasCapacity(f: Flow) {
    |f.pending| < f.maxInFlight
  }

  function Inserted(f: Flow): Flow {
    var next := f.(frameId := U32(f.frameId + 1), started := f.started + 1);
    if f.suspended then next
    else
      next.(pending := f.pending + {f.frameId}, ledger := f.ledger.(inserted := f.ledger.inserted + {f.frameId}))
  }

  function RolledBack(f: Flow, id: nat): Flow {
    f.(pending := f.pending - {id},
       ledger := f.ledger.(rolledBack := f.ledger.rolledBack + f.pending * {id}))
  }

  /** `onFrameAcknowledge` */
  function Acknowledged(f: Flow, id: nat, suspend: bool): Flow {
    if suspend then Cleared(f).(suspended := true)
    else
      f.(suspended := false, pending := f.pending - {id},
         ledger := f.ledger.(acknowledged := f.ledger.acknowledged + f.pending * {id}))
  }

  // ----------------------------------------------------------------- surfaces

  function ContextId(mode: Option<EncodingMode>): nat {
    if mode == Some(Progressive) then PROGRESSIVE_CODEC_CONTEXT_ID else 0
  }

  /** `destroySurface`, apart from the pending set; `deleted` is the status of DeleteSurface. */
  function DestroySurface(d: Display, c: Client, deleted: bool): (Display, Client) {
    var id := d.surface.id;
    if id == 0 then (d, c)
    else if deleted then (d.(surface := NO_SURFACE), c.(live := c.live - {id}, mapped := c.mapped - {id}))
    else (d.(surface := NO_SURFACE, undeleted := d.undeleted + 1), c)
  }

  /** The statuses of the calls a reset makes, in order; `undone` is that of a second DeleteSurface. */
  datatype ResetStatus = ResetStatus(deleted: bool, reset: bool, created: bool, context: bool, mapped: bool, undone: bool)

  function PerformReset(d: Display, c: Client, mode: Option<EncodingMode>, size: Size, st: ResetStatus): (Display, Client) {
    var (cleared, c0) := DestroySurface(d, c, st.deleted);
    if !st.reset then (cleared, c0)
    else
      var id := cleared.nextSurfaceId;
      var asked := cleared.(nextSurfaceId := U16(id + 1), creates := cleared.creates + 1);
      if !st.created then (asked, c0)
      else
        var made := asked.(surface := Surface(id, ContextId(mode), size));
        var c1 := c0.(live := c0.live[id := size]);
        if (mode == Some(Progressive) && !st.context) || !st.mapped then DestroySurface(made, c1, st.undone)
        else (made, c1.(mapped := c1.mapped + {id}))
  }

  /** The two resets at the head of `sendFrame`. */
  function Prepare(d: Display, c: Client, mode: Option<EncodingMode>, size: Size, first: ResetStatus, second: ResetStatus): (Display, Client) {
    var (d1, c1) := if d.pendingReset then PerformReset(d.(pendingReset := false), c, mode, size, first) else (d, c);
    if d1.surface.size != size then PerformReset(d1, c1, mode, size, second) else (d1, c1)
  }

  predicate NeedsReset(d: Display, size: Size) {
    d.pendingReset || d.surface.size != size
  }

  // --------------------------------------------------------------- submission

  /** Whether encoding succeeded, and the statuses of the channel calls. */
  datatype Wire = Wire(encoded: bool, start: bool, command: bool, end: bool, surfaceFrame: bool)

  /** What `sendFrameH264` or `sendFrameProgressive` returns. */
  predicate Submits(mode: EncodingMode, surface: Surface, f: Frame, w: Wire) {
    match mode
    case H264 => f.data != [] && surface.id != 0 && w.start && w.end
    case Progressive => f.image.Some? && surface.id != 0 && w.encoded && w.surfaceFrame
  }

  /** Whether the pixels of the frame reach the client. */
  predicate Paints(mode: EncodingMode, surface: Surface, f: Frame, w: Wire) {
    match mode
    case H264 => f.data != [] && surface.id != 0 && w.start && w.command
    case Progressive => Submits(mode, surface, f, w)
  }

  predicate Usable(c: Client, surface: Surface, size: Size, context: nat) {
    surface.id in c.live && c.live[surface.id] == size && surface.id in c.mapped && surface.codecContextId == context
  }

  function ReceiveFrame(c: Client, mode: EncodingMode, surface: Surface, f: Frame, id: nat, w: Wire): Client {
    var painted :=
      if !Paints(mode, surface, f, w) then c
      else c.(painted := c.painted + [f], fault := c.fault || !Usable(c, surface, f.size, ContextId(Some(mode))));
    if Submits(mode, surface, f, w) then painted.(owed := painted.owed + {id}) else painted
  }

  // -------------------------------------------------------------- the encoder

  /** `updateBackpressure` first counts the queue, under its lock, if there is an encoder. */
  function QueueCounted(i: Intake): Intake {
    if !i.main.Looking? then i
    else if i.encoder.NoEncoder? then i.(main := Idle)
    else i.(main := Counted(|i.queue|))
  }

  /** Then it goes by that count, whatever the queue is now. */
  function PauseSet(i: Intake): Intake {
    if !i.main.Counted? || i.encoder.NoEncoder? then i
    else if !i.encoder.paused && i.main.count > HIGH_QUEUE_COUNT then i.(encoder := Encoder(true), main := Idle)
    else if i.encoder.paused && i.main.count < LOW_QUEUE_COUNT then i.(encoder := Encoder(false), main := Idle)
    else i.(main := Idle)
  }

  /** `queueFrame` up to its call of `updateBackpressure`; the counter has 64 bits. */
  function FrameQueued(i: Intake, mode: Option<EncodingMode>, f: Frame): Intake {
    if !i.main.Idle? || !i.streaming || !i.enabled then i
    else
      i.(produced := (i.produced + 1) % 0x1_0000_0000_0000_0000, main := Looking,
         queue := if mode.Some? then Enqueue(mode.value, i.queue, f) else i.queue)
  }

  // ------------------------------------------------------------- capabilities

  datatype Version = Version8 | Version81 | Version10To103 | Version104To107 | Unknown

  datatype CapabilitySet = CapabilitySet(version: Version, avcDisabled: bool, avc420Enabled: bool)

  predicate SupportsH264(c: CapabilitySet) {
    match c.version
    case Version104To107 => !c.avcDisabled
    case Version81 => c.avc420Enabled
    case _ => false
  }

  /** H.264 if some advertised set carries it and it is not disabled; nothing without any set. */
  function Negotiate(sets: seq<CapabilitySet>, h264Disabled: bool): Option<EncodingMode> {
    if !h264Disabled && exists i :: 0 <= i < |sets| && SupportsH264(sets[i]) then Some(H264)
    else if sets != [] then Some(Progressive)
    else None
  }

  function SetMode(s: Stream, mode: EncodingMode): Stream {
    if s.link.mode == Some(mode) then s
    else
      s.(link := s.link.(mode := Some(mode)),
         intake := s.intake.(queue := [], encoder := if mode == H264 then Encoder(false) else NoEncoder))
  }

  // ------------------------------------------------------------------- events

  datatype Event =
    // the main thread
    | FrameArrives(frame: Frame)
    | SetStreaming(streaming: bool, enabled: bool)
    | RunPostedUpdate
    | CountQueue
    | SetPause
    | ChooseMode
    | RequestReset
    | CloseStream(deleted: bool)
    // the submission thread
    | CheckCapacity
    | CheckLink
    | Dequeue
    | BeginSend(writeBlocked: bool, first: ResetStatus, second: ResetStatus)
    | InsertPending
    | Submit(wire: Wire)
    | Rollback
    | PostUpdate
    // the connection thread
    | FrameAcknowledge(id: nat, suspend: bool)
    | SetWindow(window: int)
    | CapsAdvertise(sets: seq<CapabilitySet>, h264Disabled: bool, deleted: bool)
    | ConfirmCaps(sent: bool)

  /** The reasons for which `sendFrame` returns before doing anything. */
  predicate Refuses(l: Link, writeBlocked: bool) {
    writeBlocked || l.mode.None? || !l.open || !l.capsConfirmed
  }

  // One function for each kind of step.

  function FrameArrived(s: Stream, f: Frame): Stream {
    s.(intake := FrameQueued(s.intake, s.link.mode, f))
  }

  function PostedUpdateRun(s: Stream): Stream {
    if s.intake.posted == 0 || !s.intake.main.Idle? then s
    else s.(intake := s.intake.(posted := s.intake.posted - 1, main := Looking))
  }

  /** `close`, once the submission thread has been joined. */
  function Closed(s: Stream, deleted: bool): Stream {
    if !s.thread.Polling? || !s.intake.main.Idle? then s
    else
      var (d, c) := DestroySurface(s.display, s.client, deleted);
      s.(link := s.link.(open := false, mode := None), intake := s.intake.(queue := []),
         flow := Cleared(s.flow), display := d, client := c)
  }

  /** `hasInFlightCapacity` at the head of the submission loop. */
  function CapacityChecked(s: Stream): Stream {
    if s.thread.Polling? && HasCapacity(s.flow)
    then s.(thread := Capable, flow := s.flow.(limit := s.flow.maxInFlight)) else s
  }

  /** The other two conditions are read after the lock has been released. */
  function LinkChecked(s: Stream): Stream {
    if !s.thread.Capable? then s
    else s.(thread := if s.link.open && s.link.capsConfirmed then Admitted else Polling)
  }

  function Dequeued(s: Stream): Stream {
    if !s.thread.Admitted? then s
    else if s.intake.queue == [] then s.(thread := Polling)
    else
      var f := s.intake.queue[0];
      s.(intake := s.intake.(queue := s.intake.queue[1..]), thread := if f.size.IsEmpty() then Polling else Holding(f))
  }

  /** The early returns of `sendFrame`, then the resets. */
  function Begun(s: Stream, writeBlocked: bool, first: ResetStatus, second: ResetStatus): Stream {
    if !s.thread.Holding? then s
    else if Refuses(s.link, writeBlocked) then s.(thread := Polling)
    else
      var f := s.thread.frame;
      var (d, c) := Prepare(s.display, s.client, s.link.mode, f.size, first, second);
      s.(display := d, client := c, thread := Ready(f),
         flow := if NeedsReset(s.display, f.size) then Cleared(s.flow) else s.flow)
  }

  function PendingInserted(s: Stream): Stream {
    if s.thread.Ready? then s.(flow := Inserted(s.flow), thread := Sending(s.thread.frame, s.flow.frameId)) else s
  }

  function Submitted(s: Stream, w: Wire): Stream {
    if !s.thread.Sending? || s.link.mode.None? then s
    else
      var (f, id, mode) := (s.thread.frame, s.thread.id, s.link.mode.value);
      s.(client := ReceiveFrame(s.client, mode, s.display.surface, f, id, w),
         thread := if Submits(mode, s.display.surface, f, w) then Done else Failed(id))
  }

  function FailureUndone(s: Stream): Stream {
    if s.thread.Failed? then s.(flow := RolledBack(s.flow, s.thread.id), thread := Done) else s
  }

  function UpdatePosted(s: Stream): Stream {
    if s.thread.Done? then s.(intake := s.intake.(posted := s.intake.posted + 1), thread := Polling) else s
  }

  function FrameAcknowledged(s: Stream, id: nat, suspend: bool): Stream {
    s.(flow := Acknowledged(s.flow, id, suspend), client := s.client.(owed := s.client.owed - {id}))
  }

  /** What a second advertisement does first: the channel is reset. */
  function ChannelReset(s: Stream, deleted: bool): Stream {
    if !s.link.capsConfirmed then s
    else
      var (d, c) := DestroySurface(s.display.(pendingReset := true), s.client, deleted);
      s.(link := s.link.(capsConfirmed := false), display := d, client := c, flow := Cleared(s.flow))
  }

  /** `onCapsAdvertise` up to the call it posts to the main thread, if the sets are usable. */
  function Advertised(s: Stream, sets: seq<CapabilitySet>, h264Disabled: bool, deleted: bool): Stream {
    if !s.link.handshake.Settled? then s
    else
      var reset := ChannelReset(s, deleted);
      match Negotiate(sets, h264Disabled)
      case None => reset
      case Some(mode) => reset.(link := reset.link.(handshake := Asked(mode)))
  }

  /** The main thread sets the mode. */
  function ModeChosen(s: Stream): Stream {
    if !s.link.handshake.Asked? || !s.intake.main.Idle? then s
    else
      var chosen := SetMode(s, s.link.handshake.mode);
      chosen.(link := chosen.link.(handshake := Chosen))
  }

  /** The rest of `onCapsAdvertise`; `sent` is the status of CapsConfirm. */
  function CapsConfirmed(s: Stream, sent: bool): Stream {
    if !s.link.handshake.Chosen? then s
    else s.(link := s.link.(handshake := Settled, capsConfirmed := s.link.capsConfirmed || sent))
  }

  function Step(s: Stream, e: Event): Stream {
    match e
    case FrameArrives(f) => FrameArrived(s, f)
    case SetStreaming(streaming, enabled) => s.(intake := s.intake.(streaming := streaming, enabled := enabled))
    case RunPostedUpdate => PostedUpdateRun(s)
    case CountQueue => s.(intake := QueueCounted(s.intake))
    case SetPause => s.(intake := PauseSet(s.intake))
    case RequestReset => s.(display := s.display.(pendingReset := true))
    case CloseStream(deleted) => Closed(s, deleted)
    case CheckCapacity => CapacityChecked(s)
    case CheckLink => LinkChecked(s)
    case Dequeue => Dequeued(s)
    case BeginSend(writeBlocked, first, second) => Begun(s, writeBlocked, first, second)
    case InsertPending => PendingInserted(s)
    case Submit(w) => Submitted(s, w)
    case Rollback => FailureUndone(s)
    case PostUpdate => UpdatePosted(s)
    case FrameAcknowledge(id, suspend) => FrameAcknowledged(s, id, suspend)
    case SetWindow(window) =>
      if window >= MINIMUM_WINDOW then s.(flow := s.flow.(maxInFlight := window)) else s
    case CapsAdvertise(sets, h264Disabled, deleted) => Advertised(s, sets, h264Disabled, deleted)
    case ChooseMode => ModeChosen(s)
    case ConfirmCaps(sent) => CapsConfirmed(s, sent)
  }

  function Run(s: Stream, events: seq<Event>): Stream
    decreases |events|
  {
    if events == [] then s else Run(Step(s, events[0]), events[1..])
  }
}
