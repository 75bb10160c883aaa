/** Flow control: what every interleaving keeps about the frames in flight. */
module PipelineFlow {
  import opened Wrappers
  import opened Frames
  import opened Pipeline

  // ------------------------------------------------------- the window is kept

  /** The submission thread has passed a check and not yet inserted the id it may insert. */
  predicate MayInsert(t: Thread) {
    t.Capable? || t.Admitted? || t.Holding? || t.Ready?
  }

  /** Never more in flight than the window read by the last check that passed; nothing while suspended. */
  predicate WithinWindow(f: Flow, t: Thread) {
    && |f.pending| <= f.limit
    && (MayInsert(t) ==> |f.pending| < f.limit)
    && (f.suspended ==> f.pending == {})
    && f.maxInFlight >= MINIMUM_WINDOW
  }

  lemma {:induction false} RemoveOne(pending: set<nat>, id: nat)
    ensures |pending - {id}| == |pending| - if id in pending then 1 else 0
    ensures |pending + {id}| == |pending| + if id in pending then 0 else 1
  {
    if id in pending {
      assert pending + {id} == pending;
    } else {
      assert pending - {id} == pending;
    }
  }

  predicate TouchesFlow(e: Event) {
    e.InsertPending? || e.Rollback? || e.FrameAcknowledge? || e.SetWindow? || e.CheckCapacity?
  }

  /** The other steps leave the flow alone or clear it, and none of them lets the thread insert. */
  lemma {:induction false} OthersKeepOrClear(s: Stream, e: Event)
    requires !TouchesFlow(e)
    ensures var s' := Step(s, e);
            && (s'.flow == s.flow || s'.flow == Cleared(s.flow))
            && (MayInsert(s'.thread) ==> MayInsert(s.thread))
  {
  }

  lemma {:induction false} InsertFillsWindow(f: Flow)
    requires WithinWindow(f, Admitted)
    ensures WithinWindow(Inserted(f), Done)
  {
    RemoveOne(f.pending, f.frameId);
  }

  lemma {:induction false} RemovalKeepsWindow(f: Flow, id: nat, suspend: bool, t: Thread)
    requires WithinWindow(f, t)
    ensures WithinWindow(RolledBack(f, id), t) && WithinWindow(Acknowledged(f, id, suspend), t)
  {
    RemoveOne(f.pending, id);
  }

  lemma {:induction false} InsertKeepsWindow(s: Stream)
    requires WithinWindow(s.flow, s.thread)
    ensures WithinWindow(PendingInserted(s).flow, PendingInserted(s).thread)
  {
    if s.thread.Ready? {
      InsertFillsWindow(s.flow);
    }
  }

  lemma {:induction false} RollbackKeepsWindow(s: Stream)
    requires WithinWindow(s.flow, s.thread)
    ensures WithinWindow(FailureUndone(s).flow, FailureUndone(s).thread)
  {
    if s.thread.Failed? {
      RemovalKeepsWindow(s.flow, s.thread.id, false, s.thread);
    }
  }

  lemma {:induction false} CheckKeepsWindow(s: Stream)
    requires WithinWindow(s.flow, s.thread)
    ensures WithinWindow(CapacityChecked(s).flow, CapacityChecked(s).thread)
  {
  }

  lemma {:induction false} StepKeepsWindow(s: Stream, e: Event)
    requires WithinWindow(s.flow, s.thread)
    ensures WithinWindow(Step(s, e).flow, Step(s, e).thread)
  {
    if !TouchesFlow(e) {
      OthersKeepOrClear(s, e);
    } else {
      match e {
        case InsertPending => InsertKeepsWindow(s);
        case Rollback => RollbackKeepsWindow(s);
        case FrameAcknowledge(id, suspend) => RemovalKeepsWindow(s.flow, id, suspend, s.thread);
        case CheckCapacity => CheckKeepsWindow(s);
        case _ =>
      }
    }
  }

  lemma {:induction false} EveryRunKeepsWindow(s: Stream, events: seq<Event>)
    requires WithinWindow(s.flow, s.thread)
    ensures WithinWindow(Run(s, events).flow, Run(s, events).thread)
    decreases |events|
  {
    if events != [] {
      StepKeepsWindow(s, events[0]);
      EveryRunKeepsWindow(Step(s, events[0]), events[1..]);
    }
  }

  /** An event that can make room: an acknowledgement, a wider window, a reset or the end. */
  predicate MakesRoom(e: Event) {
    e.FrameAcknowledge? || e.SetWindow? || e.CapsAdvertise? || e.CloseStream?
  }

  /** While the window is full nothing is sent until something makes room, whatever else happens. */
  lemma {:induction false} FullWindowAdmitsNothing(s: Stream, events: seq<Event>)
    requires s.thread.Polling? && !HasCapacity(s.flow)
    requires forall k :: 0 <= k < |events| ==> !MakesRoom(events[k])
    ensures var end := Run(s, events);
            end.flow == s.flow && end.thread == Polling && end.client == s.client
    decreases |events|
  {
    if events != [] {
      FullWindowAdmitsNothing(Step(s, events[0]), events[1..]);
    }
  }

  // ---------------------------------------------------- every id is accounted

  predicate Apart(l: Ledger, pending: set<nat>) {
    && pending !! l.acknowledged && pending !! l.rolledBack && pending !! l.cleared
    && l.acknowledged !! l.rolledBack && l.acknowledged !! l.cleared && l.rolledBack !! l.cleared
  }

  /**
   For the first 2^32 frames: each id inserted is pending still, or has left the set by
   an acknowledgement, by the rollback of a failed submission or by a clearing, and is
   in exactly one of these places.
   */
  predicate Accounted(f: Flow) {
    && f.frameId == U32(f.started)
    && (f.started <= FRAME_IDS ==>
          && f.ledger.inserted == f.pending + f.ledger.acknowledged + f.ledger.rolledBack + f.ledger.cleared
          && Apart(f.ledger, f.pending)
          && forall id :: id in f.ledger.inserted ==> id < f.started)
  }

  lemma {:induction false} NextFrameId(started: nat)
    ensures U32(U32(started) + 1) == U32(started + 1)
    ensures started < FRAME_IDS ==> U32(started) == started
  {
  }

  lemma {:induction false} InsertedIsAccounted(f: Flow)
    requires Accounted(f)
    ensures Accounted(Inserted(f))
  {
    NextFrameId(f.started);
  }

  lemma {:induction false} RemovedIsAccounted(f: Flow, id: nat, suspend: bool)
    requires Accounted(f)
    ensures Accounted(RolledBack(f, id)) && Accounted(Acknowledged(f, id, suspend))
  {
  }

  lemma {:induction false} StepKeepsAccounts(s: Stream, e: Event)
    requires Accounted(s.flow)
    ensures Accounted(Step(s, e).flow)
  {
    if !TouchesFlow(e) {
      OthersKeepOrClear(s, e);
    } else {
      match e {
        case InsertPending => InsertedIsAccounted(s.flow);
        case Rollback => if s.thread.Failed? { RemovedIsAccounted(s.flow, s.thread.id, false); }
        case FrameAcknowledge(id, suspend) => RemovedIsAccounted(s.flow, id, suspend);
        case _ =>
      }
    }
  }

  lemma {:induction false} EveryRunKeepsAccounts(s: Stream, events: seq<Event>)
    requires Accounted(s.flow)
    ensures Accounted(Run(s, events).flow)
    decreases |events|
  {
    if events != [] {
      StepKeepsAccounts(s, events[0]);
      EveryRunKeepsAccounts(Step(s, events[0]), events[1..]);
    }
  }

  // -------------------------------------------------- the client owes each one

  /** The id the submission thread has inserted and not yet settled. */
  function Unsettled(t: Thread): set<nat> {
    match t
    case Sending(_, id) => {id}
    case Failed(id) => {id}
    case _ => {}
  }

  /** No id is stranded: the client has the frame and owes the acknowledgement, or it is being sent. */
  predicate NoneStranded(s: Stream) {
    s.flow.pending <= s.client.owed + Unsettled(s.thread)
  }

  predicate SameFrames(c: Client, d: Client) {
    c.owed == d.owed && c.painted == d.painted
  }

  lemma {:induction false} ResetKeepsFrames(d: Display, c: Client, mode: Option<EncodingMode>, size: Size, st: ResetStatus)
    ensures SameFrames(PerformReset(d, c, mode, size, st).1, c)
  {
  }

  lemma {:induction false} PrepareKeepsFrames(d: Display, c: Client, mode: Option<EncodingMode>, size: Size, first: ResetStatus, second: ResetStatus)
    ensures SameFrames(Prepare(d, c, mode, size, first, second).1, c)
  {
    var d0 := d.(pendingReset := false);
    ResetKeepsFrames(d0, c, mode, size, first);
    var (d1, c1) := if d.pendingReset then PerformReset(d0, c, mode, size, first) else (d, c);
    ResetKeepsFrames(d1, c1, mode, size, second);
  }

  /** What has been sent stays sent when surfaces are replaced. */
  lemma {:induction false} BeginKeepsOwed(s: Stream, e: Event)
    requires e.BeginSend?
    ensures SameFrames(Step(s, e).client, s.client)
  {
    if s.thread.Holding? {
      PrepareKeepsFrames(s.display, s.client, s.link.mode, s.thread.frame.size, e.first, e.second);
    }
  }

  lemma {:induction false} StepStrandsNone(s: Stream, e: Event)
    requires NoneStranded(s)
    ensures NoneStranded(Step(s, e))
  {
    if e.BeginSend? {
      BeginKeepsOwed(s, e);
    }
  }

  lemma {:induction false} EveryRunStrandsNone(s: Stream, events: seq<Event>)
    requires NoneStranded(s)
    ensures NoneStranded(Run(s, events))
    decreases |events|
  {
    if events != [] {
      StepStrandsNone(s, events[0]);
      EveryRunStrandsNone(Step(s, events[0]), events[1..]);
    }
  }

  /**
   Flow control cannot lock itself out: in every reachable state, a client that has
   acknowledged everything it received lets the next capacity check pass.
   */
  lemma {:induction false} AcknowledgedClientIsServed(s: Stream, events: seq<Event>)
    requires WithinWindow(s.flow, s.thread) && NoneStranded(s)
    ensures var end := Run(s, events);
            end.client.owed == {} && end.thread == Polling && end.link.open && end.link.capsConfirmed ==>
              end.flow.pending == {} && Run(end, [CheckCapacity, CheckLink]).thread == Admitted
  {
    EveryRunKeepsWindow(s, events);
    EveryRunStrandsNone(s, events);
    var end := Run(s, events);
    if end.client.owed == {} && end.thread == Polling {
      assert end.flow.pending == {};
      assert [CheckCapacity, CheckLink][1..] == [CheckLink];
    }
  }
}
