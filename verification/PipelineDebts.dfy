/**
 The in-flight set against what has happened: a history made from the events alone says
 which frames the client still has to acknowledge, and the set holds exactly these.
 */
module PipelineDebts {
  import opened Wrappers
  import opened Frames
  import opened Pipeline
  import opened PipelineFlow
  import opened PipelineStart

  /**
   `due` are the frames delivered while acknowledgements were wanted, not acknowledged and
   not forgotten since; `sending` is the one on its way that would join them.
   */
  datatype History = History(suspended: bool, due: set<nat>, sending: Option<nat>, started: nat)

  /** The events that make the server forget what was sent: the end, a channel reset, a new surface. */
  predicate Forgets(s: Stream, e: Event) {
    match e
    case CloseStream(_) => s.thread.Polling? && s.intake.main.Idle?
    case CapsAdvertise(_, _, _) => s.link.handshake.Settled? && s.link.capsConfirmed
    case BeginSend(writeBlocked, _, _) =>
      && s.thread.Holding?
      && !writeBlocked && s.link.open && s.link.capsConfirmed && s.link.mode.Some?
      && (s.display.pendingReset || s.display.surface.size != s.thread.frame.size)
    case _ => false
  }

  function Recorded(h: History, s: Stream, e: Event): History {
    if Forgets(s, e) then History(false, {}, None, h.started)
    else
      match e
      case InsertPending =>
        if !s.thread.Ready? then h
        else h.(started := h.started + 1, sending := if h.suspended then None else Some(h.started % 0x1_0000_0000))
      case Submit(w) =>
        if s.thread.Sending? && s.link.mode.Some? && Submits(s.link.mode.value, s.display.surface, s.thread.frame, w)
        then h.(due := h.due + Ids(h.sending), sending := None) else h
      case Rollback => if s.thread.Failed? then h.(sending := None) else h
      case FrameAcknowledge(id, suspend) =>
        if suspend then h.(suspended := true, due := {}, sending := None)
        else h.(suspended := false, due := h.due - {id}, sending := if h.sending == Some(id) then None else h.sending)
      case _ => h
  }

  function Ids(id: Option<nat>): set<nat> {
    if id.None? then {} else {id.value}
  }

  function History0(): History {
    History(false, {}, None, 0)
  }

  function RecordedAll(h: History, s: Stream, events: seq<Event>): History
    decreases |events|
  {
    if events == [] then h else RecordedAll(Recorded(h, s, events[0]), Step(s, events[0]), events[1..])
  }

  predicate Underway(t: Thread, id: nat) {
    match t
    case Sending(_, i) => i == id
    case Failed(i) => i == id
    case _ => false
  }

  /** For the first 2^32 frames the set holds what is due and what is on its way, and nothing else. */
  predicate HoldsDebts(s: Stream, h: History) {
    && h.started == s.flow.started && s.flow.frameId == h.started % 0x1_0000_0000
    && h.suspended == s.flow.suspended
    && (s.thread.Sending? ==> h.started > 0 && s.thread.id == (h.started - 1) % 0x1_0000_0000)
    && (s.thread.Failed? ==> h.started > 0 && s.thread.id == (h.started - 1) % 0x1_0000_0000)
    && (h.started <= 0x1_0000_0000 ==>
          && s.flow.pending == h.due + Ids(h.sending)
          && (h.sending.Some? ==> Underway(s.thread, h.sending.value) && h.sending.value !in h.due)
          && (forall id :: id in h.due ==> id < h.started - if s.thread.Sending? || s.thread.Failed? then 1 else 0)
          && h.due <= s.client.owed)
  }

  lemma {:induction false} InsertHoldsDebts(s: Stream, h: History)
    requires HoldsDebts(s, h)
    ensures HoldsDebts(PendingInserted(s), Recorded(h, s, InsertPending))
  {
  }

  lemma {:induction false} SubmitHoldsDebts(s: Stream, h: History, w: Wire)
    requires HoldsDebts(s, h)
    ensures HoldsDebts(Submitted(s, w), Recorded(h, s, Submit(w)))
  {
  }

  lemma {:induction false} BeginHoldsDebts(s: Stream, h: History, e: Event)
    requires HoldsDebts(s, h) && e.BeginSend?
    ensures HoldsDebts(Step(s, e), Recorded(h, s, e))
  {
    BeginKeepsOwed(s, e);
  }

  lemma {:induction false} AcknowledgeHoldsDebts(s: Stream, h: History, id: nat, suspend: bool)
    requires HoldsDebts(s, h)
    ensures HoldsDebts(FrameAcknowledged(s, id, suspend), Recorded(h, s, FrameAcknowledge(id, suspend)))
  {
  }

  lemma {:induction false} RollbackHoldsDebts(s: Stream, h: History)
    requires HoldsDebts(s, h)
    ensures HoldsDebts(FailureUndone(s), Recorded(h, s, Rollback))
  {
  }

  lemma {:induction false} AdvertiseHoldsDebts(s: Stream, h: History, e: Event)
    requires HoldsDebts(s, h) && e.CapsAdvertise?
    ensures HoldsDebts(Step(s, e), Recorded(h, s, e))
  {
  }

  lemma {:induction false} CloseHoldsDebts(s: Stream, h: History, deleted: bool)
    requires HoldsDebts(s, h)
    ensures HoldsDebts(Closed(s, deleted), Recorded(h, s, CloseStream(deleted)))
  {
  }

  /** No other step touches the set, or moves the thread into or out of a submission it has begun. */
  lemma {:induction false} OthersKeepDebts(s: Stream, e: Event)
    requires !e.InsertPending? && !e.Submit? && !e.BeginSend? && !e.FrameAcknowledge? && !e.Rollback?
    requires !e.CapsAdvertise? && !e.CloseStream?
    ensures var s' := Step(s, e);
            && s'.flow.pending == s.flow.pending && s'.flow.suspended == s.flow.suspended
            && s'.flow.started == s.flow.started && s'.flow.frameId == s.flow.frameId
            && s'.client == s.client
            && (s'.thread == s.thread || (!InSubmission(s.thread) && !InSubmission(s'.thread)))
  {
  }

  predicate InSubmission(t: Thread) {
    t.Sending? || t.Failed?
  }

  lemma {:induction false} StepHoldsDebts(s: Stream, h: History, e: Event)
    requires HoldsDebts(s, h)
    ensures HoldsDebts(Step(s, e), Recorded(h, s, e))
  {
    match e {
      case InsertPending => InsertHoldsDebts(s, h);
      case Submit(w) => SubmitHoldsDebts(s, h, w);
      case BeginSend(_, _, _) => BeginHoldsDebts(s, h, e);
      case FrameAcknowledge(id, suspend) => AcknowledgeHoldsDebts(s, h, id, suspend);
      case Rollback => RollbackHoldsDebts(s, h);
      case CapsAdvertise(_, _, _) => AdvertiseHoldsDebts(s, h, e);
      case CloseStream(deleted) => CloseHoldsDebts(s, h, deleted);
      case _ => OthersKeepDebts(s, e);
    }
  }

  lemma {:induction false} EveryRunHoldsDebts(s: Stream, events: seq<Event>, h: History)
    requires HoldsDebts(s, h)
    ensures HoldsDebts(Run(s, events), RecordedAll(h, s, events))
    decreases |events|
  {
    if events != [] {
      StepHoldsDebts(s, h, events[0]);
      EveryRunHoldsDebts(Step(s, events[0]), events[1..], Recorded(h, s, events[0]));
    }
  }

  /**
   From a new stream, for the first 2^32 frames: what is due is pending and owed by the
   client, the client never has more due than the window read by the last check that
   passed, and a check passes exactly if fewer are due than the window allows now.
   */
  lemma {:induction false} DebtsStayWithinWindow(s: Stream, events: seq<Event>)
    requires IsNew(s)
    ensures var end, h := Run(s, events), RecordedAll(History0(), s, events);
            h.started <= 0x1_0000_0000 ==>
              && h.due <= end.flow.pending && h.due <= end.client.owed
              && |h.due| <= end.flow.limit
              && (end.thread.Polling? ==>
                    (Step(end, CheckCapacity).thread.Capable? <==> |h.due| < end.flow.maxInFlight))
  {
    NewStreamIsSound(s);
    EveryRunHoldsDebts(s, events, History0());
    EveryRunKeepsWindow(s, events);
    var end, h := Run(s, events), RecordedAll(History0(), s, events);
    if h.started <= 0x1_0000_0000 {
      SubsetSize(h.due, end.flow.pending);
      if end.thread.Polling? {
        assert end.flow.pending == h.due;
      }
    }
  }
}
