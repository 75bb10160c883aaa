/** What holds in every state a new stream can reach. */
module PipelineStart {
  import opened Wrappers
  import opened Frames
  import opened Pipeline
  import opened PipelineFlow
  import opened PipelineSurfaces
  import opened PipelineWakeup

  /** A new stream, before anything has arrived. */
  predicate IsNew(s: Stream) {
    && !s.link.capsConfirmed && s.link.mode.None? && s.link.handshake.Settled?
    && s.intake.queue == [] && s.intake.encoder.NoEncoder? && s.intake.posted == 0 && s.intake.main.Idle?
    && s.flow.pending == {} && !s.flow.suspended && s.flow.frameId == 0 && s.flow.started == 0
    && s.flow.maxInFlight == MINIMUM_WINDOW && s.flow.limit == 0
    && s.flow.ledger == Ledger({}, {}, {}, {})
    && s.display.surface == NO_SURFACE && s.display.nextSurfaceId == 1
    && s.display.creates == 0 && s.display.undeleted == 0
    && s.thread.Polling?
    && s.client.live == map[] && s.client.mapped == {} && s.client.owed == {} && s.client.painted == [] && !s.client.fault
  }

  lemma {:induction false} NewStreamIsSound(s: Stream)
    requires IsNew(s)
    ensures WithinWindow(s.flow, s.thread) && Accounted(s.flow) && NoneStranded(s)
    ensures Consistent(s) && WakesUp(s) && CountIsBound(s.intake)
  {
  }

  /**
   For every interleaving from the start: the window is kept, every id is accounted
   for and owed by someone, the client's surfaces are the recorded ones, and a count the
   main thread holds is not too low.
   */
  lemma {:induction false} EveryReachableStateIsSound(s: Stream, events: seq<Event>)
    requires IsNew(s)
    ensures var end := Run(s, events);
            WithinWindow(end.flow, end.thread) && Accounted(end.flow) && NoneStranded(end)
            && Consistent(end) && CountIsBound(end.intake)
  {
    NewStreamIsSound(s);
    EveryRunKeepsWindow(s, events);
    EveryRunKeepsAccounts(s, events);
    EveryRunStrandsNone(s, events);
    EveryRunIsConsistent(s, events);
    EveryRunKeepsBound(s, events);
  }

  /**
   An encoder paused in a run from the start has a wake-up coming, as long as no last
   frame was dropped silently.
   */
  lemma {:induction false} EveryReachablePauseEnds(s: Stream, events: seq<Event>)
    requires IsNew(s) && NeverStrands(s, events)
    ensures WakesUp(Run(s, events))
  {
    NewStreamIsSound(s);
    EveryRunWakesUp(s, events);
  }
}
