/**
 The rhythm of bandwidth probing over whole runs, at any clock readings: starts,
 stops and results alternate, the throttles hold, and the smoothed bandwidth never
 leaves the range of the samples it was made from.
 */
module AutoDetectProbes {
  import opened Wrappers
  import opened AutoDetect

  /** `Started` keeps both readings taken: the throttle's and the measurement's. */
  datatype ProbeEvent =
    | Started(read: int, started: int)
    | Stopped(read: int)
    | Answered(timeDelta: nat, byteCount: nat)

  datatype World = World(net: Net, log: seq<ProbeEvent>)

  /** What an event adds to the log: the bandwidth messages sent, the results accepted. */
  function Logged(n: Net, e: Event, sent: seq<Message>): seq<ProbeEvent> {
    match e
    case Tick(_, now, later) =>
      if MeasureStart in sent then [Started(now, later)] else if MeasureStop in sent then [Stopped(now)] else []
    case Response(_, _, _) => []
    case Results(timeDelta, byteCount, _) =>
      if n.prober.phase == PendingResults then [Answered(timeDelta, byteCount)] else []
  }

  function Observe(w: World, e: Event): World
    requires CanAllocate(w.net.ids)
  {
    var (net, sent) := Step(w.net, e);
    World(net, w.log + Logged(w.net, e, sent))
  }

  function Run(w: World, events: seq<Event>): World
    requires Bounded(w.net.ids) && CanAllocate(w.net.ids)
    decreases |events|
  {
    if events == [] then w
    else
      StepKeepsBounded(w.net, events[0]);
      Run(Observe(w, events[0]), events[1..])
  }

  // ------------------------------------------------------------------ rhythm

  predicate Alternates(log: seq<ProbeEvent>) {
    forall k {:trigger log[k]} :: 0 <= k < |log| ==>
      match k % 3
      case 0 => log[k].Started?
      case 1 => log[k].Stopped?
      case _ => log[k].Answered?
  }

  /** A stop is at least 500 ms after its start, a start at least 2 s after the one before. */
  predicate Throttled(log: seq<ProbeEvent>)
    requires Alternates(log)
  {
    && (forall k {:trigger log[k]} :: 0 <= k < |log| && k % 3 == 1 ==>
          log[k].read - log[k - 1].started >= 500_000_000)
    && (forall k {:trigger log[k]} :: 3 <= k < |log| && k % 3 == 0 ==>
          log[k].read - log[k - 3].read >= 2_000_000_000)
  }

  /** The prober's phase and readings are those of the end of the log. */
  predicate MatchesPhase(log: seq<ProbeEvent>, p: Prober)
    requires Alternates(log)
  {
    var n := |log|;
    match p.phase
    case Idle => n % 3 == 0 && (n > 0 ==> log[n - 3].read == p.lastMeasureStart)
    case PendingStop => n % 3 == 1 && log[n - 1].read == p.lastMeasureStart && log[n - 1].started == p.measureStart
    case PendingResults => n % 3 == 2 && log[n - 2].read == p.lastMeasureStart
    case QueuedStop => false
  }

  predicate Rhythm(log: seq<ProbeEvent>, p: Prober) {
    Alternates(log) && Throttled(log) && MatchesPhase(log, p)
  }

  lemma {:induction false} TickLogs(n: Net, e: Event)
    requires CanAllocate(n.ids) && e.Tick?
    ensures var (n', sent) := Step(n, e);
            if e.streaming && n.prober.phase == Idle && e.now - n.prober.lastMeasureStart >= 2_000_000_000 then
              Logged(n, e, sent) == [Started(e.now, e.later)] && n'.prober == Prober(PendingStop, e.later, e.now)
            else if e.streaming && n.prober.phase == PendingStop && e.now - n.prober.measureStart >= 500_000_000 then
              Logged(n, e, sent) == [Stopped(e.now)] && n'.prober == n.prober.(phase := PendingResults)
            else Logged(n, e, sent) == [] && n'.prober == n.prober
  {
    if e.streaming {
      var (prober, probes) := Probe(n.prober, e.now, e.later);
      var requests := SendRequest(n.ids, e.now).1;
      assert forall m :: m in probes + requests <==> m in probes || m in requests;
      assert MeasureStart !in requests && MeasureStop !in requests;
    }
  }

  /** Each event appends at most one entry, the one whose turn it is. */
  lemma {:induction false} NextEntryKeepsRhythm(log: seq<ProbeEvent>, p: Prober, entry: ProbeEvent, q: Prober)
    requires Rhythm(log, p)
    requires match entry
             case Started(read, started) =>
               p.phase == Idle && read - p.lastMeasureStart >= BANDWIDTH_MEASURE_INTERVAL
               && q == Prober(PendingStop, started, read)
             case Stopped(read) =>
               p.phase == PendingStop && read - p.measureStart >= BANDWIDTH_MEASURE_DURATION
               && q == p.(phase := PendingResults)
             case Answered(_, _) => p.phase == PendingResults && q == p.(phase := Idle)
    ensures Rhythm(log + [entry], q)
  {
    var n := |log|;
    assert forall k :: 0 <= k < n ==> (log + [entry])[k] == log[k];
    assert (log + [entry])[n] == entry;
  }

  /** Unsolicited results change nothing; a solicited one ends the measurement. */
  lemma {:induction false} ResultsLog(n: Net, e: Event)
    requires CanAllocate(n.ids) && e.Results?
    ensures var (n', sent) := Step(n, e);
            if n.prober.phase == PendingResults then
              Logged(n, e, sent) == [Answered(e.timeDelta, e.byteCount)] && n'.prober == n.prober.(phase := Idle)
            else n' == n && sent == [] && Logged(n, e, sent) == []
  {
  }

  lemma {:induction false} StepKeepsRhythm(w: World, e: Event)
    requires CanAllocate(w.net.ids) && Rhythm(w.log, w.net.prober)
    ensures Rhythm(Observe(w, e).log, Observe(w, e).net.prober)
  {
    if e.Tick? {
      TickLogs(w.net, e);
    } else if e.Results? {
      ResultsLog(w.net, e);
    }
    var entries := Logged(w.net, e, Step(w.net, e).1);
    if entries == [] {
      assert w.log + [] == w.log;
    } else {
      NextEntryKeepsRhythm(w.log, w.net.prober, entries[0], Step(w.net, e).0.prober);
    }
  }

  /** Every run keeps the rhythm, whatever the clock and the client do. */
  lemma {:induction false} EveryRunKeepsRhythm(w: World, events: seq<Event>)
    requires Bounded(w.net.ids) && CanAllocate(w.net.ids) && Rhythm(w.log, w.net.prober)
    ensures Rhythm(Run(w, events).log, Run(w, events).net.prober)
    decreases |events|
  {
    if events != [] {
      StepKeepsBounded(w.net, events[0]);
      StepKeepsRhythm(w, events[0]);
      EveryRunKeepsRhythm(Observe(w, events[0]), events[1..]);
    }
  }

  // --------------------------------------------------------------- smoothing

  function Samples(log: seq<ProbeEvent>): seq<nat> {
    if log == [] then []
    else
      var last := log[|log| - 1];
      Samples(log[..|log| - 1])
      + if IsSample(last) then [BytesPerSecond(last.timeDelta, last.byteCount)] else []
  }

  predicate AllWithin(samples: seq<nat>, lo: real, hi: real) {
    forall k {:trigger samples[k]} :: 0 <= k < |samples| ==> lo <= samples[k] as real <= hi
  }

  /** The value lies in every interval that holds all the samples. */
  ghost predicate InRange(samples: seq<nat>, x: real) {
    forall lo, hi :: AllWithin(samples, lo, hi) ==> lo <= x <= hi
  }

  ghost predicate InHull(log: seq<ProbeEvent>, st: Stats) {
    Smooths(Samples(log), st)
  }

  ghost predicate Smooths(samples: seq<nat>, st: Stats) {
    && (st.hasSmoothed <==> samples != [])
    && (st.hasSmoothed ==> InRange(samples, st.smoothed) && st.bandwidth == st.smoothed.Floor)
    && (!st.hasSmoothed ==> st.bandwidth == 0)
  }

  /** An answer that counts as a sample. */
  predicate IsSample(entry: ProbeEvent) {
    entry.Answered? && entry.timeDelta > 0 && entry.byteCount > 0
  }

  lemma {:induction false} SamplesAreSmall(log: seq<ProbeEvent>)
    ensures AllWithin(Samples(log), 0.0, 4294967295.0)
  {
    if log != [] {
      SamplesAreSmall(log[..|log| - 1]);
    }
  }

  lemma {:induction false} SamplesAfter(log: seq<ProbeEvent>, entry: ProbeEvent)
    ensures Samples(log + [entry])
            == if IsSample(entry) then Samples(log) + [BytesPerSecond(entry.timeDelta, entry.byteCount)] else Samples(log)
  {
    assert (log + [entry])[..|log|] == log;
    assert Samples(log) + [] == Samples(log);
  }

  lemma {:induction false} PrefixWithin(before: seq<nat>, x: nat, lo: real, hi: real)
    requires AllWithin(before + [x], lo, hi)
    ensures AllWithin(before, lo, hi) && lo <= x as real <= hi
  {
    var after := before + [x];
    assert after[|before|] == x;
    assert forall k :: 0 <= k < |before| ==> after[k] == before[k];
  }

  lemma {:induction false} MeanIsInRange(samples: seq<nat>, s: real, x: nat)
    requires samples != [] ==> InRange(samples, s)
    ensures InRange(samples + [x], if samples == [] then x as real else (s + x as real) / 2.0)
  {
    forall lo, hi | AllWithin(samples + [x], lo, hi)
      ensures lo <= (if samples == [] then x as real else (s + x as real) / 2.0) <= hi
    {
      PrefixWithin(samples, x, lo, hi);
    }
  }

  /** The mean of old value and sample stays in range, so the 32-bit conversion keeps its whole part. */
  lemma {:induction false} SampleKeepsHull(samples: seq<nat>, st: Stats, x: nat)
    requires Smooths(samples, st) && AllWithin(samples + [x], 0.0, 4294967295.0)
    ensures Smooths(samples + [x], AddSample(st, x))
  {
    MeanIsInRange(samples, st.smoothed, x);
  }

  lemma {:induction false} StepKeepsHull(w: World, e: Event)
    requires CanAllocate(w.net.ids) && InHull(w.log, w.net.stats)
    ensures InHull(Observe(w, e).log, Observe(w, e).net.stats)
  {
    StepSmooths(w.net, e);
    StepSamples(w, e);
    var st := Step(w.net, e).0.stats;
    if e.Results? && w.net.prober.phase == PendingResults && e.timeDelta > 0 && e.byteCount > 0 {
      var x := BytesPerSecond(e.timeDelta, e.byteCount);
      SamplesAreSmall(Observe(w, e).log);
      SampleKeepsHull(Samples(w.log), w.net.stats, x);
      SmoothsReadsThree(Samples(w.log) + [x], AddSample(w.net.stats, x), st);
    } else {
      SmoothsReadsThree(Samples(w.log), w.net.stats, st);
    }
  }

  lemma {:induction false} SmoothsReadsThree(samples: seq<nat>, st: Stats, other: Stats)
    requires Smooths(samples, st)
    requires other.smoothed == st.smoothed && other.hasSmoothed == st.hasSmoothed && other.bandwidth == st.bandwidth
    ensures Smooths(samples, other)
  {
  }

  /** Only an accepted result adds a sample. */
  lemma {:induction false} StepSamples(w: World, e: Event)
    requires CanAllocate(w.net.ids)
    ensures Samples(Observe(w, e).log)
            == if e.Results? && w.net.prober.phase == PendingResults && e.timeDelta > 0 && e.byteCount > 0
               then Samples(w.log) + [BytesPerSecond(e.timeDelta, e.byteCount)] else Samples(w.log)
  {
    var entries := Logged(w.net, e, Step(w.net, e).1);
    if entries == [] {
      assert w.log + [] == w.log;
    } else {
      SamplesAfter(w.log, entries[0]);
    }
  }

  /** Only an accepted sample changes what is smoothed. */
  lemma {:induction false} StepSmooths(n: Net, e: Event)
    requires CanAllocate(n.ids)
    ensures var st := Step(n, e).0.stats;
            var from := if e.Results? && n.prober.phase == PendingResults && e.timeDelta > 0 && e.byteCount > 0
                        then AddSample(n.stats, BytesPerSecond(e.timeDelta, e.byteCount)) else n.stats;
            st.smoothed == from.smoothed && st.hasSmoothed == from.hasSmoothed && st.bandwidth == from.bandwidth
  {
  }

  lemma {:induction false} EveryRunStaysInHull(w: World, events: seq<Event>)
    requires Bounded(w.net.ids) && CanAllocate(w.net.ids) && InHull(w.log, w.net.stats)
    ensures InHull(Run(w, events).log, Run(w, events).net.stats)
    decreases |events|
  {
    if events != [] {
      StepKeepsBounded(w.net, events[0]);
      StepKeepsHull(w, events[0]);
      EveryRunStaysInHull(Observe(w, events[0]), events[1..]);
    }
  }

  /** Nothing sent, nothing measured. */
  predicate AtStart(w: World) {
    && w.log == [] && w.net.prober.phase == Idle
    && !w.net.stats.hasSmoothed && w.net.stats.bandwidth == 0
    && w.net.ids.requests == map[] && w.net.ids.sequenceNumber == 0
  }

  /** From start-up, every run keeps the rhythm and smooths within the samples. */
  lemma {:induction false} EveryRunFromStart(w: World, events: seq<Event>)
    requires AtStart(w)
    ensures Bounded(w.net.ids) && CanAllocate(w.net.ids)
    ensures var end := Run(w, events); Rhythm(end.log, end.net.prober) && InHull(end.log, end.net.stats)
  {
    EveryRunKeepsRhythm(w, events);
    EveryRunStaysInHull(w, events);
  }
}
