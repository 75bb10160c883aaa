/**
 The order in which network auto-detection hands out sequence numbers. A `Ledger`
 is the allocator together with the history of what it has handed out.
 */
module AutoDetectOrder {
  import opened Wrappers
  import opened AutoDetect

  /** How many requests and results had been sent when a request was. */
  datatype Birth = Birth(rtts: nat, results: nat)

  datatype Ledger = Ledger(
    issued: seq<nat>,          // ids handed out, in order
    rtts: nat,                 // round-trip requests sent
    results: nat,              // network results sent
    resultsAtPurge: nat,       // of those, sent before the last request was
    births: map<nat, Birth>,   // when the request with this id was last sent
    clock: int)                // the latest reading

  datatype World = World(net: Net, ledger: Ledger)

  /** Before the first call: nothing handed out, nothing outstanding, all readings at the epoch. */
  ghost predicate AtStart(w: World) {
    var a, l := w.net.ids, w.ledger;
    && w.net.prober.phase.Idle? && w.net.stats.lastNetworkResult == 0
    && a.sequenceNumber == 0 && |a.requests| == 0 && a.lastRttUpdate == 0
    && |l.issued| == 0 && l.rtts == 0 && l.results == 0 && l.resultsAtPurge == 0 && l.clock == 0
  }

  function IdOf(m: Message): seq<nat> {
    match m
    case RttRequest(id) => [id]
    case NetworkResult(id, _, _, _) => [id]
    case _ => []
  }

  function Ids(sent: seq<Message>): seq<nat> {
    if sent == [] then [] else IdOf(sent[0]) + Ids(sent[1..])
  }

  function LastReading(e: Event): int {
    if e.Results? then e.now else e.later
  }

  /** The ledger after an event whose messages carried these ids. */
  function Record(l: Ledger, e: Event, ids: seq<nat>): Ledger {
    var next := l.(issued := l.issued + ids, clock := LastReading(e));
    if ids == [] then next
    else if e.Tick? then
      next.(rtts := l.rtts + 1, births := l.births[ids[0] := Birth(l.rtts, l.results)], resultsAtPurge := l.results)
    else next.(results := l.results + |ids|)
  }

  function Observe(w: World, e: Event): World
    requires CanAllocate(w.net.ids)
  {
    var (net, sent) := Step(w.net, e);
    World(net, Record(w.ledger, e, Ids(sent)))
  }

  function Run(w: World, events: seq<Event>): World
    requires Bounded(w.net.ids) && CanAllocate(w.net.ids)
    decreases |events|
  {
    if events == [] then w
    else
      StepKeepsBounded(w.net, events[0]);
      Run(Observe(w, events[0]), events[1..])
  }

  // ------------------------------------------------------------- cyclic ids

  /** The k-th id when nothing but 0 is ever skipped: 1, 2, ..., 65535, 1, 2, ... */
  function CyclicId(k: nat): (id: nat)
    ensures 0 < id < IDS
  {
    1 + k % 65535
  }

  /** Where the 16-bit counter stands after k allocations. */
  function Counter(k: nat): nat {
    if k == 0 then 0 else U16(CyclicId(k - 1) + 1)
  }

  lemma {:induction false} CounterIsNextOrZero(k: nat)
    ensures Counter(k) == CyclicId(k) || (Counter(k) == 0 && CyclicId(k) == 1)
  {
    if k > 0 {
      var r := (k - 1) % 65535;
      assert k % 65535 == if r + 1 == 65535 then 0 else r + 1;
    }
  }

  lemma {:induction false} NextIdIsCyclic(k: nat, used: set<nat>)
    requires |used| < IDS - 1 && CyclicId(k) !in used
    ensures NextId(Counter(k), used) == CyclicId(k)
  {
    CounterIsNextOrZero(k);
    var n := Search(Counter(k), used, 0);
    if Counter(k) == CyclicId(k) {
      assert Advance(Counter(k), 0) == Counter(k);
    } else {
      assert Advance(0, 0) == 0 && Advance(0, 1) == 1;
      assert !Taken(Advance(0, 1), used);
    }
  }

  lemma {:induction false} NearbyIdsDiffer(k: nat, m: nat)
    requires 0 < k - m < 65535
    ensures CyclicId(k) != CyclicId(m)
  {
    var a, b := k / 65535, m / 65535;
    assert k == 65535 * a + k % 65535 && m == 65535 * b + m % 65535;
  }

  // -------------------------------------------------------------- invariant

  /** 1 when a bandwidth result can still arrive before the next request purges the list. */
  function Weight(p: Prober, lastRttUpdate: int): nat {
    match p.phase
    case PendingResults => 1
    case PendingStop =>
      if p.measureStart < lastRttUpdate + RTT_UPDATE_INTERVAL - BANDWIDTH_MEASURE_DURATION then 1 else 0
    case _ => 0
  }

  /** An outstanding id, sent at `sent`, is one of the last few handed out. */
  ghost predicate Young(l: Ledger, a: Allocator, lastResult: int, id: nat, sent: int) {
    id in l.births &&
    var b := l.births[id];
    && b.rtts < l.rtts && b.results <= l.resultsAtPurge <= b.results + 31
    && id == CyclicId(b.rtts + b.results)
    && sent <= l.clock
    && a.lastRttUpdate - sent >= RttSpan(l.rtts - 1 - b.rtts)
    && (b.results < l.results ==> lastResult - sent >= ResultSpan(l.results - b.results - 1))
  }

  ghost predicate AllYoung(l: Ledger, a: Allocator, lastResult: int) {
    forall id :: id in a.requests ==> Young(l, a, lastResult, id, a.requests[id])
  }

  ghost predicate IssuedInOrder(l: Ledger, a: Allocator) {
    && |l.issued| == l.rtts + l.results
    && (forall k {:trigger l.issued[k]} :: 0 <= k < |l.issued| ==> l.issued[k] == CyclicId(k))
    && a.sequenceNumber == Counter(|l.issued|)
  }

  ghost predicate WithinBudget(l: Ledger, n: Net) {
    && n.ids.lastRttUpdate <= l.clock && n.stats.lastNetworkResult <= l.clock
    && l.resultsAtPurge <= l.results
    && l.results - l.resultsAtPurge + |n.ids.requests| + Weight(n.prober, n.ids.lastRttUpdate) <= MAX_OUTSTANDING + 1
  }

  ghost predicate InOrder(w: World) {
    && IssuedInOrder(w.ledger, w.net.ids)
    && WithinBudget(w.ledger, w.net)
    && AllYoung(w.ledger, w.net.ids, w.net.stats.lastNetworkResult)
  }

  /** At most 890 ids have been handed out since an outstanding one: the next one is free. */
  lemma {:induction false} NextIdIsFree(l: Ledger, n: Net)
    requires Timely(n.ids.requests, n.ids.lastRttUpdate)
    requires |l.issued| == l.rtts + l.results && WithinBudget(l, n)
    requires AllYoung(l, n.ids, n.stats.lastNetworkResult)
    ensures CyclicId(|l.issued|) !in n.ids.requests
  {
    var k := |l.issued|;
    if CyclicId(k) in n.ids.requests {
      var b := l.births[CyclicId(k)];
      assert RttSpan(l.rtts - 1 - b.rtts) <= RTT_REQUEST_MAX_AGE;
      NearbyIdsDiffer(k, b.rtts + b.results);
    }
  }

  // --------------------------------------------------------- what steps do

  /** Allocating in an ordered ledger yields the next cyclic id, whatever subset is still in use. */
  lemma {:induction false} AllocatesCyclicId(w: World, a: Allocator)
    requires Bounded(w.net.ids) && InOrder(w) && CanAllocate(a)
    requires a.sequenceNumber == w.net.ids.sequenceNumber && a.requests.Keys <= w.net.ids.requests.Keys
    ensures var id := CyclicId(|w.ledger.issued|);
            Allocate(a) == (a.(sequenceNumber := U16(id + 1)), id)
  {
    NextIdIsFree(w.ledger, w.net);
    NextIdIsCyclic(|w.ledger.issued|, a.requests.Keys);
  }

  ghost predicate Extends(l: Ledger, l': Ledger) {
    && l'.issued == l.issued + [CyclicId(|l.issued|)]
    && l'.rtts + l'.results == l.rtts + l.results + 1
  }

  lemma {:induction false} ExtendingKeepsOrder(l: Ledger, l': Ledger, a: Allocator, b: Allocator)
    requires IssuedInOrder(l, a) && Extends(l, l') && b.sequenceNumber == U16(CyclicId(|l.issued|) + 1)
    ensures IssuedInOrder(l', b)
  {
  }

  lemma {:induction false} ProbeSendsNoId(p: Prober, now: int, later: int, request: seq<Message>)
    ensures Ids(Probe(p, now, later).1 + request) == Ids(request)
  {
    var probes := Probe(p, now, later).1;
    if probes == [] {
      assert probes + request == request;
    } else {
      assert (probes + request)[1..] == request;
    }
  }

  lemma {:induction false} IdsOfOne(m: Message)
    ensures Ids([m]) == IdOf(m)
  {
    assert [m][1..] == [];
  }

  /** What is left to send fits the budget as long as the tick does not purge the list. */
  lemma {:induction false} ProbeKeepsWeight(p: Prober, lastRttUpdate: int, now: int, later: int)
    requires lastRttUpdate <= now <= later && now - lastRttUpdate < RTT_UPDATE_INTERVAL
    ensures Weight(Probe(p, now, later).0, lastRttUpdate) <= Weight(p, lastRttUpdate)
  {
  }

  lemma {:induction false} QuietTickKeepsOrder(w: World, e: Event)
    requires Bounded(w.net.ids) && CanAllocate(w.net.ids) && InOrder(w)
    requires e.Tick? && w.ledger.clock <= e.now <= e.later
    requires !e.streaming || e.now - w.net.ids.lastRttUpdate < RTT_UPDATE_INTERVAL
    ensures InOrder(Observe(w, e))
  {
    if e.streaming {
      ProbeSendsNoId(w.net.prober, e.now, e.later, []);
      ProbeKeepsWeight(w.net.prober, w.net.ids.lastRttUpdate, e.now, e.later);
    }
    var l := w.ledger.(clock := e.later);
    assert w.ledger.issued + [] == w.ledger.issued;
    assert Observe(w, e).ledger == l;
    LaterClockKeepsYoung(w.ledger, l, w.net.ids, w.net.stats.lastNetworkResult);
  }

  lemma {:induction false} LaterClockKeepsYoung(l: Ledger, l': Ledger, a: Allocator, lastResult: int)
    requires AllYoung(l, a, lastResult) && l' == l.(clock := l'.clock) && l.clock <= l'.clock
    ensures AllYoung(l', a, lastResult)
  {
    forall id | id in a.requests
      ensures Young(l', a, lastResult, id, a.requests[id])
    {
      assert Young(l, a, lastResult, id, a.requests[id]);
    }
  }

  lemma {:induction false} RequestKeepsYoung(l: Ledger, a: Allocator, lastResult: int, now: int, later: int)
    requires AllYoung(l, a, lastResult) && |l.issued| == l.rtts + l.results && l.resultsAtPurge <= l.results
    requires lastResult <= l.clock <= now <= later && now - a.lastRttUpdate >= RTT_UPDATE_INTERVAL
    ensures var id := CyclicId(|l.issued|);
            AllYoung(Record(l, Tick(true, now, later), [id]),
                     Allocator(U16(id + 1), Unexpired(a.requests, now)[id := now], now), lastResult)
  {
    var id := CyclicId(|l.issued|);
    var l' := Record(l, Tick(true, now, later), [id]);
    var b := Allocator(U16(id + 1), Unexpired(a.requests, now)[id := now], now);
    forall i | i in b.requests
      ensures Young(l', b, lastResult, i, b.requests[i])
    {
      if i != id {
        assert Young(l, a, lastResult, i, a.requests[i]);
        assert l.births[i].results < l.results ==> ResultSpan(l.results - l.births[i].results - 1) <= RTT_REQUEST_MAX_AGE;
      }
    }
  }

  lemma {:induction false} RequestKeepsOrder(w: World, e: Event)
    requires Bounded(w.net.ids) && CanAllocate(w.net.ids) && InOrder(w)
    requires e.Tick? && e.streaming && w.ledger.clock <= e.now <= e.later
    requires e.now - w.net.ids.lastRttUpdate >= RTT_UPDATE_INTERVAL
    ensures InOrder(Observe(w, e))
  {
    var a, l := w.net.ids, w.ledger;
    var id := CyclicId(|l.issued|);
    UnexpiredIsSmaller(a.requests, e.now);
    AllocatesCyclicId(w, a.(lastRttUpdate := e.now, requests := Unexpired(a.requests, e.now)));
    ProbeSendsNoId(w.net.prober, e.now, e.later, [RttRequest(id)]);
    IdsOfOne(RttRequest(id));
    var l' := Record(l, Tick(true, e.now, e.later), [id]);
    var b := Allocator(U16(id + 1), Unexpired(a.requests, e.now)[id := e.now], e.now);
    assert Observe(w, e).ledger == l' && Observe(w, e).net.ids == b;
    ExtendingKeepsOrder(l, l', a, b);
    RequestKeepsYoung(l, a, w.net.stats.lastNetworkResult, e.now, e.later);
    StepKeepsBounded(w.net, e);
  }

  /** A response or a bandwidth result, seen from the ledger: perhaps a result goes out. */
  lemma {:induction false} ResultKeepsYoung(l: Ledger, a: Allocator, b: Allocator, lastResult: int, e: Event, issue: bool)
    requires AllYoung(l, a, lastResult) && !e.Tick? && l.clock <= LastReading(e)
    requires b.lastRttUpdate == a.lastRttUpdate
    requires forall id :: id in b.requests ==> id in a.requests && b.requests[id] == a.requests[id]
    requires issue ==> LastReading(e) - lastResult >= NETWORK_RESULT_INTERVAL
    ensures AllYoung(Record(l, e, if issue then [CyclicId(|l.issued|)] else []), b,
                     if issue then LastReading(e) else lastResult)
  {
    var l' := Record(l, e, if issue then [CyclicId(|l.issued|)] else []);
    forall id | id in b.requests
      ensures Young(l', b, if issue then LastReading(e) else lastResult, id, b.requests[id])
    {
      assert Young(l, a, lastResult, id, a.requests[id]);
    }
  }

  /**
   `updateAverageRtt` after room was made for one more result: a response took a
   request off the list, or a bandwidth result ended a measurement.
   */
  lemma {:induction false} AverageKeepsOrder(w: World, n: Net, e: Event)
    requires Bounded(w.net.ids) && InOrder(w) && CanAllocate(n.ids)
    requires !e.Tick? && w.ledger.clock <= LastReading(e)
    requires n.ids.sequenceNumber == w.net.ids.sequenceNumber && n.ids.lastRttUpdate == w.net.ids.lastRttUpdate
    requires forall id :: id in n.ids.requests ==> id in w.net.ids.requests && n.ids.requests[id] == w.net.ids.requests[id]
    requires n.stats.lastNetworkResult == w.net.stats.lastNetworkResult
    requires |n.ids.requests| + Weight(n.prober, n.ids.lastRttUpdate)
             < |w.net.ids.requests| + Weight(w.net.prober, w.net.ids.lastRttUpdate)
    ensures var (n', sent) := UpdateAverage(n, LastReading(e));
            InOrder(World(n', Record(w.ledger, e, Ids(sent))))
  {
    var l, now := w.ledger, LastReading(e);
    var published := Publish(n.stats, now);
    var issue := ResultIsDue(published, now);
    ResultKeepsYoung(l, w.net.ids, n.ids, w.net.stats.lastNetworkResult, e, issue);
    if issue {
      AllocatesCyclicId(w, n.ids);
      var id := CyclicId(|l.issued|);
      IdsOfOne(ResultMessage(published, id));
      var b := n.ids.(sequenceNumber := U16(id + 1));
      ExtendingKeepsOrder(l, Record(l, e, [id]), w.net.ids, b);
      assert AllYoung(Record(l, e, [id]), b, now);
    } else {
      assert l.issued + [] == l.issued;
    }
  }

  /** A call that neither hands out an id nor adds a request only moves the clock. */
  lemma {:induction false} SilenceKeepsOrder(w: World, n: Net, e: Event)
    requires InOrder(w) && !e.Tick? && w.ledger.clock <= LastReading(e)
    requires n.ids.sequenceNumber == w.net.ids.sequenceNumber && n.ids.lastRttUpdate == w.net.ids.lastRttUpdate
    requires forall id :: id in n.ids.requests ==> id in w.net.ids.requests && n.ids.requests[id] == w.net.ids.requests[id]
    requires n.stats.lastNetworkResult == w.net.stats.lastNetworkResult
    requires |n.ids.requests| + Weight(n.prober, n.ids.lastRttUpdate)
             <= |w.net.ids.requests| + Weight(w.net.prober, w.net.ids.lastRttUpdate)
    ensures InOrder(World(n, Record(w.ledger, e, [])))
  {
    ResultKeepsYoung(w.ledger, w.net.ids, n.ids, w.net.stats.lastNetworkResult, e, false);
    assert w.ledger.issued + [] == w.ledger.issued;
  }

  lemma {:induction false} ResponseKeepsOrder(w: World, e: Event)
    requires Bounded(w.net.ids) && CanAllocate(w.net.ids) && InOrder(w)
    requires e.Response? && w.ledger.clock <= e.now <= e.later
    ensures InOrder(Observe(w, e))
  {
    var n := w.net;
    if e.id !in n.ids.requests {
      SilenceKeepsOrder(w, n, e);
    } else {
      TakenIsSmaller(n.ids.requests, e.id);
      if e.now <= n.ids.requests[e.id] {
        SilenceKeepsOrder(w, Answer(n, e.id, e.now), e);
      } else {
        AverageKeepsOrder(w, Answer(n, e.id, e.now), e);
      }
    }
  }

  lemma {:induction false} ResultsKeepOrder(w: World, e: Event)
    requires Bounded(w.net.ids) && CanAllocate(w.net.ids) && InOrder(w)
    requires e.Results? && w.ledger.clock <= e.now
    ensures InOrder(Observe(w, e))
  {
    var n := w.net;
    var idle := n.(prober := n.prober.(phase := Idle));
    if n.prober.phase != PendingResults {
      SilenceKeepsOrder(w, n, e);
    } else if e.timeDelta == 0 || e.byteCount == 0 {
      SilenceKeepsOrder(w, idle, e);
    } else {
      AverageKeepsOrder(w, idle.(stats := AddSample(n.stats, BytesPerSecond(e.timeDelta, e.byteCount))), e);
    }
  }

  // -------------------------------------------------------------------- runs

  /** No reading is earlier than the one before it. */
  predicate Monotone(clock: int, events: seq<Event>)
    decreases |events|
  {
    events == [] ||
    (clock <= events[0].now <= LastReading(events[0]) && Monotone(LastReading(events[0]), events[1..]))
  }

  lemma {:induction false} RunsStayInOrder(w: World, events: seq<Event>)
    requires Bounded(w.net.ids) && CanAllocate(w.net.ids) && InOrder(w)
    requires Monotone(w.ledger.clock, events)
    ensures InOrder(Run(w, events))
    decreases |events|
  {
    if events != [] {
      var e := events[0];
      StepKeepsBounded(w.net, e);
      if e.Response? {
        ResponseKeepsOrder(w, e);
      } else if e.Results? {
        ResultsKeepOrder(w, e);
      } else if e.streaming && e.now - w.net.ids.lastRttUpdate >= RTT_UPDATE_INTERVAL {
        RequestKeepsOrder(w, e);
      } else {
        QuietTickKeepsOrder(w, e);
      }
      assert Observe(w, e).ledger.clock == LastReading(e);
      RunsStayInOrder(Observe(w, e), events[1..]);
    }
  }

  lemma {:induction false} StartIsInOrder(w: World)
    requires AtStart(w)
    ensures Bounded(w.net.ids) && CanAllocate(w.net.ids) && InOrder(w)
  {
  }

  /**
   From start-up, with a clock that does not go back, round-trip requests and
   network results together take the ids 1, 2, ..., 65535, 1, 2, ... in that order.
   */
  lemma {:induction false} IdsComeInCyclicOrder(w: World, events: seq<Event>)
    requires AtStart(w) && Monotone(0, events)
    ensures Bounded(w.net.ids) && CanAllocate(w.net.ids)
    ensures var issued := Run(w, events).ledger.issued;
            forall k {:trigger issued[k]} :: 0 <= k < |issued| ==> issued[k] == CyclicId(k)
  {
    StartIsInOrder(w);
    RunsStayInOrder(w, events);
    assert IssuedInOrder(Run(w, events).ledger, Run(w, events).net.ids);
  }
}
