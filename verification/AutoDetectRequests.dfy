/**
 What becomes of round-trip requests over whole runs, at any clock readings: each is
 answered, expires or is still outstanding, gives at most one measurement, and that is
 the time from its sending to its answer. The tally is kept from the events and the
 messages sent, not from the state.
 */
module AutoDetectRequests {
  import opened Wrappers
  import opened AutoDetect

  /** A request answered later than it was sent, and the reading at its answer. */
  datatype Trip = Trip(serial: nat, answered: int)

  /** Requests are numbered in the order they are sent. */
  datatype Tally = Tally(
    sentAt: seq<int>,         // the reading at which each was sent
    open: map<nat, nat>,      // the number of the request outstanding under an id
    answered: set<nat>,
    expired: set<nat>,
    trips: seq<Trip>)

  datatype World = World(net: Net, tally: Tally)

  predicate SendsRequest(sent: seq<Message>) {
    sent != [] && sent[|sent| - 1].RttRequest?
  }

  /** Younger than 30 s, or just so old. */
  predicate IsLive(t: Tally, serial: nat, now: int) {
    serial < |t.sentAt| && now - t.sentAt[serial] <= 30_000_000_000
  }

  function Live(t: Tally, now: int): map<nat, nat> {
    map id | id in t.open && IsLive(t, t.open[id], now) :: t.open[id]
  }

  function Serials(open: map<nat, nat>): set<nat> {
    set id | id in open :: open[id]
  }

  function Count(t: Tally, e: Event, sent: seq<Message>): Tally {
    match e
    case Tick(_, now, _) =>
      if !SendsRequest(sent) then t
      else
        var live := Live(t, now);
        t.(sentAt := t.sentAt + [now], open := live[sent[|sent| - 1].id := |t.sentAt|],
           expired := t.expired + (set id | id in t.open && id !in live :: t.open[id]))
    case Response(id, now, _) =>
      if id !in t.open then t
      else
        var serial := t.open[id];
        t.(open := t.open - {id}, answered := t.answered + {serial},
           trips := if serial < |t.sentAt| && now > t.sentAt[serial] then t.trips + [Trip(serial, now)] else t.trips)
    case Results(_, _, _) => t
  }

  function Observe(w: World, e: Event): World
    requires CanAllocate(w.net.ids)
  {
    var (net, sent) := Step(w.net, e);
    World(net, Count(w.tally, e, sent))
  }

  function Run(w: World, events: seq<Event>): World
    requires Bounded(w.net.ids) && CanAllocate(w.net.ids)
    decreases |events|
  {
    if events == [] then w
    else
      StepKeepsBounded(w.net, events[0]);
      Run(Observe(w, events[0]), events[1..])
  }

  // ---------------------------------------------------------------- the requests

  /** The list of requests is the tally's: the ids, each with the reading at which it was sent. */
  ghost predicate Lists(t: Tally, requests: map<nat, int>) {
    && requests.Keys == t.open.Keys
    && (forall id :: id in t.open ==> t.open[id] < |t.sentAt| && requests[id] == t.sentAt[t.open[id]])
  }

  /** Outstanding requests have a number each, and every number is in exactly one of three places. */
  ghost predicate Partitions(t: Tally) {
    && (forall i, j :: i in t.open && j in t.open && i != j ==> t.open[i] != t.open[j])
    && Splits(Serials(t.open), t.answered, t.expired, |t.sentAt|)
  }

  /** The numbers below n are in exactly one of three sets each, and nothing else is in them. */
  ghost predicate Splits(open: set<nat>, answered: set<nat>, expired: set<nat>, n: nat) {
    && (forall i :: i in open || i in answered || i in expired ==> i < n)
    && (forall i :: 0 <= i < n ==> i in open || i in answered || i in expired)
    && open !! answered && open !! expired && answered !! expired
  }

  /** Each trip is that of an answered request, was longer than nothing, and no request has two. */
  ghost predicate OneTripEach(t: Tally) {
    && (forall j :: 0 <= j < |t.trips| ==> t.trips[j].serial in t.answered && t.trips[j].serial < |t.sentAt| && Duration(t, j) > 0)
    && (forall i, j :: 0 <= i < j < |t.trips| ==> t.trips[i].serial != t.trips[j].serial)
  }

  function Duration(t: Tally, j: nat): int
    requires j < |t.trips|
  {
    if t.trips[j].serial < |t.sentAt| then t.trips[j].answered - t.sentAt[t.trips[j].serial] else 0
  }

  /** These trips, in order, are the measurements kept. */
  ghost predicate KeptFrom(t: Tally, ms: seq<Measurement>, kept: seq<nat>) {
    && |kept| == |ms|
    && (forall i :: 0 <= i < |kept| ==> kept[i] < |t.trips|)
    && (forall i, j :: 0 <= i < j < |kept| ==> kept[i] < kept[j])
    && (forall i :: 0 <= i < |kept| ==>
          ms[i].time == t.trips[kept[i]].answered && ms[i].roundTrip == Duration(t, kept[i]))
  }

  ghost predicate MeasuresTrips(t: Tally, ms: seq<Measurement>) {
    exists kept :: KeptFrom(t, ms, kept)
  }

  ghost predicate Accounted(w: World) {
    && Lists(w.tally, w.net.ids.requests)
    && Partitions(w.tally)
    && OneTripEach(w.tally)
    && MeasuresTrips(w.tally, w.net.stats.measurements)
  }

  // -------------------------------------------------------------------- requests

  /** What a tick does: at most one request, at most every 70 ms, under an id that is free. */
  lemma {:induction false} TickSends(n: Net, e: Event)
    requires CanAllocate(n.ids) && e.Tick?
    ensures var (n', sent) := Step(n, e);
            && n'.stats == n.stats
            && (SendsRequest(sent) <==> e.streaming && e.now - n.ids.lastRttUpdate >= 70_000_000)
            && (!SendsRequest(sent) ==> n'.ids.requests == n.ids.requests)
            && (SendsRequest(sent) ==>
                  var id := sent[|sent| - 1].id;
                  id !in Unexpired(n.ids.requests, e.now) && n'.ids.requests == Unexpired(n.ids.requests, e.now)[id := e.now])
  {
    if e.streaming {
      var probes := Probe(n.prober, e.now, e.later).1;
      var requests := SendRequest(n.ids, e.now).1;
      if requests == [] {
        assert probes + requests == probes;
      } else {
        UnexpiredIsSmaller(n.ids.requests, e.now);
        assert (probes + requests)[|probes + requests| - 1] == requests[0];
      }
    }
  }

  lemma {:induction false} LiveIsUnexpired(t: Tally, requests: map<nat, int>, now: int)
    requires Lists(t, requests)
    ensures Live(t, now).Keys == Unexpired(requests, now).Keys
    ensures forall id :: id in Live(t, now) ==> Unexpired(requests, now)[id] == t.sentAt[t.open[id]]
  {
  }

  lemma {:induction false} RequestIsListed(t: Tally, requests: map<nat, int>, id: nat, now: int, t': Tally)
    requires Lists(t, requests) && id !in Unexpired(requests, now)
    requires t'.sentAt == t.sentAt + [now] && t'.open == Live(t, now)[id := |t.sentAt|]
    ensures Lists(t', Unexpired(requests, now)[id := now])
  {
    LiveIsUnexpired(t, requests, now);
  }

  lemma {:induction false} RequestPartitions(t: Tally, id: nat, now: int, t': Tally)
    requires Partitions(t) && id !in Live(t, now)
    requires t'.sentAt == t.sentAt + [now] && t'.open == Live(t, now)[id := |t.sentAt|]
    requires t'.answered == t.answered
    requires t'.expired == t.expired + (set i | i in t.open && i !in Live(t, now) :: t.open[i])
    ensures Partitions(t')
  {
    var live, n := Live(t, now), |t.sentAt|;
    var late := set i | i in t.open && i !in live :: t.open[i];
    SerialsAfterRequest(t, live, id, n);
    assert forall i :: i in live ==> live[i] == t.open[i];
    assert Serials(t.open) == Serials(live) + late;
    assert Serials(live) !! late;
    NumbersMove(Serials(live), late, t.answered, t.expired, n);
    assert forall i :: i in live ==> t'.open[i] == live[i] && live[i] < n;
  }

  lemma {:induction false} SerialsAfterRequest(t: Tally, live: map<nat, nat>, id: nat, n: nat)
    requires id !in live
    ensures Serials(live[id := n]) == Serials(live) + {n}
  {
    var open := live[id := n];
    assert open[id] == n;
    assert forall i :: i in live ==> open[i] == live[i];
  }

  lemma {:induction false} NumbersMove(live: set<nat>, late: set<nat>, answered: set<nat>, expired: set<nat>, n: nat)
    requires Splits(live + late, answered, expired, n) && live !! late
    ensures Splits(live + {n}, answered, expired + late, n + 1)
    ensures forall i :: i in live ==> i < n
  {
    assert forall i :: i in live ==> i in live + late;
    assert forall i :: i in late ==> i in live + late;
  }

  lemma {:induction false} RequestKeepsTrips(t: Tally, t': Tally, now: int, ms: seq<Measurement>)
    requires OneTripEach(t) && MeasuresTrips(t, ms)
    requires t'.sentAt == t.sentAt + [now] && t'.answered == t.answered && t'.trips == t.trips
    ensures OneTripEach(t') && MeasuresTrips(t', ms)
  {
    assert forall j :: 0 <= j < |t.trips| ==> Duration(t', j) == Duration(t, j);
    var kept: seq<nat> :| KeptFrom(t, ms, kept);
    assert KeptFrom(t', ms, kept);
  }

  lemma {:induction false} TickIsAccounted(w: World, e: Event)
    requires CanAllocate(w.net.ids) && Accounted(w) && e.Tick?
    ensures Accounted(Observe(w, e))
  {
    TickSends(w.net, e);
    var sent := Step(w.net, e).1;
    if SendsRequest(sent) {
      var id, t' := sent[|sent| - 1].id, Count(w.tally, e, sent);
      LiveIsUnexpired(w.tally, w.net.ids.requests, e.now);
      RequestIsListed(w.tally, w.net.ids.requests, id, e.now, t');
      RequestPartitions(w.tally, id, e.now, t');
      RequestKeepsTrips(w.tally, t', e.now, w.net.stats.measurements);
    }
  }

  // --------------------------------------------------------------------- answers

  /** A publication keeps some of the measurements, in order. */
  lemma {:induction false} RecentKeepsTrips(t: Tally, ms: seq<Measurement>, kept: seq<nat>, now: int, k: nat) returns (left: seq<nat>)
    requires KeptFrom(t, ms, kept) && k <= |ms|
    ensures KeptFrom(t, Recent(ms, now, k), left)
    ensures forall i :: 0 <= i < |left| ==> k > 0 && left[i] <= kept[k - 1]
  {
    left := [];
    if k > 0 {
      left := RecentKeepsTrips(t, ms, kept, now, k - 1);
      if now - ms[k - 1].time <= RTT_AVERAGE_INTERVAL {
        left := left + [kept[k - 1]];
      }
    }
  }

  lemma {:induction false} AverageKeepsTrips(t: Tally, n: Net, now: int)
    requires CanAllocate(n.ids) && MeasuresTrips(t, n.stats.measurements)
    ensures var n' := UpdateAverage(n, now).0;
            MeasuresTrips(t, n'.stats.measurements) && n'.ids.requests == n.ids.requests
  {
    var kept: seq<nat> :| KeptFrom(t, n.stats.measurements, kept);
    var left := RecentKeepsTrips(t, n.stats.measurements, kept, now, |n.stats.measurements|);
    assert KeptFrom(t, Publish(n.stats, now).measurements, left);
  }

  lemma {:induction false} AnswerPartitions(t: Tally, requests: map<nat, int>, id: nat, t': Tally)
    requires Lists(t, requests) && Partitions(t) && id in t.open
    requires t'.sentAt == t.sentAt && t'.open == t.open - {id} && t'.expired == t.expired
    requires t'.answered == t.answered + {t.open[id]}
    ensures Lists(t', requests - {id}) && Partitions(t')
  {
    assert Serials(t'.open) == Serials(t.open) - {t.open[id]} by {
      assert forall i :: i in t'.open ==> i in t.open && t'.open[i] == t.open[i] && i != id;
      assert forall i :: i in t.open && i != id ==> i in t'.open;
    }
    assert t.open[id] in Serials(t.open);
    NumberAnswered(Serials(t.open), t.answered, t.expired, |t.sentAt|, t.open[id]);
  }

  lemma {:induction false} NumberAnswered(open: set<nat>, answered: set<nat>, expired: set<nat>, n: nat, x: nat)
    requires Splits(open, answered, expired, n) && x in open
    ensures Splits(open - {x}, answered + {x}, expired, n)
  {
  }

  lemma {:induction false} AnswerKeepsOneTrip(w: World, e: Event, t': Tally)
    requires Accounted(w) && e.Response? && e.id in w.net.ids.requests && t' == Count(w.tally, e, [])
    ensures OneTripEach(t')
  {
    var t := w.tally;
    assert forall j :: 0 <= j < |t.trips| ==> Duration(t', j) == Duration(t, j);
    assert t.open[e.id] in Serials(t.open);
    if e.now > t.sentAt[t.open[e.id]] {
      assert t'.trips == t.trips + [Trip(t.open[e.id], e.now)];
    }
  }

  /** An answer adds its own trip to the measurements, or none. */
  lemma {:induction false} AnswerKeepsTrips(w: World, e: Event, t': Tally)
    requires CanAllocate(w.net.ids) && Accounted(w) && e.Response? && e.id in w.net.ids.requests
    requires t' == Count(w.tally, e, [])
    ensures MeasuresTrips(t', Answer(w.net, e.id, e.now).stats.measurements)
  {
    var t, ms := w.tally, w.net.stats.measurements;
    assert forall j :: 0 <= j < |t.trips| ==> Duration(t', j) == Duration(t, j);
    var kept: seq<nat> :| KeptFrom(t, ms, kept);
    if e.now > t.sentAt[t.open[e.id]] {
      assert t'.trips == t.trips + [Trip(t.open[e.id], e.now)];
      TripIsKept(t, t', ms, kept, Measurement(e.now, e.now - w.net.ids.requests[e.id]));
    } else {
      assert KeptFrom(t', ms, kept);
    }
  }

  lemma {:induction false} TripIsKept(t: Tally, t': Tally, ms: seq<Measurement>, kept: seq<nat>, m: Measurement)
    requires KeptFrom(t, ms, kept) && |t'.trips| == |t.trips| + 1
    requires forall j :: 0 <= j < |t.trips| ==> t'.trips[j] == t.trips[j] && Duration(t', j) == Duration(t, j)
    requires m == Measurement(t'.trips[|t.trips|].answered, Duration(t', |t.trips|))
    ensures KeptFrom(t', ms + [m], kept + [|t.trips|])
  {
    var kept': seq<nat> := kept + [|t.trips|];
    assert forall i :: 0 <= i < |kept| ==> kept'[i] == kept[i] && (ms + [m])[i] == ms[i];
  }

  lemma {:induction false} ResponseIsAccounted(w: World, e: Event)
    requires CanAllocate(w.net.ids) && Accounted(w) && e.Response?
    ensures Accounted(Observe(w, e))
  {
    if e.id in w.net.ids.requests {
      var t' := Count(w.tally, e, []);
      AnswerPartitions(w.tally, w.net.ids.requests, e.id, t');
      AnswerKeepsOneTrip(w, e, t');
      AnswerKeepsTrips(w, e, t');
      if e.now > w.net.ids.requests[e.id] {
        AverageKeepsTrips(t', Answer(w.net, e.id, e.now), e.later);
      }
    }
  }

  lemma {:induction false} ResultsAreAccounted(w: World, e: Event)
    requires CanAllocate(w.net.ids) && Accounted(w) && e.Results?
    ensures Accounted(Observe(w, e))
  {
    var n := w.net;
    if n.prober.phase == PendingResults && e.timeDelta > 0 && e.byteCount > 0 {
      var st := AddSample(n.stats, BytesPerSecond(e.timeDelta, e.byteCount));
      AverageKeepsTrips(w.tally, Net(n.prober.(phase := Idle), n.ids, st), e.now);
    }
  }

  /**
   Over every run, with duplicate, late or invented responses: requests sent are those
   answered, expired or outstanding, and the measurements are trips of answered requests.
   */
  lemma {:induction false} EveryRequestIsAccountedFor(w: World, events: seq<Event>)
    requires Bounded(w.net.ids) && CanAllocate(w.net.ids) && Accounted(w)
    ensures Accounted(Run(w, events))
    decreases |events|
  {
    if events != [] {
      var e := events[0];
      StepKeepsBounded(w.net, e);
      match e {
        case Tick(_, _, _) => TickIsAccounted(w, e);
        case Response(_, _, _) => ResponseIsAccounted(w, e);
        case Results(_, _, _) => ResultsAreAccounted(w, e);
      }
      EveryRequestIsAccountedFor(Observe(w, e), events[1..]);
    }
  }

  // ------------------------------------------------------------------ statistics

  /** Over every run, at any clock readings: 0 < minimum <= average <= maximum of the measurements kept. */
  lemma {:induction false} EveryRunPublishesOrdered(w: World, events: seq<Event>)
    requires Bounded(w.net.ids) && CanAllocate(w.net.ids) && Ordered(w.net.stats)
    ensures Ordered(Run(w, events).net.stats)
    decreases |events|
  {
    if events != [] {
      StepKeepsBounded(w.net, events[0]);
      StepKeepsOrdered(w.net, events[0]);
      EveryRunPublishesOrdered(Observe(w, events[0]), events[1..]);
    }
  }

  function Durations(t: Tally, kept: seq<nat>): seq<int>
    requires forall i :: 0 <= i < |kept| ==> kept[i] < |t.trips|
  {
    seq(|kept|, i requires 0 <= i < |kept| => Duration(t, kept[i]))
  }

  function Total(d: seq<int>, k: nat): int
    requires k <= |d|
  {
    if k == 0 then 0 else Total(d, k - 1) + d[k - 1]
  }

  /** Least and average, rounded down, of some durations. */
  predicate IsStatistic(minimum: int, average: int, d: seq<int>) {
    && (forall i :: 0 <= i < |d| ==> minimum <= d[i]) && minimum in d
    && average * |d| <= Total(d, |d|) < (average + 1) * |d|
  }

  /** What is published are minimum and average of the times from sending to answer of some requests, each once. */
  ghost predicate PublishesTrips(w: World) {
    w.net.stats.measurements != [] ==>
      exists kept :: KeptFrom(w.tally, w.net.stats.measurements, kept)
                     && IsStatistic(w.net.stats.minimumRtt, w.net.stats.averageRtt, Durations(w.tally, kept))
  }

  lemma {:induction false} TotalIsSum(ms: seq<Measurement>, d: seq<int>, k: nat)
    requires |d| == |ms| && k <= |ms| && forall i :: 0 <= i < |d| ==> d[i] == ms[i].roundTrip
    ensures Total(d, k) == Sum(ms, k)
  {
    if k > 0 {
      TotalIsSum(ms, d, k - 1);
    }
  }

  lemma {:induction false} OrderedPublishesTrips(w: World)
    requires Accounted(w) && Ordered(w.net.stats)
    ensures PublishesTrips(w)
  {
    var st := w.net.stats;
    if st.measurements != [] {
      var kept: seq<nat> :| KeptFrom(w.tally, st.measurements, kept);
      MeasurementsAreStatistic(st.measurements, Durations(w.tally, kept));
    }
  }

  lemma {:induction false} MeasurementsAreStatistic(ms: seq<Measurement>, d: seq<int>)
    requires ms != [] && |d| == |ms| && forall i :: 0 <= i < |d| ==> d[i] == ms[i].roundTrip
    ensures IsStatistic(Minimum(ms, |ms|), Sum(ms, |ms|) / |ms|, d)
  {
    var n := |ms|;
    TotalIsSum(ms, d, n);
    SumBounds(ms, n, Minimum(ms, n), Maximum(ms, n));
    QuotientBounds(Sum(ms, n), n, Minimum(ms, n), Maximum(ms, n));
    var j :| 0 <= j < n && Minimum(ms, n) == ms[j].roundTrip;
    assert d[j] == Minimum(ms, n);
  }

  /** Nothing sent, nothing measured. */
  predicate AtStart(w: World) {
    && w.net.ids.requests == map[] && w.net.ids.sequenceNumber == 0
    && w.net.stats.measurements == [] && w.net.stats.minimumRtt == 0 && w.net.stats.averageRtt == 0
    && w.tally.sentAt == [] && w.tally.open == map[] && w.tally.answered == {} && w.tally.expired == {}
    && w.tally.trips == []
  }

  /**
   From start-up, every run accounts for its requests, and publishes in order the least and
   the average of their trips.
   */
  lemma {:induction false} EveryRunFromStart(w: World, events: seq<Event>)
    requires AtStart(w)
    ensures Bounded(w.net.ids) && CanAllocate(w.net.ids)
    ensures var end := Run(w, events); Accounted(end) && Ordered(end.net.stats) && PublishesTrips(end)
  {
    assert Serials(w.tally.open) == {};
    assert KeptFrom(w.tally, w.net.stats.measurements, []);
    EveryRequestIsAccountedFor(w, events);
    EveryRunPublishesOrdered(w, events);
    OrderedPublishesTrips(Run(w, events));
  }
}
