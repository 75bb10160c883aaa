/**
 Network auto-detection of src/NetworkDetection.cpp (section 2.2.14 of
 [MS-RDPBCGR]) as a state machine: what each call does to the state and which
 messages it sends. Time is in nanoseconds; readings come from the caller.
 */
module AutoDetect {
  import opened Wrappers

  const MILLISECOND := 1_000_000
  const RTT_UPDATE_INTERVAL := 70 * MILLISECOND
  const RTT_AVERAGE_INTERVAL := 500 * MILLISECOND
  const NETWORK_RESULT_INTERVAL := 1000 * MILLISECOND
  const RTT_REQUEST_MAX_AGE := 30_000 * MILLISECOND
  const BANDWIDTH_MEASURE_DURATION := 500 * MILLISECOND
  const BANDWIDTH_MEASURE_INTERVAL := 2000 * MILLISECOND
  const SMOOTHING_WEIGHT := 0.5

  /** The most round-trip requests that can be unanswered at once. */
  const MAX_OUTSTANDING := 429

  const IDS := 0x1_0000

  /** The least time in which a number of requests, or of results, can have been sent. */
  function RttSpan(count: int): int { 70_000_000 * count }

  function ResultSpan(count: int): int { 1_000_000_000 * count }

  datatype Phase = Idle | PendingStop | QueuedStop | PendingResults

  datatype Measurement = Measurement(time: int, roundTrip: int)

  datatype Message =
    | MeasureStart
    | MeasureStop
    | RttRequest(id: nat)
    | NetworkResult(id: nat, baseRtt: nat, averageRtt: nat, bandwidth: nat)

  /** Bandwidth probing: the phase and the two readings it is throttled by. */
  datatype Prober = Prober(phase: Phase, measureStart: int, lastMeasureStart: int)

  /** Sequence numbers: the counter and the unanswered requests with their sending times. */
  datatype Allocator = Allocator(sequenceNumber: nat, requests: map<nat, int>, lastRttUpdate: int)

  /** What is measured and published. */
  datatype Stats = Stats(
    measurements: seq<Measurement>,
    minimumRtt: int,
    averageRtt: int,
    smoothed: real,
    hasSmoothed: bool,
    bandwidth: nat,
    lastNetworkResult: int)

  datatype Net = Net(prober: Prober, ids: Allocator, stats: Stats)

  const INITIAL := Net(Prober(Idle, 0, 0), Allocator(0, map[], 0), Stats([], 0, 0, 0.0, false, 0, 0))

  // -------------------------------------------------------- sequence numbers

  /** The 16-bit counter after k increments. */
  function Advance(start: nat, k: nat): (r: nat)
    requires start < IDS && k <= IDS
    ensures r == if start + k < IDS then start + k else start + k - IDS
  {
    U16(start + k)
  }

  predicate Taken(id: nat, used: set<nat>) {
    id == 0 || id in used
  }

  predicate AllTaken(start: nat, used: set<nat>, k: nat)
    requires start < IDS && k <= IDS
  {
    forall j :: 0 <= j < k ==> Taken(Advance(start, j), used)
  }

  lemma {:induction false} AdvanceIsInjective(start: nat, k: nat)
    requires start < IDS && k <= IDS
    ensures |set j | 0 <= j < k :: Advance(start, j)| == k
  {
    var seen := set j | 0 <= j < k :: Advance(start, j);
    if k == 0 {
      assert seen == {};
    } else {
      AdvanceIsInjective(start, k - 1);
      var before := set j | 0 <= j < k - 1 :: Advance(start, j);
      assert seen == before + {Advance(start, k - 1)};
      assert Advance(start, k - 1) !in before;
    }
  }

  /** Pigeonhole: the counter cannot step over more than the used ids and zero. */
  lemma {:induction false} SearchIsShort(start: nat, used: set<nat>, k: nat)
    requires start < IDS && k <= IDS && AllTaken(start, used, k)
    ensures k <= |used| + 1
  {
    var seen := set j | 0 <= j < k :: Advance(start, j);
    AdvanceIsInjective(start, k);
    SubsetSize(seen, used + {0});
  }

  /** How many increments reach the first free id at or after `Advance(start, k)`. */
  function Search(start: nat, used: set<nat>, k: nat): (n: nat)
    requires start < IDS && |used| < IDS - 1 && k <= |used| + 1
    requires AllTaken(start, used, k)
    ensures k <= n <= |used| + 1
    ensures !Taken(Advance(start, n), used) && AllTaken(start, used, n)
    decreases IDS - k
  {
    if !Taken(Advance(start, k), used) then k
    else
      SearchIsShort(start, used, k + 1);
      Search(start, used, k + 1)
  }

  function NextId(start: nat, used: set<nat>): (id: nat)
    requires start < IDS && |used| < IDS - 1
    ensures 0 < id < IDS && id !in used
  {
    Advance(start, Search(start, used, 0))
  }

  // -------------------------------------------------------------- the calls

  function StartMeasure(p: Prober, now: int): (Prober, seq<Message>) {
    if p.phase != Idle then (p, [])
    else (p.(phase := PendingStop, measureStart := now), [MeasureStart])
  }

  function StopMeasure(p: Prober): (Prober, seq<Message>) {
    if p.phase != PendingStop then (p, [])
    else (p.(phase := PendingResults), [MeasureStop])
  }

  /** The first half of `update`; `later` is the second clock reading. */
  function Probe(p: Prober, now: int, later: int): (Prober, seq<Message>) {
    if p.phase == PendingStop && now - p.measureStart >= BANDWIDTH_MEASURE_DURATION then StopMeasure(p)
    else if p.phase == Idle && now - p.lastMeasureStart >= BANDWIDTH_MEASURE_INTERVAL then
      StartMeasure(p.(lastMeasureStart := now), later)
    else (p, [])
  }

  function Unexpired(requests: map<nat, int>, now: int): map<nat, int> {
    map id | id in requests && now - requests[id] <= RTT_REQUEST_MAX_AGE :: requests[id]
  }

  predicate CanAllocate(a: Allocator) {
    a.sequenceNumber < IDS && |a.requests| < IDS - 1
  }

  lemma {:induction false} UnexpiredIsSmaller(requests: map<nat, int>, now: int)
    ensures |Unexpired(requests, now)| <= |requests|
  {
    SubsetSize(Unexpired(requests, now).Keys, requests.Keys);
    assert |requests| == |requests.Keys|;
    assert |Unexpired(requests, now)| == |Unexpired(requests, now).Keys|;
  }

  /** Take the next id: what is left of the counter, and the id. */
  function Allocate(a: Allocator): (r: (Allocator, nat))
    requires CanAllocate(a)
  {
    var id := NextId(a.sequenceNumber, a.requests.Keys);
    (a.(sequenceNumber := U16(id + 1)), id)
  }

  /** The second half of `update`. */
  function SendRequest(a: Allocator, now: int): (Allocator, seq<Message>)
    requires CanAllocate(a)
  {
    if now - a.lastRttUpdate < RTT_UPDATE_INTERVAL then (a, [])
    else
      UnexpiredIsSmaller(a.requests, now);
      var (b, id) := Allocate(a.(lastRttUpdate := now, requests := Unexpired(a.requests, now)));
      (b.(requests := b.requests[id := now]), [RttRequest(id)])
  }

  function Update(n: Net, streaming: bool, now: int, later: int): (Net, seq<Message>)
    requires CanAllocate(n.ids)
  {
    if !streaming then (n, [])
    else
      var (prober, probes) := Probe(n.prober, now, later);
      var (ids, requests) := SendRequest(n.ids, now);
      (n.(prober := prober, ids := ids), probes + requests)
  }

  /** Of the first k measurements, those no older than the averaging interval. */
  function Recent(ms: seq<Measurement>, now: int, k: nat): (r: seq<Measurement>)
    requires k <= |ms|
    ensures |r| <= k
    ensures forall m :: m in r ==> m in ms && now - m.time <= RTT_AVERAGE_INTERVAL
  {
    if k == 0 then []
    else Recent(ms, now, k - 1) + if now - ms[k - 1].time <= RTT_AVERAGE_INTERVAL then [ms[k - 1]] else []
  }

  /** The sum of the first k round trips. */
  function Sum(ms: seq<Measurement>, k: nat): int
    requires k <= |ms|
  {
    if k == 0 then 0 else Sum(ms, k - 1) + ms[k - 1].roundTrip
  }

  /** The least of the first k round trips. */
  function Minimum(ms: seq<Measurement>, k: nat): (r: int)
    requires 0 < k <= |ms|
    ensures forall j :: 0 <= j < k ==> r <= ms[j].roundTrip
    ensures exists j :: 0 <= j < k && r == ms[j].roundTrip
  {
    if k == 1 then ms[0].roundTrip
    else
      var rest := Minimum(ms, k - 1);
      if ms[k - 1].roundTrip < rest then ms[k - 1].roundTrip else rest
  }

  /** The longest of the first k round trips. */
  function Maximum(ms: seq<Measurement>, k: nat): (r: int)
    requires 0 < k <= |ms|
    ensures forall j :: 0 <= j < k ==> ms[j].roundTrip <= r
    ensures exists j :: 0 <= j < k && r == ms[j].roundTrip
  {
    if k == 1 then ms[0].roundTrip
    else
      var rest := Maximum(ms, k - 1);
      if rest < ms[k - 1].roundTrip then ms[k - 1].roundTrip else rest
  }

  lemma {:induction false} RecentHoldsAllRecent(ms: seq<Measurement>, now: int, k: nat, j: nat)
    requires j < k <= |ms| && now - ms[j].time <= RTT_AVERAGE_INTERVAL
    ensures ms[j] in Recent(ms, now, k)
  {
    if j < k - 1 {
      RecentHoldsAllRecent(ms, now, k - 1, j);
    }
  }

  /** The first part of `updateAverageRtt`: drop old measurements and publish the rest. */
  function Publish(st: Stats, now: int): Stats {
    var recent := Recent(st.measurements, now, |st.measurements|);
    var n := |recent|;
    if n == 0 then st.(measurements := recent)
    else st.(measurements := recent, minimumRtt := Minimum(recent, n), averageRtt := Sum(recent, n) / n)
  }

  /** The second part applies once there is something to tell the client, at most once a second. */
  predicate ResultIsDue(published: Stats, now: int) {
    && published.measurements != []
    && published.bandwidth != 0
    && now - published.lastNetworkResult >= NETWORK_RESULT_INTERVAL
  }

  function ResultMessage(st: Stats, id: nat): Message {
    NetworkResult(id, U32(st.minimumRtt / MILLISECOND), U32(st.averageRtt / MILLISECOND), st.bandwidth)
  }

  function UpdateAverage(n: Net, now: int): (Net, seq<Message>)
    requires CanAllocate(n.ids)
  {
    var published := Publish(n.stats, now);
    if !ResultIsDue(published, now) then (n.(stats := published), [])
    else
      var (ids, id) := Allocate(n.ids);
      (n.(ids := ids, stats := published.(lastNetworkResult := now)), [ResultMessage(published, id)])
  }

  lemma {:induction false} TakenIsSmaller(requests: map<nat, int>, id: nat)
    ensures |requests - {id}| == |requests| - if id in requests then 1 else 0
  {
    assert (requests - {id}).Keys == requests.Keys - {id};
    assert |requests - {id}| == |(requests - {id}).Keys| && |requests| == |requests.Keys|;
  }

  function Take(a: Allocator, id: nat): (b: Allocator)
    ensures |b.requests| <= |a.requests| && b.sequenceNumber == a.sequenceNumber
  {
    TakenIsSmaller(a.requests, id);
    a.(requests := a.requests - {id})
  }

  /** A response takes its request off the list and counts if the round trip is positive. */
  function RttResponse(n: Net, id: nat, now: int, later: int): (Net, seq<Message>)
    requires CanAllocate(n.ids)
  {
    if id !in n.ids.requests then (n, [])
    else
      var answered := Answer(n, id, now);
      if now - n.ids.requests[id] <= 0 then (answered, []) else UpdateAverage(answered, later)
  }

  function Answer(n: Net, id: nat, now: int): Net
    requires id in n.ids.requests
  {
    var roundTrip := now - n.ids.requests[id];
    Net(n.prober, Take(n.ids, id),
        if roundTrip <= 0 then n.stats else AddMeasurement(n.stats, Measurement(now, roundTrip)))
  }

  function AddMeasurement(st: Stats, m: Measurement): Stats {
    st.(measurements := st.measurements + [m])
  }

  function BytesPerSecond(timeDelta: nat, byteCount: nat): nat
    requires timeDelta > 0
  {
    U32(byteCount * 1000 / timeDelta)
  }

  /** The mean of the old value and the sample: what a smoothing weight of one half gives. */
  function AddSample(st: Stats, sample: nat): Stats {
    var s := if st.hasSmoothed then (st.smoothed + sample as real) / 2.0 else sample as real;
    st.(hasSmoothed := true, smoothed := s, bandwidth := U32(s.Floor))
  }

  function BandwidthResults(n: Net, timeDelta: nat, byteCount: nat, now: int): (Net, seq<Message>)
    requires CanAllocate(n.ids)
  {
    if n.prober.phase != PendingResults then (n, [])
    else
      var idle := n.(prober := n.prober.(phase := Idle));
      if timeDelta == 0 || byteCount == 0 then (idle, [])
      else UpdateAverage(idle.(stats := AddSample(n.stats, BytesPerSecond(timeDelta, byteCount))), now)
  }

  /** A sample is the rate in whole bytes per second, exactly if that fits 32 bits. */
  lemma {:induction false} SampleIsRate(timeDelta: nat, byteCount: nat)
    requires timeDelta > 0
    ensures var rate := BytesPerSecond(timeDelta, byteCount);
            rate * timeDelta <= byteCount * 1000 < (rate + 1) * timeDelta
            <==> byteCount * 1000 < 0x1_0000_0000 * timeDelta
  {
    var rate := byteCount * 1000 / timeDelta;
    QuotientHolds(byteCount * 1000, timeDelta);
    if rate < 0x1_0000_0000 {
      MultiplyMonotone(rate + 1, 0x1_0000_0000, timeDelta);
    } else {
      TruncationIsLower(rate, byteCount * 1000, timeDelta);
    }
  }

  lemma {:induction false} QuotientHolds(x: int, d: int)
    requires d > 0
    ensures (x / d) * d <= x < (x / d + 1) * d
  {
    assert x == (x / d) * d + x % d;
  }

  lemma {:induction false} TruncationIsLower(q: int, x: int, d: int)
    requires q >= 0x1_0000_0000 && d > 0 && q * d <= x
    ensures (U32(q) + 1) * d <= x && 0x1_0000_0000 * d <= x
  {
    MultiplyMonotone(0x1_0000_0000, q, d);
    MultiplyMonotone(U32(q) + 1, q, d);
  }

  /** What is left of an error after so many equal samples: each takes half of it away. */
  function Halved(e: real, n: nat): real {
    if n == 0 then e else Halved(e, n - 1) / 2.0
  }

  function AddSamples(st: Stats, x: nat, n: nat): Stats {
    if n == 0 then st else AddSample(AddSamples(st, x, n - 1), x)
  }

  /** Equal samples halve the error of a smoothed value, and are taken over at once without one. */
  lemma {:induction false} EqualSamplesConverge(st: Stats, x: nat, n: nat)
    ensures var end := AddSamples(st, x, n);
            if st.hasSmoothed then end.hasSmoothed && end.smoothed - x as real == Halved(st.smoothed - x as real, n)
            else n > 0 ==> end.hasSmoothed && end.smoothed == x as real
  {
    if n > 0 {
      EqualSamplesConverge(st, x, n - 1);
    }
  }

  /** Whole milliseconds of a time. */
  predicate InMillis(ms: nat, time: int) {
    ms * 1_000_000 <= time < (ms + 1) * 1_000_000
  }

  /** What a result says of what is published at the time. */
  predicate Tells(m: Message, st: Stats) {
    && m.NetworkResult?
    && (0 <= st.minimumRtt < 4_294_967_296_000_000 ==> InMillis(m.baseRtt, st.minimumRtt))
    && (0 <= st.averageRtt < 4_294_967_296_000_000 ==> InMillis(m.averageRtt, st.averageRtt))
    && m.bandwidth == st.bandwidth > 0 && st.measurements != []
  }

  lemma {:induction false} ResultMessageTells(st: Stats, id: nat)
    requires st.measurements != [] && st.bandwidth != 0
    ensures Tells(ResultMessage(st, id), st)
  {
  }

  lemma {:induction false} UpdateAverageTells(n: Net, now: int, m: Message)
    requires CanAllocate(n.ids) && m in UpdateAverage(n, now).1
    ensures var st := UpdateAverage(n, now).0.stats;
            Tells(m, st) && st.lastNetworkResult == now && now - n.stats.lastNetworkResult >= 1_000_000_000
  {
    var published := Publish(n.stats, now);
    ResultMessageTells(published, Allocate(n.ids).1);
  }

  /** It is sent whenever there is something to tell and a second has passed, and only then. */
  lemma {:induction false} ResultIsSentWhenDue(n: Net, now: int)
    requires CanAllocate(n.ids)
    ensures UpdateAverage(n, now).1 != [] <==>
              && (exists m :: m in n.stats.measurements && now - m.time <= 500_000_000)
              && n.stats.bandwidth != 0 && now - n.stats.lastNetworkResult >= 1_000_000_000
  {
    var all := n.stats.measurements;
    if m :| m in all && now - m.time <= 500_000_000 {
      var j :| 0 <= j < |all| && all[j] == m;
      RecentHoldsAllRecent(all, now, |all|, j);
    }
    if Recent(all, now, |all|) != [] {
      assert Recent(all, now, |all|)[0] in all;
    }
  }

  /**
   A result tells the client minimum and average as published, in milliseconds, and the
   bandwidth, once there is one; results are a second apart by the readings taken.
   */
  lemma {:induction false} ResultsTellPublished(n: Net, e: Event, m: Message)
    requires CanAllocate(n.ids) && m in Step(n, e).1 && m.NetworkResult?
    ensures var st := Step(n, e).0.stats;
            && Tells(m, st)
            && st.lastNetworkResult - n.stats.lastNetworkResult >= 1_000_000_000
            && st.lastNetworkResult == (if e.Response? then e.later else e.now)
  {
    match e {
      case Tick(_, _, _) => TickSendsNoResult(n, e, m);
      case Response(id, now, later) => UpdateAverageTells(Answer(n, id, now), later, m);
      case Results(timeDelta, byteCount, now) =>
        var st := AddSample(n.stats, BytesPerSecond(timeDelta, byteCount));
        UpdateAverageTells(Net(n.prober.(phase := Idle), n.ids, st), now, m);
    }
  }

  lemma {:induction false} TickSendsNoResult(n: Net, e: Event, m: Message)
    requires CanAllocate(n.ids) && e.Tick? && m in Step(n, e).1
    ensures !m.NetworkResult?
  {
    if e.streaming {
      var probes, requests := Probe(n.prober, e.now, e.later).1, SendRequest(n.ids, e.now).1;
      assert m in probes || m in requests;
    }
  }

  /** `bandwidth()`: kilobits per second, multiplied in 32 bits. */
  function Kilobits(bytesPerSecond: nat): nat {
    U32(bytesPerSecond * 8) / 1000
  }

  /** The 32-bit product is the real one exactly below 2^29 bytes per second. */
  lemma {:induction false} KilobitsAreExactBelow4Gbit(b: nat)
    requires b < 0x1_0000_0000
    ensures Kilobits(b) == b * 8 / 1000 <==> b < 0x2000_0000
  {
    if b >= 0x2000_0000 {
      assert U32(b * 8) <= b * 8 - 0x1_0000_0000;
    }
  }

  // ------------------------------------------------------------------ events

  datatype Event =
    | Tick(streaming: bool, now: int, later: int)
    | Response(id: nat, now: int, later: int)
    | Results(timeDelta: nat, byteCount: nat, now: int)

  function Step(n: Net, e: Event): (Net, seq<Message>)
    requires CanAllocate(n.ids)
  {
    match e
    case Tick(streaming, now, later) => Update(n, streaming, now, later)
    case Response(id, now, later) => RttResponse(n, id, now, later)
    case Results(timeDelta, byteCount, now) => BandwidthResults(n, timeDelta, byteCount, now)
  }

  // ------------------------------------- how many requests can be outstanding

  predicate Apart(s: int, t: int) {
    s - t >= RTT_UPDATE_INTERVAL || t - s >= RTT_UPDATE_INTERVAL
  }

  ghost predicate Spaced(requests: map<nat, int>) {
    forall i, j {:trigger Apart(requests[i], requests[j])} ::
      i in requests && j in requests && i != j ==> Apart(requests[i], requests[j])
  }

  ghost predicate Within(requests: map<nat, int>, lo: int, hi: int) {
    forall i :: i in requests ==> lo <= requests[i] <= hi
  }

  /**
   Kept by every call at any clock readings, even ones that go back: requests are
   sent at readings 70 ms apart and none is older than 30 s at the last sending.
   */
  ghost predicate Bounded(a: Allocator) {
    a.sequenceNumber < IDS && Timely(a.requests, a.lastRttUpdate)
  }

  ghost predicate Timely(requests: map<nat, int>, lastUpdate: int) {
    && (forall id :: id in requests ==> 0 < id < IDS)
    && Spaced(requests)
    && Within(requests, lastUpdate - RTT_REQUEST_MAX_AGE, lastUpdate)
  }

  lemma {:induction false} LatestRequest(requests: map<nat, int>) returns (k: nat)
    requires requests != map[]
    ensures k in requests && forall i :: i in requests ==> requests[i] <= requests[k]
    decreases |requests|
  {
    var j :| j in requests.Keys;
    var rest := requests - {j};
    if rest == map[] {
      k := j;
      assert forall i :: i in requests ==> i == j || i in rest;
    } else {
      TakenIsSmaller(requests, j);
      k := LatestRequest(rest);
      assert forall i :: i in requests ==> i == j || i in rest;
      if requests[j] > requests[k] {
        k := j;
      }
    }
  }

  lemma {:induction false} SpacedRequestsAreFew(requests: map<nat, int>, lo: int, hi: int)
    requires Spaced(requests) && Within(requests, lo, hi) && lo <= hi
    ensures RttSpan(|requests| - 1) <= hi - lo
    decreases |requests|
  {
    if |requests| > 1 {
      var k := LatestRequest(requests);
      var rest := requests - {k};
      TakenIsSmaller(requests, k);
      assert Spaced(rest) by {
        assert forall i :: i in rest ==> rest[i] == requests[i];
      }
      forall i | i in rest
        ensures rest[i] <= requests[k] - RTT_UPDATE_INTERVAL
      {
        assert Apart(requests[i], requests[k]);
      }
      if rest != map[] {
        var j :| j in rest.Keys;
        assert lo <= rest[j];
      }
      SpacedRequestsAreFew(rest, lo, requests[k] - RTT_UPDATE_INTERVAL);
    }
  }

  lemma {:induction false} AtMost429Outstanding(a: Allocator)
    requires Bounded(a)
    ensures |a.requests| <= MAX_OUTSTANDING && CanAllocate(a)
  {
    SpacedRequestsAreFew(a.requests, a.lastRttUpdate - RTT_REQUEST_MAX_AGE, a.lastRttUpdate);
  }

  lemma {:induction false} SendKeepsBounded(a: Allocator, now: int)
    requires Bounded(a) && CanAllocate(a)
    ensures Bounded(SendRequest(a, now).0)
  {
    if now - a.lastRttUpdate >= RTT_UPDATE_INTERVAL {
      var live := Unexpired(a.requests, now);
      var b := SendRequest(a, now).0;
      assert forall i :: i in live ==> live[i] == a.requests[i] && live[i] <= now - RTT_UPDATE_INTERVAL;
      assert forall i :: i in b.requests ==> i in live || b.requests[i] == now;
    }
  }

  lemma {:induction false} TakeKeepsBounded(a: Allocator, id: nat)
    requires Bounded(a)
    ensures Bounded(Take(a, id))
  {
    var rest := Take(a, id).requests;
    assert forall i :: i in rest ==> i in a.requests && rest[i] == a.requests[i];
  }

  lemma {:induction false} UpdateAverageKeepsRequests(n: Net, now: int)
    requires CanAllocate(n.ids)
    ensures var a := UpdateAverage(n, now).0.ids;
            a.requests == n.ids.requests && a.lastRttUpdate == n.ids.lastRttUpdate && a.sequenceNumber < IDS
  {
  }

  /** The invariant holds initially and every call keeps it, so no call ever runs out of ids. */
  lemma {:induction false} StepKeepsBounded(n: Net, e: Event)
    requires Bounded(n.ids) && CanAllocate(n.ids)
    ensures var a := Step(n, e).0.ids;
            Bounded(a) && |a.requests| <= MAX_OUTSTANDING && CanAllocate(a)
  {
    match e {
      case Tick(_, now, _) => SendKeepsBounded(n.ids, now);
      case Response(id, now, later) =>
        TakeKeepsBounded(n.ids, id);
        if id in n.ids.requests {
          UpdateAverageKeepsRequests(Answer(n, id, now), later);
        }
      case Results(timeDelta, byteCount, now) =>
        if n.prober.phase == PendingResults && timeDelta > 0 && byteCount > 0 {
          var st := AddSample(n.stats, BytesPerSecond(timeDelta, byteCount));
          UpdateAverageKeepsRequests(Net(n.prober.(phase := Idle), n.ids, st), now);
        }
    }
    AtMost429Outstanding(Step(n, e).0.ids);
  }

  // -------------------------------------------------------------- statistics

  lemma {:induction false} SumBounds(ms: seq<Measurement>, k: nat, lo: int, hi: int)
    requires k <= |ms| && forall j :: 0 <= j < k ==> lo <= ms[j].roundTrip <= hi
    ensures lo * k <= Sum(ms, k) <= hi * k
  {
    if k > 0 {
      SumBounds(ms, k - 1, lo, hi);
      assert lo * k == lo * (k - 1) + lo && hi * k == hi * (k - 1) + hi;
    }
  }

  /** The published statistics are those of exactly the measurements no older than 500 ms. */
  lemma {:induction false} PublishedStatistics(st: Stats, now: int, maximum: int)
    requires forall m :: m in st.measurements ==> 0 < m.roundTrip <= maximum
    ensures var p := Publish(st, now);
            && (forall m :: m in p.measurements <==> m in st.measurements && now - m.time <= 500_000_000)
            && (p.measurements != [] ==>
                  && 0 < p.minimumRtt <= p.averageRtt <= maximum
                  && (forall m :: m in p.measurements ==> p.minimumRtt <= m.roundTrip)
                  && (exists m :: m in p.measurements && p.minimumRtt == m.roundTrip)
                  && var n := |p.measurements|;
                     p.averageRtt * n <= Sum(p.measurements, n) < (p.averageRtt + 1) * n)
  {
    var all := st.measurements;
    var recent := Recent(all, now, |all|);
    var n := |recent|;
    forall m | m in all && now - m.time <= RTT_AVERAGE_INTERVAL
      ensures m in recent
    {
      var j :| 0 <= j < |all| && all[j] == m;
      RecentHoldsAllRecent(all, now, |all|, j);
    }
    if n > 0 {
      var low := Minimum(recent, n);
      SumBounds(recent, n, low, maximum);
      QuotientBounds(Sum(recent, n), n, low, maximum);
    }
  }

  /** Minimum and average are nothing yet, or positive and in order. */
  predicate Sane(st: Stats) {
    (st.minimumRtt == 0 && st.averageRtt == 0) || 0 < st.minimumRtt <= st.averageRtt
  }

  predicate AllPositive(ms: seq<Measurement>) {
    forall i :: 0 <= i < |ms| ==> 0 < ms[i].roundTrip
  }

  /** As long as there are measurements, what is published is made from exactly these, in order. */
  predicate Ordered(st: Stats) {
    && Sane(st) && AllPositive(st.measurements)
    && (st.measurements != [] ==>
          var ms, n := st.measurements, |st.measurements|;
          && 0 < st.minimumRtt <= st.averageRtt <= Maximum(ms, n)
          && st.minimumRtt == Minimum(ms, n) && st.averageRtt == Sum(ms, n) / n)
  }

  lemma {:induction false} AverageIsOrdered(ms: seq<Measurement>)
    requires ms != [] && AllPositive(ms)
    ensures 0 < Minimum(ms, |ms|) <= Sum(ms, |ms|) / |ms| <= Maximum(ms, |ms|)
  {
    var n := |ms|;
    SumBounds(ms, n, Minimum(ms, n), Maximum(ms, n));
    QuotientBounds(Sum(ms, n), n, Minimum(ms, n), Maximum(ms, n));
  }

  lemma {:induction false} PublishIsOrdered(st: Stats, now: int)
    requires Sane(st) && AllPositive(st.measurements)
    ensures Ordered(Publish(st, now))
  {
    var recent := Recent(st.measurements, now, |st.measurements|);
    forall i | 0 <= i < |recent|
      ensures 0 < recent[i].roundTrip
    {
      assert recent[i] in st.measurements;
    }
    if recent != [] {
      AverageIsOrdered(recent);
    }
  }

  lemma {:induction false} UpdateAverageIsOrdered(n: Net, now: int)
    requires CanAllocate(n.ids) && Sane(n.stats) && AllPositive(n.stats.measurements)
    ensures Ordered(UpdateAverage(n, now).0.stats)
  {
    PublishIsOrdered(n.stats, now);
  }

  lemma {:induction false} StepKeepsOrdered(n: Net, e: Event)
    requires CanAllocate(n.ids) && Ordered(n.stats)
    ensures Ordered(Step(n, e).0.stats)
  {
    match e {
      case Tick(_, _, _) =>
      case Response(id, now, later) =>
        if id in n.ids.requests && now > n.ids.requests[id] {
          UpdateAverageIsOrdered(Answer(n, id, now), later);
        }
      case Results(timeDelta, byteCount, now) =>
        if n.prober.phase == PendingResults && timeDelta > 0 && byteCount > 0 {
          var st := AddSample(n.stats, BytesPerSecond(timeDelta, byteCount));
          UpdateAverageIsOrdered(Net(n.prober.(phase := Idle), n.ids, st), now);
        }
    }
  }

  lemma {:induction false} QuotientBounds(sum: int, count: int, lo: int, hi: int)
    requires count > 0 && lo * count <= sum <= hi * count
    ensures lo <= sum / count <= hi
    ensures sum / count * count <= sum < (sum / count + 1) * count
  {
    var q := sum / count;
    assert sum == q * count + sum % count;
    if q < lo {
      MultiplyMonotone(q + 1, lo, count);
    }
    if q > hi {
      MultiplyMonotone(hi + 1, q, count);
    }
  }

  lemma {:induction false} MultiplyMonotone(a: int, b: int, c: int)
    requires a <= b && 0 <= c
    ensures a * c <= b * c
  {
  }
}
