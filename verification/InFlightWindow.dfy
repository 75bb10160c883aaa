/**
 Sizing of the in-flight window from the round-trip time and the producer's frame
 rate (`effectiveProducerFps` and `updateInFlightWindow` in src/VideoStream.cpp).
 Doubles are reals, times are nanoseconds, the frame counter has 64 bits.
 */
module WindowSizing {
  import opened Wrappers

  const MAXIMUM_IN_FLIGHT_FRAMES := 2
  const MINIMUM_WINDOW_FRAME_RATE := 5.0
  const MINIMUM_VALID_RTT_MS := 5.0
  const MAXIMUM_VALID_RTT_MS := 60000.0

  // --------------------------------------------------------------- arithmetic

  function MaxReal(a: real, b: real): real {
    if a < b then b else a
  }

  function Ceil(x: real): (n: int)
    ensures n as real - 1.0 < x <= n as real
  {
    -((-x).Floor)
  }

  lemma {:induction false} ScaleKeepsOrder(c: real, a: real, b: real)
    requires c >= 0.0 && a <= b
    ensures c * a <= c * b
  {
  }

  lemma {:induction false} CeilKeepsOrder(a: real, b: real)
    requires a <= b
    ensures Ceil(a) <= Ceil(b)
  {
  }

  // ----------------------------------------------------------- producer rate

  /** `at` 0 means that no reading has been taken, as a default time point does. */
  datatype Producer = Producer(frames: nat, at: int, fps: real)

  /** The highest rate the window is sized for. */
  function RateCeiling(requested: int): real {
    MaxReal(MINIMUM_WINDOW_FRAME_RATE, requested as real)
  }

  function ClampFps(f: real, requested: int): (r: real)
    ensures MINIMUM_WINDOW_FRAME_RATE <= r <= RateCeiling(requested)
  {
    if f < MINIMUM_WINDOW_FRAME_RATE then MINIMUM_WINDOW_FRAME_RATE
    else if RateCeiling(requested) < f then RateCeiling(requested)
    else f
  }

  /** Frames counted since a reading, with the wrap-around of the 64-bit counter. */
  function FramesSince(total: nat, before: nat): nat {
    (total - before) % 0x1_0000_0000_0000_0000
  }

  function PerSecond(frames: nat, nanoseconds: int): real
    requires nanoseconds > 0
  {
    frames as real / (nanoseconds as real / 1000000000.0)
  }

  /** The rate measured between two readings, if time and frames have moved on. */
  function Measured(before: nat, at: int, total: nat, now: int): Option<real> {
    if now <= at || FramesSince(total, before) == 0 then None
    else Some(PerSecond(FramesSince(total, before), now - at))
  }

  function SampleProducer(p: Producer, requested: int, total: nat, now: int): Producer {
    if p.at == 0 then Producer(total, now, ClampFps(requested as real, requested))
    else
      match Measured(p.frames, p.at, total, now)
      case None => Producer(total, now, p.fps)
      case Some(rate) => Producer(total, now, p.fps * 0.75 + rate * 0.25)
  }

  // ---------------------------------------------------------- round-trip time

  datatype Rtt = Rtt(base: real, hasBase: bool, smoothed: real, hasSmoothed: bool)

  predicate ValidSample(ms: real) {
    MINIMUM_VALID_RTT_MS <= ms < MAXIMUM_VALID_RTT_MS
  }

  function SampleRtt(r: Rtt, ms: real): Rtt {
    if !ValidSample(ms) then r
    else
      Rtt(if !r.hasBase || ms < r.base then ms else r.base, true,
          if r.hasSmoothed then 0.875 * r.smoothed + 0.125 * ms else ms, true)
  }

  // ------------------------------------------------------------------- window

  /** The frames produced during one round trip. */
  function Needed(fps: real, rttMs: real): int {
    Ceil(fps * (rttMs / 1000.0))
  }

  /** As many, but at least 2 and at most one second of video. */
  function WindowFor(fps: real, rttMs: real): int {
    Clamp(Needed(fps, rttMs), MAXIMUM_IN_FLIGHT_FRAMES, Highest(fps))
  }

  function Highest(fps: real): int {
    var perSecond := Ceil(fps);
    if perSecond < MAXIMUM_IN_FLIGHT_FRAMES then MAXIMUM_IN_FLIGHT_FRAMES else perSecond
  }

  datatype Sizer = Sizer(producer: Producer, rtt: Rtt, window: int)

  const START := Sizer(Producer(0, 0, 5.0), Rtt(0.0, false, 0.0, false), 2)

  /** What one call of `updateInFlightWindow` reads. */
  datatype Reading = Reading(requested: int, total: nat, now: int, rttMs: real)

  /** The rate the call sizes the window for. */
  function RateFor(s: Sizer, r: Reading): real {
    ClampFps(SampleProducer(s.producer, r.requested, r.total, r.now).fps, r.requested)
  }

  function Update(s: Sizer, r: Reading): Sizer {
    var rtt := SampleRtt(s.rtt, r.rttMs);
    Sizer(SampleProducer(s.producer, r.requested, r.total, r.now), rtt,
          if ValidSample(r.rttMs) then WindowFor(RateFor(s, r), MaxReal(rtt.base, rtt.smoothed))
          else MAXIMUM_IN_FLIGHT_FRAMES)
  }

  /** The state after the first `k` calls. */
  function After(s: Sizer, rs: seq<Reading>, k: nat): Sizer
    requires k <= |rs|
  {
    if k == 0 then s else Update(After(s, rs, k - 1), rs[k - 1])
  }

  // ------------------------------------------------------------------- bounds

  /** Whatever the samples were, the window is at least 2 and at most a second of the highest rate. */
  lemma {:induction false} WindowStaysInBounds(rs: seq<Reading>, k: nat)
    requires k <= |rs|
    ensures var w := After(START, rs, k).window;
            w >= MAXIMUM_IN_FLIGHT_FRAMES
            && (k > 0 ==> w <= Highest(RateCeiling(rs[k - 1].requested)))
  {
    if k > 0 {
      var s, r := After(START, rs, k - 1), rs[k - 1];
      CeilKeepsOrder(RateFor(s, r), RateCeiling(r.requested));
    }
  }

  /**
   What the window is for: the least count, 2 at least, that covers a round trip of
   frames or a second of them.
   */
  lemma {:induction false} WindowIsLeastCover(fps: real, rttMs: real, w: int)
    requires fps >= MINIMUM_WINDOW_FRAME_RATE
    ensures w >= WindowFor(fps, rttMs)
            <==> w >= 2 && (w as real >= fps * (rttMs / 1000.0) || w as real >= fps)
  {
    CeilIsLeastAbove(fps * (rttMs / 1000.0), w);
    CeilIsLeastAbove(fps, w);
  }

  lemma {:induction false} CeilIsLeastAbove(x: real, w: int)
    ensures w >= Ceil(x) <==> w as real >= x
  {
  }

  lemma {:induction false} LongerTripsNeedMore(fps: real, a: real, b: real)
    requires fps >= 0.0 && a <= b
    ensures WindowFor(fps, a) <= WindowFor(fps, b)
  {
    ScaleKeepsOrder(fps, a / 1000.0, b / 1000.0);
    CeilKeepsOrder(fps * (a / 1000.0), fps * (b / 1000.0));
  }

  predicate Heard(rs: seq<Reading>, k: nat)
    requires k <= |rs|
  {
    exists i :: 0 <= i < k && ValidSample(rs[i].rttMs)
  }

  /** `base` is the smallest valid sample so far. */
  predicate IsSmallest(base: real, rs: seq<Reading>, k: nat)
    requires k <= |rs|
  {
    && (forall i :: 0 <= i < k && ValidSample(rs[i].rttMs) ==> base <= rs[i].rttMs)
    && (exists i :: 0 <= i < k && ValidSample(rs[i].rttMs) && rs[i].rttMs == base)
  }

  /** The base is the session minimum; the smoothed value lies between it and every upper bound. */
  lemma {:induction false} RttStaysBetweenSamples(rs: seq<Reading>, k: nat, hi: real)
    requires k <= |rs|
    requires forall i :: 0 <= i < k && ValidSample(rs[i].rttMs) ==> rs[i].rttMs <= hi
    ensures var r := After(START, rs, k).rtt;
            && (r.hasBase <==> Heard(rs, k)) && r.hasSmoothed == r.hasBase
            && (r.hasBase ==> IsSmallest(r.base, rs, k) && r.base <= r.smoothed <= hi)
  {
    if k > 0 {
      RttStaysBetweenSamples(rs, k - 1, hi);
      var before, now := After(START, rs, k - 1).rtt, After(START, rs, k).rtt;
      assert now == SampleRtt(before, rs[k - 1].rttMs);
      if ValidSample(rs[k - 1].rttMs) {
        assert Heard(rs, k);
      } else if Heard(rs, k) {
        assert Heard(rs, k - 1);
      }
    }
  }

  /** After a valid sample the window covers the shortest trip seen and no more than the longest. */
  lemma {:induction false} WindowCoversShortestTrip(rs: seq<Reading>, k: nat, lo: real, hi: real)
    requires k < |rs| && ValidSample(rs[k].rttMs)
    requires IsSmallest(lo, rs, k + 1)
    requires forall i :: 0 <= i <= k && ValidSample(rs[i].rttMs) ==> rs[i].rttMs <= hi
    ensures var fps := RateFor(After(START, rs, k), rs[k]);
            WindowFor(fps, lo) <= After(START, rs, k + 1).window <= WindowFor(fps, hi)
  {
    RttStaysBetweenSamples(rs, k + 1, hi);
    assert Heard(rs, k + 1);
    var s := After(START, rs, k + 1);
    assert s == Update(After(START, rs, k), rs[k]);
    var fps := RateFor(After(START, rs, k), rs[k]);
    assert lo == s.rtt.base;
    LongerTripsNeedMore(fps, lo, s.rtt.smoothed);
    LongerTripsNeedMore(fps, s.rtt.smoothed, hi);
  }

  /** Flooring the smoothed value at the session minimum never changes it. */
  lemma {:induction false} BaseFloorNeverBinds(rs: seq<Reading>, k: nat)
    requires k <= |rs| && Heard(rs, k)
    ensures var r := After(START, rs, k).rtt; MaxReal(r.base, r.smoothed) == r.smoothed
  {
    RttStaysBetweenSamples(rs, k, MAXIMUM_VALID_RTT_MS);
  }

  /**
   An invalid sample drops a window that was known to be needed: the window covers the
   shortest trip after a call exactly when the sample is valid or the trip needs only 2.
   */
  lemma {:induction false} FloorHeldUnlessSampleInvalid(rs: seq<Reading>, k: nat)
    requires k < |rs| && Heard(rs, k + 1)
    ensures var s, fps := After(START, rs, k + 1), RateFor(After(START, rs, k), rs[k]);
            s.window >= WindowFor(fps, s.rtt.base)
            <==> ValidSample(rs[k].rttMs) || Needed(fps, s.rtt.base) <= MAXIMUM_IN_FLIGHT_FRAMES
  {
    RttStaysBetweenSamples(rs, k + 1, MAXIMUM_VALID_RTT_MS);
    if ValidSample(rs[k].rttMs) {
      var r := SampleRtt(After(START, rs, k).rtt, rs[k].rttMs);
      LongerTripsNeedMore(RateFor(After(START, rs, k), rs[k]), r.base, r.smoothed);
    } else {
      TwoIsEnoughOrNot(RateFor(After(START, rs, k), rs[k]), After(START, rs, k).rtt.base);
    }
  }

  lemma {:induction false} TwoIsEnoughOrNot(fps: real, base: real)
    requires fps >= MINIMUM_WINDOW_FRAME_RATE
    ensures MAXIMUM_IN_FLIGHT_FRAMES >= WindowFor(fps, base) <==> Needed(fps, base) <= MAXIMUM_IN_FLIGHT_FRAMES
  {
  }

  // -------------------------------------------------------------- convergence

  /** What is left of an error after `n` equal samples: each takes an eighth of it away. */
  function Decayed(e: real, n: nat): real {
    if n == 0 then e else 0.875 * Decayed(e, n - 1)
  }

  lemma {:induction false} DecayVanishes(e: real, n: nat)
    ensures Abs(Decayed(e, n)) * (7 + n) as real <= 7.0 * Abs(e)
  {
    if n > 0 {
      DecayVanishes(e, n - 1);
      EighthLess(Abs(Decayed(e, n - 1)), (6 + n) as real, 7.0 * Abs(e));
    }
  }

  lemma {:induction false} EighthLess(d: real, m: real, bound: real)
    requires d >= 0.0 && m >= 7.0 && d * m <= bound
    ensures (0.875 * d) * (m + 1.0) <= bound
  {
    ScaleKeepsOrder(d, 0.875 * (m + 1.0), m);
    assert (0.875 * d) * (m + 1.0) == d * (0.875 * (m + 1.0));
  }

  predicate Steady(rs: seq<Reading>, x: real) {
    ValidSample(x) && forall i :: 0 <= i < |rs| ==> rs[i].rttMs == x
  }

  predicate Known(r: Rtt) {
    r.hasBase && r.hasSmoothed && r.base <= r.smoothed
  }

  /** The trip-time part of a run by itself. */
  function RttAfter(r: Rtt, rs: seq<Reading>, k: nat): Rtt
    requires k <= |rs|
  {
    if k == 0 then r else SampleRtt(RttAfter(r, rs, k - 1), rs[k - 1].rttMs)
  }

  lemma {:induction false} RttRunsAlone(s: Sizer, rs: seq<Reading>, k: nat)
    requires k <= |rs|
    ensures After(s, rs, k).rtt == RttAfter(s.rtt, rs, k)
  {
    if k > 0 {
      RttRunsAlone(s, rs, k - 1);
    }
  }

  lemma {:induction false} SteadyRttConverges(r: Rtt, rs: seq<Reading>, k: nat, x: real)
    requires k <= |rs| && Known(r) && Steady(rs, x)
    ensures var end := RttAfter(r, rs, k);
            Known(end) && end.smoothed - x == Decayed(r.smoothed - x, k)
  {
    if k > 0 {
      SteadyRttConverges(r, rs, k - 1, x);
    }
  }

  function Abs(x: real): real {
    if x < 0.0 then -x else x
  }

  lemma {:induction false} Regroup(a: real, b: real, c: real)
    ensures a * b * c == b * (a * c)
  {
  }

  lemma {:induction false} NearTripsNeedNearWindows(fps: real, a: real, b: real)
    requires fps > 0.0 && fps * Abs(a - b) <= 1000.0
    ensures -1 <= WindowFor(fps, a) - WindowFor(fps, b) <= 1
  {
    assert fps * (a / 1000.0) - fps * (b / 1000.0) == fps * (a - b) / 1000.0;
    assert Abs(fps * (a - b)) == fps * Abs(a - b);
  }

  /** Enough samples for an error `e` at rate `fps`. */
  predicate SettledBy(fps: real, e: real, n: nat) {
    7.0 * fps * Abs(e) <= 1000.0 * (7 + n) as real
  }

  lemma {:induction false} SmallErrorSettles(fps: real, e: real, n: nat, smoothed: real, x: real)
    requires fps > 0.0 && SettledBy(fps, e, n) && smoothed - x == Decayed(e, n)
    ensures Near(WindowFor(fps, smoothed), WindowFor(fps, x))
  {
    DecayVanishes(e, n);
    DivideOut(fps, Abs(smoothed - x), (7 + n) as real, Abs(e));
    NearTripsNeedNearWindows(fps, smoothed, x);
  }

  predicate Near(window: int, other: int) {
    -1 <= window - other <= 1
  }

  lemma {:induction false} SteadyWindow(r: Rtt, rs: seq<Reading>, k: nat, x: real, fps: real)
    requires k <= |rs| && Known(r) && Steady(rs, x)
    requires fps > 0.0 && SettledBy(fps, r.smoothed - x, k)
    ensures Known(RttAfter(r, rs, k))
    ensures Near(WindowFor(fps, RttAfter(r, rs, k).smoothed), WindowFor(fps, x))
  {
    SteadyRttConverges(r, rs, k, x);
    SmallErrorSettles(fps, r.smoothed - x, k, RttAfter(r, rs, k).smoothed, x);
  }

  lemma {:induction false} SampleSetsWindow(s: Sizer, rs: seq<Reading>, k: nat, rtt: Rtt)
    requires k < |rs| && ValidSample(rs[k].rttMs) && rtt == After(s, rs, k + 1).rtt && Known(rtt)
    ensures After(s, rs, k + 1).window == WindowFor(RateFor(After(s, rs, k), rs[k]), rtt.smoothed)
  {
  }

  /** Under a steady trip time the window ends within one frame of the right one, and says when. */
  lemma {:induction false} WindowSettles(s: Sizer, rs: seq<Reading>, k: nat, x: real)
    requires k < |rs| && Known(s.rtt) && Steady(rs, x)
    requires SettledBy(RateFor(After(s, rs, k), rs[k]), s.rtt.smoothed - x, k + 1)
    ensures Near(After(s, rs, k + 1).window, WindowFor(RateFor(After(s, rs, k), rs[k]), x))
  {
    RttRunsAlone(s, rs, k + 1);
    SteadyWindow(s.rtt, rs, k + 1, x, RateFor(After(s, rs, k), rs[k]));
    SampleSetsWindow(s, rs, k, RttAfter(s.rtt, rs, k + 1));
  }

  lemma {:induction false} DivideOut(fps: real, err: real, m: real, e: real)
    requires fps > 0.0 && m > 0.0 && err * m <= 7.0 * e && 7.0 * fps * e <= 1000.0 * m
    ensures fps * err <= 1000.0
  {
    ScaleKeepsOrder(fps, err * m, 7.0 * e);
    Regroup(7.0, fps, e);
    Regroup(err, fps, m);
    if fps * err > 1000.0 {
      Positive(fps * err - 1000.0, m);
      assert false;
    }
  }

  lemma {:induction false} Positive(a: real, b: real)
    requires a > 0.0 && b > 0.0
    ensures a * b > 0.0
  {
  }

  // ------------------------------------------------------------ producer rate

  /** What the reading at `i` measures against the one before it. */
  function MeasuredAt(rs: seq<Reading>, i: nat): Option<real>
    requires 0 < i < |rs|
  {
    Measured(rs[i - 1].total, rs[i - 1].now, rs[i].total, rs[i].now)
  }

  /** Between two readings time and frames have moved on. */
  predicate MovesOn(rs: seq<Reading>, i: nat)
    requires 0 < i < |rs|
  {
    rs[i].now > rs[i - 1].now && (rs[i].total - rs[i - 1].total) % 0x1_0000_0000_0000_0000 != 0
  }

  /** The frames counted up to reading `i`, times 10^9, and the nanoseconds they took. */
  function FramesAt(rs: seq<Reading>, i: nat): real
    requires 0 < i < |rs|
  {
    1000000000.0 * ((rs[i].total - rs[i - 1].total) % 0x1_0000_0000_0000_0000) as real
  }

  function TimeAt(rs: seq<Reading>, i: nat): real
    requires 0 < i < |rs|
  {
    (rs[i].now - rs[i - 1].now) as real
  }

  /** The frames per second between consecutive readings, up to reading `k`, lie in a range. */
  predicate RatesWithin(rs: seq<Reading>, k: nat, lo: real, hi: real)
    requires k <= |rs|
  {
    forall i {:trigger MovesOn(rs, i)} :: 0 < i < k && MovesOn(rs, i) ==>
      lo * TimeAt(rs, i) <= FramesAt(rs, i) <= hi * TimeAt(rs, i)
  }

  /** What is measured is frames per second. */
  lemma {:induction false} MeasuredIsRate(rs: seq<Reading>, i: nat)
    requires 0 < i < |rs|
    ensures MeasuredAt(rs, i).Some? <==> MovesOn(rs, i)
    ensures MovesOn(rs, i) ==> TimeAt(rs, i) > 0.0 && MeasuredAt(rs, i).value * TimeAt(rs, i) == FramesAt(rs, i)
  {
    if MovesOn(rs, i) {
      PerSecondScales(FramesSince(rs[i].total, rs[i - 1].total), rs[i].now - rs[i - 1].now);
    }
  }

  lemma {:induction false} PerSecondScales(frames: nat, nanoseconds: int)
    requires nanoseconds > 0
    ensures PerSecond(frames, nanoseconds) * nanoseconds as real == 1000000000.0 * frames as real
  {
    var f, s := frames as real, nanoseconds as real / 1000000000.0;
    assert f / s * s == f;
    assert f / s * (1000000000.0 * s) == 1000000000.0 * (f / s * s);
  }

  lemma {:induction false} Cancel(a: real, b: real, t: real)
    requires t > 0.0 && a * t <= b * t
    ensures a <= b
  {
    if a > b {
      Positive(a - b, t);
      assert false;
    }
  }

  lemma {:induction false} RateIsWithin(rs: seq<Reading>, i: nat, lo: real, hi: real)
    requires 0 < i < |rs| && MovesOn(rs, i)
    requires lo * TimeAt(rs, i) <= FramesAt(rs, i) <= hi * TimeAt(rs, i)
    ensures MeasuredAt(rs, i).Some? && lo <= MeasuredAt(rs, i).value <= hi
  {
    MeasuredIsRate(rs, i);
    Cancel(lo, MeasuredAt(rs, i).value, TimeAt(rs, i));
    Cancel(MeasuredAt(rs, i).value, hi, TimeAt(rs, i));
  }

  lemma {:induction false} MeasuredStaysWithin(rs: seq<Reading>, k: nat, lo: real, hi: real)
    requires 1 < k <= |rs| && RatesWithin(rs, k, lo, hi)
    ensures MeasuredAt(rs, k - 1).Some? ==> lo <= MeasuredAt(rs, k - 1).value <= hi
  {
    MeasuredIsRate(rs, k - 1);
    if MovesOn(rs, k - 1) {
      RateIsWithin(rs, k - 1, lo, hi);
    }
  }

  lemma {:induction false} SampleStaysWithin(p: Producer, r: Reading, lo: real, hi: real)
    requires p.at != 0 && lo <= p.fps <= hi
    requires var m := Measured(p.frames, p.at, r.total, r.now); m.Some? ==> lo <= m.value <= hi
    ensures lo <= SampleProducer(p, r.requested, r.total, r.now).fps <= hi
  {
  }

  /** The smoothed rate stays between the requested start and the rates that were measured. */
  lemma {:induction false} RateStaysBetweenMeasurements(rs: seq<Reading>, k: nat, lo: real, hi: real)
    requires 0 < k <= |rs| && forall i :: 0 <= i < |rs| ==> rs[i].now != 0
    requires lo <= (if rs[0].requested > 5 then rs[0].requested as real else 5.0) <= hi
    requires RatesWithin(rs, k, lo, hi)
    ensures var p := After(START, rs, k).producer;
            p.frames == rs[k - 1].total && p.at == rs[k - 1].now && lo <= p.fps <= hi
  {
    var s, r := After(START, rs, k - 1), rs[k - 1];
    assert After(START, rs, k) == Update(s, r);
    if k > 1 {
      RateStaysBetweenMeasurements(rs, k - 1, lo, hi);
      assert Measured(s.producer.frames, s.producer.at, r.total, r.now) == MeasuredAt(rs, k - 1);
      MeasuredStaysWithin(rs, k, lo, hi);
      SampleStaysWithin(s.producer, r, lo, hi);
    }
  }

  /** A reading without new frames, or without time passed, leaves the smoothed rate as it was. */
  lemma {:induction false} IdleReadingHolds(rs: seq<Reading>, k: nat)
    requires 0 < k < |rs| && rs[k - 1].now != 0 && !MovesOn(rs, k)
    ensures After(START, rs, k + 1).producer.fps == After(START, rs, k).producer.fps
  {
    ProducerRunsAlone(START, rs, k + 1);
    ProducerRunsAlone(START, rs, k);
    MeasuredIsRate(rs, k);
    assert ProducerAfter(START.producer, rs, k).frames == rs[k - 1].total;
  }

  /** From the second on each reading finds `x` frames per second since the one before it. */
  predicate SteadyRate(rs: seq<Reading>, x: real) {
    && (forall i :: 0 <= i < |rs| ==> rs[i].now != 0)
    && (forall i {:trigger MovesOn(rs, i)} :: 0 < i < |rs| ==>
          MovesOn(rs, i) && FramesAt(rs, i) == x * TimeAt(rs, i))
  }

  function Faded(e: real, n: nat): real {
    if n == 0 then e else 0.75 * Faded(e, n - 1)
  }

  /** The producer part of a run by itself. */
  function ProducerAfter(p: Producer, rs: seq<Reading>, k: nat): Producer
    requires k <= |rs|
  {
    if k == 0 then p
    else SampleProducer(ProducerAfter(p, rs, k - 1), rs[k - 1].requested, rs[k - 1].total, rs[k - 1].now)
  }

  lemma {:induction false} ProducerRunsAlone(s: Sizer, rs: seq<Reading>, k: nat)
    requires k <= |rs|
    ensures After(s, rs, k).producer == ProducerAfter(s.producer, rs, k)
  {
    if k > 0 {
      ProducerRunsAlone(s, rs, k - 1);
    }
  }

  /** The producer remembers the last reading, so each one measures the steady rate. */
  lemma {:induction false} ProducerRemembers(p: Producer, rs: seq<Reading>, k: nat, x: real)
    requires 0 < k < |rs| && SteadyRate(rs, x)
    ensures var end := ProducerAfter(p, rs, k);
            end.at != 0 && Measured(end.frames, end.at, rs[k].total, rs[k].now) == Some(x)
  {
    assert MovesOn(rs, k);
    RateIsWithin(rs, k, x, x);
    assert MeasuredAt(rs, k) == Measured(rs[k - 1].total, rs[k - 1].now, rs[k].total, rs[k].now);
  }

  /** A quarter of the way to `x`, `k` times. */
  function Approach(fps: real, x: real, k: nat): real {
    if k == 0 then fps else Approach(fps, x, k - 1) * 0.75 + x * 0.25
  }

  lemma {:induction false} SteadyProducerApproaches(p: Producer, rs: seq<Reading>, k: nat, x: real)
    requires 0 < k <= |rs| && SteadyRate(rs, x)
    ensures ProducerAfter(p, rs, k).fps == Approach(ProducerAfter(p, rs, 1).fps, x, k - 1)
  {
    if k > 1 {
      SteadyProducerApproaches(p, rs, k - 1, x);
      ProducerRemembers(p, rs, k - 1, x);
    }
  }

  lemma {:induction false} ApproachFades(fps: real, x: real, k: nat)
    ensures Approach(fps, x, k) - x == Faded(fps - x, k)
  {
    if k > 0 {
      ApproachFades(fps, x, k - 1);
    }
  }

  /** Whatever the first reading left fades by a quarter at each further reading of a steady producer. */
  lemma {:induction false} SteadyRateConverges(s: Sizer, rs: seq<Reading>, k: nat, x: real)
    requires 0 < k <= |rs| && SteadyRate(rs, x)
    ensures After(s, rs, k).producer.fps - x == Faded(After(s, rs, 1).producer.fps - x, k - 1)
  {
    ProducerRunsAlone(s, rs, k);
    ProducerRunsAlone(s, rs, 1);
    SteadyProducerApproaches(s.producer, rs, k, x);
    ApproachFades(ProducerAfter(s.producer, rs, 1).fps, x, k - 1);
  }

  // ------------------------------------------------------- the window, from the run

  /** `rate` is the smoothed rate, kept between 5 and the requested rate if that is more. */
  predicate IsClamped(rate: real, fps: real, requested: int) {
    if fps < 5.0 || requested <= 5 then rate == 5.0
    else if fps > requested as real then rate == requested as real
    else rate == fps
  }

  /** The count is 2 at least and covers a round trip of frames, or a second of them. */
  predicate Covers(w: int, rate: real, rttMs: real) {
    w >= 2 && (w as real >= rate * (rttMs / 1000.0) || w as real >= rate)
  }

  predicate IsLeastCovering(window: int, rate: real, rttMs: real) {
    Covers(window, rate, rttMs) && !Covers(window - 1, rate, rttMs)
  }

  lemma {:induction false} WindowForCovers(rate: real, rttMs: real)
    requires rate >= 5.0
    ensures IsLeastCovering(WindowFor(rate, rttMs), rate, rttMs)
  {
    WindowIsLeastCover(rate, rttMs, WindowFor(rate, rttMs));
    WindowIsLeastCover(rate, rttMs, WindowFor(rate, rttMs) - 1);
  }

  lemma {:induction false} SampledRttIsKnown(rs: seq<Reading>, k: nat)
    requires k < |rs| && ValidSample(rs[k].rttMs)
    ensures Known(After(START, rs, k + 1).rtt)
  {
    assert Heard(rs, k + 1);
    RttStaysBetweenSamples(rs, k + 1, MAXIMUM_VALID_RTT_MS);
  }

  lemma {:induction false} InvalidSampleSetsTwo(rs: seq<Reading>, k: nat)
    requires k < |rs| && !(5.0 <= rs[k].rttMs < 60000.0)
    ensures After(START, rs, k + 1).window == 2
  {
  }

  /**
   After a valid sample the window is the least count that covers a smoothed round trip of
   frames at the smoothed rate, kept within bounds; after any other it is 2.
   */
  lemma {:induction false} WindowExactly(rs: seq<Reading>, k: nat, rate: real)
    requires k < |rs| && IsClamped(rate, After(START, rs, k + 1).producer.fps, rs[k].requested)
    ensures if 5.0 <= rs[k].rttMs < 60000.0
            then IsLeastCovering(After(START, rs, k + 1).window, rate, After(START, rs, k + 1).rtt.smoothed)
            else After(START, rs, k + 1).window == 2
  {
    if 5.0 <= rs[k].rttMs < 60000.0 {
      SampledRttIsKnown(rs, k);
      SampleSetsWindow(START, rs, k, After(START, rs, k + 1).rtt);
      ClampedIsRate(rate, After(START, rs, k), rs[k]);
      WindowForCovers(rate, After(START, rs, k + 1).rtt.smoothed);
    } else {
      InvalidSampleSetsTwo(rs, k);
    }
  }

  lemma {:induction false} ClampedIsRate(rate: real, s: Sizer, r: Reading)
    requires IsClamped(rate, Update(s, r).producer.fps, r.requested)
    ensures rate == RateFor(s, r)
  {
  }
}

/** The fields of `VideoStream::Private` that size the window, updated in place. */
module InFlightWindowObject {
  import opened Wrappers
  import S = WindowSizing

  class InFlightWindow {
    var requestedFrameRate: int
    var producedFrames: nat
    var lastProducedFrames: nat
    var lastProducerRateUpdate: int
    var smoothedProducerFps: real
    var smoothedRttMs: real
    var hasSmoothedRtt: bool
    var baseRttMs: real
    var hasBaseRtt: bool
    var maxInFlight: int

    ghost function Producer(): S.Producer
      reads `lastProducedFrames, `lastProducerRateUpdate, `smoothedProducerFps
    {
      S.Producer(lastProducedFrames, lastProducerRateUpdate, smoothedProducerFps)
    }

    ghost function Rtt(): S.Rtt
      reads `smoothedRttMs, `hasSmoothedRtt, `baseRttMs, `hasBaseRtt
    {
      S.Rtt(baseRttMs, hasBaseRtt, smoothedRttMs, hasSmoothedRtt)
    }

    ghost function Model(): S.Sizer
      reads this
    {
      S.Sizer(Producer(), Rtt(), maxInFlight)
    }

    constructor ()
      ensures Model() == S.START && requestedFrameRate == 60 && producedFrames == 0
    {
      requestedFrameRate := 60;
      producedFrames, lastProducedFrames, lastProducerRateUpdate := 0, 0, 0;
      smoothedProducerFps := 5.0;
      smoothedRttMs, hasSmoothedRtt, baseRttMs, hasBaseRtt := 0.0, false, 0.0, false;
      maxInFlight := 2;
    }

    method EffectiveProducerFps(now: int) returns (fps: real)
      modifies `lastProducedFrames, `lastProducerRateUpdate, `smoothedProducerFps
      ensures Producer() == S.SampleProducer(old(Producer()), requestedFrameRate, producedFrames, now)
      ensures fps == S.ClampFps(smoothedProducerFps, requestedFrameRate)
    {
      if lastProducerRateUpdate == 0 {
        lastProducerRateUpdate, lastProducedFrames := now, producedFrames;
        smoothedProducerFps := S.ClampFps(requestedFrameRate as real, requestedFrameRate);
        return smoothedProducerFps;
      }
      var elapsed := now - lastProducerRateUpdate;
      var delta := S.FramesSince(producedFrames, lastProducedFrames);
      lastProducerRateUpdate, lastProducedFrames := now, producedFrames;
      if elapsed > 0 && delta != 0 {
        smoothedProducerFps := smoothedProducerFps * 0.75 + S.PerSecond(delta, elapsed) * 0.25;
      }
      fps := S.ClampFps(smoothedProducerFps, requestedFrameRate);
    }

    method SmoothRtt(rttMs: real)
      requires S.ValidSample(rttMs)
      modifies `smoothedRttMs, `hasSmoothedRtt, `baseRttMs, `hasBaseRtt
      ensures Rtt() == S.SampleRtt(old(Rtt()), rttMs)
    {
      if !hasBaseRtt || rttMs < baseRttMs {
        baseRttMs, hasBaseRtt := rttMs, true;
      }
      if !hasSmoothedRtt {
        smoothedRttMs, hasSmoothedRtt := rttMs, true;
      } else {
        smoothedRttMs := 0.875 * smoothedRttMs + 0.125 * rttMs;
      }
    }

    method UpdateInFlightWindow(now: int, averageRttMs: real)
      modifies this
      ensures Model() == S.Update(old(Model()),
                                  S.Reading(old(requestedFrameRate), old(producedFrames), now, averageRttMs))
      ensures requestedFrameRate == old(requestedFrameRate) && producedFrames == old(producedFrames)
    {
      var fps := EffectiveProducerFps(now);
      var window := S.MAXIMUM_IN_FLIGHT_FRAMES;
      if averageRttMs >= S.MINIMUM_VALID_RTT_MS && averageRttMs < S.MAXIMUM_VALID_RTT_MS {
        SmoothRtt(averageRttMs);
        var effectiveRttMs := S.MaxReal(baseRttMs, smoothedRttMs);
        window := Clamp(S.Needed(fps, effectiveRttMs), S.MAXIMUM_IN_FLIGHT_FRAMES, S.Highest(fps));
      }
      maxInFlight := window;
    }
  }
}
