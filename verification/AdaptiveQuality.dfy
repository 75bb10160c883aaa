/**
 The controller of the encoder's quality in src/VideoStream.cpp: steps towards a
 target set by the measured bandwidth, away from it under congestion. Doubles are
 reals and times are nanoseconds.
 */
module QualityControl {
  import opened Wrappers
  import AutoDetect

  /** `quint8` */
  type Byte = x: int | 0 <= x < 0x100

  const QUALITY_UPDATE_INTERVAL := 1_500_000_000
  const MIN_ADAPTIVE_QUALITY := 10
  const QUALITY_STEP_UP := 5
  const QUALITY_STEP_DOWN := 10

  // --------------------------------------------------------------- arithmetic

  /** `lround` of a value that is not negative */
  function Round(x: real): int {
    (x + 0.5).Floor
  }

  /** The conversion of a 64-bit value to `int`. */
  function ToInt32(n: int): int {
    (n + 0x8000_0000) % 0x1_0000_0000 - 0x8000_0000
  }

  /** `duration_cast` to milliseconds truncates towards zero. */
  function Millis(nanoseconds: int): int {
    if nanoseconds >= 0 then nanoseconds / 1_000_000 else -((-nanoseconds) / 1_000_000)
  }

  // ------------------------------------------------------------------- target

  datatype Anchor = Anchor(pixels: real, kbit: real)

  function Anchors(): seq<Anchor> {
    [Anchor(921600.0, 1500.0), Anchor(2073600.0, 3110.0), Anchor(3686400.0, 4500.0), Anchor(8294400.0, 7500.0)]
  }

  function Distance(a: Anchor, pixels: real): real {
    if a.pixels < pixels then pixels - a.pixels else a.pixels - pixels
  }

  /** The first of the nearest anchors from the `k`-th on. */
  function NearestFrom(k: nat, pixels: real): (r: nat)
    requires k < 4
    ensures k <= r < 4
    decreases 4 - k
  {
    if k == 3 then 3
    else
      var later := NearestFrom(k + 1, pixels);
      if Distance(Anchors()[later], pixels) < Distance(Anchors()[k], pixels) then later else k
  }

  lemma {:induction false} NearestIsNearest(k: nat, pixels: real, i: nat)
    requires k <= i < 4
    ensures Distance(Anchors()[NearestFrom(k, pixels)], pixels) <= Distance(Anchors()[i], pixels)
    decreases 4 - k
  {
    if k < 3 {
      NearestIsNearest(k + 1, pixels, if i == k then k + 1 else i);
    }
  }

  /** The bitrate of an anchor, scaled to the number of pixels. */
  function Scaled(k: nat, pixels: real): real {
    match k
    case 0 => 1500.0 * (pixels / 921600.0)
    case 1 => 3110.0 * (pixels / 2073600.0)
    case 2 => 4500.0 * (pixels / 3686400.0)
    case _ => 7500.0 * (pixels / 8294400.0)
  }

  function FullQualityKbit(pixels: real): real {
    Scaled(NearestFrom(0, pixels), pixels)
  }

  /** The measured bandwidth in percent of what full quality needs. */
  function Percent(goodput: nat, fullKbit: real): int
    requires fullKbit > 0.0
  {
    Round(goodput as real / fullKbit * 100.0)
  }

  function Highest(cap: Byte): int {
    Max(cap, MIN_ADAPTIVE_QUALITY)
  }

  /** A target is never below 10. */
  type Target = x: int | MIN_ADAPTIVE_QUALITY <= x < 0x100 witness MIN_ADAPTIVE_QUALITY

  function TargetFor(percent: int, cap: Byte): (target: Target)
    ensures target <= Highest(cap)
  {
    Clamp(ToInt32(percent), MIN_ADAPTIVE_QUALITY, Highest(cap))
  }

  predicate Congested(averageRtt: int, minimumRtt: int) {
    Millis(minimumRtt) > 0 && Millis(averageRtt) > Millis(minimumRtt) * 3 / 2
  }

  /** One step of the controller. */
  function NextQuality(q: Byte, goal: Target, congested: bool): Byte {
    var target := if congested then Clamp(q - QUALITY_STEP_DOWN, MIN_ADAPTIVE_QUALITY, goal) else goal;
    if target < q then Max(target, q - QUALITY_STEP_DOWN)
    else if target > q && !congested then Min(target, q + QUALITY_STEP_UP)
    else q
  }

  // -------------------------------------------------------------------- state

  /** `at` is the last change made by the controller, `applied` what the encoder was last told. */
  datatype Quality = Quality(value: Byte, cap: Byte, adaptive: bool, at: int, applied: Option<Byte>)

  /** What one call of `updateAdaptiveQuality` reads. */
  datatype Reading = Reading(h264: bool, goodput: nat, now: int, width: int, height: int, averageRtt: int, minimumRtt: int)

  datatype Event =
    | SetVideoQuality(cap: Byte)
    | SetAdaptiveQuality(enabled: bool)
    | SeedQuality(h264: bool, quality: Byte)
    | Observe(reading: Reading)

  const START := Quality(100, 100, true, 0, None)

  function Applied(s: Quality, value: Byte): Quality {
    s.(value := value, applied := Some(value))
  }

  function Pixels(r: Reading): real {
    r.width as real * r.height as real
  }

  /** Every condition under which the controller takes a step. */
  predicate Eligible(s: Quality, r: Reading) {
    s.adaptive && Usable(r) && r.now - s.at >= QUALITY_UPDATE_INTERVAL
  }

  predicate Usable(r: Reading) {
    r.h264 && r.goodput != 0 && Pixels(r) > 0.0
  }

  function Goal(cap: Byte, r: Reading): (goal: Target)
    requires Pixels(r) > 0.0
    ensures goal <= Highest(cap)
  {
    FullQualityIsPositive(Pixels(r));
    TargetFor(Percent(r.goodput, FullQualityKbit(Pixels(r))), cap)
  }

  /** The step taken for a target at a time. */
  function Controlled(s: Quality, now: int, goal: Target, congested: bool): Quality {
    var next := NextQuality(s.value, goal, congested);
    if next == s.value then s else Applied(s.(at := now), next)
  }

  function Observed(s: Quality, r: Reading): Quality {
    if !Eligible(s, r) then s
    else Controlled(s, r.now, Goal(s.cap, r), Congested(r.averageRtt, r.minimumRtt))
  }

  function Step(s: Quality, e: Event): Quality {
    match e
    case SetVideoQuality(cap) => Applied(s.(cap := cap), if s.adaptive then Min(s.value, cap) else cap)
    case SetAdaptiveQuality(enabled) =>
      if s.adaptive == enabled then s
      else if enabled then s.(adaptive := true)
      else Applied(s.(adaptive := false), s.cap)
    case SeedQuality(h264, q) =>
      if !s.adaptive || !h264 then s else Applied(s, Clamp(q, MIN_ADAPTIVE_QUALITY, Highest(s.cap)))
    case Observe(r) => Observed(s, r)
  }

  function After(s: Quality, events: seq<Event>, k: nat): Quality
    requires k <= |events|
  {
    if k == 0 then s else Step(After(s, events, k - 1), events[k - 1])
  }

  // ----------------------------------------------------------- what a target is

  lemma {:induction false} FullQualityIsPositive(pixels: real)
    requires pixels > 0.0
    ensures FullQualityKbit(pixels) > 0.0
  {
  }

  lemma {:induction false} ScaledKeepsRate(k: nat, pixels: real)
    requires k < 4
    ensures Scaled(k, pixels) / Anchors()[k].kbit == pixels / Anchors()[k].pixels
  {
    if k == 0 {
    } else if k == 1 {
    } else if k == 2 {
    } else {
    }
  }

  /** Full quality needs per pixel what it needs at a nearest anchor. */
  lemma {:induction false} FullQualityFollowsNearestAnchor(pixels: real) returns (k: nat)
    ensures k < 4 && forall i :: 0 <= i < 4 ==> Distance(Anchors()[k], pixels) <= Distance(Anchors()[i], pixels)
    ensures FullQualityKbit(pixels) / Anchors()[k].kbit == pixels / Anchors()[k].pixels
  {
    k := NearestFrom(0, pixels);
    forall i | 0 <= i < 4
      ensures Distance(Anchors()[k], pixels) <= Distance(Anchors()[i], pixels)
    {
      NearestIsNearest(0, pixels, i);
    }
    ScaledKeepsRate(k, pixels);
  }

  /** The sizes that are nearest to each anchor; in the middle the smaller one is taken. */
  function Cell(pixels: real): (k: nat)
    ensures k < 4
  {
    if pixels <= 1497600.0 then 0 else if pixels <= 2880000.0 then 1 else if pixels <= 5990400.0 then 2 else 3
  }

  lemma {:induction false} NearestIsCell(pixels: real)
    ensures NearestFrom(0, pixels) == Cell(pixels)
  {
    assert NearestFrom(2, pixels) == if pixels <= 5990400.0 then 2 else 3;
    assert NearestFrom(1, pixels) == if pixels <= 2880000.0 then 1 else NearestFrom(2, pixels);
  }

  /** How many times the bitrate per pixel of one anchor that of a later one goes. */
  function RateRatio(i: nat, j: nat): real {
    match (i, j)
    case (0, 1) => 675.0 / 622.0
    case (0, 2) => 4.0 / 3.0
    case (0, 3) => 9.0 / 5.0
    case (1, 2) => 2488.0 / 2025.0
    case (1, 3) => 622.0 / 375.0
    case (2, 3) => 27.0 / 20.0
    case _ => 1.0
  }

  lemma {:induction false} ScaledCompares(i: nat, j: nat, p: real, q: real)
    requires i < j < 4
    ensures Scaled(i, p) <= Scaled(j, q) <==> q >= RateRatio(i, j) * p
  {
    if i == 0 && j == 1 {
    } else if i == 0 && j == 2 {
    } else if i == 0 && j == 3 {
    } else if i == 1 && j == 2 {
    } else if i == 1 && j == 3 {
    } else {
    }
  }

  /**
   A larger surface is given no smaller a bitrate exactly if it has the same nearest anchor,
   or is larger by as much as the rates per pixel of the two anchors differ.
   */
  lemma {:induction false} FullQualityGrowsExactly(p: real, q: real)
    requires 0.0 < p <= q
    ensures FullQualityKbit(p) <= FullQualityKbit(q)
            <==> Cell(p) == Cell(q) || q >= RateRatio(Cell(p), Cell(q)) * p
  {
    NearestIsCell(p);
    NearestIsCell(q);
    if Cell(p) < Cell(q) {
      ScaledCompares(Cell(p), Cell(q), p, q);
    } else {
      ScaledGrows(Cell(p), p, q);
    }
  }

  lemma {:induction false} ScaledGrows(k: nat, p: real, q: real)
    requires k < 4 && p <= q
    ensures Scaled(k, p) <= Scaled(k, q)
  {
  }

  /** So past the middle of two anchors the bitrate falls. */
  lemma {:induction false} FullQualityIsNotMonotone()
    ensures FullQualityKbit(1497600.0) > FullQualityKbit(1500000.0)
  {
    FullQualityGrowsExactly(1497600.0, 1500000.0);
  }

  /** No whole percentage is nearer to the measured share. */
  lemma {:induction false} PercentIsNearest(goodput: nat, fullKbit: real)
    requires fullKbit > 0.0
    ensures var p := Percent(goodput, fullKbit) as real;
            (p - 0.5) * fullKbit <= 100.0 * goodput as real < (p + 0.5) * fullKbit
  {
    var share, p := goodput as real / fullKbit * 100.0, Percent(goodput, fullKbit) as real;
    assert goodput as real / fullKbit * fullKbit == goodput as real;
    assert share * fullKbit == 100.0 * goodput as real;
    NearestScales(share, p - 0.5, p + 0.5, fullKbit, 100.0 * goodput as real);
  }

  lemma {:induction false} NearestScales(share: real, lo: real, hi: real, full: real, product: real)
    requires full > 0.0 && lo <= share < hi && share * full == product
    ensures lo * full <= product < hi * full
  {
    assert (share - lo) * full >= 0.0;
    assert (hi - share) * full > 0.0;
  }

  lemma {:induction false} ScaleKeepsOrder(c: real, a: real, b: real)
    requires c >= 0.0 && a <= b
    ensures a * c <= b * c
  {
  }

  /** The target the controller should have: the percentage, clamped. */
  function RightTarget(percent: int, cap: Byte): int {
    Clamp(percent, MIN_ADAPTIVE_QUALITY, Highest(cap))
  }

  /** `bandwidth()` divides a 32-bit number by 1000. */
  lemma {:induction false} BandwidthIsSmall(b: nat)
    ensures AutoDetect.Kilobits(b) <= 4294967
  {
  }

  /** On a small surface the percentage is this quotient of whole numbers. */
  function Quotient(goodput: nat, pixels: nat): nat
    requires pixels > 0
  {
    (122880 * goodput + pixels) / (2 * pixels)
  }

  lemma {:induction false} FloorOfRatio(y: real, m: int, d: int)
    requires d > 0 && y * d as real == m as real
    ensures y.Floor == m / d
  {
    WholeProduct(m / d, d);
    DivideBetween(y, (m / d) as real, d as real, y * d as real, (m / d) as real * d as real);
  }

  lemma {:induction false} WholeProduct(q: int, d: int)
    ensures q as real * d as real == (q * d) as real
  {
  }

  lemma {:induction false} DivideBetween(y: real, q: real, d: real, yd: real, qd: real)
    requires d > 0.0 && yd == y * d && qd == q * d && qd <= yd < qd + d
    ensures q <= y < q + 1.0
  {
    if y < q {
      Positive(q - y, d);
      assert false;
    }
    if y >= q + 1.0 {
      Compare(q + 1.0, y, d);
      assert false;
    }
  }

  lemma {:induction false} Positive(a: real, b: real)
    requires a > 0.0 && b > 0.0
    ensures a * b > 0.0
  {
  }

  lemma {:induction false} Compare(a: real, b: real, d: real)
    requires d > 0.0
    ensures a <= b ==> a * d <= b * d
    ensures a < b ==> a * d < b * d
  {
  }

  lemma {:induction false} PercentIsQuotient(goodput: nat, pixels: nat)
    requires 0 < pixels <= 1497600
    ensures FullQualityKbit(pixels as real) > 0.0
    ensures Percent(goodput, FullQualityKbit(pixels as real)) == Quotient(goodput, pixels)
  {
    var full, n, g := FullQualityKbit(pixels as real), pixels as real, goodput as real;
    NearestIsCell(n);
    assert full == 1500.0 * (n / 921600.0) && 61440.0 * full == 100.0 * n;
    ShareTimesPixels(g, full, n);
    FloorOfRatio(g / full * 100.0 + 0.5, 122880 * goodput + pixels, 2 * pixels);
  }

  lemma {:induction false} ShareTimesPixels(g: real, full: real, n: real)
    requires full > 0.0 && 61440.0 * full == 100.0 * n
    ensures (g / full * 100.0 + 0.5) * (2.0 * n) == 122880.0 * g + n
  {
    var share := g / full;
    assert share * full == g;
    assert (share * 100.0) * (2.0 * n) == share * (2.0 * 61440.0 * full);
    assert share * (2.0 * 61440.0 * full) == 122880.0 * (share * full);
  }

  /** From 123 pixels on no bandwidth makes the percentage leave 31 bits. */
  lemma {:induction false} PercentFits(goodput: nat, pixels: real)
    requires goodput <= 4294967 && pixels >= 123.0
    ensures FullQualityKbit(pixels) > 0.0
    ensures 0 <= Percent(goodput, FullQualityKbit(pixels)) < 0x8000_0000
  {
    var full := FullQualityKbit(pixels);
    NearestIsCell(pixels);
    assert full >= 0.2001;
    SmallShare(goodput, full);
  }

  lemma {:induction false} SmallShare(goodput: nat, full: real)
    requires goodput <= 4294967 && full >= 0.2001
    ensures 0 <= Percent(goodput, full) < 0x8000_0000
  {
    PercentIsNearest(goodput, full);
    NotLarge(Percent(goodput, full), full);
    NotNegative(Percent(goodput, full), full);
  }

  lemma {:induction false} NotLarge(p: int, full: real)
    requires full >= 0.2001 && (p as real - 0.5) * full <= 429496700.0
    ensures p < 0x8000_0000
  {
    if p >= 0x8000_0000 {
      Compare(2147483647.5, p as real - 0.5, full);
      assert false;
    }
  }

  lemma {:induction false} NotNegative(p: int, full: real)
    requires full > 0.0 && 0.0 < (p as real + 0.5) * full
    ensures p >= 0
  {
    if p < 0 {
      Compare(p as real + 0.5, 0.0, full);
      assert false;
    }
  }

  /**
   The percentage passes through 32 bits, which misread it exactly on surfaces of at most
   122 pixels, for percentages that, truncated, come out negative or below the cap.
   */
  lemma {:induction false} TargetIsExact(b: nat, pixels: nat, cap: Byte)
    requires pixels > 0
    ensures FullQualityKbit(pixels as real) > 0.0
    ensures var goodput := AutoDetect.Kilobits(b);
            var p := Percent(goodput, FullQualityKbit(pixels as real));
            TargetFor(p, cap) != RightTarget(p, cap) <==>
              && cap > MIN_ADAPTIVE_QUALITY && pixels <= 122
              && var q := Quotient(goodput, pixels);
                 q >= 0x8000_0000 && (q % 0x1_0000_0000 >= 0x8000_0000 || q % 0x1_0000_0000 < cap)
  {
    BandwidthIsSmall(b);
    var goodput := AutoDetect.Kilobits(b);
    if pixels <= 122 {
      PercentIsQuotient(goodput, pixels);
      TruncationShows(Quotient(goodput, pixels), cap);
    } else {
      PercentFits(goodput, pixels as real);
      TruncationShows(Percent(goodput, FullQualityKbit(pixels as real)), cap);
    }
  }

  lemma {:induction false} TruncationShows(p: nat, cap: Byte)
    ensures TargetFor(p, cap) != RightTarget(p, cap) <==>
              && cap > MIN_ADAPTIVE_QUALITY && p >= 0x8000_0000
              && (p % 0x1_0000_0000 >= 0x8000_0000 || p % 0x1_0000_0000 < cap)
  {
    if p < 0x8000_0000 {
      assert ToInt32(p) == p;
    } else if p % 0x1_0000_0000 < 0x8000_0000 {
      assert ToInt32(p) == p % 0x1_0000_0000;
    } else {
      assert ToInt32(p) < 0;
    }
  }

  /** A surface of 122 pixels and just under 2^29 bytes per second: the lowest quality instead of the highest. */
  lemma {:induction false} TinySurfaceIsMisread()
    ensures FullQualityKbit(122.0) > 0.0
    ensures var p := Percent(AutoDetect.Kilobits(0x1FFF_FFFF), FullQualityKbit(122.0));
            TargetFor(p, 100) == 10 && RightTarget(p, 100) == 100
  {
    assert AutoDetect.Kilobits(0x1FFF_FFFF) == 4294967;
    PercentIsQuotient(4294967, 122);
  }

  /** A surface whose size is not known yet is -1 by -1, and its product passes for one pixel. */
  lemma {:induction false} UnsetSizeCountsAsOnePixel(r: Reading, cap: Byte)
    requires r.width == -1 && r.height == -1 && r.h264
    ensures Usable(r) <==> r.goodput != 0
    ensures Pixels(r) > 0.0 && Goal(cap, r) == TargetFor(Quotient(r.goodput, 1), cap)
    ensures 0 < r.goodput < 34953 ==> Goal(cap, r) == Max(cap, 10)
    ensures r.goodput == 34953 ==> Goal(cap, r) == 10
  {
    PercentIsQuotient(r.goodput, 1);
    assert Pixels(r) == 1.0;
    TruncationShows(Quotient(r.goodput, 1), cap);
  }

  // ------------------------------------------------ the target, from the reading

  /** The anchors of the source: pixels and kilobits per second. */
  function AnchorTable(k: nat): (int, int)
    requires k < 4
  {
    match k
    case 0 => (921600, 1500)
    case 1 => (2073600, 3110)
    case 2 => (3686400, 4500)
    case _ => (8294400, 7500)
  }

  function Gap(k: nat, n: int): int
    requires k < 4
  {
    if AnchorTable(k).0 < n then n - AnchorTable(k).0 else AnchorTable(k).0 - n
  }

  /** The first of the anchors nearest to n pixels. */
  predicate IsNearest(k: nat, n: int) {
    k < 4 && forall i :: 0 <= i < 4 ==> if i < k then Gap(i, n) > Gap(k, n) else Gap(i, n) >= Gap(k, n)
  }

  /** p is the whole number nearest to the share, in percent, of what the anchor grants n pixels. */
  predicate IsShare(p: int, goodput: nat, n: int, k: nat)
    requires k < 4
  {
    var (pixels, kbit) := AnchorTable(k);
    (2 * p - 1) * (kbit * n) <= 200 * goodput * pixels < (2 * p + 1) * (kbit * n)
  }

  /** t is what a 32-bit `int` makes of p. */
  predicate IsTruncated(t: int, p: int) {
    -0x8000_0000 <= t < 0x8000_0000 && (p - t) % 0x1_0000_0000 == 0
  }

  predicate DeservesBy(r: Reading, cap: Byte, target: int, k: nat, p: int, t: int) {
    var n := r.width * r.height;
    && n > 0 && IsNearest(k, n) && IsShare(p, r.goodput, n, k) && IsTruncated(t, p)
    && target == if t < 10 then 10 else if t > cap then (if cap < 10 then 10 else cap) else t
  }

  /** The target a reading calls for under a cap. */
  ghost predicate Deserves(r: Reading, cap: Byte, target: int) {
    exists k, p, t :: DeservesBy(r, cap, target, k, p, t)
  }

  lemma {:induction false} PixelsAreProduct(r: Reading)
    ensures Pixels(r) == (r.width * r.height) as real
  {
  }

  lemma {:induction false} CellIsNearest(n: int)
    requires n > 0
    ensures IsNearest(NearestFrom(0, n as real), n)
  {
    NearestIsCell(n as real);
  }

  lemma {:induction false} PercentIsShare(goodput: nat, n: int)
    requires n > 0
    ensures FullQualityKbit(n as real) > 0.0
    ensures IsShare(Percent(goodput, FullQualityKbit(n as real)), goodput, n, NearestFrom(0, n as real))
  {
    var full := FullQualityKbit(n as real);
    PercentIsNearest(goodput, full);
    NearestIsShare(Percent(goodput, full), goodput, full, NearestFrom(0, n as real), n);
  }

  lemma {:induction false} NearestIsShare(p: int, goodput: nat, full: real, k: nat, n: int)
    requires k < 4 && full == Scaled(k, n as real)
    requires (p as real - 0.5) * full <= 100.0 * goodput as real < (p as real + 0.5) * full
    ensures IsShare(p, goodput, n, k)
  {
    FullTimesAnchor(k, n as real);
    ClearFractions(p, goodput, full, AnchorTable(k).0, AnchorTable(k).1, n);
  }

  lemma {:induction false} FullTimesAnchor(k: nat, n: real)
    requires k < 4
    ensures Scaled(k, n) * AnchorTable(k).0 as real == AnchorTable(k).1 as real * n
  {
    if k == 0 {
    } else if k == 1 {
    } else if k == 2 {
    } else {
    }
  }

  lemma {:induction false} ClearFractions(p: int, goodput: nat, full: real, pixels: int, kbit: int, n: int)
    requires pixels > 0 && full * pixels as real == kbit as real * n as real
    requires (p as real - 0.5) * full <= 100.0 * goodput as real < (p as real + 0.5) * full
    ensures (2 * p - 1) * (kbit * n) <= 200 * goodput * pixels < (2 * p + 1) * (kbit * n)
  {
    var m := 2.0 * pixels as real;
    WholeProduct(kbit, n);
    Compare((p as real - 0.5) * full, 100.0 * goodput as real, m);
    Compare(100.0 * goodput as real, (p as real + 0.5) * full, m);
    TimesTwice(p as real - 0.5, full, pixels as real, (kbit * n) as real);
    TimesTwice(p as real + 0.5, full, pixels as real, (kbit * n) as real);
    WholeProduct(2 * p - 1, kbit * n);
    WholeProduct(2 * p + 1, kbit * n);
    WholeProduct(200 * goodput, pixels);
  }

  lemma {:induction false} TimesTwice(x: real, full: real, pixels: real, product: real)
    requires full * pixels == product
    ensures (x * full) * (2.0 * pixels) == (2.0 * x) * product
  {
    assert (x * full) * (2.0 * pixels) == (2.0 * x) * (full * pixels);
  }

  lemma {:induction false} GoalIsDeserved(r: Reading, cap: Byte)
    requires r.width * r.height > 0
    ensures Pixels(r) > 0.0 && Deserves(r, cap, Goal(cap, r))
  {
    var n := r.width * r.height;
    PixelsAreProduct(r);
    CellIsNearest(n);
    PercentIsShare(r.goodput, n);
    var k, p := NearestFrom(0, n as real), Percent(r.goodput, FullQualityKbit(n as real));
    TruncationIsTruncated(p);
    assert DeservesBy(r, cap, Goal(cap, r), k, p, ToInt32(p));
  }

  lemma {:induction false} TruncationIsTruncated(p: int)
    ensures IsTruncated(ToInt32(p), p)
  {
  }

  lemma {:induction false} SharesAreEqual(p: int, q: int, x: int, y: int)
    requires x > 0 && (2 * p - 1) * x <= y < (2 * p + 1) * x && (2 * q - 1) * x <= y < (2 * q + 1) * x
    ensures p == q
  {
    if p < q {
      NoLarger(2 * p + 1, 2 * q - 1, x);
      assert false;
    }
    if q < p {
      NoLarger(2 * q + 1, 2 * p - 1, x);
      assert false;
    }
  }

  lemma {:induction false} NoLarger(a: int, b: int, x: int)
    requires a <= b && x > 0
    ensures a * x <= b * x
  {
  }

  lemma {:induction false} TruncationsAreEqual(t: int, u: int, p: int)
    requires IsTruncated(t, p) && IsTruncated(u, p)
    ensures t == u
  {
  }

  lemma {:induction false} DeservedIsUnique(r: Reading, cap: Byte, a: int, b: int)
    requires Deserves(r, cap, a) && Deserves(r, cap, b)
    ensures a == b
  {
    var k, p, t :| DeservesBy(r, cap, a, k, p, t);
    var k', p', t' :| DeservesBy(r, cap, b, k', p', t');
    assert k == k';
    var n := r.width * r.height;
    var (pixels, kbit) := AnchorTable(k);
    Positives(kbit, n);
    SharesAreEqual(p, p', kbit * n, 200 * r.goodput * pixels);
    TruncationsAreEqual(t, t', p);
  }

  lemma {:induction false} Positives(a: int, b: int)
    requires a > 0 && b > 0
    ensures a * b > 0
  {
  }

  /** The goal of the controller is the one target the reading calls for. */
  lemma {:induction false} GoalExactly(r: Reading, cap: Byte, target: int)
    ensures Deserves(r, cap, target) <==> r.width * r.height > 0 && Pixels(r) > 0.0 && target == Goal(cap, r)
  {
    if r.width * r.height > 0 {
      GoalIsDeserved(r, cap);
      if Deserves(r, cap, target) {
        DeservedIsUnique(r, cap, target, Goal(cap, r));
      }
    }
  }

  /** An average at least half as long again as the minimum, of a millisecond or more, in whole milliseconds. */
  predicate IsSlowed(r: Reading) {
    && r.minimumRtt >= 1_000_000 && r.averageRtt >= 0
    && 2 * (r.averageRtt / 1_000_000) > 3 * (r.minimumRtt / 1_000_000)
  }

  lemma {:induction false} CongestionIsHalfAgain(r: Reading)
    ensures Congested(r.averageRtt, r.minimumRtt) <==> IsSlowed(r)
  {
  }

  /** The step of the controller in numbers. */
  function Stepped(q: int, target: int, slowed: bool): int {
    if slowed then (if q >= 20 then q - 10 else if q >= 10 then 10 else q)
    else if target < q - 10 then q - 10
    else if target > q + 5 then q + 5
    else target
  }

  lemma {:induction false} StepInNumbers(q: Byte, goal: Target, congested: bool)
    ensures NextQuality(q, goal, congested) == Stepped(q, goal, congested)
  {
  }

  /** When a reading counts: adaptive, H.264, a bandwidth, a size, and 1.5 s since the last change. */
  predicate Counts(s: Quality, r: Reading) {
    s.adaptive && r.h264 && r.goodput != 0 && r.width * r.height > 0 && r.now - s.at >= 1_500_000_000
  }

  lemma {:induction false} CountsExactly(s: Quality, r: Reading)
    ensures Counts(s, r) <==> Eligible(s, r)
  {
    PixelsAreProduct(r);
  }

  /** The whole of a reading's effect, from the reading itself. */
  lemma {:induction false} ReadingMovesQuality(s: Quality, r: Reading, target: int)
    requires Deserves(r, s.cap, target)
    ensures var s' := Step(s, Observe(r));
            && s'.value == (if Counts(s, r) then Stepped(s.value, target, IsSlowed(r)) else s.value)
            && s'.at == (if s'.value != s.value then r.now else s.at)
            && s'.cap == s.cap && s'.adaptive == s.adaptive
            && s'.applied == (if s'.value != s.value then Some(s'.value) else s.applied)
  {
    CountsExactly(s, r);
    GoalExactly(r, s.cap, target);
    CongestionIsHalfAgain(r);
    StepInNumbers(s.value, Goal(s.cap, r), Congested(r.averageRtt, r.minimumRtt));
  }

  /** A reading without a size changes nothing. */
  lemma {:induction false} SizelessReadingIsIgnored(s: Quality, r: Reading)
    requires r.width * r.height <= 0
    ensures Step(s, Observe(r)) == s
  {
    CountsExactly(s, r);
  }

  /** What the other calls do to the quality: only a lower cap or a seed moves it while adaptive. */
  lemma {:induction false} SettersMoveQuality(s: Quality, e: Event)
    requires !e.Observe?
    ensures var s' := Step(s, e);
            && s'.at == s.at
            && s'.cap == (if e.SetVideoQuality? then e.cap else s.cap)
            && s'.adaptive == (if e.SetAdaptiveQuality? then e.enabled else s.adaptive)
            && (s'.adaptive && !e.SeedQuality? ==> s'.value == if s.value > s'.cap && e.SetVideoQuality? then s'.cap else s.value)
            && (!s'.adaptive && (s.adaptive || e.SetVideoQuality?) ==> s'.value == s'.cap)
            && (e.SeedQuality? && s.adaptive && e.h264 ==>
                  s'.value == if e.quality < 10 then 10 else if e.quality > s.cap then (if s.cap < 10 then 10 else s.cap) else e.quality)
            && (e.SeedQuality? && !(s.adaptive && e.h264) ==> s' == s)
  {
  }

  // -------------------------------------------------------------- every run

  /** What every run keeps. */
  predicate InControl(s: Quality) {
    && s.value <= Highest(s.cap)
    && (!s.adaptive ==> s.value == s.cap)
    && (s.applied.Some? ==> s.applied.value == s.value)
  }

  lemma {:induction false} StepKeepsControl(s: Quality, e: Event)
    requires InControl(s)
    ensures InControl(Step(s, e))
  {
  }

  lemma {:induction false} EveryRunIsControlled(events: seq<Event>, k: nat)
    requires k <= |events|
    ensures InControl(After(START, events, k))
  {
    if k > 0 {
      EveryRunIsControlled(events, k - 1);
      StepKeepsControl(After(START, events, k - 1), events[k - 1]);
    }
  }

  /** If no cap is below 10, the quality always lies between 10 and the cap. */
  lemma {:induction false} QualityStaysBetweenFloorAndCap(events: seq<Event>, k: nat)
    requires k <= |events|
    requires forall i :: 0 <= i < |events| && events[i].SetVideoQuality? ==> events[i].cap >= MIN_ADAPTIVE_QUALITY
    ensures var s := After(START, events, k);
            MIN_ADAPTIVE_QUALITY <= s.value <= s.cap
  {
    EveryRunIsControlled(events, k);
    if k > 0 {
      QualityStaysBetweenFloorAndCap(events, k - 1);
    }
  }

  /** The controller changed the quality at event `i`. */
  predicate Changes(s: Quality, events: seq<Event>, i: nat)
    requires i < |events|
  {
    events[i].Observe? && After(s, events, i + 1).value != After(s, events, i).value
  }

  lemma {:induction false} ChangeTimesGrow(s: Quality, events: seq<Event>, i: nat, j: nat)
    requires i <= j <= |events|
    ensures After(s, events, i).at <= After(s, events, j).at
    decreases j
  {
    if i < j {
      ChangeTimesGrow(s, events, i, j - 1);
    }
  }

  /** Two changes by the controller are 1.5 s apart, even on a clock that goes back. */
  lemma {:induction false} ChangesAreSpaced(s: Quality, events: seq<Event>, i: nat, j: nat)
    requires i < j < |events| && Changes(s, events, i) && Changes(s, events, j)
    ensures events[j].reading.now >= events[i].reading.now + QUALITY_UPDATE_INTERVAL
  {
    ChangeTimesGrow(s, events, i + 1, j);
    assert After(s, events, i + 1) == Observed(After(s, events, i), events[i].reading);
    assert After(s, events, j + 1) == Observed(After(s, events, j), events[j].reading);
  }

  // -------------------------------------------------------------- convergence

  /** A congested step is down by 10, to 10 at least, whatever the bandwidth; below 10 it does nothing. */
  lemma {:induction false} CongestedStepIgnoresGoal(q: Byte, goal: Target)
    ensures NextQuality(q, goal, true)
            == if q >= MIN_ADAPTIVE_QUALITY then Max(MIN_ADAPTIVE_QUALITY, q - QUALITY_STEP_DOWN) else q
  {
  }

  /** By 5 up or by 10 down, `k` times, but not past the target. */
  function Approached(q: int, target: int, k: nat): int {
    if q <= target then Min(target, q + 5 * k) else Max(target, q - 10 * k)
  }

  lemma {:induction false} StepApproaches(start: Byte, q: Byte, target: Target, k: nat)
    requires k > 0 && q == Approached(start, target, k - 1)
    ensures NextQuality(q, target, false) == Approached(start, target, k)
  {
  }

  lemma {:induction false} CongestedStepWearsDown(start: Byte, q: Byte, goal: Target, k: nat)
    requires k > 0 && start >= MIN_ADAPTIVE_QUALITY && q == Max(MIN_ADAPTIVE_QUALITY, start - 10 * (k - 1))
    ensures NextQuality(q, goal, true) == Max(MIN_ADAPTIVE_QUALITY, start - 10 * k)
  {
    CongestedStepIgnoresGoal(q, goal);
  }

  /** What a reading amounts to. */
  datatype Decision = Decision(now: int, goal: Target, congested: bool)

  /** The state after the first `k` decisions. */
  function ControlAll(s: Quality, ds: seq<Decision>, k: nat): Quality
    requires k <= |ds|
  {
    if k == 0 then s
    else Controlled(ControlAll(s, ds, k - 1), ds[k - 1].now, ds[k - 1].goal, ds[k - 1].congested)
  }

  /** The decision is for the target the reading calls for, and congested exactly if the reading is. */
  ghost predicate Decides(cap: Byte, e: Event, d: Decision) {
    && e.Observe? && e.reading.h264 && e.reading.goodput != 0 && d.now == e.reading.now
    && Deserves(e.reading, cap, d.goal)
    && (d.congested <==> IsSlowed(e.reading))
  }

  /** Readings that pass every check and are 1.5 s apart, the first so long after the last change. */
  ghost predicate Regular(s: Quality, events: seq<Event>, ds: seq<Decision>) {
    && |events| == |ds| && s.adaptive
    && (forall i {:trigger Decides(s.cap, events[i], ds[i])} :: 0 <= i < |ds| ==> Decides(s.cap, events[i], ds[i]))
    && Spaced(s, ds)
  }

  predicate Spaced(s: Quality, ds: seq<Decision>) {
    forall i {:trigger TimeBefore(s, ds, i)} :: 0 <= i < |ds| ==>
      ds[i].now >= QUALITY_UPDATE_INTERVAL + TimeBefore(s, ds, i)
  }

  function TimeBefore(s: Quality, ds: seq<Decision>, i: nat): int
    requires i <= |ds|
  {
    if i == 0 then s.at else ds[i - 1].now
  }

  lemma {:induction false} DecisionsKeepTime(s: Quality, ds: seq<Decision>, k: nat)
    requires k <= |ds| && Spaced(s, ds)
    ensures var t := ControlAll(s, ds, k);
            t.adaptive == s.adaptive && t.cap == s.cap && t.at <= TimeBefore(s, ds, k)
  {
    if k > 0 {
      DecisionsKeepTime(s, ds, k - 1);
    }
  }

  lemma {:induction false} ReadingDecides(s: Quality, e: Event, d: Decision)
    requires s.adaptive && Decides(s.cap, e, d) && d.now - s.at >= QUALITY_UPDATE_INTERVAL
    ensures Step(s, e) == Controlled(s, d.now, d.goal, d.congested)
  {
    GoalExactly(e.reading, s.cap, d.goal);
    CongestionIsHalfAgain(e.reading);
    PixelsAreProduct(e.reading);
  }

  /** None of the readings of a regular run is refused. */
  lemma {:induction false} RegularReadingsAreTaken(s: Quality, events: seq<Event>, ds: seq<Decision>, k: nat)
    requires Regular(s, events, ds) && k <= |ds|
    ensures After(s, events, k) == ControlAll(s, ds, k)
  {
    if k > 0 {
      RegularReadingsAreTaken(s, events, ds, k - 1);
      DecisionsKeepTime(s, ds, k - 1);
      assert Decides(s.cap, events[k - 1], ds[k - 1]);
      ReadingDecides(ControlAll(s, ds, k - 1), events[k - 1], ds[k - 1]);
    }
  }

  lemma {:induction false} DecisionsApproachTarget(s: Quality, ds: seq<Decision>, k: nat, target: Target)
    requires k <= |ds| && forall i :: 0 <= i < |ds| ==> ds[i].goal == target && !ds[i].congested
    ensures ControlAll(s, ds, k).value == Approached(s.value, target, k)
  {
    if k > 0 {
      DecisionsApproachTarget(s, ds, k - 1, target);
      StepApproaches(s.value, ControlAll(s, ds, k - 1).value, target, k);
    }
  }

  /**
   Towards a steady target the quality climbs by 5 or falls by 10 until it is there; it
   gets there after so many readings, never sooner, and stays.
   */
  lemma {:induction false} QualityApproachesTarget(s: Quality, events: seq<Event>, ds: seq<Decision>, k: nat, target: Target)
    requires Regular(s, events, ds) && k <= |ds|
    requires forall i :: 0 <= i < |ds| ==> ds[i].goal == target && !ds[i].congested
    ensures After(s, events, k).value == Approached(s.value, target, k)
    ensures After(s, events, k).value == target
            <==> if s.value <= target then (target - s.value + 4) / 5 <= k else (s.value - target + 9) / 10 <= k
  {
    RegularReadingsAreTaken(s, events, ds, k);
    DecisionsApproachTarget(s, ds, k, target);
  }

  lemma {:induction false} DecisionsWearDown(s: Quality, ds: seq<Decision>, k: nat)
    requires k <= |ds| && s.value >= MIN_ADAPTIVE_QUALITY && forall i :: 0 <= i < |ds| ==> ds[i].congested
    ensures ControlAll(s, ds, k).value == Max(MIN_ADAPTIVE_QUALITY, s.value - 10 * k)
  {
    if k > 0 {
      DecisionsWearDown(s, ds, k - 1);
      CongestedStepWearsDown(s.value, ControlAll(s, ds, k - 1).value, ds[k - 1].goal, k);
    }
  }

  /** Lasting congestion brings the quality down to 10, whatever the bandwidth. */
  lemma {:induction false} CongestionWearsDown(s: Quality, events: seq<Event>, ds: seq<Decision>, k: nat)
    requires Regular(s, events, ds) && k <= |ds|
    requires s.value >= MIN_ADAPTIVE_QUALITY && forall i :: 0 <= i < |ds| ==> ds[i].congested
    ensures After(s, events, k).value == Max(MIN_ADAPTIVE_QUALITY, s.value - 10 * k)
  {
    RegularReadingsAreTaken(s, events, ds, k);
    DecisionsWearDown(s, ds, k);
  }
}

/** The fields of `VideoStream::Private` that hold the quality, updated in place. */
module AdaptiveQualityObject {
  import opened Wrappers
  import Q = QualityControl

  class AdaptiveQuality {
    var quality: Q.Byte
    var qualityCap: Q.Byte
    var adaptiveQuality: bool
    var lastQualityUpdate: int
    /** The quality the encoder was last given. */
    var applied: Option<Q.Byte>

    ghost function Model(): Q.Quality
      reads this
    {
      Q.Quality(quality, qualityCap, adaptiveQuality, lastQualityUpdate, applied)
    }

    constructor ()
      ensures Model() == Q.START
    {
      quality, qualityCap, adaptiveQuality, lastQualityUpdate, applied := 100, 100, true, 0, None;
    }

    method ApplyQuality()
      modifies `applied
      ensures Model() == Q.Applied(old(Model()), quality)
    {
      applied := Some(quality);
    }

    method SetVideoQuality(cap: Q.Byte)
      modifies `quality, `qualityCap, `applied
      ensures Model() == Q.Step(old(Model()), Q.SetVideoQuality(cap))
    {
      qualityCap := cap;
      quality := if adaptiveQuality then Min(quality, qualityCap) else qualityCap;
      ApplyQuality();
    }

    method SetAdaptiveQuality(enabled: bool)
      modifies `quality, `adaptiveQuality, `applied
      ensures Model() == Q.Step(old(Model()), Q.SetAdaptiveQuality(enabled))
    {
      if adaptiveQuality == enabled {
        return;
      }
      adaptiveQuality := enabled;
      if !enabled {
        quality := qualityCap;
        ApplyQuality();
      }
    }

    method SeedQuality(h264: bool, seed: Q.Byte)
      modifies `quality, `applied
      ensures Model() == Q.Step(old(Model()), Q.SeedQuality(h264, seed))
    {
      if !adaptiveQuality || !h264 {
        return;
      }
      var hi := Max(qualityCap, Q.MIN_ADAPTIVE_QUALITY);
      quality := Clamp(seed, Q.MIN_ADAPTIVE_QUALITY, hi);
      ApplyQuality();
    }

    method UpdateAdaptiveQuality(r: Q.Reading)
      modifies `quality, `lastQualityUpdate, `applied
      ensures Model() == Q.Step(old(Model()), Q.Observe(r))
    {
      if !adaptiveQuality || !r.h264 || r.goodput == 0 {
        return;
      }
      if r.now - lastQualityUpdate < Q.QUALITY_UPDATE_INTERVAL {
        return;
      }
      var pixels := Q.Pixels(r);
      if pixels <= 0.0 {
        return;
      }
      var next := NextStep(r, pixels);
      if next == quality {
        return;
      }
      lastQualityUpdate := r.now;
      quality := next;
      ApplyQuality();
    }

    /** The target and the step towards it. */
    method NextStep(r: Q.Reading, pixels: real) returns (next: int)
      requires pixels == Q.Pixels(r) && pixels > 0.0
      ensures next == Q.NextQuality(quality, Q.Goal(qualityCap, r), Q.Congested(r.averageRtt, r.minimumRtt))
    {
      Q.FullQualityIsPositive(pixels);
      var fullKbit := Q.FullQualityKbit(pixels);
      var hi := Max(qualityCap, Q.MIN_ADAPTIVE_QUALITY);
      var target := Clamp(Q.ToInt32(Q.Percent(r.goodput, fullKbit)), Q.MIN_ADAPTIVE_QUALITY, hi);
      var congested := Q.Congested(r.averageRtt, r.minimumRtt);
      if congested {
        target := Clamp(quality - Q.QUALITY_STEP_DOWN, Q.MIN_ADAPTIVE_QUALITY, target);
      }
      next := quality;
      if target < next {
        next := Max(target, next - Q.QUALITY_STEP_DOWN);
      } else if target > next && !congested {
        next := Min(target, next + Q.QUALITY_STEP_UP);
      }
    }
  }
}
