/**
 The `NetworkDetection` object of src/NetworkDetection.cpp: fields updated in place,
 loops where the source loops, every call proved against AutoDetect.
 */
module NetworkDetectionObject {
  import opened Wrappers
  import opened AutoDetect

  const MAX_TICKS := 0x7fff_ffff_ffff_ffff

  /** Readings whose differences fit the 64-bit duration the source computes in. */
  type Reading = t: int | -0x4000_0000_0000_0000 <= t < 0x4000_0000_0000_0000 witness 0

  class NetworkDetection {
    var phase: Phase
    var sequenceNumber: nat
    var smoothedBandwidth: real
    var hasSmoothedBandwidth: bool
    var lastRttUpdate: Reading
    var rttRequests: map<nat, int>
    var rttMeasurements: seq<Measurement>
    var minimumRtt: int
    var averageRtt: int
    var averageBandwidth: nat
    var lastNetworkResult: Reading
    var bandwidthMeasureStartTime: Reading
    var lastBandwidthMeasureStart: Reading

    ghost function Probing(): Prober
      reads `phase, `bandwidthMeasureStartTime, `lastBandwidthMeasureStart
    {
      Prober(phase, bandwidthMeasureStartTime, lastBandwidthMeasureStart)
    }

    ghost function Ids(): Allocator
      reads `sequenceNumber, `rttRequests, `lastRttUpdate
    {
      Allocator(sequenceNumber, rttRequests, lastRttUpdate)
    }

    ghost function Statistics(): Stats
      reads `rttMeasurements, `minimumRtt, `averageRtt, `smoothedBandwidth, `hasSmoothedBandwidth,
            `averageBandwidth, `lastNetworkResult
    {
      Stats(rttMeasurements, minimumRtt, averageRtt, smoothedBandwidth, hasSmoothedBandwidth, averageBandwidth, lastNetworkResult)
    }

    ghost function Model(): Net
      reads this
    {
      Net(Probing(), Ids(), Statistics())
    }

    ghost predicate Matches(n: Net)
      reads this
    {
      Probing() == n.prober && Ids() == n.ids && Statistics() == n.stats
    }

    ghost predicate Valid()
      reads this
    {
      ValidIds() && ValidTimes()
    }

    ghost predicate ValidIds()
      reads `sequenceNumber, `rttRequests, `lastRttUpdate
    {
      Bounded(Ids()) && CanAllocate(Ids())
    }

    /** Differences of readings stay within the range of a duration. */
    ghost predicate ValidTimes()
      reads `rttRequests, `rttMeasurements
    {
      && (forall id :: id in rttRequests ==> -0x4000_0000_0000_0000 <= rttRequests[id])
      && (forall m :: m in rttMeasurements ==> 0 < m.roundTrip <= MAX_TICKS)
    }

    constructor ()
      ensures Valid() && Model() == INITIAL
    {
      phase := Idle;
      sequenceNumber := 0;
      smoothedBandwidth, hasSmoothedBandwidth := 0.0, false;
      lastRttUpdate, rttRequests, rttMeasurements := 0, map[], [];
      minimumRtt, averageRtt, averageBandwidth := 0, 0, 0;
      lastNetworkResult, bandwidthMeasureStartTime, lastBandwidthMeasureStart := 0, 0, 0;
    }

    /** Steps the 16-bit counter past zero and used ids, never more often than there are of those. */
    method NextSequenceNumber() returns (sequence: nat, ghost steps: nat)
      requires CanAllocate(Ids())
      modifies `sequenceNumber
      ensures (Ids(), sequence) == Allocate(old(Ids()))
      ensures steps <= |rttRequests| + 1 && sequence == Advance(old(sequenceNumber), steps)
      ensures 0 < sequence < IDS && sequence !in rttRequests
    {
      sequence, steps := sequenceNumber, 0;
      ghost var free := Search(sequenceNumber, rttRequests.Keys, 0);
      while sequence == 0 || sequence in rttRequests
        invariant steps <= free
        invariant sequence == Advance(sequenceNumber, steps)
        decreases free - steps
      {
        assert Taken(Advance(sequenceNumber, steps), rttRequests.Keys);
        sequence := (sequence + 1) % 0x1_0000;
        steps := steps + 1;
      }
      assert !Taken(Advance(sequenceNumber, steps), rttRequests.Keys);
      sequenceNumber := (sequence + 1) % 0x1_0000;
    }

    method StartBandwidthMeasure(now: Reading) returns (sent: seq<Message>)
      modifies `phase, `bandwidthMeasureStartTime
      ensures (Probing(), sent) == StartMeasure(old(Probing()), now)
    {
      if phase != Idle {
        return [];
      }
      phase := PendingStop;
      bandwidthMeasureStartTime := now;
      return [MeasureStart];
    }

    method StopBandwidthMeasure() returns (sent: seq<Message>)
      modifies `phase
      ensures (Probing(), sent) == StopMeasure(old(Probing()))
    {
      if phase != PendingStop {
        return [];
      }
      phase := PendingResults;
      return [MeasureStop];
    }

    method Update(streaming: bool, now: Reading, later: Reading) returns (sent: seq<Message>)
      requires Valid()
      modifies `phase, `bandwidthMeasureStartTime, `lastBandwidthMeasureStart, `sequenceNumber, `rttRequests, `lastRttUpdate
      ensures Valid()
      ensures var (net, messages) := AutoDetect.Update(old(Model()), streaming, now, later);
              Matches(net) && sent == messages
    {
      if !streaming {
        return [];
      }
      var probes := ProbeBandwidth(now, later);
      var requests := RequestRtt(now);
      sent := probes + requests;
    }

    /** The first half of `update`. */
    method ProbeBandwidth(now: Reading, later: Reading) returns (sent: seq<Message>)
      modifies `phase, `bandwidthMeasureStartTime, `lastBandwidthMeasureStart
      ensures (Probing(), sent) == Probe(old(Probing()), now, later)
    {
      sent := [];
      if phase == PendingStop && now - bandwidthMeasureStartTime >= BANDWIDTH_MEASURE_DURATION {
        sent := StopBandwidthMeasure();
      } else if phase == Idle && now - lastBandwidthMeasureStart >= BANDWIDTH_MEASURE_INTERVAL {
        lastBandwidthMeasureStart := now;
        sent := StartBandwidthMeasure(later);
      }
    }

    /** The second half of `update`. */
    method RequestRtt(now: Reading) returns (sent: seq<Message>)
      requires ValidIds() && ValidTimes()
      modifies `sequenceNumber, `rttRequests, `lastRttUpdate
      ensures ValidIds() && ValidTimes()
      ensures (Ids(), sent) == SendRequest(old(Ids()), now)
    {
      if now - lastRttUpdate < RTT_UPDATE_INTERVAL {
        return [];
      }
      SendKeepsBounded(Ids(), now);
      AtMost429Outstanding(SendRequest(Ids(), now).0);
      UnexpiredIsSmaller(rttRequests, now);
      lastRttUpdate := now;
      rttRequests := map id | id in rttRequests && now - rttRequests[id] <= RTT_REQUEST_MAX_AGE :: rttRequests[id];
      var sequence, _ := NextSequenceNumber();
      rttRequests := rttRequests[sequence := now];
      sent := [RttRequest(sequence)];
    }

    method OnRttMeasureResponse(sequence: nat, now: Reading, later: Reading) returns (sent: seq<Message>)
      requires Valid()
      modifies `rttRequests, `rttMeasurements, `minimumRtt, `averageRtt, `sequenceNumber, `lastNetworkResult
      ensures Valid()
      ensures var (net, messages) := RttResponse(old(Model()), sequence, now, later);
              Matches(net) && sent == messages
    {
      if sequence !in rttRequests {
        return [];
      }
      var measured := TakeRequest(sequence, now);
      if !measured {
        return [];
      }
      sent := UpdateAverageRtt(later);
    }

    /** Takes a request off the list, and adds a measurement if its round trip is positive. */
    method TakeRequest(sequence: nat, now: Reading) returns (measured: bool)
      requires Valid() && sequence in rttRequests
      modifies `rttRequests, `rttMeasurements
      ensures Valid()
      ensures Model() == Answer(old(Model()), sequence, now)
      ensures measured <==> now - old(rttRequests)[sequence] > 0
    {
      TakeKeepsBounded(Ids(), sequence);
      var roundTrip := now - rttRequests[sequence];
      rttRequests := rttRequests - {sequence};
      assert Ids() == Take(old(Ids()), sequence);
      measured := roundTrip > 0;
      if measured {
        rttMeasurements := rttMeasurements + [Measurement(now, roundTrip)];
      }
    }

    method OnBandwidthMeasureResults(timeDelta: nat, byteCount: nat, now: Reading) returns (sent: seq<Message>)
      requires Valid()
      modifies `phase, `hasSmoothedBandwidth, `smoothedBandwidth, `averageBandwidth
      modifies `rttMeasurements, `minimumRtt, `averageRtt, `sequenceNumber, `lastNetworkResult
      ensures Valid()
      ensures var (net, messages) := BandwidthResults(old(Model()), timeDelta, byteCount, now);
              Matches(net) && sent == messages
    {
      if phase != PendingResults {
        return [];
      }
      phase := Idle;
      if timeDelta == 0 || byteCount == 0 {
        return [];
      }
      SmoothBandwidth(U32(byteCount * 1000 / timeDelta));
      sent := UpdateAverageRtt(now);
    }

    method SmoothBandwidth(bytesPerSecond: nat)
      modifies `hasSmoothedBandwidth, `smoothedBandwidth, `averageBandwidth
      ensures Statistics() == AddSample(old(Statistics()), bytesPerSecond)
    {
      if !hasSmoothedBandwidth {
        hasSmoothedBandwidth := true;
        smoothedBandwidth := bytesPerSecond as real;
      } else {
        smoothedBandwidth := (1.0 - SMOOTHING_WEIGHT) * smoothedBandwidth + SMOOTHING_WEIGHT * bytesPerSecond as real;
      }
      averageBandwidth := U32(smoothedBandwidth.Floor);
    }

    method UpdateAverageRtt(now: Reading) returns (sent: seq<Message>)
      requires ValidIds() && ValidTimes()
      modifies `rttMeasurements, `minimumRtt, `averageRtt, `sequenceNumber, `lastNetworkResult
      ensures ValidIds() && ValidTimes()
      ensures var (net, messages) := UpdateAverage(old(Model()), now);
              Matches(net) && sent == messages
    {
      PublishRtt(now);
      if rttMeasurements == [] || averageBandwidth == 0 || now - lastNetworkResult < NETWORK_RESULT_INTERVAL {
        return [];
      }
      lastNetworkResult := now;
      var sequence, _ := NextSequenceNumber();
      sent := [NetworkResult(sequence, U32(minimumRtt / MILLISECOND), U32(averageRtt / MILLISECOND), averageBandwidth)];
    }

    /** The first part of `updateAverageRtt`. */
    method PublishRtt(now: Reading)
      requires ValidTimes()
      modifies `rttMeasurements, `minimumRtt, `averageRtt
      ensures ValidTimes()
      ensures Statistics() == Publish(old(Statistics()), now)
    {
      DropOldMeasurements(now);
      if rttMeasurements == [] {
        return;
      }
      var minimum, sum := MeasureAll();
      minimumRtt := minimum;
      averageRtt := sum / |rttMeasurements|;
    }

    method DropOldMeasurements(now: Reading)
      requires ValidTimes()
      modifies `rttMeasurements
      ensures ValidTimes()
      ensures rttMeasurements == Recent(old(rttMeasurements), now, |old(rttMeasurements)|)
    {
      var all, kept := rttMeasurements, [];
      for k := 0 to |all|
        invariant kept == Recent(all, now, k)
      {
        if now - all[k].time <= RTT_AVERAGE_INTERVAL {
          kept := kept + [all[k]];
        }
      }
      assert forall m :: m in kept ==> m in all;
      rttMeasurements := kept;
    }

    /** Minimum and sum of the round trips, starting from the largest duration and zero. */
    method MeasureAll() returns (minimum: int, sum: int)
      requires ValidTimes() && rttMeasurements != []
      ensures minimum == Minimum(rttMeasurements, |rttMeasurements|) && sum == Sum(rttMeasurements, |rttMeasurements|)
    {
      minimum, sum := MAX_TICKS, 0;
      for k := 0 to |rttMeasurements|
        invariant sum == Sum(rttMeasurements, k)
        invariant minimum == if k == 0 then MAX_TICKS else Minimum(rttMeasurements, k)
      {
        assert rttMeasurements[k] in rttMeasurements;
        if rttMeasurements[k].roundTrip < minimum {
          minimum := rttMeasurements[k].roundTrip;
        }
        sum := sum + rttMeasurements[k].roundTrip;
      }
    }

    /** `bandwidth()`, in kilobits per second. */
    method Bandwidth() returns (kilobits: nat)
      ensures kilobits == Kilobits(averageBandwidth)
    {
      kilobits := U32(averageBandwidth * 8) / 1000;
    }
  }
}
