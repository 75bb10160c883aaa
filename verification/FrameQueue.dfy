/**
 The queue of encoded frames between the encoder and the submission thread
 (`queueFrame` and the dequeue in src/VideoStream.cpp), for every interleaving of
 arrivals and removals. A `Line` remembers what was accepted and what was taken.
 */
module FrameQueue {
  import opened Frames

  datatype Feed = Arrive(frame: Frame) | Take

  /** `kept` are the positions in `accepted` of the frames taken, then of those still queued. */
  datatype Line = Line(queue: seq<Frame>, accepted: seq<Frame>, taken: seq<Frame>, kept: seq<nat>)

  function Advance(mode: EncodingMode, l: Line, e: Feed): Line {
    match e
    case Arrive(f) =>
      l.(queue := Enqueue(mode, l.queue, f), accepted := l.accepted + [f],
         kept := (if (mode == Progressive || f.isKeyFrame) && |l.taken| <= |l.kept| then l.kept[..|l.taken|] else l.kept)
                 + [|l.accepted|])
    case Take =>
      if l.queue == [] then l else l.(queue := l.queue[1..], taken := l.taken + [l.queue[0]])
  }

  function Run(mode: EncodingMode, l: Line, events: seq<Feed>): Line
    decreases |events|
  {
    if events == [] then l else Run(mode, Advance(mode, l, events[0]), events[1..])
  }

  /** The frames taken and queued are accepted frames, in order, the newest of them last. */
  predicate InOrder(l: Line) {
    && |l.kept| == |l.taken| + |l.queue|
    && (forall k :: 0 <= k < |l.kept| ==> l.kept[k] < |l.accepted| && l.accepted[l.kept[k]] == (l.taken + l.queue)[k])
    && (forall j, k :: 0 <= j < k < |l.kept| ==> l.kept[j] < l.kept[k])
    && (l.accepted != [] ==> l.kept != [] && l.kept[|l.kept| - 1] == |l.accepted| - 1)
  }

  /** A frame that needs its predecessor comes directly after it. */
  predicate Linked(l: Line)
    requires InOrder(l)
  {
    forall k {:trigger l.kept[k]} :: 0 <= k < |l.kept| ==>
      l.accepted[l.kept[k]].isKeyFrame || l.kept[k] == if k == 0 then 0 else l.kept[k - 1] + 1
  }

  predicate Chained(l: Line) {
    InOrder(l) && Linked(l)
  }

  /** A chain cut after n frames and continued with a new frame. */
  function Cut(l: Line, f: Frame, n: nat, queue: seq<Frame>): Line
    requires n <= |l.kept|
  {
    Line(queue, l.accepted + [f], l.taken, l.kept[..n] + [|l.accepted|])
  }

  lemma {:induction false} CutKeepsOrder(l: Line, f: Frame, n: nat, queue: seq<Frame>)
    requires InOrder(l) && |l.taken| <= n <= |l.kept|
    requires l.taken + queue == (l.taken + l.queue)[..n] + [f]
    ensures InOrder(Cut(l, f, n, queue))
    ensures forall k :: 0 <= k < n ==> Cut(l, f, n, queue).kept[k] == l.kept[k]
  {
    var l' := Cut(l, f, n, queue);
    assert l'.kept[n] == |l.accepted|;
    assert (l.taken + queue)[n] == f;
    forall k | 0 <= k < n
      ensures l'.accepted[l'.kept[k]] == (l'.taken + l'.queue)[k]
    {
      assert (l'.taken + l'.queue)[k] == (l.taken + l.queue)[k];
    }
  }

  /** The new frame is a key frame or directly next. */
  lemma {:induction false} CutAndExtend(l: Line, f: Frame, n: nat, queue: seq<Frame>)
    requires Chained(l) && |l.taken| <= n <= |l.kept|
    requires f.isKeyFrame || n == |l.kept|
    requires l.taken + queue == (l.taken + l.queue)[..n] + [f]
    ensures Chained(Cut(l, f, n, queue))
  {
    var l' := Cut(l, f, n, queue);
    CutKeepsOrder(l, f, n, queue);
    forall k {:trigger l'.kept[k]} | 0 <= k < |l'.kept|
      ensures l'.accepted[l'.kept[k]].isKeyFrame || l'.kept[k] == if k == 0 then 0 else l'.kept[k - 1] + 1
    {
      if k < n {
        assert l'.kept[k] == l.kept[k];
      }
    }
  }

  lemma {:induction false} ArrivalKeepsChain(l: Line, f: Frame)
    requires Chained(l)
    ensures Chained(Advance(H264, l, Arrive(f)))
  {
    var all := l.taken + l.queue;
    if f.isKeyFrame {
      assert l.taken + [f] == all[..|l.taken|] + [f];
      assert [] + [f] == [f];
      CutAndExtend(l, f, |l.taken|, [f]);
    } else {
      assert l.taken + (l.queue + [f]) == all[..|l.kept|] + [f];
      assert l.kept[..|l.kept|] == l.kept;
      CutAndExtend(l, f, |l.kept|, l.queue + [f]);
    }
  }

  lemma {:induction false} TakeKeepsChain(l: Line)
    requires Chained(l)
    ensures Chained(Advance(H264, l, Take))
  {
    if l.queue != [] {
      var l' := Advance(H264, l, Take);
      assert l'.taken + l'.queue == l.taken + l.queue;
    }
  }

  /** Over every run the frames handed to the encoder's client never break a reference chain. */
  lemma {:induction false} EveryRunStaysChained(l: Line, events: seq<Feed>)
    requires Chained(l)
    ensures Chained(Run(H264, l, events))
    decreases |events|
  {
    if events != [] {
      match events[0] {
        case Arrive(f) => ArrivalKeepsChain(l, f);
        case Take => TakeKeepsChain(l);
      }
      EveryRunStaysChained(Advance(H264, l, events[0]), events[1..]);
    }
  }

  /** A frame that was dropped lies in a run of dropped frames ended by a key frame. */
  lemma {:induction false} DroppedRunsEndAtKeyFrame(l: Line, d: nat) returns (k: nat)
    requires Chained(l) && d < |l.accepted| && d !in l.kept
    ensures k < |l.kept| && l.kept[k] > d && l.accepted[l.kept[k]].isKeyFrame
    ensures forall j :: 0 <= j < k ==> l.kept[j] < d
  {
    k := 0;
    while l.kept[k] < d
      invariant k < |l.kept|
      invariant forall j :: 0 <= j < k ==> l.kept[j] < d
      decreases |l.kept| - k
    {
      k := k + 1;
    }
    assert l.kept[k] in l.kept;
  }

  /** A decoder that has seen the frame at position `last` can use a frame that is key or next. */
  function Decode(l: Line, k: nat): bool
    requires InOrder(l) && k <= |l.kept|
  {
    k == 0 ||
    (Decode(l, k - 1) &&
     (l.accepted[l.kept[k - 1]].isKeyFrame || (k > 1 && l.kept[k - 1] == l.kept[k - 2] + 1)))
  }

  /** If the encoder starts with a key frame, a decoder fed with what is taken never loses its reference. */
  lemma {:induction false} DecoderNeverLosesReference(l: Line, k: nat)
    requires Chained(l) && k <= |l.kept|
    requires l.accepted != [] ==> l.accepted[0].isKeyFrame
    ensures Decode(l, k)
  {
    if k > 0 {
      DecoderNeverLosesReference(l, k - 1);
      assert l.kept[k - 1] < |l.accepted|;
    }
  }

  predicate Unused(l: Line) {
    l.queue == [] && l.accepted == [] && l.taken == [] && l.kept == []
  }

  /** Every frame taken or queued can be decoded in its turn, if the first one accepted was a key frame. */
  predicate NeverStuck(l: Line) {
    InOrder(l) && (l.accepted == [] || l.accepted[0].isKeyFrame ==> Decode(l, |l.kept|))
  }

  lemma {:induction false} EveryRunFeedsDecoder(l: Line, events: seq<Feed>)
    requires Unused(l)
    ensures NeverStuck(Run(H264, l, events))
  {
    EveryRunStaysChained(l, events);
    ChainedIsNeverStuck(Run(H264, l, events));
  }

  lemma {:induction false} ChainedIsNeverStuck(l: Line)
    requires Chained(l)
    ensures NeverStuck(l)
  {
    if l.accepted == [] || l.accepted[0].isKeyFrame {
      DecoderNeverLosesReference(l, |l.kept|);
    }
  }

  /** The raster path never holds more than one frame. */
  lemma {:induction false} RasterQueueHoldsAtMostOne(l: Line, events: seq<Feed>)
    requires |l.queue| <= 1
    ensures |Run(Progressive, l, events).queue| <= 1
    decreases |events|
  {
    if events != [] {
      RasterQueueHoldsAtMostOne(Advance(Progressive, l, events[0]), events[1..]);
    }
  }
}
