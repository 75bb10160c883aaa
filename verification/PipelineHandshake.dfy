/** What an advertisement of capabilities comes to. */
module PipelineHandshake {
  import opened Wrappers
  import opened Frames
  import opened Pipeline

  /** A set that allows H.264: 10.4 to 10.7 unless AVC is disabled, 8.1 if AVC420 is enabled, no other. */
  predicate AllowsH264(c: CapabilitySet) {
    || (c.version == Version104To107 && !c.avcDisabled)
    || (c.version == Version81 && c.avc420Enabled)
  }

  /** H.264 if it is wanted and some set allows it, raster otherwise. */
  function Best(sets: seq<CapabilitySet>, h264Disabled: bool): EncodingMode {
    if !h264Disabled && exists i :: 0 <= i < |sets| && AllowsH264(sets[i]) then H264 else Progressive
  }

  lemma {:induction false} NegotiatesBest(sets: seq<CapabilitySet>, h264Disabled: bool)
    ensures Negotiate(sets, h264Disabled) == if sets == [] then None else Some(Best(sets, h264Disabled))
  {
    assert forall i :: 0 <= i < |sets| ==> (SupportsH264(sets[i]) <==> AllowsH264(sets[i]));
  }

  /**
   An advertisement that is run to its end gives the best mode the sets allow and is
   confirmed; a mode that changes starts with an empty queue and an encoder of its own, and
   one that stays keeps both. Without any set nothing is chosen and nothing confirmed anew.
   */
  lemma {:induction false} AdvertisedModeExactly(s: Stream, sets: seq<CapabilitySet>, h264Disabled: bool, deleted: bool)
    requires s.link.handshake.Settled? && s.intake.main.Idle?
    ensures var t := Run(s, [CapsAdvertise(sets, h264Disabled, deleted), ChooseMode, ConfirmCaps(true)]);
            && t.link.handshake.Settled?
            && t.link.mode == (if sets == [] then s.link.mode else Some(Best(sets, h264Disabled)))
            && (t.link.capsConfirmed <==> sets != [])
            && (t.link.mode == s.link.mode ==> t.intake == s.intake)
            && (t.link.mode != s.link.mode ==>
                  && t.intake.queue == []
                  && t.intake.encoder == if t.link.mode == Some(H264) then Encoder(false) else NoEncoder)
  {
    var advertise := CapsAdvertise(sets, h264Disabled, deleted);
    var events := [advertise, ChooseMode, ConfirmCaps(true)];
    assert events[1..] == [ChooseMode, ConfirmCaps(true)] && events[1..][1..] == [ConfirmCaps(true)];
    var s1 := Step(s, advertise);
    AdvertiseAsks(s, sets, h264Disabled, deleted);
    var s2 := Step(s1, ChooseMode);
    assert Run(s, events) == Run(s1, events[1..]) == Run(s2, [ConfirmCaps(true)]);
    assert Run(s2, [ConfirmCaps(true)]) == Run(Step(s2, ConfirmCaps(true)), []);
  }

  lemma {:induction false} AdvertiseAsks(s: Stream, sets: seq<CapabilitySet>, h264Disabled: bool, deleted: bool)
    requires s.link.handshake.Settled?
    ensures var t := Step(s, CapsAdvertise(sets, h264Disabled, deleted));
            && t.link.mode == s.link.mode && !t.link.capsConfirmed && t.intake == s.intake
            && t.link.handshake == if sets == [] then Settled else Asked(Best(sets, h264Disabled))
  {
    NegotiatesBest(sets, h264Disabled);
  }

  /** A confirmation that could not be sent leaves the capabilities unconfirmed. */
  lemma {:induction false} UnsentConfirmationLeavesUnconfirmed(s: Stream)
    requires s.link.handshake.Chosen? && !s.link.capsConfirmed
    ensures forall sent :: Step(s, ConfirmCaps(sent)).link.capsConfirmed <==> sent
  {
  }
}
