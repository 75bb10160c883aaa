/**
 The text carried by the clipboard channel (section 2.2.5.2 of [MS-RDPECLIP]):
 UTF-16 units in little-endian bytes with a terminating zero, as src/Clipboard.cpp
 builds and reads them.
 */
module ClipboardText {
  import opened Wrappers

  type Unit = x: int | 0 <= x < 0x1_0000
  type Byte = x: int | 0 <= x < 0x100

  const BYTE_ORDER_MARK := 0xFEFF
  const BYTE_ORDER_SWAPPED := 0xFFFE

  /** The length field of a response, and the bytes behind its pointer. */
  datatype Response = Response(dataLen: nat, data: seq<Byte>)

  function Low(u: Unit): Byte {
    u % 0x100
  }

  function High(u: Unit): Byte {
    u / 0x100
  }

  /** The unit stored at a position, counted in units. */
  function UnitAt(data: seq<Byte>, i: nat): Unit
    requires 2 * i + 1 < |data|
  {
    var low: int, high: int := data[2 * i], data[2 * i + 1];
    low + high * 0x100
  }

  /** The units of the text and the terminating zero; the length field has 32 bits. */
  function Encode(text: seq<Unit>): (r: Response)
    ensures |r.data| == 2 * (|text| + 1) && r.dataLen == U32(|r.data|)
  {
    var bytes := seq(2 * (|text| + 1), k requires 0 <= k < 2 * (|text| + 1) =>
                   var u: Unit := if k / 2 < |text| then text[k / 2] else 0;
                   if k % 2 == 0 then Low(u) else High(u));
    Response(U32(|bytes|), bytes)
  }

  /** The units before the last of a response, which is taken for the terminator. */
  function Units(r: Response): (text: seq<Unit>)
    requires 2 <= r.dataLen <= |r.data|
    ensures |text| == r.dataLen / 2 - 1
  {
    seq(r.dataLen / 2 - 1, i requires 0 <= i < r.dataLen / 2 - 1 => UnitAt(r.data, i))
  }

  function Swapped(text: seq<Unit>): seq<Unit> {
    seq(|text|, i requires 0 <= i < |text| => UnitAt([High(text[i]), Low(text[i])], 0))
  }

  /** `QString::fromUtf16`, which takes a first unit that is a byte order mark as one. */
  function FromUtf16(units: seq<Unit>): seq<Unit> {
    if units != [] && units[0] == BYTE_ORDER_MARK then units[1..]
    else if units != [] && units[0] == BYTE_ORDER_SWAPPED then Swapped(units[1..])
    else units
  }

  /** What a response is read as; nothing if it is too short for a terminator. */
  function Decode(r: Response): Option<seq<Unit>>
    requires r.dataLen <= |r.data|
  {
    if r.dataLen < 2 then None else Some(FromUtf16(Units(r)))
  }

  predicate StartsWithMark(text: seq<Unit>) {
    text != [] && (text[0] == BYTE_ORDER_MARK || text[0] == BYTE_ORDER_SWAPPED)
  }

  lemma {:induction false} EncodeStoresUnits(text: seq<Unit>, i: nat)
    requires i < |text|
    ensures UnitAt(Encode(text).data, i) == text[i]
    ensures Encode(text).data[2 * i] == text[i] % 0x100 && Encode(text).data[2 * i + 1] == text[i] / 0x100
  {
    var data := Encode(text).data;
    assert (2 * i) / 2 == i && (2 * i + 1) / 2 == i;
    assert data[2 * i] == Low(text[i]) && data[2 * i + 1] == High(text[i]);
  }

  /** The last two bytes are the terminating zero the format asks for. */
  lemma {:induction false} EncodeEndsInZero(text: seq<Unit>)
    ensures UnitAt(Encode(text).data, |text|) == 0
  {
  }

  /** The length field is right exactly for texts of less than 2^31 - 1 units. */
  predicate Fits(text: seq<Unit>) {
    |text| < 0x7FFF_FFFF
  }

  /** The units of every text come back, if its length can be written down. */
  lemma {:induction false} UnitsRoundTrip(text: seq<Unit>)
    requires Fits(text)
    ensures Encode(text).dataLen >= 2 && Units(Encode(text)) == text
  {
    var r := Encode(text);
    assert r.dataLen == |r.data|;
    forall i | 0 <= i < |text|
      ensures Units(r)[i] == text[i]
    {
      EncodeStoresUnits(text, i);
    }
  }

  lemma {:induction false} OverlongTextIsCut(text: seq<Unit>)
    requires !Fits(text)
    ensures Encode(text).dataLen < 2 * (|text| + 1)
  {
  }

  /** A copied text comes back exactly if its length fits and it does not start with a mark. */
  lemma {:induction false} TextRoundTrips(text: seq<Unit>)
    ensures Decode(Encode(text)) == Some(text) <==> Fits(text) && !StartsWithMark(text)
  {
    var r := Encode(text);
    if !Fits(text) {
      OverlongTextIsCut(text);
      if r.dataLen >= 2 {
        FromUtf16NeverLengthens(Units(r));
      }
    } else {
      UnitsRoundTrip(text);
    }
  }

  lemma {:induction false} FromUtf16NeverLengthens(units: seq<Unit>)
    ensures |FromUtf16(units)| <= |units|
  {
  }
}

/**
 The announcement of copies over the clipboard channel (src/Clipboard.cpp): the main
 thread, the connection thread and the posted calls, one step for each callback.
 */
module ClipboardSharing {
  import opened Wrappers
  import opened ClipboardText

  const CF_TEXT := 1
  const CF_OEMTEXT := 7
  const CF_UNICODETEXT := 13

  /** `posted` counts the calls of sendServerData waiting in the event loop. */
  datatype Clip = Clip(context: bool, enabled: bool, clientReady: bool, serverData: Option<seq<Unit>>,
                       clientData: Option<seq<Unit>>, posted: nat)

  const START := Clip(false, false, false, None, None, 0)

  datatype Message =
    | ServerFormatList
    | DataRequest
    | FormatListResponse
    | DataFailed
    | Data(response: Response)

  datatype Event =
    // `created` and `started` are what the channel library answers, `stopped` likewise
    | Initialize(created: bool, started: bool)
    | Close(stopped: bool)
    | SetServerData(data: Option<seq<Unit>>)
    | RunPosted
    | ClientCapabilities
    | ClientFormatList(formats: seq<nat>)
    | ClientDataRequest(format: nat)
    | ClientDataResponse(ok: bool, response: Option<Response>)
    | TakeClientData

  function Posted(c: Clip): Clip {
    c.(posted := c.posted + 1)
  }

  function ClientReady(c: Clip): Clip {
    if c.clientReady then c else Posted(c.(clientReady := true))
  }

  predicate MayAnnounce(c: Clip) {
    c.serverData.Some? && c.enabled && c.clientReady
  }

  function SendServerData(c: Clip): (Clip, seq<Message>) {
    (c, if MayAnnounce(c) then [ServerFormatList] else [])
  }

  predicate IsText(format: nat) {
    format == CF_TEXT || format == CF_UNICODETEXT || format == CF_OEMTEXT
  }

  /** How many of the first `k` formats are text. */
  function TextFormats(formats: seq<nat>, k: nat): nat
    requires k <= |formats|
  {
    if k == 0 then 0 else TextFormats(formats, k - 1) + if IsText(formats[k - 1]) then 1 else 0
  }

  function Requests(n: nat): seq<Message> {
    seq(n, _ => DataRequest)
  }

  function Answer(c: Clip, format: nat): Message {
    if c.serverData.None? || format != CF_UNICODETEXT then DataFailed else Data(Encode(c.serverData.value))
  }

  /** The channel delivers at least as many bytes as it announces. */
  predicate Delivered(e: Event) {
    e.ClientDataResponse? && e.response.Some? ==> e.response.value.dataLen <= |e.response.value.data|
  }

  function Step(c: Clip, e: Event): (Clip, seq<Message>)
    requires Delivered(e)
  {
    match e
    case Initialize(created, started) =>
      if c.context || !created then (c, [])
      else if !started then (c.(context := true), [])
      else (Posted(c.(context := true, enabled := true)), [])
    case Close(stopped) => (if c.context && stopped then c.(enabled := false) else c, [])
    case SetServerData(data) => (Posted(c.(serverData := data)), [])
    case RunPosted => if c.posted == 0 then (c, []) else SendServerData(c.(posted := c.posted - 1))
    case ClientCapabilities => (ClientReady(c), [])
    case ClientFormatList(formats) =>
      (ClientReady(c), Requests(TextFormats(formats, |formats|)) + [FormatListResponse])
    case ClientDataRequest(format) => (c, [Answer(c, format)])
    case ClientDataResponse(ok, response) =>
      (if !ok then c else c.(clientData := if response.None? then None else Decode(response.value)), [])
    case TakeClientData => (c.(clientData := None), [])
  }

  /** What `initialize` returns. */
  predicate Initialized(c: Clip, created: bool, started: bool) {
    c.context || (created && started)
  }

  predicate AllDelivered(events: seq<Event>) {
    forall i :: 0 <= i < |events| ==> Delivered(events[i])
  }

  /** The state after the first `k` events. */
  function After(c: Clip, events: seq<Event>, k: nat): Clip
    requires k <= |events| && AllDelivered(events)
  {
    if k == 0 then c else Step(After(c, events, k - 1), events[k - 1]).0
  }

  /** What the event at `k` makes the server send. */
  function Sent(c: Clip, events: seq<Event>, k: nat): seq<Message>
    requires k < |events| && AllDelivered(events)
  {
    Step(After(c, events, k), events[k]).1
  }

  // ------------------------------------------------- what the events add up to

  predicate Creates(e: Event) {
    e.Initialize? && e.created
  }

  predicate Starts(e: Event) {
    e.Initialize? && e.created && e.started
  }

  predicate Handshakes(e: Event) {
    e.ClientCapabilities? || e.ClientFormatList?
  }

  /** The channel was started when its context was made, and has not been closed since. */
  predicate IsEnabledBy(events: seq<Event>, k: nat, i: nat)
    requires k <= |events|
  {
    && i < k && Starts(events[i])
    && (forall j :: 0 <= j < i ==> !Creates(events[j]))
    && (forall j :: i < j < k ==> !(events[j].Close? && events[j].stopped))
  }

  predicate Enabled(events: seq<Event>, k: nat)
    requires k <= |events|
  {
    exists i :: 0 <= i < k && IsEnabledBy(events, k, i)
  }

  predicate Created(events: seq<Event>, k: nat)
    requires k <= |events|
  {
    exists i :: 0 <= i < k && Creates(events[i])
  }

  predicate Ready(events: seq<Event>, k: nat)
    requires k <= |events|
  {
    exists i :: 0 <= i < k && Handshakes(events[i])
  }

  /** The copy made at `j` is the last one before `k`. */
  predicate IsLastCopy(events: seq<Event>, k: nat, j: nat)
    requires k <= |events|
  {
    j < k && events[j].SetServerData? && forall i :: j < i < k ==> !events[i].SetServerData?
  }

  lemma {:induction false} EnabledAfter(events: seq<Event>, k: nat)
    requires k < |events|
    ensures Enabled(events, k + 1) <==>
              || (Starts(events[k]) && !Created(events, k))
              || (Enabled(events, k) && !(events[k].Close? && events[k].stopped))
    ensures Created(events, k + 1) <==> Created(events, k) || Creates(events[k])
  {
    if Enabled(events, k) && !(events[k].Close? && events[k].stopped) {
      var i :| 0 <= i < k && IsEnabledBy(events, k, i);
      assert IsEnabledBy(events, k + 1, i);
    }
    if Starts(events[k]) && !Created(events, k) {
      assert IsEnabledBy(events, k + 1, k);
    }
    if Enabled(events, k + 1) {
      var i :| 0 <= i < k + 1 && IsEnabledBy(events, k + 1, i);
      assert i < k ==> IsEnabledBy(events, k, i);
    }
  }

  /** The flags say exactly what has happened, in every run. */
  lemma {:induction false} FlagsExactly(events: seq<Event>, k: nat)
    requires k <= |events| && AllDelivered(events)
    ensures var c := After(START, events, k);
            && (c.context <==> Created(events, k))
            && (c.enabled <==> Enabled(events, k))
            && (c.clientReady <==> Ready(events, k))
  {
    if k > 0 {
      FlagsExactly(events, k - 1);
      EnabledAfter(events, k - 1);
      ReadyAfter(events, k - 1);
      StepSetsFlags(After(START, events, k - 1), events[k - 1]);
      if Enabled(events, k - 1) {
        EnabledIsCreated(events, k - 1);
      }
    }
  }

  lemma {:induction false} EnabledIsCreated(events: seq<Event>, k: nat)
    requires k <= |events| && Enabled(events, k)
    ensures Created(events, k)
  {
    var i :| 0 <= i < k && IsEnabledBy(events, k, i);
    assert Creates(events[i]);
  }

  lemma {:induction false} ReadyAfter(events: seq<Event>, k: nat)
    requires k < |events|
    ensures Ready(events, k + 1) <==> Ready(events, k) || Handshakes(events[k])
  {
  }

  lemma {:induction false} StepSetsFlags(c: Clip, e: Event)
    requires Delivered(e)
    ensures var next := Step(c, e).0;
            && (next.context <==> c.context || Creates(e))
            && (next.enabled <==> (Starts(e) && !c.context) || (c.enabled && !(e.Close? && e.stopped && c.context)))
            && (next.clientReady <==> c.clientReady || Handshakes(e))
            && next.serverData == (if e.SetServerData? then e.data else c.serverData)
  {
  }

  /** The data of the last copy; clearing the clipboard copies nothing. */
  function LastCopied(events: seq<Event>, k: nat): Option<seq<Unit>>
    requires k <= |events|
  {
    if k == 0 then None
    else if events[k - 1].SetServerData? then events[k - 1].data
    else LastCopied(events, k - 1)
  }

  lemma {:induction false} LastCopyIsLastCopied(events: seq<Event>, k: nat, j: nat)
    requires k <= |events| && IsLastCopy(events, k, j)
    ensures LastCopied(events, k) == events[j].data
  {
    if j < k - 1 {
      LastCopyIsLastCopied(events, k - 1, j);
    }
  }

  /** The data held are those of the last copy, in every run. */
  lemma {:induction false} ServerDataIsLastCopy(events: seq<Event>, k: nat)
    requires k <= |events| && AllDelivered(events)
    ensures After(START, events, k).serverData == LastCopied(events, k)
  {
    if k > 0 {
      ServerDataIsLastCopy(events, k - 1);
      StepSetsFlags(After(START, events, k - 1), events[k - 1]);
    }
  }

  // ------------------------------------------------- no copy is lost

  /** A format list was sent between two events. */
  predicate ListSent(events: seq<Event>, j: nat, k: nat)
    requires k <= |events| && AllDelivered(events)
  {
    exists m :: j < m < k && ServerFormatList in Sent(START, events, m)
  }

  /**
   Over every run, whatever the order: since the last copy the client could be told of, a
   format list has been sent, or a call that sends one is waiting.
   */
  lemma {:induction false} EveryRunKeepsPromise(events: seq<Event>, k: nat, j: nat)
    requires k <= |events| && AllDelivered(events) && IsLastCopy(events, k, j)
    ensures MayAnnounce(After(START, events, k)) ==> ListSent(events, j, k) || After(START, events, k).posted > 0
  {
    if j < k - 1 {
      EveryRunKeepsPromise(events, k - 1, j);
      PromiseSurvives(After(START, events, k - 1), events[k - 1]);
      if ServerFormatList in Sent(START, events, k - 1) {
        assert ListSent(events, j, k);
      } else if ListSent(events, j, k - 1) {
        var m :| j < m < k - 1 && ServerFormatList in Sent(START, events, m);
        assert ListSent(events, j, k);
      }
    }
  }

  /** A step that makes announcing possible posts a call; a posted call is run only by announcing what may be. */
  lemma {:induction false} PromiseSurvives(c: Clip, e: Event)
    requires Delivered(e)
    ensures var (next, sent) := Step(c, e);
            MayAnnounce(next) ==>
              || next.posted > 0 || ServerFormatList in sent
              || (MayAnnounce(c) && c.posted == 0)
  {
  }

  /** Posted calls run one by one, and change nothing else. */
  lemma {:induction false} PostedCallsRun(c: Clip, events: seq<Event>, k: nat)
    requires k <= |events| && k <= c.posted && AllDelivered(events)
    requires forall i :: 0 <= i < |events| ==> events[i].RunPosted?
    ensures After(c, events, k) == c.(posted := c.posted - k)
  {
    if k > 0 {
      PostedCallsRun(c, events, k - 1);
    }
  }

  /**
   Whatever the order of copies, start and client events: once the waiting calls have run,
   a format list has been sent since the last copy, and a request yields the text copied then.
   */
  lemma {:induction false} LatestCopyReachesClient(events: seq<Event>, k: nat, j: nat, text: seq<Unit>)
    requires k <= |events| && AllDelivered(events) && IsLastCopy(events, k, j) && events[j].data == Some(text)
    requires Enabled(events, k) && Ready(events, k) && After(START, events, k).posted == 0
    ensures ListSent(events, j, k)
    ensures var answer := Step(After(START, events, k), ClientDataRequest(13)).1;
            && |answer| == 1 && answer[0].Data?
            && (Decode(answer[0].response) == Some(text) <==> Fits(text) && !StartsWithMark(text))
  {
    FlagsExactly(events, k);
    ServerDataIsLastCopy(events, k);
    LastCopyIsLastCopied(events, k, j);
    EveryRunKeepsPromise(events, k, j);
    AnswerYieldsText(After(START, events, k), text);
  }

  lemma {:induction false} AnswerYieldsText(c: Clip, text: seq<Unit>)
    requires c.serverData == Some(text)
    ensures var answer := Step(c, ClientDataRequest(13)).1;
            && |answer| == 1 && answer[0].Data?
            && (Decode(answer[0].response) == Some(text) <==> Fits(text) && !StartsWithMark(text))
  {
    TextRoundTrips(text);
  }

  /** Requests for another format, or without a copied text, are refused, in every run. */
  lemma {:induction false} OtherRequestsAreRefused(events: seq<Event>, k: nat, format: nat)
    requires k <= |events| && AllDelivered(events)
    requires format != 13 || LastCopied(events, k) == None
    ensures Step(After(START, events, k), ClientDataRequest(format)).1 == [DataFailed]
  {
    ServerDataIsLastCopy(events, k);
  }

  // ------------------------------------------------- no list is sent early

  /** A format list is sent only after a copy, a start of the channel and a sign of the client, in any order. */
  lemma {:induction false} NoListBeforeHandshake(events: seq<Event>, k: nat)
    requires k < |events| && AllDelivered(events) && ServerFormatList in Sent(START, events, k)
    ensures events[k].RunPosted? && Enabled(events, k) && Ready(events, k)
    ensures LastCopied(events, k).Some?
  {
    FlagsExactly(events, k);
    ServerDataIsLastCopy(events, k);
  }

  // ------------------------------------------------- the client's data

  /** A text the client sends arrives, as it was encoded, exactly if it is one that round-trips. */
  lemma {:induction false} ClientTextArrives(c: Clip, text: seq<Unit>)
    ensures var e := ClientDataResponse(true, Some(Encode(text)));
            Delivered(e) && (Step(c, e).0.clientData == Some(text) <==> Fits(text) && !StartsWithMark(text))
  {
    TextRoundTrips(text);
  }

  /** A refusal leaves the client's data alone; an answer too short for a terminator clears them, as taking them does. */
  lemma {:induction false} OtherAnswers(c: Clip, ok: bool, response: Option<Response>)
    requires Delivered(ClientDataResponse(ok, response)) && (!ok || response.None? || response.value.dataLen < 2)
    ensures Step(c, ClientDataResponse(ok, response)).0 == if ok then c.(clientData := None) else c
    ensures Step(c, TakeClientData).0 == c.(clientData := None)
  {
  }

  function TextPositions(formats: seq<nat>): set<nat> {
    set i: nat | i < |formats| && (formats[i] == 1 || formats[i] == 7 || formats[i] == 13)
  }

  /** A format list is answered by one request for each text format in it, and then one acknowledgement. */
  lemma {:induction false} ListIsAnswered(c: Clip, formats: seq<nat>)
    ensures var sent := Step(c, ClientFormatList(formats)).1;
            && |sent| == |TextPositions(formats)| + 1 && sent[|sent| - 1] == FormatListResponse
            && forall i :: 0 <= i < |sent| - 1 ==> sent[i] == DataRequest
  {
    CountIsPositions(formats, |formats|);
    assert (set i: nat | i < |formats| && i < |formats| && IsText(formats[i])) == TextPositions(formats);
  }

  lemma {:induction false} CountIsPositions(formats: seq<nat>, k: nat)
    requires k <= |formats|
    ensures TextFormats(formats, k) == |set i: nat | i < |formats| && i < k && IsText(formats[i])|
  {
    if k > 0 {
      CountIsPositions(formats, k - 1);
      var before, now := set i: nat | i < |formats| && i < k - 1 && IsText(formats[i]), set i: nat | i < |formats| && i < k && IsText(formats[i]);
      assert now == before + if IsText(formats[k - 1]) then {k - 1} else {};
    }
  }

  // ------------------------------------------------- a start that failed

  /** `initialize` reports success on a disabled clipboard exactly if a context is there already. */
  lemma {:induction false} InitializeMayLie(c: Clip, created: bool, started: bool)
    requires c.enabled ==> c.context
    ensures Initialized(c, created, started) && !Step(c, Initialize(created, started)).0.enabled
            <==> c.context && !c.enabled
  {
  }

  /** After a failed start or a close the clipboard never announces anything again. */
  lemma {:induction false} FailedStartIsFinal(c: Clip, events: seq<Event>, k: nat)
    requires c.context && !c.enabled && k < |events| && AllDelivered(events)
    ensures !After(c, events, k).enabled && After(c, events, k).context
    ensures ServerFormatList !in Sent(c, events, k)
  {
    if k > 0 {
      FailedStartIsFinal(c, events, k - 1);
    }
  }
}

/** The `Clipboard` object: fields updated in place, messages returned to the caller. */
module ClipboardObject {
  import opened Wrappers
  import opened ClipboardText
  import S = ClipboardSharing

  class Clipboard {
    var clipContext: bool
    var enabled: bool
    var clientReady: bool
    var serverData: Option<seq<Unit>>
    var clientData: Option<seq<Unit>>
    /** Calls of sendServerData waiting in the event loop. */
    var posted: nat

    ghost function Model(): S.Clip
      reads this
    {
      S.Clip(clipContext, enabled, clientReady, serverData, clientData, posted)
    }

    constructor ()
      ensures Model() == S.START
    {
      clipContext, enabled, clientReady := false, false, false;
      serverData, clientData, posted := None, None, 0;
    }

    method Initialize(created: bool, started: bool) returns (ok: bool)
      modifies `clipContext, `enabled, `posted
      ensures Model() == S.Step(old(Model()), S.Initialize(created, started)).0
      ensures ok == S.Initialized(old(Model()), created, started)
    {
      if clipContext {
        return true;
      }
      clipContext := created;
      if !clipContext || !started {
        return false;
      }
      enabled := true;
      posted := posted + 1;
      return true;
    }

    method Close(stopped: bool)
      modifies `enabled
      ensures Model() == S.Step(old(Model()), S.Close(stopped)).0
    {
      if !clipContext || !stopped {
        return;
      }
      enabled := false;
    }

    method SetServerData(data: Option<seq<Unit>>)
      modifies `serverData, `posted
      ensures Model() == S.Step(old(Model()), S.SetServerData(data)).0
    {
      serverData := data;
      posted := posted + 1;
    }

    method MarkClientReady()
      modifies `clientReady, `posted
      ensures Model() == S.ClientReady(old(Model()))
    {
      if clientReady {
        return;
      }
      clientReady := true;
      posted := posted + 1;
    }

    method RunPosted() returns (sent: seq<S.Message>)
      modifies `posted
      ensures (Model(), sent) == S.Step(old(Model()), S.RunPosted)
    {
      sent := [];
      if posted > 0 {
        posted := posted - 1;
        sent := SendServerData();
      }
    }

    method SendServerData() returns (sent: seq<S.Message>)
      ensures (Model(), sent) == S.SendServerData(Model())
    {
      if serverData.None? || !enabled {
        return [];
      }
      if !clientReady {
        return [];
      }
      sent := [S.ServerFormatList];
    }

    method OnClientFormatList(formats: seq<nat>) returns (sent: seq<S.Message>)
      modifies `clientReady, `posted
      ensures (Model(), sent) == S.Step(old(Model()), S.ClientFormatList(formats))
    {
      MarkClientReady();
      sent := [];
      for i := 0 to |formats|
        invariant sent == S.Requests(S.TextFormats(formats, i))
      {
        if S.IsText(formats[i]) {
          sent := sent + [S.DataRequest];
        }
      }
      sent := sent + [S.FormatListResponse];
    }

    method OnClientFormatDataRequest(format: nat) returns (sent: seq<S.Message>)
      ensures (Model(), sent) == S.Step(Model(), S.ClientDataRequest(format))
    {
      if serverData.None? || format != S.CF_UNICODETEXT {
        return [S.DataFailed];
      }
      sent := [S.Data(Encode(serverData.value))];
    }

    method OnClientFormatDataResponse(ok: bool, response: Option<Response>)
      requires S.Delivered(S.ClientDataResponse(ok, response))
      modifies `clientData
      ensures Model() == S.Step(old(Model()), S.ClientDataResponse(ok, response)).0
    {
      if !ok {
        return;
      }
      if response.None? || response.value.dataLen < 2 {
        clientData := None;
        return;
      }
      clientData := Some(FromUtf16(Units(response.value)));
    }

    method GetClipboard() returns (data: Option<seq<Unit>>)
      modifies `clientData
      ensures data == old(clientData)
      ensures Model() == S.Step(old(Model()), S.TakeClientData).0
    {
      data := clientData;
      clientData := None;
    }
  }
}
