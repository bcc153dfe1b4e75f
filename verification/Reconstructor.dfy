/**
 * The passive transaction reconstructor as a function of what it observes: one step per
 * tap event, and the state and events after a whole history.
 */
module Reconstructor {
  import opened Protocol
  import opened WireLog
  import opened BusTap
  import opened Runs

  /** The defensive cap on the bytes collected for one request. */
  const MAX_REQUEST_BYTES := 50

  datatype Phase = Idle | Request | WaitAck | WaitResponse | WaitFinalAck | WaitTerminal | Abandoned

  datatype AbandonReason =
    | CorruptedRequest | CorruptedTarget | Nacked | NoResponse | NoProgress
    | UnexpectedSyn | UnexpectedSymbol | TransportReset | DecodeFaulted | LinkDown
    | CrcMismatch | AmbiguousRetransmission | ShutDown | ScanTimeout | ScanCollision
    | ArbitrationFragment | SelfEcho
    | InvalidQQ | InvalidZZ | InvalidNNInitiator | InvalidNNTarget | BufferOverflow

  datatype DiscontinuityReason = LinkConnected | LinkDisconnected | LinkReset | LinkDecodeFault | LinkShutdown

  datatype Timing = Timing(
    requestStart: Option<int>, requestEnd: Option<int>,
    responseStart: Option<int>, responseEnd: Option<int>, terminal: Option<int>)

  const NO_TIMING := Timing(None, None, None, None, None)

  /** `ack` holds the acknowledge byte of the request position, once one was seen. */
  datatype State = State(
    phase: Phase,
    requestRaw: seq<Byte>, request: Frame,
    responseRaw: seq<Byte>, response: Frame, responseExpectedLen: int, responseCrcValid: bool,
    ack: Option<Byte>, frameType: FrameType,
    timing: Timing, lastProgressAt: Option<int>,
    synced: bool, awaitingResync: bool)

  datatype Event =
    | BroadcastFrame(request: Frame, timing: Timing, at: int)
    | InitiatorFrame(request: Frame, timing: Timing, at: int, ack: Option<Byte>)
    | Transaction(request: Frame, response: Frame, timing: Timing, at: int, ack: Option<Byte>)
    | AbandonedTransaction(
        reason: AbandonReason, frameType: FrameType, request: Frame, response: Frame,
        hasRequest: bool, hasResponse: bool, timing: Timing, at: int, ack: Option<Byte>,
        offending: Byte, offendingWasEscaped: bool)
    | Discontinuity(cause: DiscontinuityReason, at: int)

  /** The events that report an exchange. */
  predicate IsSuccess(e: Event) {
    e.BroadcastFrame? || e.InitiatorFrame? || e.Transaction?
  }

  /** A tap event with the gateway's own address as known at that moment, or the final close. */
  datatype Input = Tap(event: TapEvent, local: Option<Byte>) | Close(at: int)

  datatype Config = Config(lib: Library, watchdog: int)

  datatype Outcome = Outcome(state: State, event: Option<Event>)

  /** The state between frames; `synced` says that the SYN gate is open. */
  function Fresh(synced: bool): State {
    State(Idle, [], NO_FRAME, [], NO_FRAME, 0, false, None, UnknownType, NO_TIMING, None, synced, false)
  }

  function AbandonEvent(s: State, reason: AbandonReason, at: int, b: Byte, escaped: bool): Event {
    var ack := if reason in {NoResponse, NoProgress, AmbiguousRetransmission, CrcMismatch} then None else s.ack;
    AbandonedTransaction(reason, s.frameType, s.request, s.response,
                         s.frameType != UnknownType, s.responseExpectedLen > 0,
                         s.timing.(terminal := Some(at)), at, ack, b, escaped)
  }

  function StartRequest(b: Byte, at: int): State {
    State(Request, [b], NO_FRAME, [], NO_FRAME, 0, false, None, UnknownType,
          NO_TIMING.(requestStart := Some(at)), Some(at), false, false)
  }

  function HandleIdle(lib: Library, s: State, b: Byte, escaped: bool, at: int): Outcome {
    if b == SYN then
      Outcome(s.(synced := true, awaitingResync := false), None)
    else if !s.synced then
      Outcome(s, None)
    else if !lib.isSource(b) then
      Outcome(s.(synced := false, awaitingResync := true), None)
    else if !IsInitiatorAddr(b) then
      Outcome(Fresh(false), Some(AbandonEvent(s, InvalidQQ, at, b, escaped)))
    else
      Outcome(StartRequest(b, at), None)
  }

  predicate IsScanProbe(raw: seq<Byte>) {
    |raw| >= 4 && raw[2] == 0x07 && raw[3] == 0x04
  }

  predicate IsSelfOriginated(raw: seq<Byte>, local: Option<Byte>) {
    local.Some? && |raw| >= 1 && raw[0] == local.value
  }

  function CorruptReason(raw: seq<Byte>, local: Option<Byte>): AbandonReason {
    if IsSelfOriginated(raw, local) then SelfEcho
    else if IsScanProbe(raw) then ScanCollision
    else CorruptedRequest
  }

  /** Why a SYN found a request that does not parse. */
  function TruncationReason(raw: seq<Byte>, local: Option<Byte>): AbandonReason {
    if |raw| < 5 then ArbitrationFragment
    else if IsSelfOriginated(raw, local) then SelfEcho
    else if IsScanProbe(raw) then ScanCollision
    else if raw[4] <= MAX_DATA_LEN && |raw| < 6 + raw[4] as int then UnexpectedSyn
    else CorruptedRequest
  }

  /** A parsed request: broadcasts end here, addressed requests wait for their acknowledge. */
  function Dispatch(lib: Library, s: State, frame: Frame, at: int, afterSyn: bool): Outcome {
    var frameType := lib.frameType(frame.target);
    if frameType == UnknownType then
      Outcome(Fresh(afterSyn), Some(AbandonEvent(s, CorruptedTarget, at, 0, false)))
    else if frameType == Broadcast then
      Outcome(Fresh(afterSyn),
              Some(BroadcastFrame(frame, Timing(s.timing.requestStart, Some(at), None, None, Some(at)), at)))
    else
      Outcome(s.(phase := WaitAck, request := frame, frameType := frameType,
                 timing := s.timing.(requestEnd := Some(at)), lastProgressAt := Some(at)), None)
  }

  predicate IsAddressed(lib: Library, frame: Frame) {
    lib.frameType(frame.target) == InitiatorInitiator || lib.frameType(frame.target) == InitiatorTarget
  }

  /** A request just reached `6 + LEN` bytes. */
  function CompleteRequest(lib: Library, s: State, b: Byte, escaped: bool, at: int, local: Option<Byte>): Outcome {
    match ParseFrame(lib, s.requestRaw)
    case None =>
      Outcome(Fresh(false), Some(AbandonEvent(s, CorruptReason(s.requestRaw, local), at, b, escaped)))
    case Some(frame) =>
      if IsAddressed(lib, frame) then Dispatch(lib, s, frame, at, false) else Outcome(s, None)
  }

  /** The byte just added to a request is checked where it landed. */
  function CheckRequest(lib: Library, s: State, b: Byte, escaped: bool, at: int, local: Option<Byte>): Outcome {
    var n := |s.requestRaw|;
    if n == 2 && !AcceptsTarget(s.requestRaw[1]) then
      Outcome(Fresh(false), Some(AbandonEvent(s, InvalidZZ, at, s.requestRaw[1], escaped)))
    else if n == 5 && s.requestRaw[4] > MAX_DATA_LEN then
      Outcome(Fresh(false), Some(AbandonEvent(s, InvalidNNInitiator, at, s.requestRaw[4], escaped)))
    else if n > MAX_REQUEST_BYTES then
      Outcome(Fresh(false), Some(AbandonEvent(s, BufferOverflow, at, b, escaped)))
    else if n >= 5 && n == 6 + s.requestRaw[4] as int then
      CompleteRequest(lib, s, b, escaped, at, local)
    else
      Outcome(s, None)
  }

  function HandleRequestByte(lib: Library, s: State, b: Byte, escaped: bool, at: int, local: Option<Byte>): Outcome {
    CheckRequest(lib, s.(requestRaw := s.requestRaw + [b], lastProgressAt := Some(at)), b, escaped, at, local)
  }

  /** The SYN that ends a request. */
  function HandleRequestSyn(lib: Library, s0: State, b: Byte, escaped: bool, at: int, local: Option<Byte>): Outcome {
    var s := s0.(timing := s0.timing.(requestEnd := Some(at)), lastProgressAt := Some(at));
    match ParseFrame(lib, s.requestRaw)
    case None => Outcome(Fresh(true), Some(AbandonEvent(s, TruncationReason(s.requestRaw, local), at, b, escaped)))
    case Some(frame) => Dispatch(lib, s, frame, at, true)
  }

  function HandleAck(s: State, b: Byte, escaped: bool, at: int, local: Option<Byte>): Outcome {
    if b == ACK then
      var s1 := s.(ack := Some(b), lastProgressAt := Some(at));
      if s.frameType == InitiatorInitiator then
        Outcome(s1.(phase := WaitTerminal), None)
      else
        Outcome(s1.(phase := WaitResponse, responseRaw := [], responseExpectedLen := 0, responseCrcValid := false), None)
    else if b == NACK then
      // The initiator may repeat its request at once, so the gate stays open.
      Outcome(Fresh(true), Some(AbandonEvent(s.(ack := Some(b)), Nacked, at, b, escaped)))
    else if b == SYN then
      var reason :=
        if s.request.primary == 0x07 && s.request.secondary == 0x04 then ScanTimeout
        else if local == Some(s.request.source) then SelfEcho
        else UnexpectedSyn;
      Outcome(Fresh(true), Some(AbandonEvent(s, reason, at, b, escaped)))
    else
      Outcome(s.(phase := Abandoned), Some(AbandonEvent(s, UnexpectedSymbol, at, b, escaped)))
  }

  /** A complete response with the verdict on its checksum. */
  function ParseResponse(lib: Library, request: Frame, raw: seq<Byte>): (Frame, bool) {
    if |raw| < 2 || |raw| != raw[0] as int + 2 then
      (NO_FRAME, false)
    else
      (Frame(request.target, request.source, request.primary, request.secondary, raw[1..|raw| - 1]),
       lib.crc(raw[..|raw| - 1]) == raw[|raw| - 1])
  }

  /** A byte was just added to a response. */
  function CheckResponse(lib: Library, s: State, b: Byte, escaped: bool, at: int): Outcome {
    if |s.responseRaw| < s.responseExpectedLen then
      Outcome(s, None)
    else if |s.responseRaw| > s.responseExpectedLen then
      Outcome(s.(phase := Abandoned), Some(AbandonEvent(s, UnexpectedSymbol, at, b, escaped)))
    else
      var (response, valid) := ParseResponse(lib, s.request, s.responseRaw);
      Outcome(s.(phase := WaitFinalAck, response := response, responseCrcValid := valid,
                 timing := s.timing.(responseEnd := Some(at))), None)
  }

  function HandleResponseByte(lib: Library, s: State, b: Byte, escaped: bool, at: int): Outcome {
    var s1 := s.(responseRaw := s.responseRaw + [b], lastProgressAt := Some(at));
    if s.responseRaw != [] then
      CheckResponse(lib, s1, b, escaped, at)
    else if b > MAX_DATA_LEN then
      Outcome(Fresh(false), Some(AbandonEvent(s1, InvalidNNTarget, at, b, escaped)))
    else
      CheckResponse(lib, s1.(timing := s1.timing.(responseStart := Some(at)), responseExpectedLen := b as int + 2),
                    b, escaped, at)
  }

  function HandleResponse(lib: Library, s: State, b: Byte, escaped: bool, at: int): Outcome {
    if b == SYN && !escaped then
      var reason := if s.responseRaw == [] then NoResponse else UnexpectedSyn;
      Outcome(Fresh(true), Some(AbandonEvent(s, reason, at, b, escaped)))
    else
      HandleResponseByte(lib, s, b, escaped, at)
  }

  function HandleFinalAck(s: State, b: Byte, escaped: bool, at: int): Outcome {
    if b == ACK && s.responseCrcValid then
      Outcome(s.(phase := WaitTerminal, lastProgressAt := Some(at)), None)
    else if b == SYN then
      Outcome(Fresh(true), Some(AbandonEvent(s, UnexpectedSyn, at, b, escaped)))
    else
      var reason := if b == ACK then CrcMismatch else if b == NACK then AmbiguousRetransmission else UnexpectedSymbol;
      Outcome(s.(phase := Abandoned), Some(AbandonEvent(s, reason, at, b, escaped)))
  }

  function HandleTerminal(s: State, b: Byte, escaped: bool, at: int): Outcome {
    var timing := s.timing.(terminal := Some(at));
    if b != SYN then
      Outcome(s.(phase := Abandoned), Some(AbandonEvent(s, UnexpectedSymbol, at, b, escaped)))
    else if s.frameType == InitiatorInitiator then
      Outcome(Fresh(true), Some(InitiatorFrame(s.request, timing, at, s.ack)))
    else if s.frameType == InitiatorTarget then
      Outcome(Fresh(true), Some(Transaction(s.request, s.response, timing, at, s.ack)))
    else
      Outcome(Fresh(true), Some(AbandonEvent(s, UnexpectedSymbol, at, 0, false)))
  }

  function HandleSymbol(lib: Library, s: State, b: Byte, escaped: bool, at: int, local: Option<Byte>): Outcome {
    match s.phase
    case Idle => HandleIdle(lib, s, b, escaped, at)
    case Request =>
      if b != SYN || escaped then HandleRequestByte(lib, s, b, escaped, at, local)
      else HandleRequestSyn(lib, s, b, escaped, at, local)
    case WaitAck => HandleAck(s, b, escaped, at, local)
    case WaitResponse => HandleResponse(lib, s, b, escaped, at)
    case WaitFinalAck => HandleFinalAck(s, b, escaped, at)
    case WaitTerminal => HandleTerminal(s, b, escaped, at)
    case Abandoned => Outcome(if b == SYN then Fresh(true) else s, None)
  }

  /** A request is being followed: it was started and has not been closed by an event. */
  predicate InProgress(s: State) {
    s.phase != Idle && s.phase != Abandoned
  }

  predicate IsStale(cfg: Config, s: State, at: int) {
    InProgress(s) && s.lastProgressAt.Some? && at - s.lastProgressAt.value > cfg.watchdog
  }

  function Expire(cfg: Config, s: State, at: int): Outcome {
    if IsStale(cfg, s, at) then
      Outcome(s.(phase := Abandoned), Some(AbandonEvent(s, NoProgress, at, 0, false)))
    else
      Outcome(s, None)
  }

  function Emitted(event: Option<Event>): (events: seq<Event>)
    ensures |events| <= 1
  {
    if event.Some? then [event.value] else []
  }

  /** What a lost or reset link does to a request in progress. */
  function Interrupt(s: State, reason: AbandonReason, cause: DiscontinuityReason, at: int): seq<Event> {
    (if InProgress(s) then [AbandonEvent(s, reason, at, 0, false)] else []) + [Discontinuity(cause, at)]
  }

  function StepState(cfg: Config, s: State, input: Input): State {
    match input
    case Close(_) => Fresh(false)
    case Tap(event, local) =>
      match event
      case Symbol(b, escaped, at) => HandleSymbol(cfg.lib, Expire(cfg, s, at).state, b, escaped, at, local).state
      case ReadTimeout(at) => Expire(cfg, s, at).state
      case Connected(_) => Fresh(false)
      case Disconnected(_) => Fresh(false)
      case Reset(_) => Fresh(false)
      case DecodeFault(_) => Fresh(false)
  }

  function StepEvents(cfg: Config, s: State, input: Input): seq<Event> {
    match input
    case Close(at) => Interrupt(s, ShutDown, LinkShutdown, at)
    case Tap(event, local) =>
      match event
      case Symbol(b, escaped, at) =>
        var o := Expire(cfg, s, at);
        Emitted(o.event) + Emitted(HandleSymbol(cfg.lib, o.state, b, escaped, at, local).event)
      case ReadTimeout(at) => Emitted(Expire(cfg, s, at).event)
      case Connected(at) => [Discontinuity(LinkConnected, at)]
      case Disconnected(at) => Interrupt(s, LinkDown, LinkDisconnected, at)
      case Reset(at) => Interrupt(s, TransportReset, LinkReset, at)
      case DecodeFault(at) => Interrupt(s, DecodeFaulted, LinkDecodeFault, at)
  }

  function Rec(cfg: Config): Machine<State, Input, Event> {
    Machine((s, input) => StepState(cfg, s, input), (s, input) => StepEvents(cfg, s, input))
  }

  /** The state after a whole history. */
  function After(cfg: Config, history: seq<Input>): State {
    StateAfter(Rec(cfg), Fresh(false), history)
  }

  /** Every event of a whole history, in order. */
  function Events(cfg: Config, history: seq<Input>): seq<Event> {
    Output(Rec(cfg), Fresh(false), history)
  }
}
