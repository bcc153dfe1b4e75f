/**
 * What every reachable state of the reconstructor keeps, and what follows from it: one SYN
 * brings any state back to the same point, so the past is forgotten there.
 */
module Synchronisation {
  import opened Protocol
  import opened WireLog
  import opened BusTap
  import opened Runs
  import opened Reconstructor

  /** The bytes collected so far can begin a request. */
  ghost predicate RequestPrefix(lib: Library, raw: seq<Byte>) {
    && |raw| >= 1
    && lib.isSource(raw[0]) && IsInitiatorAddr(raw[0])
    && (|raw| >= 2 ==> AcceptsTarget(raw[1]))
    && (|raw| >= 5 ==> raw[4] <= MAX_DATA_LEN)
  }

  /**
   * While bytes are collected, a buffer that reached its declared length holds a frame with
   * a valid checksum that nobody acknowledges: a broadcast, or one of unknown class.
   */
  ghost predicate NotYetCommitted(lib: Library, raw: seq<Byte>) {
    |raw| >= 5 && |raw| >= 6 + raw[4] as int ==>
      var parsed := ParseFrame(lib, raw[..6 + raw[4] as int]);
      parsed.Some? && !IsAddressed(lib, parsed.value)
  }

  ghost predicate Collecting(lib: Library, s: State) {
    && RequestPrefix(lib, s.requestRaw) && |s.requestRaw| <= MAX_REQUEST_BYTES
    && NotYetCommitted(lib, s.requestRaw)
    && s.lastProgressAt.Some? && s.timing.requestStart.Some?
    && s == StartRequest(s.requestRaw[0], s.timing.requestStart.value)
            .(requestRaw := s.requestRaw, lastProgressAt := s.lastProgressAt)
  }

  /** A complete addressed request was read. */
  ghost predicate Committed(lib: Library, s: State) {
    && RequestPrefix(lib, s.requestRaw)
    && ParseFrame(lib, s.requestRaw) == Some(s.request)
    && IsAddressed(lib, s.request) && s.frameType == lib.frameType(s.request.target)
    && s.lastProgressAt.Some? && !s.synced && !s.awaitingResync
  }

  ghost predicate Answered(lib: Library, s: State) {
    && Committed(lib, s) && s.ack == Some(ACK)
  }

  /** A response is being read and is not complete yet. */
  ghost predicate Answering(s: State) {
    if s.responseRaw == [] then
      s.responseExpectedLen == 0
    else
      && s.responseRaw[0] <= MAX_DATA_LEN
      && s.responseExpectedLen == s.responseRaw[0] as int + 2
      && |s.responseRaw| < s.responseExpectedLen
  }

  /** A complete response was read, with the verdict on its checksum. */
  ghost predicate Responded(lib: Library, s: State) {
    && |s.responseRaw| >= 2 && s.responseRaw[0] <= MAX_DATA_LEN
    && |s.responseRaw| == s.responseRaw[0] as int + 2 == s.responseExpectedLen
    && (s.response, s.responseCrcValid) == ParseResponse(lib, s.request, s.responseRaw)
  }

  /** No byte of a response was read. */
  ghost predicate Unanswered(s: State) {
    s.responseRaw == [] && s.response == NO_FRAME && s.responseExpectedLen == 0
  }

  ghost predicate Wf(lib: Library, s: State) {
    match s.phase
    case Idle => s == Fresh(s.synced).(awaitingResync := s.awaitingResync) && !(s.synced && s.awaitingResync)
    case Request => Collecting(lib, s)
    case WaitAck => Committed(lib, s) && Unanswered(s) && s.ack == None
    case WaitResponse => Answered(lib, s) && s.frameType == InitiatorTarget && Answering(s) && s.response == NO_FRAME
    case WaitFinalAck => Answered(lib, s) && s.frameType == InitiatorTarget && Responded(lib, s)
    case WaitTerminal =>
      Answered(lib, s) &&
      (if s.frameType == InitiatorInitiator then Unanswered(s) else Responded(lib, s) && s.responseCrcValid)
    case Abandoned => true
  }

  /** A byte that does not complete the request leaves the bytes before it as they were. */
  lemma StillNotCommitted(lib: Library, raw: seq<Byte>, b: Byte)
    requires NotYetCommitted(lib, raw)
    requires var n := |raw| + 1; !(n >= 5 && n == 6 + (raw + [b])[4] as int)
    ensures NotYetCommitted(lib, raw + [b])
  {
    if |raw| >= 5 && |raw| >= 6 + raw[4] as int {
      assert (raw + [b])[..6 + raw[4] as int] == raw[..6 + raw[4] as int];
    }
  }

  lemma CompleteKeepsWf(lib: Library, s: State, b: Byte, escaped: bool, at: int, local: Option<Byte>)
    requires RequestPrefix(lib, s.requestRaw) && |s.requestRaw| <= MAX_REQUEST_BYTES
    requires s.phase == Request && s.lastProgressAt.Some? && s.timing.requestStart.Some?
    requires s == StartRequest(s.requestRaw[0], s.timing.requestStart.value)
                  .(requestRaw := s.requestRaw, lastProgressAt := s.lastProgressAt)
    requires |s.requestRaw| >= 5 && |s.requestRaw| == 6 + s.requestRaw[4] as int
    ensures Wf(lib, CompleteRequest(lib, s, b, escaped, at, local).state)
  {
    assert s.requestRaw[..6 + s.requestRaw[4] as int] == s.requestRaw;
  }

  lemma RequestByteKeepsWf(lib: Library, s: State, b: Byte, escaped: bool, at: int, local: Option<Byte>)
    requires Collecting(lib, s) && s.phase == Request
    ensures Wf(lib, HandleRequestByte(lib, s, b, escaped, at, local).state)
  {
    var s1 := s.(requestRaw := s.requestRaw + [b], lastProgressAt := Some(at));
    var raw := s1.requestRaw;
    if |raw| > MAX_REQUEST_BYTES || (|raw| == 2 && !AcceptsTarget(raw[1])) || (|raw| == 5 && raw[4] > MAX_DATA_LEN) {
    } else if |raw| >= 5 && |raw| == 6 + raw[4] as int {
      CompleteKeepsWf(lib, s1, b, escaped, at, local);
    } else {
      StillNotCommitted(lib, s.requestRaw, b);
      assert Collecting(lib, s1);
    }
  }

  lemma RequestSynKeepsWf(lib: Library, s: State, b: Byte, escaped: bool, at: int, local: Option<Byte>)
    requires Wf(lib, s) && s.phase == Request
    ensures HandleRequestSyn(lib, s, b, escaped, at, local).state == Fresh(true)
  {
    if ParseFrame(lib, s.requestRaw).Some? {
      assert s.requestRaw[..6 + s.requestRaw[4] as int] == s.requestRaw;
    }
  }

  lemma AckKeepsWf(lib: Library, s: State, b: Byte, escaped: bool, at: int, local: Option<Byte>)
    requires Wf(lib, s) && s.phase == WaitAck
    ensures Wf(lib, HandleAck(s, b, escaped, at, local).state)
  {
    hide ParseFrame, AbandonEvent, RequestPrefix;
  }

  lemma FirstResponseByteKeepsWf(lib: Library, s: State, b: Byte, escaped: bool, at: int)
    requires Wf(lib, s) && s.phase == WaitResponse && s.responseRaw == []
    ensures Wf(lib, HandleResponseByte(lib, s, b, escaped, at).state)
    ensures HandleResponseByte(lib, s, b, escaped, at).state.phase != Abandoned
  {
  }

  lemma NextResponseByteKeepsWf(lib: Library, s: State, b: Byte, escaped: bool, at: int)
    requires Wf(lib, s) && s.phase == WaitResponse && s.responseRaw != []
    ensures Wf(lib, HandleResponseByte(lib, s, b, escaped, at).state)
    ensures HandleResponseByte(lib, s, b, escaped, at).state.phase != Abandoned
  {
  }

  lemma ResponseKeepsWf(lib: Library, s: State, b: Byte, escaped: bool, at: int)
    requires Wf(lib, s) && s.phase == WaitResponse
    ensures Wf(lib, HandleResponse(lib, s, b, escaped, at).state)
    // The response-overrun branch cannot be taken.
    ensures HandleResponse(lib, s, b, escaped, at).state.phase != Abandoned
  {
    if s.responseRaw == [] {
      FirstResponseByteKeepsWf(lib, s, b, escaped, at);
    } else {
      NextResponseByteKeepsWf(lib, s, b, escaped, at);
    }
  }

  lemma FinalAckKeepsWf(lib: Library, s: State, b: Byte, escaped: bool, at: int)
    requires Wf(lib, s) && s.phase == WaitFinalAck
    ensures Wf(lib, HandleFinalAck(s, b, escaped, at).state)
  {
  }

  lemma SymbolKeepsWf(lib: Library, s: State, b: Byte, escaped: bool, at: int, local: Option<Byte>)
    requires Wf(lib, s)
    ensures Wf(lib, HandleSymbol(lib, s, b, escaped, at, local).state)
  {
    match s.phase
    case Request =>
      if b != SYN || escaped {
        RequestByteKeepsWf(lib, s, b, escaped, at, local);
      } else {
        RequestSynKeepsWf(lib, s, b, escaped, at, local);
      }
    case WaitAck => AckKeepsWf(lib, s, b, escaped, at, local);
    case WaitResponse => ResponseKeepsWf(lib, s, b, escaped, at);
    case WaitFinalAck => FinalAckKeepsWf(lib, s, b, escaped, at);
    case _ =>
  }

  lemma StepKeepsWf(cfg: Config, s: State, input: Input)
    requires Wf(cfg.lib, s)
    ensures Wf(cfg.lib, StepState(cfg, s, input))
  {
    if input.Tap? && input.event.Symbol? {
      var e := input.event;
      SymbolKeepsWf(cfg.lib, Expire(cfg, s, e.at).state, e.b, e.wasEscaped, e.at, input.local);
    }
  }

  lemma {:induction false} RunKeepsWf(cfg: Config, s: State, inputs: seq<Input>)
    requires Wf(cfg.lib, s)
    ensures Wf(cfg.lib, StateAfter(Rec(cfg), s, inputs))
  {
    if inputs != [] {
      var n := |inputs| - 1;
      RunKeepsWf(cfg, s, inputs[..n]);
      StepKeepsWf(cfg, StateAfter(Rec(cfg), s, inputs[..n]), inputs[n]);
    }
  }

  function Syn(at: int, local: Option<Byte>): Input {
    Tap(Symbol(SYN, false, at), local)
  }

  lemma SymbolSynchronises(lib: Library, s: State, at: int, local: Option<Byte>)
    requires Wf(lib, s)
    ensures HandleSymbol(lib, s, SYN, false, at, local).state == Fresh(true)
  {
    if s.phase == Request {
      RequestSynKeepsWf(lib, s, SYN, false, at, local);
    }
  }

  /** One unescaped SYN takes every reachable state to idle with the gate open. */
  lemma SelfSynchronisation(cfg: Config, history: seq<Input>, at: int, local: Option<Byte>)
    ensures After(cfg, history + [Syn(at, local)]) == Fresh(true)
  {
    RunKeepsWf(cfg, Fresh(false), history);
    RunAppend(Rec(cfg), Fresh(false), history, Syn(at, local));
    SymbolSynchronises(cfg.lib, Expire(cfg, After(cfg, history), at).state, at, local);
  }

  lemma EscapedSymbolSynchronises(lib: Library, s: State, at: int, local: Option<Byte>)
    requires Wf(lib, s)
    ensures HandleSymbol(lib, s, SYN, true, at, local).state == Fresh(true) <==> s.phase != Request && s.phase != WaitResponse
  {
    hide ParseFrame, ParseResponse;
  }

  /**
   * A data byte with the value of a SYN does the same, after any history, if and only if no request
   * and no response is being collected once the watchdog has had its say.
   */
  lemma EscapedSynOpensExactly(cfg: Config, history: seq<Input>, at: int, local: Option<Byte>)
    ensures var phase := Expire(cfg, After(cfg, history), at).state.phase;
            After(cfg, history + [Tap(Symbol(SYN, true, at), local)]) == Fresh(true) <==>
            phase != Request && phase != WaitResponse
  {
    RunKeepsWf(cfg, Fresh(false), history);
    RunAppend(Rec(cfg), Fresh(false), history, Tap(Symbol(SYN, true, at), local));
    EscapedSymbolSynchronises(cfg.lib, Expire(cfg, After(cfg, history), at).state, at, local);
  }

  /** After a SYN nothing depends on what came before: what follows runs as from a fresh, open gate. */
  lemma SynForgetsThePast(cfg: Config, history: seq<Input>, at: int, local: Option<Byte>, future: seq<Input>)
    ensures After(cfg, history + [Syn(at, local)] + future) == StateAfter(Rec(cfg), Fresh(true), future)
    ensures Events(cfg, history + [Syn(at, local)] + future) ==
            Events(cfg, history + [Syn(at, local)]) + Output(Rec(cfg), Fresh(true), future)
  {
    SelfSynchronisation(cfg, history, at, local);
    RunConcat(Rec(cfg), Fresh(false), history + [Syn(at, local)], future);
  }
}
