/**
 * Nothing is invented: every reported broadcast, initiator frame and transaction is a
 * contiguous run of observed symbols that spells out a well-formed exchange.
 */
module Soundness {
  import opened Protocol
  import opened WireLog
  import opened BusTap
  import opened Runs
  import opened Reconstructor
  import opened Synchronisation
  import opened RoundTrip

  /** Only symbols, and read timeouts between them. */
  ghost predicate Quiet(h: seq<Input>) {
    forall i :: 0 <= i < |h| ==> h[i].Tap? && (h[i].event.Symbol? || h[i].event.ReadTimeout?)
  }

  /** The symbols of a stretch of history, in order. */
  function Symbols(h: seq<Input>): (y: seq<TapEvent>)
    ensures forall i :: 0 <= i < |y| ==> y[i].Symbol?
  {
    if h == [] then
      []
    else
      var n := |h| - 1;
      Symbols(h[..n]) + if h[n].Tap? && h[n].event.Symbol? then [h[n].event] else []
  }

  function Bytes(y: seq<TapEvent>): seq<Byte>
    requires forall i :: 0 <= i < |y| ==> y[i].Symbol?
  {
    seq(|y|, i requires 0 <= i < |y| => y[i].b)
  }

  function SymbolTimes(y: seq<TapEvent>): seq<int> {
    seq(|y|, i requires 0 <= i < |y| => y[i].at)
  }

  ghost predicate Close(cfg: Config, y: seq<TapEvent>, i: int)
    requires 0 < i < |y|
  {
    y[i].at - y[i - 1].at <= cfg.watchdog
  }

  ghost predicate NoGap(cfg: Config, y: seq<TapEvent>) {
    forall i :: 0 < i < |y| ==> Close(cfg, y, i)
  }

  /** Every SYN-valued byte among the first `n` symbols was an escaped one. */
  ghost predicate SynsEscaped(y: seq<TapEvent>, n: int)
    requires forall i :: 0 <= i < |y| ==> y[i].Symbol?
  {
    forall i :: 0 <= i < n && i < |y| && y[i].b == SYN ==> y[i].wasEscaped
  }

  /** A complete request to an initiator or a target, with a valid checksum. */
  predicate AddressedRequest(lib: Library, raw: seq<Byte>) {
    ParseFrame(lib, raw).Some? && IsAddressed(lib, ParseFrame(lib, raw).value)
  }

  /** The last symbol was a SYN, or the NACK of a request after which its initiator may repeat it. */
  ghost predicate Opened(cfg: Config, h: seq<Input>)
    decreases |h|, 0
  {
    h != [] &&
    var n := |h| - 1;
    && h[n].Tap?
    && match h[n].event
       case Symbol(b, _, at) => b == SYN || (b == NACK && EndsWithRequest(cfg, h[..n], at))
       case ReadTimeout(_) => Opened(cfg, h[..n])
       case _ => false
  }

  /** From an opening on there is nothing but the symbols of one addressed request, still awaited at `at`. */
  ghost predicate EndsWithRequest(cfg: Config, h: seq<Input>, at: int)
    decreases |h|, 1
  {
    exists k :: 0 <= k <= |h| && Opened(cfg, h[..k]) && Quiet(h[k..]) && SpellsRequest(cfg, Symbols(h[k..]), at)
  }

  ghost predicate SpellsRequest(cfg: Config, y: seq<TapEvent>, at: int)
    requires forall i :: 0 <= i < |y| ==> y[i].Symbol?
  {
    && y != [] && AddressedRequest(cfg.lib, Bytes(y))
    && NoGap(cfg, y) && SynsEscaped(y, |y|) && at - y[|y| - 1].at <= cfg.watchdog
  }

  /** The symbols are exactly those of `x`: its payload, then a SYN-valued symbol, a real SYN for a broadcast. */
  ghost predicate Spells(cfg: Config, y: seq<TapEvent>, x: Exchange)
    requires forall i :: 0 <= i < |y| ==> y[i].Symbol?
  {
    && Bytes(y) == Payload(cfg.lib, x) + [SYN] && |y| == |Payload(cfg.lib, x)| + 1
    && NoGap(cfg, y) && SynsEscaped(y, |y| - 1) && (x.BroadcastExchange? ==> !y[|y| - 1].wasEscaped)
  }

  /** A read timeout that comes no later than the watchdog after the symbols `y`. */
  ghost predicate Waits(cfg: Config, y: seq<TapEvent>, input: Input) {
    input.Tap? && input.event.ReadTimeout? && y != [] ==> input.event.at - y[|y| - 1].at <= cfg.watchdog
  }

  ghost predicate WaitsAt(cfg: Config, h: seq<Input>, i: int)
    requires 0 <= i < |h|
  {
    Waits(cfg, Symbols(h[..i]), h[i])
  }

  /** No read timeout comes later than the watchdog after the symbol before it. */
  ghost predicate Patient(cfg: Config, h: seq<Input>) {
    forall i :: 0 <= i < |h| ==> WaitsAt(cfg, h, i)
  }

  lemma PatientAppend(cfg: Config, h: seq<Input>, input: Input)
    requires Patient(cfg, h) && Waits(cfg, Symbols(h), input)
    ensures Patient(cfg, h + [input])
  {
    var g := h + [input];
    forall i | 0 <= i < |g| ensures WaitsAt(cfg, g, i) {
      if i < |h| {
        assert g[..i] == h[..i];
        assert WaitsAt(cfg, h, i);
      } else {
        assert g[..i] == h;
      }
    }
  }

  /** What a request in progress has seen so far. */
  function Expected(s: State): seq<Byte> {
    match s.phase
    case Request => s.requestRaw
    case WaitAck => s.requestRaw
    case WaitResponse => s.requestRaw + [ACK] + s.responseRaw
    case WaitFinalAck => s.requestRaw + [ACK] + s.responseRaw
    case WaitTerminal =>
      if s.frameType == InitiatorInitiator then s.requestRaw + [ACK] else s.requestRaw + [ACK] + s.responseRaw + [ACK]
    case _ => []
  }

  /** The timing markers a request in progress must carry, from the times of its symbols. */
  ghost predicate TimedBy(s: State, at: seq<int>)
    requires |at| == |Expected(s)|
  {
    var r, a := |s.requestRaw|, |s.responseRaw|;
    && r >= 1 && s.phase != Abandoned && s.phase != Idle
    && s.timing.requestStart == Some(at[0])
    && s.timing.requestEnd == (if s.phase == Request then None else Some(at[r - 1]))
    && match s.phase
       case WaitResponse =>
         s.timing.responseStart == (if a == 0 then None else Some(at[r + 1])) && s.timing.responseEnd == None
       case WaitFinalAck => a >= 1 && s.timing.responseStart == Some(at[r + 1]) && s.timing.responseEnd == Some(at[r + a])
       case WaitTerminal =>
         if s.frameType == InitiatorInitiator then
           s.timing.responseStart == None && s.timing.responseEnd == None
         else
           a >= 1 && s.timing.responseStart == Some(at[r + 1]) && s.timing.responseEnd == Some(at[r + a])
       case _ => s.timing.responseStart == None && s.timing.responseEnd == None
  }

  /** The state in progress is explained by the symbols `y`: bytes, timing, pauses and escapes. */
  ghost predicate Explains(cfg: Config, s: State, y: seq<TapEvent>)
    requires forall i :: 0 <= i < |y| ==> y[i].Symbol?
  {
    && y != []
    && Bytes(y) == Expected(s)
    && TimedBy(s, SymbolTimes(y))
    && s.lastProgressAt == Some(y[|y| - 1].at)
    && NoGap(cfg, y) && SynsEscaped(y, |y|)
  }

  lemma ExtendExplained(cfg: Config, s: State, y: seq<TapEvent>, e: TapEvent)
    requires forall i :: 0 <= i < |y| ==> y[i].Symbol?
    requires Explains(cfg, s, y) && e.Symbol? && e.at - s.lastProgressAt.value <= cfg.watchdog
    requires e.b == SYN ==> e.wasEscaped
    ensures NoGap(cfg, y + [e]) && SynsEscaped(y + [e], |y| + 1)
    ensures Bytes(y + [e]) == Expected(s) + [e.b]
    ensures SymbolTimes(y + [e]) == SymbolTimes(y) + [e.at]
  {
    forall i | 0 < i < |y| + 1
      ensures Close(cfg, y + [e], i)
    {
      if i < |y| {
        assert Close(cfg, y, i);
      }
    }
  }

  /** One more symbol moves the state from `s` to `s1`, and the symbols still explain it. */
  lemma StepExplained(cfg: Config, s: State, s1: State, y: seq<TapEvent>, e: TapEvent)
    requires forall i :: 0 <= i < |y| ==> y[i].Symbol?
    requires Explains(cfg, s, y) && e.Symbol? && e.at - s.lastProgressAt.value <= cfg.watchdog
    requires e.b == SYN ==> e.wasEscaped
    requires Expected(s1) == Expected(s) + [e.b] && s1.lastProgressAt == Some(e.at)
    requires TimedBy(s1, SymbolTimes(y) + [e.at])
    ensures Explains(cfg, s1, y + [e])
  {
    ExtendExplained(cfg, s, y, e);
  }

  /** A request byte that does not end the request is appended, and may complete it. */
  lemma RequestMoves(lib: Library, s: State, b: Byte, escaped: bool, at: int, local: Option<Byte>)
    requires Wf(lib, s) && s.phase == Request
    requires InProgress(HandleRequestByte(lib, s, b, escaped, at, local).state)
    ensures var s1 := HandleRequestByte(lib, s, b, escaped, at, local).state;
            && s1.requestRaw == s.requestRaw + [b] && s1.lastProgressAt == Some(at)
            && (s1.phase == Request || s1.phase == WaitAck)
            && s1.timing == if s1.phase == Request then s.timing else s.timing.(requestEnd := Some(at))
  {
  }

  lemma RequestExplained(cfg: Config, s: State, y: seq<TapEvent>, e: TapEvent, local: Option<Byte>)
    requires forall i :: 0 <= i < |y| ==> y[i].Symbol?
    requires Wf(cfg.lib, s) && s.phase == Request && Explains(cfg, s, y)
    requires e.Symbol? && e.at - s.lastProgressAt.value <= cfg.watchdog
    requires InProgress(HandleSymbol(cfg.lib, s, e.b, e.wasEscaped, e.at, local).state)
    ensures Explains(cfg, HandleSymbol(cfg.lib, s, e.b, e.wasEscaped, e.at, local).state, y + [e])
  {
    if e.b == SYN && !e.wasEscaped {
      RequestSynKeepsWf(cfg.lib, s, e.b, e.wasEscaped, e.at, local);
    } else {
      RequestMoves(cfg.lib, s, e.b, e.wasEscaped, e.at, local);
      StepExplained(cfg, s, HandleRequestByte(cfg.lib, s, e.b, e.wasEscaped, e.at, local).state, y, e);
    }
  }

  lemma AckExplained(cfg: Config, s: State, y: seq<TapEvent>, e: TapEvent, local: Option<Byte>)
    requires forall i :: 0 <= i < |y| ==> y[i].Symbol?
    requires Wf(cfg.lib, s) && s.phase == WaitAck && Explains(cfg, s, y)
    requires e.Symbol? && e.at - s.lastProgressAt.value <= cfg.watchdog
    requires InProgress(HandleSymbol(cfg.lib, s, e.b, e.wasEscaped, e.at, local).state)
    ensures Explains(cfg, HandleSymbol(cfg.lib, s, e.b, e.wasEscaped, e.at, local).state, y + [e])
  {
    var s1 := HandleSymbol(cfg.lib, s, e.b, e.wasEscaped, e.at, local).state;
    assert Expected(s1) == Expected(s) + [ACK];
    StepExplained(cfg, s, s1, y, e);
  }

  lemma ResponseMoves(lib: Library, s: State, b: Byte, escaped: bool, at: int)
    requires Wf(lib, s) && s.phase == WaitResponse
    requires InProgress(HandleResponseByte(lib, s, b, escaped, at).state)
    ensures var s1 := HandleResponseByte(lib, s, b, escaped, at).state;
            && s1.requestRaw == s.requestRaw && s1.responseRaw == s.responseRaw + [b] && s1.lastProgressAt == Some(at)
            && (s1.phase == WaitResponse || s1.phase == WaitFinalAck)
            && s1.timing == s.timing.(
                 responseStart := if s.responseRaw == [] then Some(at) else s.timing.responseStart,
                 responseEnd := if s1.phase == WaitFinalAck then Some(at) else s.timing.responseEnd)
  {
  }

  lemma ResponseExplained(cfg: Config, s: State, y: seq<TapEvent>, e: TapEvent, local: Option<Byte>)
    requires forall i :: 0 <= i < |y| ==> y[i].Symbol?
    requires Wf(cfg.lib, s) && s.phase == WaitResponse && Explains(cfg, s, y)
    requires e.Symbol? && e.at - s.lastProgressAt.value <= cfg.watchdog
    requires InProgress(HandleSymbol(cfg.lib, s, e.b, e.wasEscaped, e.at, local).state)
    ensures Explains(cfg, HandleSymbol(cfg.lib, s, e.b, e.wasEscaped, e.at, local).state, y + [e])
  {
    var s1 := HandleResponseByte(cfg.lib, s, e.b, e.wasEscaped, e.at).state;
    ResponseMoves(cfg.lib, s, e.b, e.wasEscaped, e.at);
    assert Expected(s1) == Expected(s) + [e.b];
    StepExplained(cfg, s, s1, y, e);
  }

  lemma FinalAckExplained(cfg: Config, s: State, y: seq<TapEvent>, e: TapEvent, local: Option<Byte>)
    requires forall i :: 0 <= i < |y| ==> y[i].Symbol?
    requires Wf(cfg.lib, s) && s.phase == WaitFinalAck && Explains(cfg, s, y)
    requires e.Symbol? && e.at - s.lastProgressAt.value <= cfg.watchdog
    requires InProgress(HandleSymbol(cfg.lib, s, e.b, e.wasEscaped, e.at, local).state)
    ensures Explains(cfg, HandleSymbol(cfg.lib, s, e.b, e.wasEscaped, e.at, local).state, y + [e])
  {
    StepExplained(cfg, s, HandleSymbol(cfg.lib, s, e.b, e.wasEscaped, e.at, local).state, y, e);
  }

  lemma SymbolExplained(cfg: Config, s: State, y: seq<TapEvent>, e: TapEvent, local: Option<Byte>)
    requires forall i :: 0 <= i < |y| ==> y[i].Symbol?
    requires Wf(cfg.lib, s) && InProgress(s) && Explains(cfg, s, y)
    requires e.Symbol? && e.at - s.lastProgressAt.value <= cfg.watchdog
    requires InProgress(HandleSymbol(cfg.lib, s, e.b, e.wasEscaped, e.at, local).state)
    ensures Explains(cfg, HandleSymbol(cfg.lib, s, e.b, e.wasEscaped, e.at, local).state, y + [e])
  {
    match s.phase
    case Request => RequestExplained(cfg, s, y, e, local);
    case WaitAck => AckExplained(cfg, s, y, e, local);
    case WaitResponse => ResponseExplained(cfg, s, y, e, local);
    case WaitFinalAck => FinalAckExplained(cfg, s, y, e, local);
    case _ =>
  }

  /** A parsed request with acceptable addresses and length is a well-formed one. */
  lemma ParsedIsWellFormed(lib: Library, raw: seq<Byte>, request: Frame)
    requires RequestPrefix(lib, raw) && ParseFrame(lib, raw) == Some(request)
    ensures WellFormedRequest(lib, request) && CanonicalFrameBytes(lib, request) == raw
  {
    ParseIsCanonical(lib, raw);
  }

  lemma ParsedAnswer(lib: Library, request: Frame, raw: seq<Byte>)
    requires |raw| >= 2 && raw[0] <= MAX_DATA_LEN && |raw| == raw[0] as int + 2
    requires ParseResponse(lib, request, raw).1
    ensures var answer := raw[1..|raw| - 1];
            ResponseBytes(lib, answer) == raw && ParseResponse(lib, request, raw).0 == ResponseFrame(request, answer)
  {
    var answer := raw[1..|raw| - 1];
    assert raw[..|raw| - 1] == [raw[0]] + answer;
  }

  /** A closing symbol after an explained payload: the whole run spells the exchange. */
  lemma ClosingSpells(cfg: Config, s: State, y: seq<TapEvent>, e: TapEvent, x: Exchange)
    requires forall i :: 0 <= i < |y| ==> y[i].Symbol?
    requires Explains(cfg, s, y) && e.Symbol? && e.b == SYN && e.at - s.lastProgressAt.value <= cfg.watchdog
    requires Expected(s) == Payload(cfg.lib, x) && (x.BroadcastExchange? ==> !e.wasEscaped)
    ensures Spells(cfg, y + [e], x)
    ensures SymbolTimes(y + [e]) == SymbolTimes(y) + [e.at]
  {
    forall i | 0 < i < |y| + 1
      ensures Close(cfg, y + [e], i)
    {
      if i < |y| {
        assert Close(cfg, y, i);
      }
    }
  }

  lemma BroadcastSpells(cfg: Config, s: State, y: seq<TapEvent>, e: TapEvent, local: Option<Byte>, event: Event)
    returns (x: Exchange)
    requires forall i :: 0 <= i < |y| ==> y[i].Symbol?
    requires Wf(cfg.lib, s) && s.phase == Request && Explains(cfg, s, y)
    requires e.Symbol? && e.b == SYN && !e.wasEscaped && e.at - s.lastProgressAt.value <= cfg.watchdog
    requires HandleRequestSyn(cfg.lib, s, e.b, e.wasEscaped, e.at, local).event == Some(event) && IsSuccess(event)
    ensures WellFormed(cfg.lib, x) && Spells(cfg, y + [e], x)
    ensures event == SuccessEvent(cfg.lib, x, SymbolTimes(y + [e]))
  {
    var request := ParseFrame(cfg.lib, s.requestRaw).value;
    ParsedIsWellFormed(cfg.lib, s.requestRaw, request);
    x := BroadcastExchange(request);
    ClosingSpells(cfg, s, y, e, x);
  }

  lemma InitiatorSpells(cfg: Config, s: State, y: seq<TapEvent>, e: TapEvent) returns (x: Exchange)
    requires forall i :: 0 <= i < |y| ==> y[i].Symbol?
    requires Wf(cfg.lib, s) && s.phase == WaitTerminal && s.frameType == InitiatorInitiator && Explains(cfg, s, y)
    requires e.Symbol? && e.b == SYN && e.at - s.lastProgressAt.value <= cfg.watchdog
    ensures WellFormed(cfg.lib, x) && Spells(cfg, y + [e], x)
    ensures HandleTerminal(s, e.b, e.wasEscaped, e.at).event == Some(SuccessEvent(cfg.lib, x, SymbolTimes(y + [e])))
  {
    ParsedIsWellFormed(cfg.lib, s.requestRaw, s.request);
    x := InitiatorExchange(s.request);
    ClosingSpells(cfg, s, y, e, x);
  }

  lemma TargetSpells(cfg: Config, s: State, y: seq<TapEvent>, e: TapEvent) returns (x: Exchange)
    requires forall i :: 0 <= i < |y| ==> y[i].Symbol?
    requires Wf(cfg.lib, s) && s.phase == WaitTerminal && s.frameType == InitiatorTarget && Explains(cfg, s, y)
    requires e.Symbol? && e.b == SYN && e.at - s.lastProgressAt.value <= cfg.watchdog
    ensures WellFormed(cfg.lib, x) && Spells(cfg, y + [e], x)
    ensures HandleTerminal(s, e.b, e.wasEscaped, e.at).event == Some(SuccessEvent(cfg.lib, x, SymbolTimes(y + [e])))
  {
    ParsedIsWellFormed(cfg.lib, s.requestRaw, s.request);
    ParsedAnswer(cfg.lib, s.request, s.responseRaw);
    x := TargetExchange(s.request, s.responseRaw[1..|s.responseRaw| - 1]);
    ClosingSpells(cfg, s, y, e, x);
  }

  lemma RequestByteNeverSucceeds(lib: Library, s: State, b: Byte, escaped: bool, at: int, local: Option<Byte>)
    ensures var o := HandleRequestByte(lib, s, b, escaped, at, local);
            && (o.event.Some? ==> !IsSuccess(o.event.value))
            && (s.phase == Request && o.state.phase == Idle ==> !o.state.synced)
  {
    hide ParseFrame, CorruptReason, AcceptsTarget;
  }

  lemma ResponseByteNeverSucceeds(lib: Library, s: State, b: Byte, escaped: bool, at: int)
    ensures var o := HandleResponseByte(lib, s, b, escaped, at);
            && (o.event.Some? ==> !IsSuccess(o.event.value))
            && (s.phase == WaitResponse && o.state.phase == Idle ==> !o.state.synced)
  {
  }

  /** Only a SYN closes an exchange. */
  lemma Closers(lib: Library, s: State, b: Byte, escaped: bool, at: int, local: Option<Byte>)
    requires var o := HandleSymbol(lib, s, b, escaped, at, local); o.event.Some? && IsSuccess(o.event.value)
    ensures b == SYN && (s.phase == Request || s.phase == WaitTerminal)
    ensures s.phase == Request ==> !escaped
    ensures s.phase == WaitTerminal ==> s.frameType == InitiatorInitiator || s.frameType == InitiatorTarget
  {
    RequestByteNeverSucceeds(lib, s, b, escaped, at, local);
    ResponseByteNeverSucceeds(lib, s, b, escaped, at);
  }

  /** Only a SYN, or a NACK where the request's acknowledge is due, opens the gate. */
  lemma Openers(lib: Library, s: State, b: Byte, escaped: bool, at: int, local: Option<Byte>)
    requires var s1 := HandleSymbol(lib, s, b, escaped, at, local).state; s1.phase == Idle && s1.synced
    ensures b == SYN || (b == NACK && s.phase == WaitAck)
  {
    RequestByteNeverSucceeds(lib, s, b, escaped, at, local);
    ResponseByteNeverSucceeds(lib, s, b, escaped, at);
  }

  /** Any success event is the one the observed symbols call for. */
  lemma SuccessSpells(cfg: Config, s: State, y: seq<TapEvent>, e: TapEvent, local: Option<Byte>, event: Event)
    returns (x: Exchange)
    requires forall i :: 0 <= i < |y| ==> y[i].Symbol?
    requires Wf(cfg.lib, s) && InProgress(s) && Explains(cfg, s, y)
    requires e.Symbol? && e.at - s.lastProgressAt.value <= cfg.watchdog
    requires HandleSymbol(cfg.lib, s, e.b, e.wasEscaped, e.at, local).event == Some(event) && IsSuccess(event)
    ensures WellFormed(cfg.lib, x) && Spells(cfg, y + [e], x)
    ensures event == SuccessEvent(cfg.lib, x, SymbolTimes(y + [e]))
  {
    Closers(cfg.lib, s, e.b, e.wasEscaped, e.at, local);
    if s.phase == Request {
      x := BroadcastSpells(cfg, s, y, e, local, event);
    } else if s.frameType == InitiatorInitiator {
      x := InitiatorSpells(cfg, s, y, e);
    } else {
      x := TargetSpells(cfg, s, y, e);
    }
  }

  lemma OpenedStep(cfg: Config, s: State, input: Input)
    requires var s1 := StepState(cfg, s, input); s1.phase == Idle && s1.synced
    ensures input.Tap? && (input.event.Symbol? || input.event.ReadTimeout?)
    ensures var e := input.event;
            e.Symbol? ==> e.b == SYN || (e.b == NACK && s.phase == WaitAck && !IsStale(cfg, s, e.at))
    ensures input.event.ReadTimeout? ==> s.phase == Idle && s.synced
  {
    if input.Tap? && input.event.Symbol? {
      var e := input.event;
      Openers(cfg.lib, Expire(cfg, s, e.at).state, e.b, e.wasEscaped, e.at, input.local);
    }
  }

  /** Where an acknowledge is due, the symbols since the opening spell the request. */
  lemma AwaitedRequest(cfg: Config, s: State, y: seq<TapEvent>, at: int)
    requires forall i :: 0 <= i < |y| ==> y[i].Symbol?
    requires Wf(cfg.lib, s) && s.phase == WaitAck && Explains(cfg, s, y) && !IsStale(cfg, s, at)
    ensures SpellsRequest(cfg, y, at)
  {
  }

  /** An open gate was opened by the last symbol. */
  lemma {:induction false} GateWasOpened(cfg: Config, h: seq<Input>)
    requires After(cfg, h).phase == Idle && After(cfg, h).synced
    ensures Opened(cfg, h)
    decreases |h|
  {
    hide Wf, StepState, Explains;
    if h != [] {
      var n := |h| - 1;
      var s := After(cfg, h[..n]);
      OpenedStep(cfg, s, h[n]);
      if h[n].event.ReadTimeout? {
        GateWasOpened(cfg, h[..n]);
      } else if h[n].event.b != SYN {
        var k := Trail(cfg, h[..n]);
        RunKeepsWf(cfg, Fresh(false), h[..n]);
        AwaitedRequest(cfg, s, Symbols(h[..n][k..]), h[n].event.at);
        assert EndsWithRequest(cfg, h[..n], h[n].event.at);
      }
    }
  }

  lemma QuietSymbols(h: seq<Input>, input: Input)
    requires Quiet(h) && input.Tap? && (input.event.Symbol? || input.event.ReadTimeout?)
    ensures Quiet(h + [input])
    ensures input.event.ReadTimeout? ==> Symbols(h + [input]) == Symbols(h)
    ensures input.event.Symbol? ==> Symbols(h + [input]) == Symbols(h) + [input.event]
  {
    assert (h + [input])[..|h|] == h;
  }

  lemma StartExplained(cfg: Config, s: State, e: TapEvent, local: Option<Byte>)
    requires Wf(cfg.lib, s) && s.phase == Idle && e.Symbol?
    requires InProgress(HandleSymbol(cfg.lib, s, e.b, e.wasEscaped, e.at, local).state)
    ensures s.synced && Explains(cfg, HandleSymbol(cfg.lib, s, e.b, e.wasEscaped, e.at, local).state, [e])
  {
  }

  /** What can keep a request in progress, or start one. */
  lemma StaysInProgress(cfg: Config, s: State, input: Input)
    requires Wf(cfg.lib, s) && InProgress(StepState(cfg, s, input))
    ensures input.Tap? && (input.event.Symbol? || input.event.ReadTimeout?)
    ensures input.event.ReadTimeout? ==> StepState(cfg, s, input) == s && !IsStale(cfg, s, input.event.at)
    ensures var e := input.event;
            e.Symbol? ==>
              && s.phase != Abandoned
              && (InProgress(s) ==> e.at - s.lastProgressAt.value <= cfg.watchdog)
              && StepState(cfg, s, input) == HandleSymbol(cfg.lib, s, e.b, e.wasEscaped, e.at, input.local).state
  {
  }

  lemma SuccessStep(cfg: Config, s: State, input: Input, event: Event)
    requires Wf(cfg.lib, s) && event in StepEvents(cfg, s, input) && IsSuccess(event)
    ensures input.Tap? && input.event.Symbol? && InProgress(s)
    ensures var e := input.event;
            && e.at - s.lastProgressAt.value <= cfg.watchdog
            && HandleSymbol(cfg.lib, s, e.b, e.wasEscaped, e.at, input.local).event == Some(event)
  {
    if input.Tap? && input.event.Symbol? {
      var e := input.event;
      var o := Expire(cfg, s, e.at);
      assert HandleSymbol(cfg.lib, o.state, e.b, e.wasEscaped, e.at, input.local).event == Some(event);
      Closers(cfg.lib, o.state, e.b, e.wasEscaped, e.at, input.local);
    }
  }

  lemma TrailStep(cfg: Config, t: seq<Input>, s: State, input: Input)
    requires Quiet(t) && Patient(cfg, t) && Wf(cfg.lib, s) && InProgress(s) && Explains(cfg, s, Symbols(t))
    requires InProgress(StepState(cfg, s, input))
    ensures Quiet(t + [input]) && Patient(cfg, t + [input])
    ensures Explains(cfg, StepState(cfg, s, input), Symbols(t + [input]))
  {
    StaysInProgress(cfg, s, input);
    QuietSymbols(t, input);
    PatientAppend(cfg, t, input);
    if input.event.Symbol? {
      SymbolExplained(cfg, s, Symbols(t), input.event, input.local);
    }
  }

  lemma OneSymbol(cfg: Config, input: Input)
    requires input.Tap? && input.event.Symbol?
    ensures Quiet([input]) && Patient(cfg, [input]) && Symbols([input]) == [input.event]
  {
    assert [] + [input] == [input];
    QuietSymbols([], input);
    PatientAppend(cfg, [], input);
  }

  lemma OpenGateIsFresh(lib: Library, s: State)
    requires Wf(lib, s) && s.phase == Idle && s.synced
    ensures s == Fresh(true)
  {
  }

  lemma TrailStart(cfg: Config, s: State, input: Input)
    requires Wf(cfg.lib, s) && !InProgress(s) && InProgress(StepState(cfg, s, input))
    ensures s == Fresh(true)
    ensures Quiet([input]) && Patient(cfg, [input]) && Explains(cfg, StepState(cfg, s, input), Symbols([input]))
  {
    hide Wf, Explains, StepState, HandleSymbol, Fresh;
    StaysInProgress(cfg, s, input);
    StartExplained(cfg, s, input.event, input.local);
    OpenGateIsFresh(cfg.lib, s);
    OneSymbol(cfg, input);
  }

  /** After the first `k` inputs the gate is open, and from then on one request is followed. */
  ghost predicate FollowedFrom(cfg: Config, h: seq<Input>, k: int) {
    && 0 <= k <= |h| && After(cfg, h[..k]) == Fresh(true)
    && forall i :: k < i <= |h| ==> InProgress(After(cfg, h[..i]))
  }

  lemma FollowedStep(cfg: Config, h: seq<Input>, k: int)
    requires h != [] && InProgress(After(cfg, h))
    requires var n := |h| - 1; if k == n then After(cfg, h[..n]) == Fresh(true) else FollowedFrom(cfg, h[..n], k)
    ensures FollowedFrom(cfg, h, k)
  {
    hide Fresh, InProgress;
    var n := |h| - 1;
    assert h[..n + 1] == h;
    if k < n {
      assert h[..n][..k] == h[..k];
      forall i | k < i <= n ensures InProgress(After(cfg, h[..i])) {
        assert h[..n][..i] == h[..i];
        assert InProgress(After(cfg, h[..n][..i]));
      }
    }
  }

  /** A request in progress: where it began, and the symbols since then. */
  lemma {:induction false} Trail(cfg: Config, h: seq<Input>) returns (k: nat)
    requires InProgress(After(cfg, h))
    ensures k < |h| && Opened(cfg, h[..k]) && FollowedFrom(cfg, h, k)
    ensures Quiet(h[k..]) && Patient(cfg, h[k..]) && Explains(cfg, After(cfg, h), Symbols(h[k..]))
    decreases |h|
  {
    var n := |h| - 1;
    assert h == h[..n] + [h[n]];
    var s := After(cfg, h[..n]);
    RunKeepsWf(cfg, Fresh(false), h[..n]);
    if InProgress(s) {
      k := Trail(cfg, h[..n]);
      Slices(h, k, n);
      assert h[k..n + 1] == h[k..];
      TrailStep(cfg, h[..n][k..], s, h[n]);
    } else {
      k := n;
      assert h[n..] == [h[n]];
      TrailStart(cfg, s, h[n]);
      GateWasOpened(cfg, h[..n]);
    }
    FollowedStep(cfg, h, k);
  }

  /**
   * The stretch `run` of history accounts for `event`: its symbols spell the well-formed
   * exchange `x` without a pause above the watchdog, and `event` is the one `x` calls for.
   */
  ghost predicate Accounts(cfg: Config, run: seq<Input>, x: Exchange, event: Event) {
    && Quiet(run) && Patient(cfg, run)
    && WellFormed(cfg.lib, x) && Spells(cfg, Symbols(run), x)
    && event == SuccessEvent(cfg.lib, x, SymbolTimes(Symbols(run)))
  }

  /** Soundness of one step: a success event is accounted for by the symbols since an opening one. */
  lemma StepSoundness(cfg: Config, h: seq<Input>, input: Input, event: Event) returns (k: nat, x: Exchange)
    requires event in StepEvents(cfg, After(cfg, h), input) && IsSuccess(event)
    ensures k <= |h| && Opened(cfg, h[..k]) && FollowedFrom(cfg, h, k) && Accounts(cfg, h[k..] + [input], x, event)
  {
    var s := After(cfg, h);
    RunKeepsWf(cfg, Fresh(false), h);
    SuccessStep(cfg, s, input, event);
    k := Trail(cfg, h);
    QuietSymbols(h[k..], input);
    PatientAppend(cfg, h[k..], input);
    x := SuccessSpells(cfg, s, Symbols(h[k..]), input.event, input.local, event);
  }

  /** The step that emitted an event. */
  lemma {:induction false} EmittedAt(cfg: Config, h: seq<Input>, event: Event) returns (m: nat)
    requires event in Events(cfg, h)
    ensures m < |h| && event in StepEvents(cfg, After(cfg, h[..m]), h[m])
  {
    m := |h| - 1;
    if event in Events(cfg, h[..m]) {
      var n := m;
      m := EmittedAt(cfg, h[..n], event);
      assert h[..n][..m] == h[..m];
    } else {
      assert event in Rec(cfg).emit(After(cfg, h[..m]), h[m]);
    }
  }

  lemma SoundAt(cfg: Config, h: seq<Input>, m: nat, event: Event) returns (k: nat, x: Exchange)
    requires m < |h| && event in StepEvents(cfg, After(cfg, h[..m]), h[m]) && IsSuccess(event)
    ensures k <= m && Opened(cfg, h[..k]) && FollowedFrom(cfg, h[..m], k) && Accounts(cfg, h[k..m + 1], x, event)
  {
    k, x := StepSoundness(cfg, h[..m], h[m], event);
    Slices(h, k, m);
  }

  /** Soundness of whole histories: every success event ever emitted has its exchange. */
  lemma EventSoundness(cfg: Config, h: seq<Input>, event: Event) returns (k: nat, n: nat, x: Exchange)
    requires event in Events(cfg, h) && IsSuccess(event)
    ensures k < n <= |h| && Opened(cfg, h[..k]) && After(cfg, h[..k]) == Fresh(true) && Accounts(cfg, h[k..n], x, event)
  {
    hide Accounts, Opened, After, Events, StepEvents, Fresh, InProgress;
    var m := EmittedAt(cfg, h, event);
    k, x := SoundAt(cfg, h, m, event);
    assert h[..m][..k] == h[..k];
    n := m + 1;
  }
}
