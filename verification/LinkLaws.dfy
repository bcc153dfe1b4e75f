/**
 * What happens around exchanges: resets, timeouts and broken escape sequences on their way through the
 * tap, link changes through the reconstructor, sources that are refused, and requests that are repeated
 * after a negative acknowledge.
 */
module LinkLaws {
  import opened Protocol
  import opened WireLog
  import opened BusTap
  import opened Runs
  import opened Reconstructor
  import opened Synchronisation
  import opened RoundTrip
  import opened Soundness
  import opened WireRoundTrip

  // ---- the tap ----

  /** The resets and timeouts of a stream, in order. */
  function StreamMarks(w: seq<StreamEvent>): seq<TapEvent> {
    if w == [] then []
    else
      var n := |w| - 1;
      StreamMarks(w[..n]) + match w[n]
                            case StreamReset(at) => [TapEvent.Reset(at)]
                            case StreamTimeout(at) => [ReadTimeout(at)]
                            case _ => []
  }

  predicate IsMark(e: TapEvent) {
    e.Reset? || e.ReadTimeout?
  }

  function Marks(out: seq<TapEvent>): seq<TapEvent> {
    if out == [] then []
    else
      var n := |out| - 1;
      Marks(out[..n]) + if IsMark(out[n]) then [out[n]] else []
  }

  lemma {:induction false} MarksConcat(a: seq<TapEvent>, b: seq<TapEvent>)
    ensures Marks(a + b) == Marks(a) + Marks(b)
  {
    if b == [] {
      assert a + b == a;
    } else {
      assert (a + b)[..|a + b| - 1] == a + b[..|b| - 1];
      MarksConcat(a, b[..|b| - 1]);
    }
  }

  lemma MarksOfStep(decodes: bool, escape: bool, e: StreamEvent)
    ensures Marks(TapStep(decodes, escape, e).1) ==
            match e
            case StreamReset(at) => [TapEvent.Reset(at)]
            case StreamTimeout(at) => [ReadTimeout(at)]
            case _ => []
  {
    hide Marks;
    var out := TapStep(decodes, escape, e).1;
    NoMarks();
    if |out| == 2 {
      assert out == [out[0]] + [out[1]];
      MarksConcat([out[0]], [out[1]]);
      OneMark(out[0]);
      OneMark(out[1]);
    } else if |out| == 1 {
      assert out == [out[0]];
      OneMark(out[0]);
    }
  }

  lemma NoMarks()
    ensures Marks([]) == []
  {
  }

  lemma OneMark(e: TapEvent)
    ensures Marks([e]) == if IsMark(e) then [e] else []
  {
    assert [e][..0] == [];
  }

  /** Resets and timeouts go through the tap, each once and in order, whatever the bytes are and however they are decoded. */
  lemma {:induction false} MarksPass(decodes: bool, escape: bool, w: seq<StreamEvent>)
    ensures Marks(Output(TapMachine(decodes), escape, w)) == StreamMarks(w)
  {
    if w != [] {
      var m, n := TapMachine(decodes), |w| - 1;
      MarksPass(decodes, escape, w[..n]);
      MarksOfStep(decodes, StateAfter(m, escape, w[..n]), w[n]);
      MarksConcat(Output(m, escape, w[..n]), TapStep(decodes, StateAfter(m, escape, w[..n]), w[n]).1);
    }
  }

  /**
   * A reset cuts an open escape sequence short: a fault precedes the reset exactly then, and what
   * follows is decoded as if the stream had begun there.
   */
  lemma ResetCutsEscape(w: seq<StreamEvent>, at: int, future: seq<StreamEvent>)
    ensures var m := TapMachine(true);
            var fault := if StateAfter(m, false, w) then [DecodeFault(at)] else [];
            && Output(m, false, w + [StreamReset(at)] + future) ==
               Output(m, false, w) + (fault + [TapEvent.Reset(at)]) + Output(m, false, future)
            && StateAfter(m, false, w + [StreamReset(at)] + future) == StateAfter(m, false, future)
  {
    var m := TapMachine(true);
    RunAppend(m, false, w, StreamReset(at));
    RunConcat(m, false, w + [StreamReset(at)], future);
  }

  /** A stream whose escapes were resolved upstream carries the symbols with their flags. */
  ghost predicate CarriesSymbols(w: seq<StreamEvent>, lib: Library, x: Exchange) {
    var payload := Payload(lib, x);
    && |w| == |payload| + 1
    && (forall i :: 0 <= i < |payload| ==> CarriesByte(w[i], payload[i]))
    && w[|payload|].WireByte? && w[|payload|].b == SYN && (x.BroadcastExchange? ==> !w[|payload|].wasEscaped)
  }

  /** The byte, and the mark that it was escaped where it could be taken for a SYN. */
  ghost predicate CarriesByte(e: StreamEvent, b: Byte) {
    e.WireByte? && e.b == b && (b == SYN ==> e.wasEscaped)
  }

  lemma {:induction false} LogicalPasses(w: seq<StreamEvent>)
    requires forall i :: 0 <= i < |w| ==> w[i].WireByte?
    ensures var out := Output(TapMachine(false), false, w);
            |out| == |w| && forall i :: 0 <= i < |w| ==> out[i] == Symbol(w[i].b, w[i].wasEscaped, w[i].at)
  {
    if w != [] {
      LogicalPasses(w[..|w| - 1]);
    }
  }

  /** The round trip over a stream that is not decoded again: from the open gate the exchange is reported. */
  lemma LogicalRoundTrip(cfg: Config, x: Exchange, w: seq<StreamEvent>, inputs: seq<Input>)
    requires WellFormed(cfg.lib, x) && CarriesSymbols(w, cfg.lib, x)
    requires Delivers(inputs, Output(TapMachine(false), false, w)) && NoPause(cfg, inputs)
    ensures |inputs| == |Payload(cfg.lib, x)| + 1
    ensures Output(Rec(cfg), Fresh(true), inputs) == [SuccessEvent(cfg.lib, x, Times(inputs))]
    ensures StateAfter(Rec(cfg), Fresh(true), inputs) == Fresh(true)
  {
    hide Payload, SuccessEvent, Output, StateAfter, NoPause, WellFormed;
    LogicalPasses(w);
    var payload := Payload(cfg.lib, x);
    forall i | 0 <= i < |payload| ensures IsByte(inputs[i], payload[i]) {
      assert CarriesByte(w[i], payload[i]);
    }
    ExchangeRoundTrip(cfg, x, inputs);
  }

  // ---- link changes through the reconstructor ----

  /** The link changes of a history: what, and when. */
  function LinkChanges(h: seq<Input>): seq<Event> {
    if h == [] then []
    else
      var n := |h| - 1;
      LinkChanges(h[..n]) + LinkChange(h[n])
  }

  function LinkChange(input: Input): seq<Event> {
    match input
    case Close(at) => [Discontinuity(LinkShutdown, at)]
    case Tap(event, _) =>
      match event
      case Connected(at) => [Discontinuity(LinkConnected, at)]
      case Disconnected(at) => [Discontinuity(LinkDisconnected, at)]
      case Reset(at) => [Discontinuity(LinkReset, at)]
      case DecodeFault(at) => [Discontinuity(LinkDecodeFault, at)]
      case _ => []
  }

  function Discontinuities(events: seq<Event>): seq<Event> {
    if events == [] then []
    else
      var n := |events| - 1;
      Discontinuities(events[..n]) + if events[n].Discontinuity? then [events[n]] else []
  }

  lemma {:induction false} DiscontinuitiesConcat(a: seq<Event>, b: seq<Event>)
    ensures Discontinuities(a + b) == Discontinuities(a) + Discontinuities(b)
  {
    if b == [] {
      assert a + b == a;
    } else {
      assert (a + b)[..|a + b| - 1] == a + b[..|b| - 1];
      DiscontinuitiesConcat(a, b[..|b| - 1]);
    }
  }

  lemma NoDiscontinuity(lib: Library, s: State, b: Byte, escaped: bool, at: int, local: Option<Byte>)
    ensures var e := HandleSymbol(lib, s, b, escaped, at, local).event; e.Some? ==> !e.value.Discontinuity?
  {
    hide ParseFrame, ParseResponse, AcceptsTarget, CorruptReason, TruncationReason, CheckRequest;
    var s1 := s.(requestRaw := s.requestRaw + [b], lastProgressAt := Some(at));
    NoDiscontinuityAtByte(lib, s1, b, escaped, at, local);
  }

  lemma NoDiscontinuityAtByte(lib: Library, s: State, b: Byte, escaped: bool, at: int, local: Option<Byte>)
    ensures var e := CheckRequest(lib, s, b, escaped, at, local).event; e.Some? ==> !e.value.Discontinuity?
  {
    hide ParseFrame, AcceptsTarget, CorruptReason;
  }

  lemma OneEvent(e: Event)
    ensures Discontinuities([e]) == if e.Discontinuity? then [e] else []
  {
    assert [e][..0] == [];
  }

  lemma InterruptReports(s: State, reason: AbandonReason, cause: DiscontinuityReason, at: int)
    ensures Discontinuities(Interrupt(s, reason, cause, at)) == [Discontinuity(cause, at)]
  {
    var e := AbandonEvent(s, reason, at, 0, false);
    OneEvent(Discontinuity(cause, at));
    OneEvent(e);
    DiscontinuitiesConcat([e], [Discontinuity(cause, at)]);
    assert [] + [Discontinuity(cause, at)] == [Discontinuity(cause, at)];
  }

  lemma StepReports(cfg: Config, s: State, input: Input)
    ensures Discontinuities(StepEvents(cfg, s, input)) == LinkChange(input)
  {
    hide HandleSymbol, Interrupt, Discontinuities;
    NothingReported();
    match input
    case Close(at) => InterruptReports(s, ShutDown, LinkShutdown, at);
    case Tap(event, local) =>
      match event
      case Symbol(b, escaped, at) =>
        var o := Expire(cfg, s, at);
        var e := HandleSymbol(cfg.lib, o.state, b, escaped, at, local).event;
        NoDiscontinuity(cfg.lib, o.state, b, escaped, at, local);
        NoneEmitted(o.event);
        NoneEmitted(e);
        DiscontinuitiesConcat(Emitted(o.event), Emitted(e));
      case ReadTimeout(at) => NoneEmitted(Expire(cfg, s, at).event);
      case Connected(at) => OneEvent(Discontinuity(LinkConnected, at));
      case Disconnected(at) => InterruptReports(s, LinkDown, LinkDisconnected, at);
      case Reset(at) => InterruptReports(s, TransportReset, LinkReset, at);
      case DecodeFault(at) => InterruptReports(s, DecodeFaulted, LinkDecodeFault, at);
  }

  lemma NothingReported()
    ensures Discontinuities([]) == []
  {
  }

  lemma NoneEmitted(e: Option<Event>)
    ensures e.None? || !e.value.Discontinuity? ==> Discontinuities(Emitted(e)) == []
  {
    if e.Some? {
      OneEvent(e.value);
    }
  }

  /** Over every history: the discontinuities reported are exactly the link changes, in order and with their times. */
  lemma {:induction false} LinkChangesReported(cfg: Config, h: seq<Input>)
    ensures Discontinuities(Events(cfg, h)) == LinkChanges(h)
  {
    hide StepEvents, Discontinuities, LinkChange;
    if h == [] {
      NothingReported();
    } else {
      var n := |h| - 1;
      LinkChangesReported(cfg, h[..n]);
      StepReports(cfg, After(cfg, h[..n]), h[n]);
      DiscontinuitiesConcat(Events(cfg, h[..n]), StepEvents(cfg, After(cfg, h[..n]), h[n]));
    }
  }

  /** A link change comes after the abandonment it causes, and closes the gate. */
  lemma LinkChangeClosesGate(cfg: Config, h: seq<Input>, input: Input)
    requires LinkChange(input) != []
    ensures After(cfg, h + [input]) == Fresh(false)
    ensures exists before :: Events(cfg, h + [input]) == before + LinkChange(input)
  {
    hide AbandonEvent, HandleSymbol, Expire;
    RunAppend(Rec(cfg), Fresh(false), h, input);
    var events := StepEvents(cfg, After(cfg, h), input);
    assert events == events[..|events| - 1] + LinkChange(input);
    assert Events(cfg, h + [input]) == (Events(cfg, h) + events[..|events| - 1]) + LinkChange(input);
  }

  // ---- refused sources ----

  /** At the open gate a symbol that is no source closes it and marks the rest of the frame as garbage. */
  lemma SourceRefused(cfg: Config, h: seq<Input>, input: Input)
    requires After(cfg, h) == Fresh(true)
    requires input.Tap? && input.event.Symbol? && input.event.b != SYN && !cfg.lib.isSource(input.event.b)
    ensures After(cfg, h + [input]) == Fresh(false).(awaitingResync := true)
    ensures Events(cfg, h + [input]) == Events(cfg, h)
  {
    RunAppend(Rec(cfg), Fresh(false), h, input);
    StepInTime(cfg, Fresh(true), input);
  }

  /** Garbage stays garbage until a SYN: nothing is reported and the mark stays. */
  lemma {:induction false} GarbageUntilSyn(cfg: Config, inputs: seq<Input>)
    requires Quiet(inputs) && forall i :: 0 <= i < |inputs| && inputs[i].event.Symbol? ==> inputs[i].event.b != SYN
    ensures var s := Fresh(false).(awaitingResync := true);
            StateAfter(Rec(cfg), s, inputs) == s && Output(Rec(cfg), s, inputs) == []
  {
    if inputs != [] {
      var n := |inputs| - 1;
      GarbageUntilSyn(cfg, inputs[..n]);
    }
  }

  // ---- repeated requests ----

  /** A request in time and its negative acknowledge. */
  ghost predicate Refuses(cfg: Config, sent: seq<Input>, nack: Input, request: Frame) {
    && DeliversBytes(sent, CanonicalFrameBytes(cfg.lib, request)) && NoPause(cfg, sent) && sent != []
    && IsByte(nack, NACK) && Soon(cfg, sent[|sent| - 1], nack)
  }

  lemma NackStep(cfg: Config, raw: seq<Byte>, request: Frame, start: int, last: int, nack: Input)
    requires raw != [] && IsByte(nack, NACK) && nack.event.at - last <= cfg.watchdog
    ensures var s := Waiting(cfg.lib, raw, request, start, last);
            var events := StepEvents(cfg, s, nack);
            && StepState(cfg, s, nack) == Fresh(true)
            && |events| == 1 && events[0].AbandonedTransaction? && events[0].reason == Nacked && events[0].request == request
  {
    StepInTime(cfg, Waiting(cfg.lib, raw, request, start, last), nack);
  }

  lemma SuccessReports(lib: Library, x: Exchange, at: seq<int>)
    requires |at| == |Payload(lib, x)| + 1
    ensures Reports(SuccessEvent(lib, x, at), x)
  {
    hide Payload;
  }

  /**
   * A negative acknowledge keeps the gate open: from the open gate, a well-formed addressed request
   * that is refused is reported as such, and the exchange that follows at once is reported in full.
   */
  lemma RepeatedAfterNack(cfg: Config, request: Frame, sent: seq<Input>, nack: Input, x: Exchange, inputs: seq<Input>)
    requires WellFormedRequest(cfg.lib, request) && IsAddressed(cfg.lib, request) && Refuses(cfg, sent, nack, request)
    requires WellFormed(cfg.lib, x) && DeliversExchange(cfg.lib, inputs, x) && NoPause(cfg, inputs)
    ensures var out := Output(Rec(cfg), Fresh(true), sent + [nack] + inputs);
            && |out| == 2 && out[0].AbandonedTransaction? && out[0].reason == Nacked && out[0].request == request
            && Reports(out[1], x)
    ensures StateAfter(Rec(cfg), Fresh(true), sent + [nack] + inputs) == Fresh(true)
  {
    hide StateAfter, Output, StepState, StepEvents, Payload, SuccessEvent, WellFormed, CanonicalFrameBytes, ParseFrame;
    var raw := CanonicalFrameBytes(cfg.lib, request);
    RequestIsAcceptable(cfg.lib, request);
    assert raw[..|sent|] == raw;
    ReadRequest(cfg, raw, request, sent);
    assert IsByte(sent[0], raw[0]);
    RunAppend(Rec(cfg), Fresh(true), sent, nack);
    NackStep(cfg, raw, request, sent[0].event.at, sent[|sent| - 1].event.at, nack);
    ExchangeRoundTrip(cfg, x, inputs);
    SuccessReports(cfg.lib, x, Times(inputs));
    RunConcat(Rec(cfg), Fresh(true), sent + [nack], inputs);
  }
}
