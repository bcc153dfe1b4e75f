/**
 * The tap and the reconstructor together, from raw wire bytes to events. The raw SYN test
 * depends on the escape decoder: a SYN in the middle of an escape sequence is not a SYN.
 */
module WireRoundTrip {
  import opened Protocol
  import opened WireLog
  import opened BusTap
  import opened Runs
  import opened Reconstructor
  import opened Synchronisation
  import opened RoundTrip
  import opened Soundness

  /** An exchange on the raw wire: stuffed, and closed by a SYN that is not. */
  function Wire(lib: Library, x: Exchange): seq<Byte> {
    Escape(Payload(lib, x)) + [SYN]
  }

  /** The inputs the reconstructor gets from a raw stream, given the decoder's escape flag. */
  ghost predicate Hears(inputs: seq<Input>, escape: bool, w: seq<StreamEvent>) {
    Delivers(inputs, Output(TapMachine(true), escape, w))
  }

  /** One raw SYN opens the gate, whatever the history, exactly when no escape sequence was open. */
  lemma RawSynOpensGate(cfg: Config, history: seq<Input>, escape: bool, syn: StreamEvent, inputs: seq<Input>)
    requires syn.WireByte? && syn.b == SYN
    requires Hears(inputs, escape, [syn])
    ensures After(cfg, history + inputs) == Fresh(true) <==> !escape
    ensures escape ==> After(cfg, history + inputs) == Fresh(false)
    ensures !StateAfter(TapMachine(true), escape, [syn])
  {
    RunAppend(TapMachine(true), escape, [], syn);
    assert [] + [syn] == [syn];
    assert inputs == [inputs[0]];
    if escape {
      RunAppend(Rec(cfg), Fresh(false), history, inputs[0]);
    } else {
      SelfSynchronisation(cfg, history, syn.at, inputs[0].local);
      assert inputs[0] == Syn(syn.at, inputs[0].local);
    }
  }

  lemma WireIsExchange(lib: Library, x: Exchange, w: seq<StreamEvent>, inputs: seq<Input>)
    requires Carries(w, Wire(lib, x)) && Hears(inputs, false, w)
    ensures DeliversExchange(lib, inputs, x) && IsSyn(inputs[|inputs| - 1])
    ensures !StateAfter(TapMachine(true), false, w)
  {
    var n := |w| - 1;
    assert w == w[..n] + [w[n]];
    assert Carries(w[..n], Escape(Payload(lib, x))) by {
      assert Wire(lib, x)[..n] == Escape(Payload(lib, x));
    }
    TapDecodesEscaped(w[..n], Payload(lib, x));
    RunAppend(TapMachine(true), false, w[..n], w[n]);
  }

  /**
   * After any history, one SYN outside an escape sequence and then a well-formed exchange, all
   * as raw wire bytes: exactly one event is added, the exchange itself, and the gate is open again.
   */
  lemma RawRoundTrip(
    cfg: Config, history: seq<Input>, x: Exchange,
    syn: StreamEvent, first: seq<Input>, w: seq<StreamEvent>, inputs: seq<Input>)
    requires WellFormed(cfg.lib, x)
    requires syn.WireByte? && syn.b == SYN && Hears(first, false, [syn])
    requires Carries(w, Wire(cfg.lib, x)) && Hears(inputs, false, w) && NoPause(cfg, inputs)
    ensures DeliversExchange(cfg.lib, inputs, x)
    ensures After(cfg, history + first + inputs) == Fresh(true)
    ensures Events(cfg, history + first + inputs) ==
            Events(cfg, history + first) + [SuccessEvent(cfg.lib, x, Times(inputs))]
  {
    RawSynOpensGate(cfg, history, false, syn, first);
    WireIsExchange(cfg.lib, x, w, inputs);
    ExchangeRoundTrip(cfg, x, inputs);
    RunConcat(Rec(cfg), Fresh(false), history + first, inputs);
  }

  /** Two raw SYNs are enough from any state of the tap and the reconstructor. */
  lemma TwoSynsAlwaysSuffice(
    cfg: Config, history: seq<Input>, escape: bool,
    syn1: StreamEvent, first: seq<Input>, syn2: StreamEvent, second: seq<Input>)
    requires syn1.WireByte? && syn1.b == SYN && Hears(first, escape, [syn1])
    requires syn2.WireByte? && syn2.b == SYN && Hears(second, StateAfter(TapMachine(true), escape, [syn1]), [syn2])
    ensures After(cfg, history + first + second) == Fresh(true)
    ensures !StateAfter(TapMachine(true), StateAfter(TapMachine(true), escape, [syn1]), [syn2])
  {
    RawSynOpensGate(cfg, history, escape, syn1, first);
    RawSynOpensGate(cfg, history + first, false, syn2, second);
  }

  /** A closed gate lets nothing through until a SYN-valued symbol arrives. */
  lemma {:induction false} ClosedGateDrops(cfg: Config, inputs: seq<Input>)
    requires forall i :: 0 <= i < |inputs| ==> inputs[i].Tap? && inputs[i].event.Symbol? && inputs[i].event.b != SYN
    ensures StateAfter(Rec(cfg), Fresh(false), inputs) == Fresh(false)
    ensures Output(Rec(cfg), Fresh(false), inputs) == []
  {
    if inputs != [] {
      var n := |inputs| - 1;
      assert inputs == inputs[..n] + [inputs[n]];
      RunAppend(Rec(cfg), Fresh(false), inputs[..n], inputs[n]);
      ClosedGateDrops(cfg, inputs[..n]);
      StepInTime(cfg, Fresh(false), inputs[n]);
    }
  }

  lemma ClosedGateReopens(cfg: Config, inputs: seq<Input>, syn: Input)
    requires forall i :: 0 <= i < |inputs| ==> inputs[i].Tap? && inputs[i].event.Symbol? && inputs[i].event.b != SYN
    requires IsSyn(syn)
    ensures StateAfter(Rec(cfg), Fresh(false), inputs + [syn]) == Fresh(true)
    ensures Output(Rec(cfg), Fresh(false), inputs + [syn]) == []
  {
    ClosedGateDrops(cfg, inputs);
    RunAppend(Rec(cfg), Fresh(false), inputs, syn);
    StepInTime(cfg, Fresh(false), syn);
  }

  lemma PlainBytesOnly(lib: Library, x: Exchange, inputs: seq<Input>)
    requires SYN !in Payload(lib, x) && DeliversExchange(lib, inputs, x) && IsSyn(inputs[|inputs| - 1])
    ensures var n := |inputs| - 1;
            && IsSyn(inputs[n]) && inputs == inputs[..n] + [inputs[n]]
            && forall i :: 0 <= i < n ==> inputs[i].Tap? && inputs[i].event.Symbol? && inputs[i].event.b != SYN
  {
    forall i | 0 <= i < |inputs| - 1
      ensures inputs[i].Tap? && inputs[i].event.Symbol? && inputs[i].event.b != SYN
    {
      assert IsByte(inputs[i], Payload(lib, x)[i]);
    }
  }

  /** The event reports `x`: its kind, its request and its answer. */
  predicate Reports(event: Event, x: Exchange) {
    match x
    case BroadcastExchange(request) => event.BroadcastFrame? && event.request == request
    case InitiatorExchange(request) => event.InitiatorFrame? && event.request == request
    case TargetExchange(request, answer) =>
      event.Transaction? && event.request == request && event.response == ResponseFrame(request, answer)
  }

  ghost predicate Reported(events: seq<Event>, x: Exchange) {
    exists event :: event in events && Reports(event, x)
  }

  /** The events that `inputs` add to those of the history `h`. */
  ghost function Added(cfg: Config, h: seq<Input>, inputs: seq<Input>): (added: seq<Event>)
    ensures Events(cfg, h + inputs) == Events(cfg, h) + added
  {
    RunConcat(Rec(cfg), Fresh(false), h, inputs);
    Output(Rec(cfg), After(cfg, h), inputs)
  }

  lemma {:induction false} FewerSymbols(h: seq<Input>)
    ensures |Symbols(h)| <= |h|
  {
    if h != [] {
      FewerSymbols(h[..|h| - 1]);
    }
  }

  /** Reporting an exchange takes as many symbols as the exchange has, and an opening before them. */
  lemma ReportIsLonger(cfg: Config, inputs: seq<Input>, x: Exchange, event: Event)
    requires event in Events(cfg, inputs) && Reports(event, x)
    ensures |Payload(cfg.lib, x)| + 1 < |inputs|
  {
    hide Payload, Symbols, Events;
    var k, n, y := EventSoundness(cfg, inputs, event);
    assert x == y;
    FewerSymbols(inputs[k..n]);
    assert |Bytes(Symbols(inputs[k..n]))| == |Symbols(inputs[k..n])|;
  }

  /** The last input is a SYN, so the gate is open whatever the exchange was taken for. */
  lemma ExchangeOpensGate(cfg: Config, h: seq<Input>, x: Exchange, inputs: seq<Input>)
    requires DeliversExchange(cfg.lib, inputs, x) && IsSyn(inputs[|inputs| - 1])
    ensures After(cfg, h + inputs) == Fresh(true)
  {
    var n := |inputs| - 1;
    SelfSynchronisation(cfg, h + inputs[..n], inputs[n].event.at, inputs[n].local);
    assert h + inputs == h + inputs[..n] + [Syn(inputs[n].event.at, inputs[n].local)];
  }

  /**
   * The condition is needed: when the SYN falls into an open escape sequence, no event reports the
   * exchange. Its closing SYN opens the gate again. Without a SYN-valued byte nothing is added at all.
   */
  lemma OpenEscapeLosesExchange(
    cfg: Config, history: seq<Input>, x: Exchange,
    syn: StreamEvent, first: seq<Input>, w: seq<StreamEvent>, inputs: seq<Input>)
    requires syn.WireByte? && syn.b == SYN && Hears(first, true, [syn])
    requires Carries(w, Wire(cfg.lib, x)) && Hears(inputs, false, w)
    ensures After(cfg, history + first + inputs) == Fresh(true)
    ensures !Reported(Added(cfg, history + first, inputs), x)
    ensures SYN !in Payload(cfg.lib, x) ==> Added(cfg, history + first, inputs) == []
  {
    RawSynOpensGate(cfg, history, true, syn, first);
    WireIsExchange(cfg.lib, x, w, inputs);
    ExchangeOpensGate(cfg, history + first, x, inputs);
    assert Added(cfg, history + first, inputs) == Events(cfg, inputs);
    if event :| event in Events(cfg, inputs) && Reports(event, x) {
      ReportIsLonger(cfg, inputs, x, event);
      assert false;
    }
    if SYN !in Payload(cfg.lib, x) {
      PlainBytesOnly(cfg.lib, x, inputs);
      ClosedGateReopens(cfg, inputs[..|inputs| - 1], inputs[|inputs| - 1]);
    }
  }

  lemma SameTail<T>(front: seq<T>, a: seq<T>, b: seq<T>)
    requires front + a == front + b
    ensures a == b
  {
    assert a == (front + a)[|front|..] && b == (front + b)[|front|..];
  }

  lemma SuccessIsReported(lib: Library, x: Exchange, at: seq<int>)
    requires |at| == |Payload(lib, x)| + 1
    ensures Reported([SuccessEvent(lib, x, at)], x)
  {
    hide Payload;
    var event := SuccessEvent(lib, x, at);
    assert event in [event] && Reports(event, x);
  }

  /** After one raw SYN a well-formed exchange is reported exactly when no escape sequence was open. */
  lemma ReportedExactly(
    cfg: Config, history: seq<Input>, escape: bool, x: Exchange,
    syn: StreamEvent, first: seq<Input>, w: seq<StreamEvent>, inputs: seq<Input>)
    requires WellFormed(cfg.lib, x)
    requires syn.WireByte? && syn.b == SYN && Hears(first, escape, [syn])
    requires Carries(w, Wire(cfg.lib, x)) && Hears(inputs, false, w) && NoPause(cfg, inputs)
    ensures Reported(Added(cfg, history + first, inputs), x) <==> !escape
  {
    hide SuccessEvent, Payload, Reported, Output, StateAfter, Carries, Wire, WellFormed, NoPause, Escape;
    if escape {
      OpenEscapeLosesExchange(cfg, history, x, syn, first, w, inputs);
    } else {
      RawRoundTrip(cfg, history, x, syn, first, w, inputs);
      SameTail(Events(cfg, history + first), Added(cfg, history + first, inputs), [SuccessEvent(cfg.lib, x, Times(inputs))]);
      SuccessIsReported(cfg.lib, x, Times(inputs));
    }
  }

  // ---- a data byte in the place of the closing SYN ----

  /** A broadcast goes on collecting when the closing symbol was an escaped one. */
  lemma BroadcastStaysOpen(cfg: Config, x: Exchange, inputs: seq<Input>, event: Event)
    requires WellFormed(cfg.lib, x) && x.BroadcastExchange? && NoPause(cfg, inputs)
    requires DeliversBytes(inputs, Payload(cfg.lib, x) + [SYN])
    ensures !(event in Output(Rec(cfg), Fresh(true), inputs) && IsSuccess(event))
  {
    hide CanonicalFrameBytes, ParseFrame, StepState, StepEvents, Output, StateAfter;
    var raw := CanonicalFrameBytes(cfg.lib, x.request);
    var r := |raw|;
    RequestIsAcceptable(cfg.lib, x.request);
    assert inputs == inputs[..r] + [inputs[r]];
    assert raw[..r] == raw;
    forall i | 0 <= i < r ensures IsByte(inputs[i], raw[i]) {
      assert IsByte(inputs[i], (raw + [SYN])[i]);
    }
    NoPauseWithin(cfg, inputs, 0, r);
    ReadRequest(cfg, raw, x.request, inputs[..r]);
    RunAppend(Rec(cfg), Fresh(true), inputs[..r], inputs[r]);
    assert IsByte(inputs[r], (raw + [SYN])[r]) && InTime(cfg, inputs, r);
    StayOpenStep(cfg, raw, inputs[0].event.at, inputs[r - 1].event.at, inputs[r], event);
  }

  lemma StayOpenStep(cfg: Config, raw: seq<Byte>, start: int, last: int, input: Input, event: Event)
    requires raw != [] && IsByte(input, SYN) && input.event.at - last <= cfg.watchdog
    ensures !(event in StepEvents(cfg, Reading(raw, start, last), input) && IsSuccess(event))
  {
    hide HandleRequestByte;
    var s := Reading(raw, start, last);
    StepInTime(cfg, s, input);
    RequestByteNeverSucceeds(cfg.lib, s, SYN, true, input.event.at, input.local);
  }

  /** From the open gate: a payload in time and a data byte with the value of a SYN after it. */
  lemma EscapedCloserExactly(cfg: Config, x: Exchange, inputs: seq<Input>)
    requires WellFormed(cfg.lib, x) && DeliversBytes(inputs, Payload(cfg.lib, x) + [SYN]) && NoPause(cfg, inputs)
    ensures Reported(Output(Rec(cfg), Fresh(true), inputs), x) <==> !x.BroadcastExchange?
  {
    hide Output, WellFormed, NoPause;
    var n := |Payload(cfg.lib, x)|;
    if x.BroadcastExchange? {
      if event :| event in Output(Rec(cfg), Fresh(true), inputs) && Reports(event, x) {
        BroadcastStaysOpen(cfg, x, inputs, event);
        assert false;
      }
    } else {
      hide Payload;
      forall i | 0 <= i <= n ensures IsByte(inputs[i], if i < n then Payload(cfg.lib, x)[i] else SYN) {
        assert IsByte(inputs[i], (Payload(cfg.lib, x) + [SYN])[i]);
      }
      ExchangeRoundTrip(cfg, x, inputs);
      SuccessIsReported(cfg.lib, x, Times(inputs));
    }
  }

  /**
   * On the wire: after any history and one decoded SYN, a well-formed exchange whose closing SYN is
   * replaced by the escape sequence of that byte is reported if and only if it is no broadcast.
   */
  lemma EscapedSynReportsExactly(
    cfg: Config, history: seq<Input>, x: Exchange,
    syn: StreamEvent, first: seq<Input>, w: seq<StreamEvent>, inputs: seq<Input>)
    requires WellFormed(cfg.lib, x)
    requires syn.WireByte? && syn.b == SYN && Hears(first, false, [syn])
    requires Carries(w, Escape(Payload(cfg.lib, x) + [SYN])) && Hears(inputs, false, w) && NoPause(cfg, inputs)
    ensures Reported(Added(cfg, history + first, inputs), x) <==> !x.BroadcastExchange?
  {
    hide Payload, Output, StateAfter, NoPause, Escape;
    RawSynOpensGate(cfg, history, false, syn, first);
    TapDecodesEscaped(w, Payload(cfg.lib, x) + [SYN]);
    EscapedCloserExactly(cfg, x, inputs);
  }
}
