/**
 * The converse of soundness, and its consequences: an exchange is reported if and only if its
 * symbols follow an open gate in time, whatever read timeouts come in between, and no symbol serves
 * two reports.
 */
module Completeness {
  import opened Protocol
  import opened WireLog
  import opened BusTap
  import opened Runs
  import opened Reconstructor
  import opened Synchronisation
  import opened RoundTrip
  import opened Soundness
  import opened WireRoundTrip

  /** The inputs of a stretch that are symbols. */
  function Heard(h: seq<Input>): (y: seq<Input>)
    ensures forall i :: 0 <= i < |y| ==> y[i].Tap? && y[i].event.Symbol?
  {
    if h == [] then
      []
    else
      var n := |h| - 1;
      Heard(h[..n]) + if h[n].Tap? && h[n].event.Symbol? then [h[n]] else []
  }

  lemma {:induction false} HeardSymbols(h: seq<Input>)
    ensures |Heard(h)| == |Symbols(h)| && forall i :: 0 <= i < |Heard(h)| ==> Heard(h)[i].event == Symbols(h)[i]
  {
    if h != [] {
      HeardSymbols(h[..|h| - 1]);
    }
  }

  /** A request in progress made its last progress with the last symbol. */
  ghost predicate UpToDate(s: State, y: seq<TapEvent>) {
    InProgress(s) ==> y != [] && s.lastProgressAt == Some(y[|y| - 1].at)
  }

  lemma ResponseIsNow(lib: Library, s: State, b: Byte, escaped: bool, at: int)
    requires Wf(lib, s) && s.phase == WaitResponse && InProgress(HandleResponse(lib, s, b, escaped, at).state)
    ensures HandleResponse(lib, s, b, escaped, at).state.lastProgressAt == Some(at)
  {
    ResponseMoves(lib, s, b, escaped, at);
  }

  lemma RequestIsNow(lib: Library, s: State, b: Byte, escaped: bool, at: int, local: Option<Byte>)
    requires Wf(lib, s) && s.phase == Request && InProgress(HandleSymbol(lib, s, b, escaped, at, local).state)
    ensures HandleSymbol(lib, s, b, escaped, at, local).state.lastProgressAt == Some(at)
  {
    if b == SYN && !escaped {
      RequestSynKeepsWf(lib, s, b, escaped, at, local);
    } else {
      RequestMoves(lib, s, b, escaped, at, local);
    }
  }

  /** A symbol after which a request is in progress is its latest progress. */
  lemma SymbolIsNow(lib: Library, s: State, b: Byte, escaped: bool, at: int, local: Option<Byte>)
    requires Wf(lib, s) && InProgress(HandleSymbol(lib, s, b, escaped, at, local).state)
    ensures HandleSymbol(lib, s, b, escaped, at, local).state.lastProgressAt == Some(at)
  {
    if s.phase == Request {
      RequestIsNow(lib, s, b, escaped, at, local);
    } else if s.phase == WaitResponse {
      ResponseIsNow(lib, s, b, escaped, at);
    }
  }

  /** One input of a stretch: a symbol brings the request up to date, a timeout in time changes nothing. */
  lemma SkipStep(cfg: Config, s: State, y: seq<TapEvent>, input: Input)
    requires Wf(cfg.lib, s) && UpToDate(s, y) && Waits(cfg, y, input)
    requires input.Tap? && (input.event.Symbol? || input.event.ReadTimeout?)
    ensures input.event.Symbol? ==> UpToDate(StepState(cfg, s, input), y + [input.event])
    ensures input.event.ReadTimeout? ==> StepState(cfg, s, input) == s && StepEvents(cfg, s, input) == []
  {
    hide Wf, HandleSymbol;
    if input.event.Symbol? && InProgress(StepState(cfg, s, input)) {
      var e := input.event;
      ExpireKeepsWf(cfg, s, e.at);
      SymbolIsNow(cfg.lib, Expire(cfg, s, e.at).state, e.b, e.wasEscaped, e.at, input.local);
    }
  }

  lemma ExpireKeepsWf(cfg: Config, s: State, at: int)
    requires Wf(cfg.lib, s)
    ensures Wf(cfg.lib, Expire(cfg, s, at).state)
  {
  }

  lemma PatientPrefix(cfg: Config, h: seq<Input>)
    requires h != [] && Patient(cfg, h)
    ensures Patient(cfg, h[..|h| - 1]) && Waits(cfg, Symbols(h[..|h| - 1]), h[|h| - 1])
  {
    var n := |h| - 1;
    assert WaitsAt(cfg, h, n);
    forall i | 0 <= i < n ensures WaitsAt(cfg, h[..n], i) {
      assert h[..n][..i] == h[..i];
      assert WaitsAt(cfg, h, i);
    }
  }

  /** Read timeouts in time make no difference: the stretch runs as its symbols alone. */
  lemma {:induction false} TimeoutsAreSkipped(cfg: Config, run: seq<Input>)
    requires Quiet(run) && Patient(cfg, run)
    ensures StateAfter(Rec(cfg), Fresh(true), run) == StateAfter(Rec(cfg), Fresh(true), Heard(run))
    ensures Output(Rec(cfg), Fresh(true), run) == Output(Rec(cfg), Fresh(true), Heard(run))
    ensures UpToDate(StateAfter(Rec(cfg), Fresh(true), run), Symbols(run))
  {
    hide Patient, StepState, StepEvents, UpToDate, Waits;
    if run == [] {
      EmptyIsUpToDate();
    } else {
      var n := |run| - 1;
      var m := Rec(cfg);
      assert run == run[..n] + [run[n]];
      PatientPrefix(cfg, run);
      TimeoutsAreSkipped(cfg, run[..n]);
      RunKeepsWf(cfg, Fresh(true), run[..n]);
      SkipStep(cfg, StateAfter(m, Fresh(true), run[..n]), Symbols(run[..n]), run[n]);
      RunAppend(m, Fresh(true), run[..n], run[n]);
      if run[n].event.Symbol? {
        assert Heard(run) == Heard(run[..n]) + [run[n]] && Symbols(run) == Symbols(run[..n]) + [run[n].event];
        RunAppend(m, Fresh(true), Heard(run[..n]), run[n]);
      } else {
        assert Heard(run) == Heard(run[..n]) && Symbols(run) == Symbols(run[..n]);
      }
    }
  }

  lemma EmptyIsUpToDate()
    ensures UpToDate(Fresh(true), [])
  {
  }

  /** The symbols of a stretch that spells an exchange deliver it in time. */
  lemma SpelledIsDelivered(cfg: Config, run: seq<Input>, x: Exchange)
    requires Spells(cfg, Symbols(run), x)
    ensures DeliversExchange(cfg.lib, Heard(run), x) && NoPause(cfg, Heard(run))
    ensures Times(Heard(run)) == SymbolTimes(Symbols(run))
  {
    hide Payload, Symbols, Heard;
    HeardSymbols(run);
    var y, inputs, payload := Symbols(run), Heard(run), Payload(cfg.lib, x);
    forall i | 0 <= i < |payload| ensures IsByte(inputs[i], payload[i]) {
      assert Bytes(y)[i] == payload[i];
    }
    assert Bytes(y)[|payload|] == SYN;
    forall i | 0 < i < |inputs| ensures InTime(cfg, inputs, i) {
      assert Soundness.Close(cfg, y, i);
    }
  }

  /**
   * The converse of soundness: from the open gate, any stretch of symbols and read timeouts that
   * spells a well-formed exchange in time leads to its event and nothing else.
   */
  lemma StretchIsReported(cfg: Config, run: seq<Input>, x: Exchange, event: Event)
    requires Accounts(cfg, run, x, event)
    ensures StateAfter(Rec(cfg), Fresh(true), run) == Fresh(true)
    ensures Output(Rec(cfg), Fresh(true), run) == [event]
  {
    hide Payload, SuccessEvent, Output, StateAfter, Spells, Patient, WellFormed;
    TimeoutsAreSkipped(cfg, run);
    SpelledIsDelivered(cfg, run, x);
    ExchangeRoundTrip(cfg, x, Heard(run));
  }

  /** Somewhere in the history the gate was open and the following stretch accounts for the event. */
  ghost predicate AccountedFor(cfg: Config, h: seq<Input>, event: Event) {
    exists k, n, x :: 0 <= k < n <= |h| && After(cfg, h[..k]) == Fresh(true) && Accounts(cfg, h[k..n], x, event)
  }

  lemma AccountedIsEmitted(cfg: Config, h: seq<Input>, k: int, n: int, x: Exchange, event: Event)
    requires 0 <= k < n <= |h| && After(cfg, h[..k]) == Fresh(true) && Accounts(cfg, h[k..n], x, event)
    ensures event in Events(cfg, h)
  {
    hide Accounts, Output, StateAfter;
    var m := Rec(cfg);
    StretchIsReported(cfg, h[k..n], x, event);
    RunConcat(m, Fresh(false), h[..k], h[k..n]);
    assert h[..k] + h[k..n] == h[..n];
    RunConcat(m, Fresh(false), h[..n], h[n..]);
    assert h[..n] + h[n..] == h;
  }

  /** Over every history: a success event was emitted if and only if such a stretch accounts for it. */
  lemma ReportedIffAccountedFor(cfg: Config, h: seq<Input>, event: Event)
    requires IsSuccess(event)
    ensures event in Events(cfg, h) <==> AccountedFor(cfg, h, event)
  {
    hide Accounts, Events, After;
    if event in Events(cfg, h) {
      var k, n, x := EventSoundness(cfg, h, event);
    }
    if AccountedFor(cfg, h, event) {
      var k, n, x :| 0 <= k < n <= |h| && After(cfg, h[..k]) == Fresh(true) && Accounts(cfg, h[k..n], x, event);
      AccountedIsEmitted(cfg, h, k, n, x, event);
    }
  }

  // ---- no symbol serves two reports ----

  lemma SuccessEnds(cfg: Config, s: State, input: Input, event: Event)
    requires Wf(cfg.lib, s) && event in StepEvents(cfg, s, input) && IsSuccess(event)
    ensures StepState(cfg, s, input) == Fresh(true)
  {
    SuccessStep(cfg, s, input, event);
    var e := input.event;
    Closers(cfg.lib, s, e.b, e.wasEscaped, e.at, input.local);
    if s.phase == Request {
      RequestSynKeepsWf(cfg.lib, s, e.b, e.wasEscaped, e.at, input.local);
    }
  }

  lemma EmissionEnds(cfg: Config, h: seq<Input>, m: nat, event: Event)
    requires m < |h| && event in StepEvents(cfg, After(cfg, h[..m]), h[m]) && IsSuccess(event)
    ensures After(cfg, h[..m + 1]) == Fresh(true)
  {
    hide Wf, StepState, StepEvents;
    RunKeepsWf(cfg, Fresh(false), h[..m]);
    SuccessEnds(cfg, After(cfg, h[..m]), h[m], event);
    RunAppend(Rec(cfg), Fresh(false), h[..m], h[m]);
    assert h[..m] + [h[m]] == h[..m + 1];
  }

  /** A request is followed only from after the point where the gate was last open. */
  lemma EndsBefore(cfg: Config, h: seq<Input>, m: nat, n: nat, k: int)
    requires m <= n <= |h| && After(cfg, h[..m]) == Fresh(true) && FollowedFrom(cfg, h[..n], k)
    ensures m <= k
  {
    hide After;
    assert h[..n][..m] == h[..m];
  }

  /** Two reports at different points of a history are accounted for by disjoint stretches. */
  lemma ReportsAreDisjoint(cfg: Config, h: seq<Input>, m1: nat, e1: Event, m2: nat, e2: Event)
    returns (k1: nat, x1: Exchange, k2: nat, x2: Exchange)
    requires m1 < m2 < |h|
    requires e1 in StepEvents(cfg, After(cfg, h[..m1]), h[m1]) && IsSuccess(e1)
    requires e2 in StepEvents(cfg, After(cfg, h[..m2]), h[m2]) && IsSuccess(e2)
    ensures k1 <= m1 < k2 <= m2
    ensures Accounts(cfg, h[k1..m1 + 1], x1, e1) && Accounts(cfg, h[k2..m2 + 1], x2, e2)
  {
    hide Accounts, After, StepEvents, Opened;
    k1, x1 := SoundAt(cfg, h, m1, e1);
    k2, x2 := SoundAt(cfg, h, m2, e2);
    EmissionEnds(cfg, h, m1, e1);
    EndsBefore(cfg, h, m1 + 1, m2, k2);
  }

  // ---- raw wire bytes with read timeouts in between ----

  /** No reset of the link. */
  ghost predicate QuietWire(w: seq<StreamEvent>) {
    forall i :: 0 <= i < |w| ==> !w[i].StreamReset?
  }

  function WireBytes(w: seq<StreamEvent>): seq<StreamEvent> {
    if w == [] then []
    else
      var n := |w| - 1;
      WireBytes(w[..n]) + if w[n].WireByte? then [w[n]] else []
  }

  function NoTimeouts(events: seq<TapEvent>): seq<TapEvent> {
    if events == [] then []
    else
      var n := |events| - 1;
      NoTimeouts(events[..n]) + if events[n].ReadTimeout? then [] else [events[n]]
  }

  lemma {:induction false} NoTimeoutsConcat(a: seq<TapEvent>, b: seq<TapEvent>)
    requires |b| <= 1
    ensures NoTimeouts(a + b) == NoTimeouts(a) + NoTimeouts(b)
  {
    if b == [] {
      assert a + b == a;
    } else {
      assert (a + b)[..|a|] == a && b[..0] == [];
    }
  }

  /** Timeouts go past the escape decoder. */
  lemma {:induction false} TapIgnoresTimeouts(escape: bool, w: seq<StreamEvent>)
    requires QuietWire(w)
    ensures StateAfter(TapMachine(true), escape, w) == StateAfter(TapMachine(true), escape, WireBytes(w))
    ensures NoTimeouts(Output(TapMachine(true), escape, w)) == Output(TapMachine(true), escape, WireBytes(w))
  {
    if w != [] {
      var m, n := TapMachine(true), |w| - 1;
      assert w == w[..n] + [w[n]];
      TapIgnoresTimeouts(escape, w[..n]);
      RunAppend(m, escape, w[..n], w[n]);
      var more := TapStep(true, StateAfter(m, escape, w[..n]), w[n]).1;
      NoTimeoutsConcat(Output(m, escape, w[..n]), more);
      if w[n].WireByte? {
        RunAppend(m, escape, WireBytes(w[..n]), w[n]);
        assert more != [] ==> more[..0] == [];
      } else {
        assert WireBytes(w) == WireBytes(w[..n]);
        assert more != [] ==> more[..0] == [];
      }
    }
  }

  /** The symbols among the inputs are what is left of the events without the timeouts. */
  lemma {:induction false} HeardOf(inputs: seq<Input>, events: seq<TapEvent>)
    requires Delivers(inputs, events) && forall i :: 0 <= i < |NoTimeouts(events)| ==> NoTimeouts(events)[i].Symbol?
    ensures Quiet(inputs) && Delivers(Heard(inputs), NoTimeouts(events))
  {
    if inputs != [] {
      var n := |inputs| - 1;
      forall i | 0 <= i < |NoTimeouts(events[..n])| ensures NoTimeouts(events[..n])[i].Symbol? {
        assert NoTimeouts(events)[i] == NoTimeouts(events[..n])[i];
      }
      HeardOf(inputs[..n], events[..n]);
      if !events[n].ReadTimeout? {
        assert NoTimeouts(events)[|NoTimeouts(events)| - 1] == events[n];
      }
    }
  }

  /**
   * The round trip on a wire with read timeouts: after any history and one decoded SYN, the raw bytes
   * of a well-formed exchange, with timeouts anywhere between them but none beyond the watchdog, add
   * exactly the exchange's event and leave the gate open.
   */
  lemma InterruptedRoundTrip(
    cfg: Config, history: seq<Input>, x: Exchange,
    syn: StreamEvent, first: seq<Input>, w: seq<StreamEvent>, inputs: seq<Input>)
    requires WellFormed(cfg.lib, x)
    requires syn.WireByte? && syn.b == SYN && Hears(first, false, [syn])
    requires QuietWire(w) && Carries(WireBytes(w), Wire(cfg.lib, x)) && Hears(inputs, false, w)
    requires Patient(cfg, inputs) && NoPause(cfg, Heard(inputs))
    ensures |Heard(inputs)| == |Payload(cfg.lib, x)| + 1
    ensures Added(cfg, history + first, inputs) == [SuccessEvent(cfg.lib, x, Times(Heard(inputs)))]
    ensures After(cfg, history + first + inputs) == Fresh(true)
  {
    hide Payload, Output, StateAfter, SuccessEvent, Escape, NoTimeouts, Heard, Patient, NoPause, WellFormed, WireBytes;
    RawSynOpensGate(cfg, history, false, syn, first);
    TapIgnoresTimeouts(false, w);
    var bytes := WireBytes(w);
    WireSymbols(cfg.lib, x, bytes);
    HeardOf(inputs, Output(TapMachine(true), false, w));
    WireIsExchange(cfg.lib, x, bytes, Heard(inputs));
    TimeoutsAreSkipped(cfg, inputs);
    ExchangeRoundTrip(cfg, x, Heard(inputs));
    RunConcat(Rec(cfg), Fresh(false), history + first, inputs);
  }

  lemma WireSymbols(lib: Library, x: Exchange, w: seq<StreamEvent>)
    requires Carries(w, Wire(lib, x))
    ensures var out := Output(TapMachine(true), false, w); forall i :: 0 <= i < |out| ==> out[i].Symbol?
  {
    hide Payload, Escape;
    var n := |w| - 1;
    assert w == w[..n] + [w[n]];
    assert Wire(lib, x)[..n] == Escape(Payload(lib, x));
    TapDecodesEscaped(w[..n], Payload(lib, x));
    RunAppend(TapMachine(true), false, w[..n], w[n]);
  }
}
