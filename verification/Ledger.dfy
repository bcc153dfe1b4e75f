/** Every started request is closed by exactly one event, or is the one still in progress. */
module Ledger {
  import opened Protocol
  import opened WireLog
  import opened BusTap
  import opened Runs
  import opened Reconstructor
  import opened Synchronisation

  /** An event that closes a request. A refused first byte closes nothing: no request was started. */
  predicate Closing(e: Event) {
    !e.Discontinuity? && !(e.AbandonedTransaction? && e.reason == InvalidQQ)
  }

  function ClosingCount(events: seq<Event>): nat {
    if events == [] then
      0
    else
      var n := |events| - 1;
      ClosingCount(events[..n]) + if Closing(events[n]) then 1 else 0
  }

  /** The symbol is the source byte of a new request. */
  predicate StartsRequest(lib: Library, s: State, input: Input) {
    && s.phase == Idle && s.synced
    && input.Tap? && input.event.Symbol?
    && input.event.b != SYN && lib.isSource(input.event.b) && IsInitiatorAddr(input.event.b)
  }

  /** A new connection forgets a request in progress without a word. */
  predicate DropsRequest(s: State, input: Input) {
    InProgress(s) && input.Tap? && input.event.Connected?
  }

  function Started(cfg: Config, h: seq<Input>): nat {
    if h == [] then
      0
    else
      var n := |h| - 1;
      Started(cfg, h[..n]) + One(StartsRequest(cfg.lib, After(cfg, h[..n]), h[n]))
  }

  function Dropped(cfg: Config, h: seq<Input>): nat {
    if h == [] then
      0
    else
      var n := |h| - 1;
      Dropped(cfg, h[..n]) + One(DropsRequest(After(cfg, h[..n]), h[n]))
  }

  lemma {:induction false} ClosingConcat(a: seq<Event>, b: seq<Event>)
    ensures ClosingCount(a + b) == ClosingCount(a) + ClosingCount(b)
  {
    if b == [] {
      assert a + b == a;
    } else {
      var n := |b| - 1;
      assert (a + b)[..|a + b| - 1] == a + b[..n];
      ClosingConcat(a, b[..n]);
    }
  }

  lemma ClosingOne(e: Event)
    ensures ClosingCount([e]) == One(Closing(e))
  {
    assert [e][..0] == [];
  }

  lemma ClosingEmitted(event: Option<Event>)
    ensures ClosingCount(Emitted(event)) == One(event.Some? && Closing(event.value))
  {
    if event.Some? {
      ClosingOne(event.value);
    }
  }

  /** The outcome emits a closing event exactly when it leaves no request in progress. */
  predicate Balanced(o: Outcome) {
    (o.event.Some? && Closing(o.event.value)) <==> !InProgress(o.state)
  }

  lemma RequestByteBalance(lib: Library, s: State, b: Byte, escaped: bool, at: int, local: Option<Byte>)
    requires Wf(lib, s) && s.phase == Request
    ensures Balanced(HandleRequestByte(lib, s, b, escaped, at, local))
  {
  }

  lemma RequestSynBalance(lib: Library, s: State, b: Byte, escaped: bool, at: int, local: Option<Byte>)
    requires Wf(lib, s) && s.phase == Request
    ensures Balanced(HandleRequestSyn(lib, s, b, escaped, at, local))
  {
    RequestSynKeepsWf(lib, s, b, escaped, at, local);
  }

  lemma ResponseBalance(lib: Library, s: State, b: Byte, escaped: bool, at: int)
    requires Wf(lib, s) && s.phase == WaitResponse
    ensures Balanced(HandleResponse(lib, s, b, escaped, at))
  {
  }

  /** A symbol closes a request exactly when it emits a closing event. */
  lemma ActiveBalance(lib: Library, s: State, b: Byte, escaped: bool, at: int, local: Option<Byte>)
    requires Wf(lib, s) && InProgress(s)
    ensures Balanced(HandleSymbol(lib, s, b, escaped, at, local))
  {
    if s.phase == Request {
      RequestByteBalance(lib, s, b, escaped, at, local);
      RequestSynBalance(lib, s, b, escaped, at, local);
    } else if s.phase == WaitResponse {
      ResponseBalance(lib, s, b, escaped, at);
    }
  }

  lemma IdleBalance(lib: Library, s: State, e: TapEvent, local: Option<Byte>)
    requires Wf(lib, s) && !InProgress(s) && e.Symbol?
    ensures var o := HandleSymbol(lib, s, e.b, e.wasEscaped, e.at, local);
            && !(o.event.Some? && Closing(o.event.value))
            && (InProgress(o.state) <==> StartsRequest(lib, s, Tap(e, local)))
  {
  }

  lemma InterruptBalance(s: State, reason: AbandonReason, cause: DiscontinuityReason, at: int)
    requires reason != InvalidQQ
    ensures ClosingCount(Interrupt(s, reason, cause, at)) == One(InProgress(s))
  {
    ClosingOne(Discontinuity(cause, at));
    if InProgress(s) {
      var e := AbandonEvent(s, reason, at, 0, false);
      ClosingOne(e);
      ClosingConcat([e], [Discontinuity(cause, at)]);
    } else {
      assert [] + [Discontinuity(cause, at)] == [Discontinuity(cause, at)];
    }
  }

  lemma SymbolStepBalance(cfg: Config, s: State, e: TapEvent, local: Option<Byte>)
    requires Wf(cfg.lib, s) && e.Symbol?
    ensures var input := Tap(e, local);
            One(StartsRequest(cfg.lib, s, input)) + One(InProgress(s)) ==
            ClosingCount(StepEvents(cfg, s, input)) + One(InProgress(StepState(cfg, s, input)))
  {
    hide HandleSymbol, ClosingCount;
    var o := Expire(cfg, s, e.at);
    var o2 := HandleSymbol(cfg.lib, o.state, e.b, e.wasEscaped, e.at, local);
    ClosingEmitted(o.event);
    ClosingEmitted(o2.event);
    ClosingConcat(Emitted(o.event), Emitted(o2.event));
    if InProgress(o.state) {
      ActiveBalance(cfg.lib, o.state, e.b, e.wasEscaped, e.at, local);
    } else {
      IdleBalance(cfg.lib, o.state, e, local);
    }
  }

  lemma ExpiryBalance(cfg: Config, s: State, at: int)
    requires Wf(cfg.lib, s)
    ensures var o := Expire(cfg, s, at); One(InProgress(s)) == ClosingCount(Emitted(o.event)) + One(InProgress(o.state))
  {
    ClosingEmitted(Expire(cfg, s, at).event);
  }

  lemma StepBalance(cfg: Config, s: State, input: Input)
    requires Wf(cfg.lib, s)
    ensures One(StartsRequest(cfg.lib, s, input)) + One(InProgress(s)) ==
            ClosingCount(StepEvents(cfg, s, input)) + One(DropsRequest(s, input)) + One(InProgress(StepState(cfg, s, input)))
  {
    hide HandleSymbol, Expire, Interrupt, ClosingCount;
    match input
    case Close(at) => InterruptBalance(s, ShutDown, LinkShutdown, at);
    case Tap(event, local) =>
      match event
      case Symbol(_, _, _) => SymbolStepBalance(cfg, s, event, local);
      case ReadTimeout(at) => ExpiryBalance(cfg, s, at);
      case Connected(at) => ClosingOne(Discontinuity(LinkConnected, at));
      case Disconnected(at) => InterruptBalance(s, LinkDown, LinkDisconnected, at);
      case Reset(at) => InterruptBalance(s, TransportReset, LinkReset, at);
      case DecodeFault(at) => InterruptBalance(s, DecodeFaulted, LinkDecodeFault, at);
  }

  /** No observation leads to more than two events. */
  lemma AtMostTwoEvents(cfg: Config, s: State, input: Input)
    ensures |StepEvents(cfg, s, input)| <= 2
  {
    hide HandleSymbol, AbandonEvent;
  }

  /** Over any history, requests started are requests closed, dropped by a reconnect, or still in progress. */
  lemma {:induction false} OneClosingEventPerRequest(cfg: Config, h: seq<Input>)
    ensures Started(cfg, h) == ClosingCount(Events(cfg, h)) + Dropped(cfg, h) + One(InProgress(After(cfg, h)))
  {
    if h != [] {
      var n := |h| - 1;
      OneClosingEventPerRequest(cfg, h[..n]);
      RunKeepsWf(cfg, Fresh(false), h[..n]);
      StepBalance(cfg, After(cfg, h[..n]), h[n]);
      ClosingConcat(Events(cfg, h[..n]), StepEvents(cfg, After(cfg, h[..n]), h[n]));
    }
  }
}
