/**
 * The reconstructor reads back what was sent: every well-formed exchange that follows a SYN
 * is reported once, with its request, its response and its timing.
 */
module RoundTrip {
  import opened Protocol
  import opened WireLog
  import opened BusTap
  import opened Runs
  import opened Reconstructor
  import opened Synchronisation

  datatype Exchange =
    | BroadcastExchange(request: Frame)
    | InitiatorExchange(request: Frame)
    | TargetExchange(request: Frame, answer: seq<Byte>)

  predicate WellFormedRequest(lib: Library, request: Frame) {
    && lib.isSource(request.source) && IsInitiatorAddr(request.source)
    && AcceptsTarget(request.target) && |request.data| <= MAX_DATA_LEN
  }

  predicate WellFormed(lib: Library, x: Exchange) {
    && WellFormedRequest(lib, x.request)
    && match x
       case BroadcastExchange(request) => lib.frameType(request.target) == Broadcast
       case InitiatorExchange(request) => lib.frameType(request.target) == InitiatorInitiator
       case TargetExchange(request, answer) =>
         lib.frameType(request.target) == InitiatorTarget && |answer| <= MAX_DATA_LEN
  }

  function ResponseBytes(lib: Library, answer: seq<Byte>): seq<Byte> {
    var body: seq<Byte> := [|answer| % 256] + answer;
    body + [lib.crc(body)]
  }

  /** Everything an exchange puts on the bus before its closing SYN. */
  function Payload(lib: Library, x: Exchange): seq<Byte> {
    var request := CanonicalFrameBytes(lib, x.request);
    match x
    case BroadcastExchange(_) => request
    case InitiatorExchange(_) => request + [ACK]
    case TargetExchange(_, answer) => request + [ACK] + ResponseBytes(lib, answer) + [ACK]
  }

  function ResponseFrame(request: Frame, answer: seq<Byte>): Frame {
    Frame(request.target, request.source, request.primary, request.secondary, answer)
  }

  /** The inputs hand over exactly these tap events, whatever the gateway's own address is. */
  ghost predicate Delivers(inputs: seq<Input>, events: seq<TapEvent>) {
    |inputs| == |events| && forall i :: 0 <= i < |inputs| ==> inputs[i].Tap? && inputs[i].event == events[i]
  }

  /** The symbol of a byte of a frame: one with the value of a SYN arrives marked as escaped. */
  ghost predicate IsByte(input: Input, b: Byte) {
    && input.Tap? && input.event.Symbol?
    && input.event.b == b && (b == SYN ==> input.event.wasEscaped)
  }

  ghost predicate DeliversBytes(inputs: seq<Input>, bytes: seq<Byte>) {
    |inputs| == |bytes| && forall i :: 0 <= i < |inputs| ==> IsByte(inputs[i], bytes[i])
  }

  ghost predicate IsSyn(input: Input) {
    input.Tap? && input.event == Symbol(SYN, false, input.event.at)
  }

  ghost predicate IsSynValued(input: Input) {
    input.Tap? && input.event.Symbol? && input.event.b == SYN
  }

  /** What closes an exchange: any symbol with the value of a SYN, but a broadcast takes only a real one. */
  ghost predicate Closes(input: Input, x: Exchange) {
    IsSynValued(input) && (x.BroadcastExchange? ==> !input.event.wasEscaped)
  }

  /** The inputs are the symbols of an exchange and the one that closes it. */
  ghost predicate DeliversExchange(lib: Library, inputs: seq<Input>, x: Exchange) {
    var n := |Payload(lib, x)|;
    && |inputs| == n + 1
    && (forall i :: 0 <= i < n ==> IsByte(inputs[i], Payload(lib, x)[i]))
    && Closes(inputs[n], x)
  }

  ghost predicate Soon(cfg: Config, before: Input, after: Input) {
    before.Tap? && after.Tap? && after.event.at - before.event.at <= cfg.watchdog
  }

  ghost predicate InTime(cfg: Config, inputs: seq<Input>, i: int)
    requires 0 < i < |inputs|
  {
    Soon(cfg, inputs[i - 1], inputs[i])
  }

  /** No pause between consecutive symbols exceeds the watchdog. */
  ghost predicate NoPause(cfg: Config, inputs: seq<Input>) {
    forall i :: 0 < i < |inputs| ==> InTime(cfg, inputs, i)
  }

  lemma NoPauseWithin(cfg: Config, inputs: seq<Input>, a: int, b: int)
    requires 0 <= a <= b <= |inputs| && NoPause(cfg, inputs)
    ensures NoPause(cfg, inputs[a..b])
  {
    forall i | 0 < i < b - a
      ensures InTime(cfg, inputs[a..b], i)
    {
      assert InTime(cfg, inputs, a + i);
    }
  }

  /** The event an exchange must lead to, given when each of its symbols was seen. */
  function SuccessEvent(lib: Library, x: Exchange, at: seq<int>): Event
    requires |at| == |Payload(lib, x)| + 1
  {
    var r := |CanonicalFrameBytes(lib, x.request)|;
    var end := at[|at| - 1];
    match x
    case BroadcastExchange(request) =>
      BroadcastFrame(request, Timing(Some(at[0]), Some(end), None, None, Some(end)), end)
    case InitiatorExchange(request) =>
      InitiatorFrame(request, Timing(Some(at[0]), Some(at[r - 1]), None, None, Some(end)), end, Some(ACK))
    case TargetExchange(request, answer) =>
      Transaction(request, ResponseFrame(request, answer),
                  Timing(Some(at[0]), Some(at[r - 1]), Some(at[r + 1]), Some(at[|at| - 3]), Some(end)), end, Some(ACK))
  }

  function Times(inputs: seq<Input>): seq<int>
    requires forall i :: 0 <= i < |inputs| ==> inputs[i].Tap?
  {
    seq(|inputs|, i requires 0 <= i < |inputs| => inputs[i].event.at)
  }

  /** A symbol that arrives in time is simply handled. */
  lemma StepInTime(cfg: Config, s: State, input: Input)
    requires input.Tap? && input.event.Symbol?
    requires s.lastProgressAt.Some? ==> input.event.at - s.lastProgressAt.value <= cfg.watchdog
    ensures var e := input.event;
            var o := HandleSymbol(cfg.lib, s, e.b, e.wasEscaped, e.at, input.local);
            StepState(cfg, s, input) == o.state && StepEvents(cfg, s, input) == Emitted(o.event)
  {
  }

  /** The state while `raw` is being read. */
  function Reading(raw: seq<Byte>, start: int, last: int): State
    requires raw != []
  {
    StartRequest(raw[0], start).(requestRaw := raw, lastProgressAt := Some(last))
  }

  /** The state once an addressed request is complete. */
  function Waiting(lib: Library, raw: seq<Byte>, request: Frame, start: int, last: int): State
    requires raw != []
  {
    Reading(raw, start, last).(phase := WaitAck, request := request, frameType := lib.frameType(request.target),
                               timing := NO_TIMING.(requestStart := Some(start), requestEnd := Some(last)))
  }

  lemma FirstByte(lib: Library, b: Byte, escaped: bool, at: int, local: Option<Byte>)
    requires lib.isSource(b) && IsInitiatorAddr(b) && b != SYN
    ensures HandleSymbol(lib, Fresh(true), b, escaped, at, local) == Outcome(Reading([b], at, at), None)
  {
  }

  lemma NextByte(lib: Library, raw: seq<Byte>, b: Byte, escaped: bool, start: int, last: int, at: int, local: Option<Byte>)
    requires 1 <= |raw| < MAX_REQUEST_BYTES && (b == SYN ==> escaped)
    requires |raw| == 1 ==> AcceptsTarget(b)
    requires |raw| == 4 ==> b <= MAX_DATA_LEN
    requires |raw| >= 5 ==> |raw| + 1 != 6 + raw[4] as int
    ensures HandleSymbol(lib, Reading(raw, start, last), b, escaped, at, local) ==
            Outcome(Reading(raw + [b], start, at), None)
  {
  }

  lemma LastByte(lib: Library, raw: seq<Byte>, b: Byte, escaped: bool, request: Frame, start: int, last: int, at: int,
                 local: Option<Byte>)
    requires (b == SYN ==> escaped) && 5 <= |raw| < MAX_REQUEST_BYTES && |raw| + 1 == 6 + raw[4] as int
    requires ParseFrame(lib, raw + [b]) == Some(request)
    ensures HandleSymbol(lib, Reading(raw, start, last), b, escaped, at, local) ==
            Outcome(if IsAddressed(lib, request) then Waiting(lib, raw + [b], request, start, at)
                    else Reading(raw + [b], start, at), None)
  {
  }

  /** `raw` is `request` on the bus, and the reconstructor has no reason to refuse it. */
  ghost predicate Acceptable(lib: Library, raw: seq<Byte>, request: Frame) {
    && 6 <= |raw| <= 22 && |raw| == 6 + raw[4] as int
    && lib.isSource(raw[0]) && IsInitiatorAddr(raw[0]) && raw[0] != SYN && AcceptsTarget(raw[1])
    && ParseFrame(lib, raw) == Some(request)
  }

  lemma RequestIsAcceptable(lib: Library, request: Frame)
    requires WellFormedRequest(lib, request)
    ensures Acceptable(lib, CanonicalFrameBytes(lib, request), request)
  {
    CanonicalRoundTrip(lib, request);
  }

  /** The state after the first `k` bytes of a request. */
  ghost function RequestPoint(lib: Library, raw: seq<Byte>, request: Frame, start: int, last: int, k: nat): State
    requires 1 <= k <= |raw|
  {
    if k == |raw| && IsAddressed(lib, request) then Waiting(lib, raw, request, start, last)
    else Reading(raw[..k], start, last)
  }

  lemma ReadNext(cfg: Config, raw: seq<Byte>, request: Frame, start: int, last: int, input: Input, k: nat)
    requires Acceptable(cfg.lib, raw, request)
    requires 2 <= k <= |raw| && IsByte(input, raw[k - 1])
    requires input.event.at - last <= cfg.watchdog
    ensures var s := Reading(raw[..k - 1], start, last);
            && StepState(cfg, s, input) == RequestPoint(cfg.lib, raw, request, start, input.event.at, k)
            && StepEvents(cfg, s, input) == []
  {
    StepInTime(cfg, Reading(raw[..k - 1], start, last), input);
    assert raw[..k] == raw[..k - 1] + [raw[k - 1]];
    if k < |raw| {
      NextByte(cfg.lib, raw[..k - 1], raw[k - 1], input.event.wasEscaped, start, last, input.event.at, input.local);
    } else {
      assert raw[..k] == raw;
      LastByte(cfg.lib, raw[..k - 1], raw[k - 1], input.event.wasEscaped, request, start, last, input.event.at, input.local);
    }
  }

  lemma ReadFirst(cfg: Config, raw: seq<Byte>, request: Frame, input: Input)
    requires Acceptable(cfg.lib, raw, request)
    requires IsByte(input, raw[0])
    ensures var at := input.event.at;
            StepState(cfg, Fresh(true), input) == RequestPoint(cfg.lib, raw, request, at, at, 1)
    ensures StepEvents(cfg, Fresh(true), input) == []
  {
    FirstByte(cfg.lib, raw[0], input.event.wasEscaped, input.event.at, input.local);
    StepInTime(cfg, Fresh(true), input);
    assert raw[..1] == [raw[0]];
  }

  /** Reading a request: nothing is reported, and only complete addressed requests move on. */
  lemma {:induction false} ReadRequest(cfg: Config, raw: seq<Byte>, request: Frame, inputs: seq<Input>)
    requires Acceptable(cfg.lib, raw, request)
    requires 1 <= |inputs| <= |raw| && DeliversBytes(inputs, raw[..|inputs|]) && NoPause(cfg, inputs)
    ensures var k := |inputs|;
            StateAfter(Rec(cfg), Fresh(true), inputs) ==
            RequestPoint(cfg.lib, raw, request, inputs[0].event.at, inputs[k - 1].event.at, k)
    ensures Output(Rec(cfg), Fresh(true), inputs) == []
  {
    var k := |inputs| - 1;
    var front, input := inputs[..k], inputs[k];
    assert inputs == front + [input];
    RunAppend(Rec(cfg), Fresh(true), front, input);
    if k == 0 {
      ReadFirst(cfg, raw, request, input);
    } else {
      assert IsByte(input, raw[k]) && IsByte(inputs[k - 1], raw[k - 1]) && IsByte(inputs[0], raw[0]);
      assert InTime(cfg, inputs, k);
      NoPauseWithin(cfg, inputs, 0, k);
      ReadRequest(cfg, raw, request, front);
      ReadNext(cfg, raw, request, inputs[0].event.at, inputs[k - 1].event.at, input, k + 1);
    }
  }

  /** `raw` is the answer to `request` on the bus, with a valid checksum. */
  ghost predicate AcceptableAnswer(lib: Library, raw: seq<Byte>, request: Frame, answer: seq<Byte>) {
    && 2 <= |raw| && raw[0] <= MAX_DATA_LEN && |raw| == raw[0] as int + 2
    && ParseResponse(lib, request, raw) == (ResponseFrame(request, answer), true)
  }

  lemma AnswerIsAcceptable(lib: Library, request: Frame, answer: seq<Byte>)
    requires |answer| <= MAX_DATA_LEN
    ensures AcceptableAnswer(lib, ResponseBytes(lib, answer), request, answer)
  {
    var raw := ResponseBytes(lib, answer);
    assert raw[..|raw| - 1] == [raw[0]] + answer;
    assert raw[1..|raw| - 1] == answer;
  }

  /** The acknowledge of a request to a target was just read. */
  ghost predicate Listens(s: State) {
    s.phase == WaitResponse && s.responseRaw == [] && s.lastProgressAt.Some?
  }

  function Listening(s: State, raw: seq<Byte>, start: int, last: int): State
    requires raw != []
  {
    s.(responseRaw := raw, responseExpectedLen := raw[0] as int + 2,
       timing := s.timing.(responseStart := Some(start)), lastProgressAt := Some(last))
  }

  /** The state after the first `k` bytes of an answer. */
  ghost function AnswerPoint(s: State, raw: seq<Byte>, answer: seq<Byte>, start: int, last: int, k: nat): State
    requires 1 <= k <= |raw|
  {
    var s1 := Listening(s, raw[..k], start, last);
    if k == |raw| then
      s1.(phase := WaitFinalAck, response := ResponseFrame(s.request, answer), responseCrcValid := true,
          timing := s1.timing.(responseEnd := Some(last)))
    else
      s1
  }

  lemma HearFirst(cfg: Config, s: State, raw: seq<Byte>, answer: seq<Byte>, input: Input)
    requires AcceptableAnswer(cfg.lib, raw, s.request, answer)
    requires Listens(s) && IsByte(input, raw[0]) && input.event.at - s.lastProgressAt.value <= cfg.watchdog
    ensures var at := input.event.at; StepState(cfg, s, input) == AnswerPoint(s, raw, answer, at, at, 1)
    ensures StepEvents(cfg, s, input) == []
  {
    StepInTime(cfg, s, input);
    assert raw[..1] == [raw[0]];
  }

  lemma HearMore(lib: Library, s: State, raw: seq<Byte>, b: Byte, escaped: bool, start: int, last: int, at: int,
                 local: Option<Byte>)
    requires (b == SYN ==> escaped) && Listens(s) && 1 <= |raw| && |raw| + 1 < raw[0] as int + 2
    ensures HandleSymbol(lib, Listening(s, raw, start, last), b, escaped, at, local) ==
            Outcome(Listening(s, raw + [b], start, at), None)
  {
  }

  lemma HearLast(
    lib: Library, s: State, raw: seq<Byte>, b: Byte, escaped: bool, answer: seq<Byte>, start: int, last: int, at: int,
    local: Option<Byte>)
    requires (b == SYN ==> escaped) && Listens(s) && 1 <= |raw| && AcceptableAnswer(lib, raw + [b], s.request, answer)
    ensures HandleSymbol(lib, Listening(s, raw, start, last), b, escaped, at, local) ==
            Outcome(AnswerPoint(s, raw + [b], answer, start, at, |raw| + 1), None)
  {
    assert (raw + [b])[..|raw| + 1] == raw + [b];
  }

  lemma HearNext(cfg: Config, s: State, raw: seq<Byte>, answer: seq<Byte>, start: int, last: int, input: Input, k: nat)
    requires AcceptableAnswer(cfg.lib, raw, s.request, answer)
    requires Listens(s) && 2 <= k <= |raw|
    requires IsByte(input, raw[k - 1]) && input.event.at - last <= cfg.watchdog
    ensures var s1 := Listening(s, raw[..k - 1], start, last);
            && StepState(cfg, s1, input) == AnswerPoint(s, raw, answer, start, input.event.at, k)
            && StepEvents(cfg, s1, input) == []
  {
    StepInTime(cfg, Listening(s, raw[..k - 1], start, last), input);
    assert raw[..k] == raw[..k - 1] + [raw[k - 1]];
    if k < |raw| {
      HearMore(cfg.lib, s, raw[..k - 1], raw[k - 1], input.event.wasEscaped, start, last, input.event.at, input.local);
    } else {
      assert raw[..k] == raw;
      HearLast(cfg.lib, s, raw[..k - 1], raw[k - 1], input.event.wasEscaped, answer, start, last, input.event.at, input.local);
    }
  }

  lemma {:induction false} HearAnswer(cfg: Config, s: State, raw: seq<Byte>, answer: seq<Byte>, inputs: seq<Input>)
    requires AcceptableAnswer(cfg.lib, raw, s.request, answer) && Listens(s)
    requires 1 <= |inputs| <= |raw| && DeliversBytes(inputs, raw[..|inputs|]) && NoPause(cfg, inputs)
    requires inputs[0].event.at - s.lastProgressAt.value <= cfg.watchdog
    ensures var k := |inputs|;
            StateAfter(Rec(cfg), s, inputs) ==
            AnswerPoint(s, raw, answer, inputs[0].event.at, inputs[k - 1].event.at, k)
    ensures Output(Rec(cfg), s, inputs) == []
  {
    var k := |inputs| - 1;
    var front, input := inputs[..k], inputs[k];
    assert inputs == front + [input];
    RunAppend(Rec(cfg), s, front, input);
    if k == 0 {
      HearFirst(cfg, s, raw, answer, input);
    } else {
      assert IsByte(input, raw[k]) && IsByte(inputs[k - 1], raw[k - 1]) && IsByte(inputs[0], raw[0]);
      assert InTime(cfg, inputs, k);
      NoPauseWithin(cfg, inputs, 0, k);
      HearAnswer(cfg, s, raw, answer, front);
      HearNext(cfg, s, raw, answer, inputs[0].event.at, inputs[k - 1].event.at, input, k + 1);
    }
  }

  /** The closing SYN of a broadcast. */
  lemma EndBroadcast(cfg: Config, raw: seq<Byte>, request: Frame, start: int, last: int, input: Input)
    requires Acceptable(cfg.lib, raw, request) && cfg.lib.frameType(request.target) == Broadcast
    requires input.Tap? && input.event == Symbol(SYN, false, input.event.at) && input.event.at - last <= cfg.watchdog
    ensures var s := Reading(raw, start, last);
            var at := input.event.at;
            && StepState(cfg, s, input) == Fresh(true)
            && StepEvents(cfg, s, input) ==
               [BroadcastFrame(request, Timing(Some(start), Some(at), None, None, Some(at)), at)]
  {
    StepInTime(cfg, Reading(raw, start, last), input);
  }

  /** The acknowledge of an addressed request. */
  lemma Acknowledge(cfg: Config, s: State, input: Input)
    requires s.phase == WaitAck && s.lastProgressAt.Some?
    requires IsByte(input, ACK) && input.event.at - s.lastProgressAt.value <= cfg.watchdog
    ensures StepState(cfg, s, input) ==
            if s.frameType == InitiatorInitiator then
              s.(phase := WaitTerminal, ack := Some(ACK), lastProgressAt := Some(input.event.at))
            else
              s.(phase := WaitResponse, ack := Some(ACK), lastProgressAt := Some(input.event.at),
                 responseRaw := [], responseExpectedLen := 0, responseCrcValid := false)
    ensures StepEvents(cfg, s, input) == []
  {
    StepInTime(cfg, s, input);
  }

  lemma AcknowledgeAnswer(cfg: Config, s: State, input: Input)
    requires s.phase == WaitFinalAck && s.responseCrcValid && s.lastProgressAt.Some?
    requires IsByte(input, ACK) && input.event.at - s.lastProgressAt.value <= cfg.watchdog
    ensures StepState(cfg, s, input) == s.(phase := WaitTerminal, lastProgressAt := Some(input.event.at))
    ensures StepEvents(cfg, s, input) == []
  {
    StepInTime(cfg, s, input);
  }

  lemma Terminate(cfg: Config, s: State, input: Input)
    requires s.phase == WaitTerminal && s.lastProgressAt.Some?
    requires s.frameType == InitiatorInitiator || s.frameType == InitiatorTarget
    requires IsSynValued(input) && input.event.at - s.lastProgressAt.value <= cfg.watchdog
    ensures StepState(cfg, s, input) == Fresh(true)
    ensures var timing := s.timing.(terminal := Some(input.event.at));
            StepEvents(cfg, s, input) ==
            [if s.frameType == InitiatorInitiator then InitiatorFrame(s.request, timing, input.event.at, s.ack)
             else Transaction(s.request, s.response, timing, input.event.at, s.ack)]
  {
    StepInTime(cfg, s, input);
  }

  lemma BroadcastRoundTrip(cfg: Config, raw: seq<Byte>, request: Frame, sent: seq<Input>, syn: Input)
    requires Acceptable(cfg.lib, raw, request) && cfg.lib.frameType(request.target) == Broadcast
    requires DeliversBytes(sent, raw) && NoPause(cfg, sent)
    requires IsSyn(syn) && Soon(cfg, sent[|sent| - 1], syn)
    ensures IsByte(sent[0], raw[0])
    ensures StateAfter(Rec(cfg), Fresh(true), sent + [syn]) == Fresh(true)
    ensures var at := syn.event.at;
            Output(Rec(cfg), Fresh(true), sent + [syn]) ==
            [BroadcastFrame(request, Timing(Some(sent[0].event.at), Some(at), None, None, Some(at)), at)]
  {
    assert raw[..|sent|] == raw;
    ReadRequest(cfg, raw, request, sent);
    RunAppend(Rec(cfg), Fresh(true), sent, syn);
    EndBroadcast(cfg, raw, request, sent[0].event.at, sent[|sent| - 1].event.at, syn);
  }

  lemma ReadAddressed(cfg: Config, raw: seq<Byte>, request: Frame, sent: seq<Input>, ack: Input)
    requires Acceptable(cfg.lib, raw, request) && IsAddressed(cfg.lib, request)
    requires DeliversBytes(sent, raw) && NoPause(cfg, sent)
    requires IsByte(ack, ACK) && Soon(cfg, sent[|sent| - 1], ack)
    ensures IsByte(sent[0], raw[0])
    ensures var s := Waiting(cfg.lib, raw, request, sent[0].event.at, sent[|sent| - 1].event.at);
            StateAfter(Rec(cfg), Fresh(true), sent + [ack]) ==
            s.(phase := if cfg.lib.frameType(request.target) == InitiatorInitiator then WaitTerminal else WaitResponse,
               ack := Some(ACK), lastProgressAt := Some(ack.event.at))
    ensures Output(Rec(cfg), Fresh(true), sent + [ack]) == []
  {
    assert raw[..|sent|] == raw;
    ReadRequest(cfg, raw, request, sent);
    RunAppend(Rec(cfg), Fresh(true), sent, ack);
    Acknowledge(cfg, Waiting(cfg.lib, raw, request, sent[0].event.at, sent[|sent| - 1].event.at), ack);
  }

  lemma InitiatorRoundTrip(cfg: Config, raw: seq<Byte>, request: Frame, sent: seq<Input>, ack: Input, syn: Input)
    requires Acceptable(cfg.lib, raw, request) && cfg.lib.frameType(request.target) == InitiatorInitiator
    requires DeliversBytes(sent, raw) && NoPause(cfg, sent)
    requires IsByte(ack, ACK) && Soon(cfg, sent[|sent| - 1], ack) && IsSynValued(syn) && Soon(cfg, ack, syn)
    ensures IsByte(sent[0], raw[0])
    ensures StateAfter(Rec(cfg), Fresh(true), sent + [ack] + [syn]) == Fresh(true)
    ensures var timing := Timing(Some(sent[0].event.at), Some(sent[|sent| - 1].event.at), None, None, Some(syn.event.at));
            Output(Rec(cfg), Fresh(true), sent + [ack] + [syn]) ==
            [InitiatorFrame(request, timing, syn.event.at, Some(ACK))]
  {
    ReadAddressed(cfg, raw, request, sent, ack);
    RunAppend(Rec(cfg), Fresh(true), sent + [ack], syn);
    Terminate(cfg, StateAfter(Rec(cfg), Fresh(true), sent + [ack]), syn);
  }

  lemma TargetRoundTrip(
    cfg: Config, raw: seq<Byte>, request: Frame, sent: seq<Input>, ack: Input,
    back: seq<Byte>, answer: seq<Byte>, heard: seq<Input>, finalAck: Input, syn: Input)
    requires Acceptable(cfg.lib, raw, request) && cfg.lib.frameType(request.target) == InitiatorTarget
    requires DeliversBytes(sent, raw) && NoPause(cfg, sent)
    requires IsByte(ack, ACK) && Soon(cfg, sent[|sent| - 1], ack)
    requires AcceptableAnswer(cfg.lib, back, request, answer)
    requires DeliversBytes(heard, back) && NoPause(cfg, heard) && Soon(cfg, ack, heard[0])
    requires IsByte(finalAck, ACK) && Soon(cfg, heard[|heard| - 1], finalAck) && IsSynValued(syn) && Soon(cfg, finalAck, syn)
    ensures IsByte(sent[0], raw[0])
    ensures StateAfter(Rec(cfg), Fresh(true), sent + [ack] + heard + [finalAck] + [syn]) == Fresh(true)
    ensures var timing := Timing(Some(sent[0].event.at), Some(sent[|sent| - 1].event.at),
                                 Some(heard[0].event.at), Some(heard[|heard| - 1].event.at), Some(syn.event.at));
            Output(Rec(cfg), Fresh(true), sent + [ack] + heard + [finalAck] + [syn]) ==
            [Transaction(request, ResponseFrame(request, answer), timing, syn.event.at, Some(ACK))]
  {
    var m := Rec(cfg);
    var h1 := sent + [ack];
    ReadAddressed(cfg, raw, request, sent, ack);
    var s1 := StateAfter(m, Fresh(true), h1);
    assert back[..|heard|] == back;
    HearAnswer(cfg, s1, back, answer, heard);
    RunConcat(m, Fresh(true), h1, heard);
    var s2 := StateAfter(m, Fresh(true), h1 + heard);
    RunAppend(m, Fresh(true), h1 + heard, finalAck);
    AcknowledgeAnswer(cfg, s2, finalAck);
    RunAppend(m, Fresh(true), h1 + heard + [finalAck], syn);
    Terminate(cfg, s2.(phase := WaitTerminal, lastProgressAt := Some(finalAck.event.at)), syn);
  }

  lemma BroadcastExchangeRoundTrip(cfg: Config, x: Exchange, inputs: seq<Input>)
    requires x.BroadcastExchange? && WellFormed(cfg.lib, x)
    requires DeliversExchange(cfg.lib, inputs, x) && NoPause(cfg, inputs)
    ensures StateAfter(Rec(cfg), Fresh(true), inputs) == Fresh(true)
    ensures Output(Rec(cfg), Fresh(true), inputs) == [SuccessEvent(cfg.lib, x, Times(inputs))]
  {
    var raw := CanonicalFrameBytes(cfg.lib, x.request);
    RequestIsAcceptable(cfg.lib, x.request);
    var r := |raw|;
    assert inputs == inputs[..r] + [inputs[r]];
    NoPauseWithin(cfg, inputs, 0, r);
    assert InTime(cfg, inputs, r);
    BroadcastRoundTrip(cfg, raw, x.request, inputs[..r], inputs[r]);
  }

  lemma InitiatorExchangeRoundTrip(cfg: Config, x: Exchange, inputs: seq<Input>)
    requires x.InitiatorExchange? && WellFormed(cfg.lib, x)
    requires DeliversExchange(cfg.lib, inputs, x) && NoPause(cfg, inputs)
    ensures StateAfter(Rec(cfg), Fresh(true), inputs) == Fresh(true)
    ensures Output(Rec(cfg), Fresh(true), inputs) == [SuccessEvent(cfg.lib, x, Times(inputs))]
  {
    var raw := CanonicalFrameBytes(cfg.lib, x.request);
    RequestIsAcceptable(cfg.lib, x.request);
    var r := |raw|;
    assert inputs == inputs[..r] + [inputs[r]] + [inputs[r + 1]];
    NoPauseWithin(cfg, inputs, 0, r);
    assert IsByte(inputs[r], ACK);
    assert forall i :: 0 <= i < r ==> Payload(cfg.lib, x)[i] == raw[i];
    assert InTime(cfg, inputs, r) && InTime(cfg, inputs, r + 1);
    InitiatorRoundTrip(cfg, raw, x.request, inputs[..r], inputs[r], inputs[r + 1]);
  }

  lemma DeliversPart(inputs: seq<Input>, payload: seq<Byte>, a: int, b: int)
    requires 0 <= a <= b <= |payload| <= |inputs|
    requires forall i :: 0 <= i < |payload| ==> IsByte(inputs[i], payload[i])
    ensures DeliversBytes(inputs[a..b], payload[a..b])
  {
  }

  lemma FivePieces<T>(s: seq<T>, r: int, a: int)
    requires 0 <= r < a && |s| == a + 2
    ensures s == s[..r] + [s[r]] + s[r + 1..a] + [s[a]] + [s[a + 1]]
  {
  }

  /** The symbols of a request, its acknowledge, the answer, its acknowledge and the closing SYN. */
  lemma SplitTarget(cfg: Config, payload: seq<Byte>, raw: seq<Byte>, back: seq<Byte>, inputs: seq<Input>)
    requires raw != [] && back != []
    requires payload == raw + [ACK] + back + [ACK]
    requires |inputs| == |payload| + 1 && NoPause(cfg, inputs)
    requires forall i :: 0 <= i < |payload| ==> IsByte(inputs[i], payload[i])
    ensures var r, a := |raw|, |raw| + 1 + |back|;
            && DeliversBytes(inputs[..r], raw) && NoPause(cfg, inputs[..r])
            && DeliversBytes(inputs[r + 1..a], back) && NoPause(cfg, inputs[r + 1..a])
            && IsByte(inputs[r], ACK) && IsByte(inputs[a], ACK)
  {
    var r, a := |raw|, |raw| + 1 + |back|;
    DeliversPart(inputs, payload, 0, r);
    DeliversPart(inputs, payload, r + 1, a);
    assert payload[..r] == raw && payload[r + 1..a] == back;
    assert payload[r] == ACK && payload[a] == ACK;
    NoPauseWithin(cfg, inputs, 0, r);
    NoPauseWithin(cfg, inputs, r + 1, a);
  }

  lemma TargetSuccessEvent(lib: Library, x: Exchange, inputs: seq<Input>)
    requires x.TargetExchange? && |inputs| == |Payload(lib, x)| + 1
    requires forall i :: 0 <= i < |inputs| ==> inputs[i].Tap?
    ensures var r := |CanonicalFrameBytes(lib, x.request)|;
            var a := r + 1 + |ResponseBytes(lib, x.answer)|;
            && 6 <= r && r + 3 <= a && |inputs| == a + 2
            && SuccessEvent(lib, x, Times(inputs)) ==
               Transaction(x.request, ResponseFrame(x.request, x.answer),
                           Timing(Some(inputs[0].event.at), Some(inputs[r - 1].event.at), Some(inputs[r + 1].event.at),
                                  Some(inputs[a - 1].event.at), Some(inputs[a + 1].event.at)),
                           inputs[a + 1].event.at, Some(ACK))
  {
  }

  lemma TargetInOnePiece(
    cfg: Config, raw: seq<Byte>, request: Frame, back: seq<Byte>, answer: seq<Byte>, inputs: seq<Input>)
    requires Acceptable(cfg.lib, raw, request) && cfg.lib.frameType(request.target) == InitiatorTarget
    requires AcceptableAnswer(cfg.lib, back, request, answer)
    requires var r, a := |raw|, |raw| + 1 + |back|;
             && |inputs| == a + 2
             && DeliversBytes(inputs[..r], raw) && NoPause(cfg, inputs[..r])
             && DeliversBytes(inputs[r + 1..a], back) && NoPause(cfg, inputs[r + 1..a])
             && IsByte(inputs[r], ACK) && IsByte(inputs[a], ACK) && IsSynValued(inputs[a + 1])
             && InTime(cfg, inputs, r) && InTime(cfg, inputs, r + 1) && InTime(cfg, inputs, a) && InTime(cfg, inputs, a + 1)
    ensures var r, a := |raw|, |raw| + 1 + |back|;
            && inputs[0].Tap? && inputs[r - 1].Tap? && inputs[r + 1].Tap? && inputs[a - 1].Tap?
            && StateAfter(Rec(cfg), Fresh(true), inputs) == Fresh(true)
            && Output(Rec(cfg), Fresh(true), inputs) ==
               [Transaction(request, ResponseFrame(request, answer),
                            Timing(Some(inputs[0].event.at), Some(inputs[r - 1].event.at), Some(inputs[r + 1].event.at),
                                   Some(inputs[a - 1].event.at), Some(inputs[a + 1].event.at)),
                            inputs[a + 1].event.at, Some(ACK))]
  {
    hide StateAfter, Output, ParseFrame, ParseResponse;
    var r, a := |raw|, |raw| + 1 + |back|;
    FivePieces(inputs, r, a);
    TargetRoundTrip(cfg, raw, request, inputs[..r], inputs[r], back, answer, inputs[r + 1..a], inputs[a], inputs[a + 1]);
  }

  lemma TargetExchangeRoundTrip(cfg: Config, x: Exchange, inputs: seq<Input>)
    requires x.TargetExchange? && WellFormed(cfg.lib, x)
    requires DeliversExchange(cfg.lib, inputs, x) && NoPause(cfg, inputs)
    ensures StateAfter(Rec(cfg), Fresh(true), inputs) == Fresh(true)
    ensures Output(Rec(cfg), Fresh(true), inputs) == [SuccessEvent(cfg.lib, x, Times(inputs))]
  {
    hide StateAfter, Output, CanonicalFrameBytes, ResponseBytes, ParseFrame, ParseResponse;
    var raw := CanonicalFrameBytes(cfg.lib, x.request);
    var back := ResponseBytes(cfg.lib, x.answer);
    RequestIsAcceptable(cfg.lib, x.request);
    AnswerIsAcceptable(cfg.lib, x.request, x.answer);
    SplitTarget(cfg, Payload(cfg.lib, x), raw, back, inputs);
    var r, a := |raw|, |raw| + 1 + |back|;
    assert InTime(cfg, inputs, r) && InTime(cfg, inputs, r + 1) && InTime(cfg, inputs, a) && InTime(cfg, inputs, a + 1);
    TargetInOnePiece(cfg, raw, x.request, back, x.answer, inputs);
    TargetSuccessEvent(cfg.lib, x, inputs);
  }

  /** From an open gate, a well-formed exchange leads to its event and nothing else. */
  lemma ExchangeRoundTrip(cfg: Config, x: Exchange, inputs: seq<Input>)
    requires WellFormed(cfg.lib, x)
    requires DeliversExchange(cfg.lib, inputs, x) && NoPause(cfg, inputs)
    ensures StateAfter(Rec(cfg), Fresh(true), inputs) == Fresh(true)
    ensures Output(Rec(cfg), Fresh(true), inputs) == [SuccessEvent(cfg.lib, x, Times(inputs))]
  {
    match x
    case BroadcastExchange(_) => BroadcastExchangeRoundTrip(cfg, x, inputs);
    case InitiatorExchange(_) => InitiatorExchangeRoundTrip(cfg, x, inputs);
    case TargetExchange(_, _) => TargetExchangeRoundTrip(cfg, x, inputs);
  }
}
