/**
 * No diagnosis is invented either: the reason of an abandoned event says what the symbols since
 * the gate was opened really were, and what ended them.
 */
module Diagnosis {
  import opened Protocol
  import opened WireLog
  import opened BusTap
  import opened Reconstructor
  import opened Synchronisation
  import opened RoundTrip
  import opened Soundness

  // ---- requests and answers in a row of bytes ----

  /** Where the request in `seen` ends, by its LEN byte. */
  function RequestEnd(seen: seq<Byte>): int {
    if |seen| < 5 then 0 else 6 + seen[4] as int
  }

  /** Fewer bytes than the LEN byte announces. */
  predicate Truncated(seen: seq<Byte>) {
    |seen| >= 5 && seen[4] <= MAX_DATA_LEN && |seen| < RequestEnd(seen)
  }

  /** As many bytes as announced, and the last one is not their checksum. */
  predicate BadChecksum(lib: Library, seen: seq<Byte>) {
    |seen| >= 6 && |seen| == RequestEnd(seen) && lib.crc(seen[..|seen| - 1]) != seen[|seen| - 1]
  }

  /** More bytes than announced. */
  predicate Overlong(seen: seq<Byte>) {
    |seen| >= 5 && |seen| > RequestEnd(seen)
  }

  /** A complete request to a target and its positive acknowledge, perhaps with more after it. */
  predicate Acknowledged(lib: Library, seen: seq<Byte>) {
    var r := RequestEnd(seen);
    && 6 <= r < |seen| && seen[r] == ACK
    && ParseFrame(lib, seen[..r]).Some? && lib.frameType(ParseFrame(lib, seen[..r]).value.target) == InitiatorTarget
  }

  /** What followed the acknowledge. */
  function AnswerIn(seen: seq<Byte>): seq<Byte> {
    if 0 <= RequestEnd(seen) < |seen| then seen[RequestEnd(seen) + 1..] else []
  }

  predicate WholeAnswer(answer: seq<Byte>) {
    |answer| >= 2 && |answer| == answer[0] as int + 2
  }

  predicate PartialAnswer(answer: seq<Byte>) {
    |answer| >= 1 && |answer| < answer[0] as int + 2
  }

  predicate ValidAnswer(lib: Library, answer: seq<Byte>) {
    WholeAnswer(answer) && lib.crc(answer[..|answer| - 1]) == answer[|answer| - 1]
  }

  /** An acknowledged request to an initiator. */
  predicate InitiatorPayload(lib: Library, seen: seq<Byte>) {
    && seen != [] && seen[|seen| - 1] == ACK
    && var raw := seen[..|seen| - 1];
       ParseFrame(lib, raw).Some? && lib.frameType(ParseFrame(lib, raw).value.target) == InitiatorInitiator
  }

  /** An acknowledged request to a target with its valid and acknowledged answer. */
  predicate TargetPayload(lib: Library, seen: seq<Byte>) {
    && seen != [] && seen[|seen| - 1] == ACK
    && Acknowledged(lib, seen[..|seen| - 1]) && ValidAnswer(lib, AnswerIn(seen[..|seen| - 1]))
  }

  // ---- what the reasons claim ----

  /** A request that is broken: a raw SYN comes too late for it, or its checksum is wrong. */
  predicate Corrupt(lib: Library, seen: seq<Byte>, b: Byte, escaped: bool) {
    if b == SYN && !escaped then Overlong(seen) else BadChecksum(lib, seen + [b])
  }

  /** A request that a raw SYN cuts short. */
  predicate CutShort(seen: seq<Byte>, b: Byte, escaped: bool) {
    Truncated(seen) && b == SYN && !escaped
  }

  /** What a reason claims about the bytes seen since the gate was opened and the symbol that followed. */
  predicate Means(lib: Library, reason: AbandonReason, seen: seq<Byte>, b: Byte, escaped: bool, local: Option<Byte>) {
    var own := IsSelfOriginated(seen, local);
    var scan := IsScanProbe(seen);
    var answer := AnswerIn(seen);
    match reason
    case InvalidQQ => seen == [] && lib.isSource(b) && !IsInitiatorAddr(b)
    case InvalidZZ => |seen| == 1 && (b == SYN || b == ESC)
    case InvalidNNInitiator => |seen| == 4 && b > MAX_DATA_LEN
    case BufferOverflow => |seen| == MAX_REQUEST_BYTES && Overlong(seen)
    case ArbitrationFragment => 0 < |seen| < 5 && b == SYN && !escaped
    case CorruptedRequest => !own && !scan && Corrupt(lib, seen, b, escaped)
    case ScanCollision => !own && scan && (Corrupt(lib, seen, b, escaped) || CutShort(seen, b, escaped))
    case SelfEcho =>
      own && (|| Corrupt(lib, seen, b, escaped) || CutShort(seen, b, escaped)
              || (AddressedRequest(lib, seen) && !scan && b == SYN))
    case CorruptedTarget =>
      var parsed := ParseFrame(lib, seen);
      parsed.Some? && lib.frameType(parsed.value.target) == UnknownType && b == SYN && !escaped
    case Nacked => AddressedRequest(lib, seen) && b == NACK
    case ScanTimeout => AddressedRequest(lib, seen) && scan && b == SYN
    case NoResponse => Acknowledged(lib, seen) && answer == [] && b == SYN && !escaped
    case InvalidNNTarget => Acknowledged(lib, seen) && answer == [] && b > MAX_DATA_LEN
    case CrcMismatch => Acknowledged(lib, seen) && WholeAnswer(answer) && !ValidAnswer(lib, answer) && b == ACK
    case AmbiguousRetransmission => Acknowledged(lib, seen) && WholeAnswer(answer) && b == NACK
    case UnexpectedSyn =>
      || (!own && !scan && (CutShort(seen, b, escaped) || (AddressedRequest(lib, seen) && b == SYN)))
      || (Acknowledged(lib, seen) && b == SYN && ((PartialAnswer(answer) && !escaped) || WholeAnswer(answer)))
    case UnexpectedSymbol =>
      && b != SYN
      && (|| (AddressedRequest(lib, seen) && b != ACK && b != NACK)
          || (Acknowledged(lib, seen) && WholeAnswer(answer) && b != ACK && b != NACK)
          || InitiatorPayload(lib, seen) || TargetPayload(lib, seen))
    case _ => false
  }

  /** A request was begun and not paused. */
  ghost predicate Underway(cfg: Config, y: seq<TapEvent>)
    requires forall i :: 0 <= i < |y| ==> y[i].Symbol?
  {
    y != [] && cfg.lib.isSource(y[0].b) && IsInitiatorAddr(y[0].b) && NoGap(cfg, y)
  }

  /** More than the watchdog since the last symbol of a request. */
  ghost predicate Silent(cfg: Config, y: seq<TapEvent>, at: int)
    requires forall i :: 0 <= i < |y| ==> y[i].Symbol?
  {
    Underway(cfg, y) && at - y[|y| - 1].at > cfg.watchdog
  }

  /** The reason is true of the symbols `y` since the gate was opened and of the input that ended them. */
  ghost predicate Justified(cfg: Config, reason: AbandonReason, y: seq<TapEvent>, input: Input)
    requires forall i :: 0 <= i < |y| ==> y[i].Symbol?
  {
    match input
    case Close(_) => reason == ShutDown && Underway(cfg, y)
    case Tap(event, local) =>
      match event
      case Symbol(b, escaped, at) =>
        if reason == NoProgress then Silent(cfg, y, at)
        else Means(cfg.lib, reason, Bytes(y), b, escaped, local) && (y == [] || Underway(cfg, y))
      case ReadTimeout(at) => reason == NoProgress && Silent(cfg, y, at)
      case Connected(_) => false
      case Disconnected(_) => reason == LinkDown && Underway(cfg, y)
      case Reset(_) => reason == TransportReset && Underway(cfg, y)
      case DecodeFault(_) => reason == DecodeFaulted && Underway(cfg, y)
  }

  // ---- one symbol ----

  lemma SplitsAt(lib: Library, raw: seq<Byte>, answer: seq<Byte>)
    requires ParseFrame(lib, raw).Some?
    ensures var seen := raw + [ACK] + answer;
            RequestEnd(seen) == |raw| && seen[..|raw|] == raw && seen[|raw|] == ACK && AnswerIn(seen) == answer
  {
    var seen := raw + [ACK] + answer;
    assert seen[4] == raw[4];
    assert seen[|raw| + 1..] == answer;
  }

  /** A raw SYN in the request phase. */
  lemma RequestSynDiagnosed(lib: Library, s: State, at: int, local: Option<Byte>, event: Event)
    requires Collecting(lib, s) && event.AbandonedTransaction?
    requires HandleRequestSyn(lib, s, SYN, false, at, local).event == Some(event)
    ensures Means(lib, event.reason, s.requestRaw, SYN, false, local)
  {
    hide Acknowledged, WholeAnswer, ValidAnswer, AnswerIn, InitiatorPayload, TargetPayload;
    var raw := s.requestRaw;
    if |raw| >= 5 && |raw| == RequestEnd(raw) {
      assert raw[..RequestEnd(raw)] == raw;
    }
  }

  /** The byte that makes a request as long as it announced. */
  lemma CompleteDiagnosed(lib: Library, s: State, b: Byte, escaped: bool, at: int, local: Option<Byte>, event: Event)
    requires |s.requestRaw| >= 5 && |s.requestRaw| + 1 == RequestEnd(s.requestRaw)
    requires event.AbandonedTransaction? && (b != SYN || escaped)
    requires var s1 := s.(requestRaw := s.requestRaw + [b], lastProgressAt := Some(at));
             CompleteRequest(lib, s1, b, escaped, at, local).event == Some(event)
    ensures Means(lib, event.reason, s.requestRaw, b, escaped, local)
  {
    hide Acknowledged, WholeAnswer, ValidAnswer, AnswerIn, InitiatorPayload, TargetPayload, CutShort;
    assert RequestEnd(s.requestRaw + [b]) == RequestEnd(s.requestRaw);
  }

  /** A byte in the request phase. */
  lemma RequestByteDiagnosed(lib: Library, s: State, b: Byte, escaped: bool, at: int, local: Option<Byte>, event: Event)
    requires Collecting(lib, s) && event.AbandonedTransaction? && (b != SYN || escaped)
    requires HandleRequestByte(lib, s, b, escaped, at, local).event == Some(event)
    ensures Means(lib, event.reason, s.requestRaw, b, escaped, local)
  {
    hide Acknowledged, WholeAnswer, ValidAnswer, AnswerIn, InitiatorPayload, TargetPayload, CutShort, Corrupt, CompleteRequest;
    var raw := s.requestRaw + [b];
    assert |s.requestRaw| >= 5 ==> raw[4] == s.requestRaw[4];
    if |raw| >= 6 && |raw| == RequestEnd(raw) {
      CompleteDiagnosed(lib, s, b, escaped, at, local, event);
    }
  }

  lemma AckDiagnosed(lib: Library, s: State, b: Byte, escaped: bool, at: int, local: Option<Byte>, event: Event)
    requires Committed(lib, s) && event.AbandonedTransaction? && HandleAck(s, b, escaped, at, local).event == Some(event)
    ensures Means(lib, event.reason, s.requestRaw, b, escaped, local)
  {
    hide Acknowledged, WholeAnswer, ValidAnswer, AnswerIn, InitiatorPayload, TargetPayload, Corrupt, CutShort;
  }

  lemma ResponseDiagnosed(lib: Library, s: State, b: Byte, escaped: bool, at: int, local: Option<Byte>, event: Event)
    requires Answered(lib, s) && s.frameType == InitiatorTarget && Answering(s) && event.AbandonedTransaction?
    requires HandleResponse(lib, s, b, escaped, at).event == Some(event)
    ensures Means(lib, event.reason, s.requestRaw + [ACK] + s.responseRaw, b, escaped, local)
  {
    hide InitiatorPayload, TargetPayload, Corrupt, CutShort, AddressedRequest;
    SplitsAt(lib, s.requestRaw, s.responseRaw);
  }

  lemma FinalAckDiagnosed(lib: Library, s: State, b: Byte, escaped: bool, at: int, local: Option<Byte>, event: Event)
    requires Answered(lib, s) && s.frameType == InitiatorTarget && Responded(lib, s) && event.AbandonedTransaction?
    requires HandleFinalAck(s, b, escaped, at).event == Some(event)
    ensures Means(lib, event.reason, s.requestRaw + [ACK] + s.responseRaw, b, escaped, local)
  {
    hide InitiatorPayload, TargetPayload, Corrupt, CutShort, AddressedRequest;
    SplitsAt(lib, s.requestRaw, s.responseRaw);
  }

  lemma IdleDiagnosed(lib: Library, s: State, b: Byte, escaped: bool, at: int, local: Option<Byte>, event: Event)
    requires s.phase == Idle && event.AbandonedTransaction? && HandleIdle(lib, s, b, escaped, at).event == Some(event)
    ensures s.synced && Means(lib, event.reason, [], b, escaped, local)
  {
  }

  lemma TerminalDiagnosed(lib: Library, s: State, b: Byte, escaped: bool, at: int, local: Option<Byte>, event: Event)
    requires Wf(lib, s) && s.phase == WaitTerminal && event.AbandonedTransaction?
    requires HandleTerminal(s, b, escaped, at).event == Some(event)
    ensures Means(lib, event.reason, Expected(s), b, escaped, local)
  {
    hide Corrupt, CutShort, AddressedRequest;
    if s.frameType == InitiatorInitiator {
      assert Expected(s)[..|Expected(s)| - 1] == s.requestRaw;
    } else {
      assert Expected(s)[..|Expected(s)| - 1] == s.requestRaw + [ACK] + s.responseRaw;
      SplitsAt(lib, s.requestRaw, s.responseRaw);
    }
  }

  /** The symbol that ends a request in progress, or spoils its start. */
  lemma SymbolDiagnosed(lib: Library, s: State, b: Byte, escaped: bool, at: int, local: Option<Byte>, event: Event)
    requires Wf(lib, s) && event.AbandonedTransaction? && HandleSymbol(lib, s, b, escaped, at, local).event == Some(event)
    ensures InProgress(s) || (s.phase == Idle && s.synced)
    ensures Means(lib, event.reason, Expected(s), b, escaped, local) && event.reason != NoProgress
  {
    hide Means, HandleRequestByte, HandleRequestSyn, HandleAck, HandleResponse, HandleFinalAck, HandleTerminal, HandleIdle;
    SilenceIsNotMeant(lib, Expected(s), b, escaped, local);
    match s.phase
    case Idle => IdleDiagnosed(lib, s, b, escaped, at, local, event);
    case Request =>
      if b == SYN && !escaped {
        RequestSynDiagnosed(lib, s, at, local, event);
      } else {
        RequestByteDiagnosed(lib, s, b, escaped, at, local, event);
      }
    case WaitAck => AckDiagnosed(lib, s, b, escaped, at, local, event);
    case WaitResponse => ResponseDiagnosed(lib, s, b, escaped, at, local, event);
    case WaitFinalAck => FinalAckDiagnosed(lib, s, b, escaped, at, local, event);
    case WaitTerminal => TerminalDiagnosed(lib, s, b, escaped, at, local, event);
    case Abandoned =>
  }

  /** Silence is never a symbol's own diagnosis. */
  lemma SilenceIsNotMeant(lib: Library, seen: seq<Byte>, b: Byte, escaped: bool, local: Option<Byte>)
    ensures !Means(lib, NoProgress, seen, b, escaped, local)
  {
  }

  // ---- one step, and whole histories ----

  /** The reasons of everything but a symbol's own diagnosis. */
  predicate Outside(cfg: Config, s: State, input: Input, reason: AbandonReason) {
    InProgress(s) &&
    match input
    case Close(_) => reason == ShutDown
    case Tap(event, _) =>
      match event
      case Symbol(_, _, at) => reason == NoProgress && IsStale(cfg, s, at)
      case ReadTimeout(at) => reason == NoProgress && IsStale(cfg, s, at)
      case Connected(_) => false
      case Disconnected(_) => reason == LinkDown
      case Reset(_) => reason == TransportReset
      case DecodeFault(_) => reason == DecodeFaulted
  }

  /** In a step, an abandonment comes from outside or is the symbol's; after the watchdog's the symbol finds nothing. */
  lemma AbandonStep(cfg: Config, s: State, input: Input, event: Event)
    requires event in StepEvents(cfg, s, input) && event.AbandonedTransaction?
    ensures || Outside(cfg, s, input, event.reason)
            || (&& input.Tap? && input.event.Symbol? && !IsStale(cfg, s, input.event.at)
                && HandleSymbol(cfg.lib, s, input.event.b, input.event.wasEscaped, input.event.at, input.local).event == Some(event))
  {
    hide HandleRequestByte, HandleRequestSyn, HandleAck, HandleResponse, HandleFinalAck, HandleTerminal, HandleIdle;
  }

  lemma ExplainedUnderway(cfg: Config, s: State, y: seq<TapEvent>)
    requires forall i :: 0 <= i < |y| ==> y[i].Symbol?
    requires Wf(cfg.lib, s) && InProgress(s) && Explains(cfg, s, y)
    ensures Bytes(y) == Expected(s) && Underway(cfg, y) && s.lastProgressAt == Some(y[|y| - 1].at)
  {
    assert Bytes(y)[0] == y[0].b;
    assert Expected(s)[0] == s.requestRaw[0];
  }

  // ---- what an abandoned event carries ----

  /** The bytes seen begin with a complete request to an initiator or a target. */
  predicate HoldsRequest(lib: Library, seen: seq<Byte>) {
    6 <= RequestEnd(seen) <= |seen| && AddressedRequest(lib, seen[..RequestEnd(seen)])
  }

  function RequestIn(lib: Library, seen: seq<Byte>): Frame {
    if HoldsRequest(lib, seen) then ParseFrame(lib, seen[..RequestEnd(seen)]).value else NO_FRAME
  }

  /** How long the answer announces to be; zero before its LEN byte. */
  function AnswerLength(lib: Library, seen: seq<Byte>): int {
    if HoldsRequest(lib, seen) && AnswerIn(seen) != [] then AnswerIn(seen)[0] as int + 2 else 0
  }

  /** The bytes seen hold a whole answer. */
  predicate HoldsAnswer(lib: Library, seen: seq<Byte>) {
    2 <= AnswerLength(lib, seen) <= |AnswerIn(seen)|
  }

  function ResponseIn(lib: Library, seen: seq<Byte>): Frame {
    if HoldsAnswer(lib, seen) then ResponseFrame(RequestIn(lib, seen), AnswerIn(seen)[1..AnswerLength(lib, seen) - 1])
    else NO_FRAME
  }

  /** The acknowledge byte after the request, if one was seen. */
  function AckIn(lib: Library, seen: seq<Byte>): Option<Byte> {
    if HoldsRequest(lib, seen) && RequestEnd(seen) < |seen| then Some(seen[RequestEnd(seen)]) else None
  }

  /** The times of the markers that the symbols seen at `at` give. */
  function TimingOf(lib: Library, seen: seq<Byte>, at: seq<int>): Timing
    requires |at| == |seen|
  {
    var r, n := RequestEnd(seen), AnswerLength(lib, seen);
    Timing(if seen == [] then None else Some(at[0]),
           if HoldsRequest(lib, seen) then Some(at[r - 1]) else None,
           if HoldsRequest(lib, seen) && AnswerIn(seen) != [] then Some(at[r + 1]) else None,
           if HoldsAnswer(lib, seen) then Some(at[r + n]) else None,
           None)
  }

  /** The state says of the request in progress what the bytes seen and their times say. */
  predicate Records(lib: Library, s: State, seen: seq<Byte>, at: seq<int>)
    requires |at| == |seen|
  {
    && (s.frameType != UnknownType <==> HoldsRequest(lib, seen))
    && (HoldsRequest(lib, seen) ==> s.frameType == lib.frameType(RequestIn(lib, seen).target))
    && s.request == RequestIn(lib, seen) && s.response == ResponseIn(lib, seen)
    && s.responseExpectedLen == AnswerLength(lib, seen) && s.ack == AckIn(lib, seen)
    && s.timing.(terminal := None) == TimingOf(lib, seen, at)
  }

  lemma CollectingRecords(lib: Library, s: State, at: seq<int>)
    requires Wf(lib, s) && s.phase == Request && |at| == |s.requestRaw| && TimedBy(s, at)
    ensures Records(lib, s, s.requestRaw, at)
  {
    hide ParseFrame, AnswerIn;
  }

  lemma WaitingRecords(lib: Library, s: State, at: seq<int>)
    requires Wf(lib, s) && s.phase == WaitAck && |at| == |s.requestRaw| && TimedBy(s, at)
    ensures Records(lib, s, s.requestRaw, at)
  {
    assert s.requestRaw[..|s.requestRaw|] == s.requestRaw;
  }

  /** What the request and its acknowledge say, whatever follows. */
  lemma AcknowledgedParts(lib: Library, s: State, rest: seq<Byte>)
    requires Answered(lib, s)
    ensures var seen := s.requestRaw + [ACK] + rest;
            && RequestEnd(seen) == |s.requestRaw| && HoldsRequest(lib, seen) && RequestIn(lib, seen) == s.request
            && AckIn(lib, seen) == Some(ACK) && AnswerIn(seen) == rest
            && AnswerLength(lib, seen) == if rest == [] then 0 else rest[0] as int + 2
  {
    SplitsAt(lib, s.requestRaw, rest);
  }

  lemma ResponseRecords(lib: Library, s: State, at: seq<int>)
    requires Wf(lib, s) && s.phase == WaitResponse && |at| == |Expected(s)| && TimedBy(s, at)
    ensures Records(lib, s, Expected(s), at)
  {
    hide RequestEnd, HoldsRequest, RequestIn, AckIn, AnswerIn, AnswerLength, ParseFrame;
    AcknowledgedParts(lib, s, s.responseRaw);
  }

  lemma AnsweredRecords(lib: Library, s: State, rest: seq<Byte>, at: seq<int>)
    requires Answered(lib, s) && Responded(lib, s) && |rest| <= 1
    requires var seen := s.requestRaw + [ACK] + (s.responseRaw + rest); |at| == |seen|
    requires var r := |s.requestRaw|;
             s.timing.(terminal := None) ==
             Timing(Some(at[0]), Some(at[r - 1]), Some(at[r + 1]), Some(at[r + |s.responseRaw|]), None)
    ensures Records(lib, s, s.requestRaw + [ACK] + (s.responseRaw + rest), at)
  {
    hide RequestEnd, HoldsRequest, RequestIn, AckIn, AnswerIn, AnswerLength, ParseFrame;
    AcknowledgedParts(lib, s, s.responseRaw + rest);
    var n := |s.responseRaw|;
    assert (s.responseRaw + rest)[1..n - 1] == s.responseRaw[1..n - 1];
  }

  lemma InitiatorRecords(lib: Library, s: State, at: seq<int>)
    requires Wf(lib, s) && s.phase == WaitTerminal && s.frameType == InitiatorInitiator
    requires |at| == |Expected(s)| && TimedBy(s, at)
    ensures Records(lib, s, Expected(s), at)
  {
    hide RequestEnd, HoldsRequest, RequestIn, AckIn, AnswerIn, AnswerLength, ParseFrame, RequestPrefix;
    AcknowledgedParts(lib, s, []);
    var seen := s.requestRaw + [ACK];
    assert seen + [] == seen && Expected(s) == seen;
    assert !HoldsAnswer(lib, seen);
  }

  /** A request in progress is recorded as its symbols tell it. */
  lemma StateRecords(cfg: Config, s: State, y: seq<TapEvent>)
    requires forall i :: 0 <= i < |y| ==> y[i].Symbol?
    requires Wf(cfg.lib, s) && InProgress(s) && Explains(cfg, s, y)
    ensures Records(cfg.lib, s, Bytes(y), SymbolTimes(y))
  {
    hide Records;
    var at := SymbolTimes(y);
    match s.phase
    case Request => CollectingRecords(cfg.lib, s, at);
    case WaitAck => WaitingRecords(cfg.lib, s, at);
    case WaitResponse => ResponseRecords(cfg.lib, s, at);
    case WaitFinalAck =>
      assert s.responseRaw + [] == s.responseRaw;
      AnsweredRecords(cfg.lib, s, [], at);
    case WaitTerminal =>
      if s.frameType == InitiatorInitiator {
        InitiatorRecords(cfg.lib, s, at);
      } else {
        assert s.requestRaw + [ACK] + s.responseRaw + [ACK] == s.requestRaw + [ACK] + (s.responseRaw + [ACK]);
        AnsweredRecords(cfg.lib, s, [ACK], at);
      }
  }

  function TimeOf(input: Input): int {
    if input.Close? then input.at else input.event.at
  }

  /** The ending symbol closes a request that was still being collected. */
  predicate EndsCollecting(lib: Library, reason: AbandonReason, seen: seq<Byte>, input: Input) {
    && seen != [] && !HoldsRequest(lib, seen) && reason != NoProgress
    && input.Tap? && input.event.Symbol? && input.event.b == SYN && !input.event.wasEscaped
  }

  predicate StripsAck(reason: AbandonReason) {
    reason == NoResponse || reason == NoProgress || reason == AmbiguousRetransmission || reason == CrcMismatch
  }

  /** The symbol to blame: the ending one, unless a silence, the link or the frame's type ended the request. */
  predicate Blames(reason: AbandonReason, input: Input) {
    input.Tap? && input.event.Symbol? && reason != NoProgress && reason != CorruptedTarget
  }

  /**
   * The event carries what the symbols `y` since the gate was opened, and the input that ended them,
   * amount to: the request and the response as far as they were complete, the acknowledge unless the
   * reason strips it, the times, and the symbol to blame.
   */
  ghost predicate Carried(cfg: Config, event: Event, y: seq<TapEvent>, input: Input)
    requires forall i :: 0 <= i < |y| ==> y[i].Symbol?
  {
    var lib, seen := cfg.lib, Bytes(y);
    event.AbandonedTransaction? &&
    var timing := TimingOf(lib, seen, SymbolTimes(y));
    && (event.hasRequest <==> HoldsRequest(lib, seen)) && event.request == RequestIn(lib, seen)
    && event.frameType == (if event.hasRequest then lib.frameType(event.request.target) else UnknownType)
    && (event.hasResponse <==> AnswerLength(lib, seen) > 0) && event.response == ResponseIn(lib, seen)
    && event.ack == (if StripsAck(event.reason) then None else if event.reason == Nacked then Some(NACK) else AckIn(lib, seen))
    && event.timing == timing.(terminal := Some(TimeOf(input)),
                               requestEnd := if EndsCollecting(lib, event.reason, seen, input) then Some(TimeOf(input))
                                             else timing.requestEnd)
    && event.at == TimeOf(input)
    && event.offending == (if Blames(event.reason, input) then input.event.b else 0)
    && event.offendingWasEscaped == (Blames(event.reason, input) && input.event.wasEscaped)
  }

  /** What an event takes over from the state. */
  predicate TakenFrom(s: State, event: Event, closing: bool, at: int) {
    event.AbandonedTransaction?
    && event.frameType == s.frameType && event.request == s.request && event.response == s.response
    && (event.hasRequest <==> s.frameType != UnknownType) && (event.hasResponse <==> s.responseExpectedLen > 0)
    && event.ack == (if StripsAck(event.reason) then None else if event.reason == Nacked then Some(NACK) else s.ack)
    && event.timing == s.timing.(terminal := Some(at), requestEnd := if closing then Some(at) else s.timing.requestEnd)
    && event.at == at
  }

  lemma RequestByteTaken(lib: Library, s: State, b: Byte, escaped: bool, at: int, local: Option<Byte>, event: Event)
    requires HandleRequestByte(lib, s, b, escaped, at, local).event == Some(event) && event.AbandonedTransaction?
    requires s.phase == Request && s.requestRaw != []
    ensures TakenFrom(s, event, false, at) && event.offending == b && event.offendingWasEscaped == escaped
    ensures event.reason != NoProgress && event.reason != CorruptedTarget
  {
    hide ParseFrame, AcceptsTarget, IsScanProbe, IsSelfOriginated, CompleteRequest;
    var s1 := s.(requestRaw := s.requestRaw + [b], lastProgressAt := Some(at));
    if CompleteRequest(lib, s1, b, escaped, at, local).event == Some(event) {
      CompleteTaken(lib, s1, b, escaped, at, local, event);
    }
  }

  lemma CompleteTaken(lib: Library, s: State, b: Byte, escaped: bool, at: int, local: Option<Byte>, event: Event)
    requires CompleteRequest(lib, s, b, escaped, at, local).event == Some(event) && event.AbandonedTransaction?
    ensures TakenFrom(s, event, false, at) && event.offending == b && event.offendingWasEscaped == escaped
    ensures event.reason != NoProgress && event.reason != CorruptedTarget
  {
    hide ParseFrame, IsScanProbe, IsSelfOriginated;
  }

  lemma RequestSynTaken(lib: Library, s: State, at: int, local: Option<Byte>, event: Event)
    requires HandleRequestSyn(lib, s, SYN, false, at, local).event == Some(event) && event.AbandonedTransaction?
    ensures TakenFrom(s, event, true, at) && event.reason != NoProgress
    ensures if event.reason == CorruptedTarget then event.offending == 0 && !event.offendingWasEscaped
            else event.offending == SYN && !event.offendingWasEscaped
  {
    hide ParseFrame, IsScanProbe, IsSelfOriginated;
  }

  lemma IdleTaken(lib: Library, s: State, b: Byte, escaped: bool, at: int, event: Event)
    requires HandleIdle(lib, s, b, escaped, at).event == Some(event) && event.AbandonedTransaction?
    ensures TakenFrom(s, event, false, at) && event.offending == b && event.offendingWasEscaped == escaped
    ensures event.reason != NoProgress && event.reason != CorruptedTarget
  {
  }

  lemma AckTaken(s: State, b: Byte, escaped: bool, at: int, local: Option<Byte>, event: Event)
    requires HandleAck(s, b, escaped, at, local).event == Some(event) && event.AbandonedTransaction?
    ensures TakenFrom(s, event, false, at) && event.offending == b && event.offendingWasEscaped == escaped
    ensures event.reason != NoProgress && event.reason != CorruptedTarget
  {
  }

  lemma ResponseTaken(lib: Library, s: State, b: Byte, escaped: bool, at: int, event: Event)
    requires Answering(s) && HandleResponse(lib, s, b, escaped, at).event == Some(event) && event.AbandonedTransaction?
    ensures TakenFrom(s, event, false, at) && event.offending == b && event.offendingWasEscaped == escaped
    ensures event.reason != NoProgress && event.reason != CorruptedTarget
  {
    hide ParseResponse;
  }

  lemma FinalAckTaken(s: State, b: Byte, escaped: bool, at: int, event: Event)
    requires HandleFinalAck(s, b, escaped, at).event == Some(event) && event.AbandonedTransaction?
    ensures TakenFrom(s, event, false, at) && event.offending == b && event.offendingWasEscaped == escaped
    ensures event.reason != NoProgress && event.reason != CorruptedTarget
  {
  }

  lemma TerminalTaken(s: State, b: Byte, escaped: bool, at: int, event: Event)
    requires HandleTerminal(s, b, escaped, at).event == Some(event) && event.AbandonedTransaction?
    requires s.frameType == InitiatorInitiator || s.frameType == InitiatorTarget
    ensures TakenFrom(s, event, false, at) && event.offending == b && event.offendingWasEscaped == escaped
    ensures event.reason != NoProgress && event.reason != CorruptedTarget
  {
  }

  lemma LaterTaken(lib: Library, s: State, b: Byte, escaped: bool, at: int, local: Option<Byte>, event: Event)
    requires Wf(lib, s) && s.phase != Request && event.AbandonedTransaction?
    requires HandleSymbol(lib, s, b, escaped, at, local).event == Some(event)
    ensures TakenFrom(s, event, false, at) && event.offending == b && event.offendingWasEscaped == escaped
    ensures event.reason != NoProgress && event.reason != CorruptedTarget
  {
    hide HandleAck, HandleResponse, HandleFinalAck, HandleTerminal, HandleIdle, TakenFrom;
    match s.phase
    case Idle => IdleTaken(lib, s, b, escaped, at, event);
    case WaitAck => AckTaken(s, b, escaped, at, local, event);
    case WaitResponse => ResponseTaken(lib, s, b, escaped, at, event);
    case WaitFinalAck => FinalAckTaken(s, b, escaped, at, event);
    case WaitTerminal => TerminalTaken(s, b, escaped, at, event);
    case _ =>
  }

  /** Every abandoned event of a symbol takes its content from the state. */
  lemma SymbolTaken(lib: Library, s: State, b: Byte, escaped: bool, at: int, local: Option<Byte>, event: Event)
    requires Wf(lib, s) && event.AbandonedTransaction?
    requires HandleSymbol(lib, s, b, escaped, at, local).event == Some(event)
    ensures TakenFrom(s, event, s.phase == Request && b == SYN && !escaped, at) && event.reason != NoProgress
    ensures event.offending == (if event.reason == CorruptedTarget then 0 else b)
    ensures event.offendingWasEscaped == (event.reason != CorruptedTarget && escaped)
  {
    hide HandleRequestByte, HandleRequestSyn, TakenFrom, HandleAck, HandleResponse, HandleFinalAck, HandleTerminal, HandleIdle;
    if s.phase != Request {
      LaterTaken(lib, s, b, escaped, at, local, event);
    } else if b == SYN && !escaped {
      RequestSynTaken(lib, s, at, local, event);
    } else {
      RequestByteTaken(lib, s, b, escaped, at, local, event);
    }
  }

  /** So does every abandoned event that the watchdog, the link or closing causes. */
  lemma OutsideTaken(cfg: Config, s: State, input: Input, event: Event)
    requires event in StepEvents(cfg, s, input) && event.AbandonedTransaction?
    requires input.Tap? && input.event.Symbol? ==> event == AbandonEvent(s, NoProgress, input.event.at, 0, false)
    ensures TakenFrom(s, event, false, TimeOf(input)) && event.offending == 0 && !event.offendingWasEscaped
    ensures event.reason != Nacked
  {
    hide HandleSymbol;
  }

  /** From the state's record to the symbols'. */
  lemma CarriedOver(cfg: Config, s: State, y: seq<TapEvent>, input: Input, event: Event, closing: bool)
    requires forall i :: 0 <= i < |y| ==> y[i].Symbol?
    requires Records(cfg.lib, s, Bytes(y), SymbolTimes(y)) && TakenFrom(s, event, closing, TimeOf(input))
    requires closing <==> EndsCollecting(cfg.lib, event.reason, Bytes(y), input)
    requires event.offending == (if Blames(event.reason, input) then input.event.b else 0)
    requires event.offendingWasEscaped == (Blames(event.reason, input) && input.event.wasEscaped)
    ensures Carried(cfg, event, y, input)
  {
    hide HoldsRequest, RequestIn, AnswerLength, ResponseIn, AckIn, TimingOf, EndsCollecting, Blames, StripsAck;
  }

  /** A request in progress that is abandoned. */
  lemma RunningCarried(cfg: Config, s: State, y: seq<TapEvent>, input: Input, event: Event)
    requires forall i :: 0 <= i < |y| ==> y[i].Symbol?
    requires Wf(cfg.lib, s) && InProgress(s) && Explains(cfg, s, y)
    requires event in StepEvents(cfg, s, input) && event.AbandonedTransaction?
    ensures Carried(cfg, event, y, input)
  {
    hide Wf, Explains, StepEvents, HandleSymbol, Records, TakenFrom, AbandonEvent, HoldsRequest;
    AbandonStep(cfg, s, input, event);
    StateRecords(cfg, s, y);
    ExplainedUnderway(cfg, s, y);
    PhaseTold(cfg, s, y);
    if Outside(cfg, s, input, event.reason) {
      StaleIsAbandoned(cfg, s, input, event);
      OutsideTaken(cfg, s, input, event);
      CarriedOver(cfg, s, y, input, event, false);
    } else {
      var e := input.event;
      SymbolTaken(cfg.lib, s, e.b, e.wasEscaped, e.at, input.local, event);
      CarriedOver(cfg, s, y, input, event, s.phase == Request && e.b == SYN && !e.wasEscaped);
    }
  }

  /** A request is still being collected exactly while its bytes hold no complete addressed one. */
  lemma PhaseTold(cfg: Config, s: State, y: seq<TapEvent>)
    requires forall i :: 0 <= i < |y| ==> y[i].Symbol?
    requires Wf(cfg.lib, s) && InProgress(s) && Explains(cfg, s, y) && Records(cfg.lib, s, Bytes(y), SymbolTimes(y))
    ensures s.phase == Request <==> !HoldsRequest(cfg.lib, Bytes(y))
  {
    hide Explains, HoldsRequest;
  }

  /** When the watchdog abandons a request at a symbol, its event is the only one about a request. */
  lemma StaleIsAbandoned(cfg: Config, s: State, input: Input, event: Event)
    requires event in StepEvents(cfg, s, input) && event.AbandonedTransaction? && Outside(cfg, s, input, event.reason)
    ensures input.Tap? && input.event.Symbol? ==> event == AbandonEvent(s, NoProgress, input.event.at, 0, false)
  {
  }

  /** A start that is spoilt: nothing was seen but the symbol itself. */
  lemma IdleCarried(cfg: Config, s: State, input: Input, event: Event)
    requires Wf(cfg.lib, s) && s.phase == Idle && event in StepEvents(cfg, s, input) && event.AbandonedTransaction?
    ensures Carried(cfg, event, [], input)
  {
    hide AnswerIn;
    assert Bytes([]) == [];
  }

  /**
   * Every abandoned request, after any history and whatever ended it: the reason is true of the
   * contiguous symbols since the gate was opened and of the input that ended them, and the event
   * carries what they amount to.
   */
  lemma AbandonSoundness(cfg: Config, h: seq<Input>, input: Input, event: Event) returns (k: nat)
    requires event in StepEvents(cfg, After(cfg, h), input) && event.AbandonedTransaction?
    ensures k <= |h| && Opened(cfg, h[..k]) && Quiet(h[k..])
    ensures Justified(cfg, event.reason, Symbols(h[k..]), input) && Carried(cfg, event, Symbols(h[k..]), input)
  {
    hide Means, Wf, HandleSymbol, Explains, Underway, StepEvents, Opened, Carried;
    var s := After(cfg, h);
    RunKeepsWf(cfg, Fresh(false), h);
    AbandonStep(cfg, s, input, event);
    if !Outside(cfg, s, input, event.reason) {
      var e := input.event;
      SymbolDiagnosed(cfg.lib, s, e.b, e.wasEscaped, e.at, input.local, event);
    }
    if InProgress(s) {
      k := Trail(cfg, h);
      ExplainedUnderway(cfg, s, Symbols(h[k..]));
      RunningCarried(cfg, s, Symbols(h[k..]), input, event);
    } else {
      k := |h|;
      GateWasOpened(cfg, h);
      assert h[..k] == h && h[k..] == [];
      assert Bytes(Symbols([])) == [];
      IdleCarried(cfg, s, input, event);
    }
  }

  /** So it is with every abandoned event ever emitted. */
  lemma AbandonsAreSound(cfg: Config, h: seq<Input>, event: Event) returns (k: nat, m: nat)
    requires event in Events(cfg, h) && event.AbandonedTransaction?
    ensures k <= m < |h| && Opened(cfg, h[..k]) && Quiet(h[k..m])
    ensures Justified(cfg, event.reason, Symbols(h[k..m]), h[m]) && Carried(cfg, event, Symbols(h[k..m]), h[m])
  {
    hide Justified, Opened, StepEvents, Carried;
    m := EmittedAt(cfg, h, event);
    k := AbandonSoundness(cfg, h[..m], h[m], event);
    assert h[..m][..k] == h[..k] && h[..m][k..] == h[k..m];
  }
}
