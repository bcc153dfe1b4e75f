/**
 * The reconstructor as the object it is: phase, buffers, frames, flags and timestamps updated
 * field by field as symbols come in, with its diagnostic counters. The object is always exactly
 * where its history takes it, and its invariant shows two of its branches dead.
 */
module ReconstructorObject {
  import opened Protocol
  import opened WireLog
  import opened BusTap
  import opened Runs
  import opened Reconstructor
  import opened Synchronisation

  /** What the reconstructor recovers from with the next success. */
  datatype Trouble = AfterReset | AfterDecodeFault | AfterUnexpectedSyn

  /** The trouble that is pending after `events`. */
  function PendingTrouble(events: seq<Event>): Option<Trouble> {
    if events == [] then
      None
    else
      var e := events[|events| - 1];
      if IsSuccess(e) then None
      else if e.AbandonedTransaction? && e.reason == UnexpectedSyn then Some(AfterUnexpectedSyn)
      else if e.Discontinuity? && e.cause == LinkReset then Some(AfterReset)
      else if e.Discontinuity? && e.cause == LinkDecodeFault then Some(AfterDecodeFault)
      else PendingTrouble(events[..|events| - 1])
  }

  function AbandonCount(events: seq<Event>, reason: AbandonReason): nat {
    if events == [] then
      0
    else
      var n := |events| - 1;
      AbandonCount(events[..n], reason) + if events[n].AbandonedTransaction? && events[n].reason == reason then 1 else 0
  }

  /** How many requests were abandoned, for whatever reason. */
  function AllAbandons(events: seq<Event>): nat {
    if events == [] then
      0
    else
      var n := |events| - 1;
      AllAbandons(events[..n]) + One(events[n].AbandonedTransaction?)
  }

  /** How many successes came while that trouble was pending. */
  function RecoveryCount(events: seq<Event>, trouble: Trouble): nat {
    if events == [] then
      0
    else
      var n := |events| - 1;
      RecoveryCount(events[..n], trouble) + if IsSuccess(events[n]) && PendingTrouble(events[..n]) == Some(trouble) then 1 else 0
  }

  function Get<K(==), V>(m: map<K, V>, k: K, zero: V): V {
    if k in m then m[k] else zero
  }

  /** The sum of the counters over all reasons. */
  function CounterTotal(m: map<AbandonReason, nat>): nat {
    LinkTotal(m) + RequestTotal(m) + AnswerTotal(m)
  }

  function LinkTotal(m: map<AbandonReason, nat>): nat {
    Get(m, TransportReset, 0) + Get(m, DecodeFaulted, 0) + Get(m, LinkDown, 0) + Get(m, ShutDown, 0) + Get(m, NoProgress, 0)
  }

  function RequestTotal(m: map<AbandonReason, nat>): nat {
    Get(m, CorruptedRequest, 0) + Get(m, CorruptedTarget, 0) + Get(m, ScanCollision, 0) + Get(m, ArbitrationFragment, 0)
    + Get(m, SelfEcho, 0) + Get(m, InvalidQQ, 0) + Get(m, InvalidZZ, 0) + Get(m, InvalidNNInitiator, 0) + Get(m, BufferOverflow, 0)
  }

  function AnswerTotal(m: map<AbandonReason, nat>): nat {
    Get(m, Nacked, 0) + Get(m, NoResponse, 0) + Get(m, UnexpectedSyn, 0) + Get(m, UnexpectedSymbol, 0) + Get(m, CrcMismatch, 0)
    + Get(m, AmbiguousRetransmission, 0) + Get(m, ScanTimeout, 0) + Get(m, InvalidNNTarget, 0)
  }

  predicate OfLink(r: AbandonReason) {
    r in {TransportReset, DecodeFaulted, LinkDown, ShutDown, NoProgress}
  }

  predicate OfRequest(r: AbandonReason) {
    r in {CorruptedRequest, CorruptedTarget, ScanCollision, ArbitrationFragment, SelfEcho, InvalidQQ, InvalidZZ,
          InvalidNNInitiator, BufferOverflow}
  }

  lemma LinkCounts(m: map<AbandonReason, nat>, reason: AbandonReason)
    ensures LinkTotal(m[reason := Get(m, reason, 0) + 1]) == LinkTotal(m) + One(OfLink(reason))
  {
  }

  lemma RequestCounts(m: map<AbandonReason, nat>, reason: AbandonReason)
    ensures RequestTotal(m[reason := Get(m, reason, 0) + 1]) == RequestTotal(m) + One(OfRequest(reason))
  {
  }

  lemma AnswerCounts(m: map<AbandonReason, nat>, reason: AbandonReason)
    ensures AnswerTotal(m[reason := Get(m, reason, 0) + 1]) == AnswerTotal(m) + One(!OfLink(reason) && !OfRequest(reason))
  {
  }

  /** No reason is left out of the total, and none is in it twice. */
  lemma TotalCountsEveryReason(m: map<AbandonReason, nat>, reason: AbandonReason)
    ensures CounterTotal(m[reason := Get(m, reason, 0) + 1]) == CounterTotal(m) + 1
  {
    hide LinkTotal, RequestTotal, AnswerTotal, Get;
    LinkCounts(m, reason);
    RequestCounts(m, reason);
    AnswerCounts(m, reason);
  }

  /** The pending trouble and the counters. */
  datatype Books = Books(pending: Option<Trouble>, abandons: map<AbandonReason, nat>, recoveries: map<Trouble, nat>)

  const NO_BOOKS := Books(None, map[], map[])

  /** The counters say what was emitted, each reason for itself and all of them together. */
  ghost predicate BooksMatch(events: seq<Event>, books: Books) {
    && books.pending == PendingTrouble(events)
    && (forall r :: Get(books.abandons, r, 0) == AbandonCount(events, r))
    && (forall t :: Get(books.recoveries, t, 0) == RecoveryCount(events, t))
    && CounterTotal(books.abandons) == AllAbandons(events)
  }

  lemma OneMoreEvent(events: seq<Event>, e: Event)
    ensures PendingTrouble(events + [e]) ==
            if IsSuccess(e) then None
            else if e.AbandonedTransaction? && e.reason == UnexpectedSyn then Some(AfterUnexpectedSyn)
            else if e.Discontinuity? && e.cause == LinkReset then Some(AfterReset)
            else if e.Discontinuity? && e.cause == LinkDecodeFault then Some(AfterDecodeFault)
            else PendingTrouble(events)
    ensures AllAbandons(events + [e]) == AllAbandons(events) + One(e.AbandonedTransaction?)
  {
    assert (events + [e])[..|events|] == events;
  }

  lemma OneMoreAbandon(events: seq<Event>, e: Event, r: AbandonReason)
    ensures AbandonCount(events + [e], r) == AbandonCount(events, r) + One(e.AbandonedTransaction? && e.reason == r)
  {
    assert (events + [e])[..|events|] == events;
  }

  lemma OneMoreRecovery(events: seq<Event>, e: Event, t: Trouble)
    ensures RecoveryCount(events + [e], t) == RecoveryCount(events, t) + One(IsSuccess(e) && PendingTrouble(events) == Some(t))
  {
    assert (events + [e])[..|events|] == events;
  }

  /** How an event is booked. */
  function Booked(books: Books, e: Event): Books {
    if e.AbandonedTransaction? then
      books.(abandons := books.abandons[e.reason := Get(books.abandons, e.reason, 0) + 1],
             pending := if e.reason == UnexpectedSyn then Some(AfterUnexpectedSyn) else books.pending)
    else if e.Discontinuity? then
      books.(pending := if e.cause == LinkReset then Some(AfterReset)
                        else if e.cause == LinkDecodeFault then Some(AfterDecodeFault) else books.pending)
    else if books.pending.Some? then
      books.(recoveries := books.recoveries[books.pending.value := Get(books.recoveries, books.pending.value, 0) + 1],
             pending := None)
    else
      books
  }

  /** Booking every event keeps the counters equal to the counts of the events emitted, and their sum too. */
  lemma BookedMatches(events: seq<Event>, books: Books, e: Event)
    requires BooksMatch(events, books)
    ensures BooksMatch(events + [e], Booked(books, e))
  {
    hide PendingTrouble, AbandonCount, RecoveryCount, AllAbandons, CounterTotal;
    var after := Booked(books, e);
    OneMoreEvent(events, e);
    if e.AbandonedTransaction? {
      TotalCountsEveryReason(books.abandons, e.reason);
    }
    forall r ensures Get(after.abandons, r, 0) == AbandonCount(events + [e], r) {
      OneMoreAbandon(events, e, r);
      assert Get(books.abandons, r, 0) == AbandonCount(events, r);
    }
    forall t ensures Get(after.recoveries, t, 0) == RecoveryCount(events + [e], t) {
      OneMoreRecovery(events, e, t);
      assert Get(books.recoveries, t, 0) == RecoveryCount(events, t);
    }
  }

  /** The verdict on an answer. */
  datatype Answer = Answer(frame: Frame, expectedLen: int, crcValid: bool)

  const NO_ANSWER := Answer(NO_FRAME, 0, false)

  /** The gate between frames. */
  datatype Gate = Gate(synced: bool, awaitingResync: bool)

  class PassiveReconstructor {
    const cfg: Config
    var phase: Phase
    var requestRaw: seq<Byte>
    var request: Frame
    var frameType: FrameType
    var responseRaw: seq<Byte>
    var answer: Answer
    var ack: Option<Byte>
    var timing: Timing
    var lastProgressAt: Option<int>
    var gate: Gate
    var books: Books
    ghost var history: seq<Input>
    ghost var emitted: seq<Event>

    /** The fields as one value. */
    function Value(): State
      reads this
    {
      State(phase, requestRaw, request, responseRaw, answer.frame, answer.expectedLen, answer.crcValid, ack, frameType,
            timing, lastProgressAt, gate.synced, gate.awaitingResync)
    }

    ghost predicate Balanced()
      reads this
    {
      BooksMatch(emitted, books)
    }

    /** The books are right and the fields satisfy the invariant of their phase. */
    ghost predicate Sound()
      reads this
    {
      Balanced() && Wf(cfg.lib, Value())
    }

    ghost predicate Valid()
      reads this
    {
      Sound() && Value() == After(cfg, history) && emitted == Events(cfg, history)
    }

    constructor (cfg: Config)
      ensures Valid() && this.cfg == cfg && history == []
    {
      this.cfg := cfg;
      phase, requestRaw, request, frameType, responseRaw := Idle, [], NO_FRAME, UnknownType, [];
      answer, ack, timing, lastProgressAt, gate := NO_ANSWER, None, NO_TIMING, None, Gate(false, false);
      books := NO_BOOKS;
      history, emitted := [], [];
    }

    // ---- books ----

    method Abandon(reason: AbandonReason, at: int, b: Byte, escaped: bool) returns (e: Event)
      requires Balanced()
      modifies `books, `emitted
      ensures e == AbandonEvent(Value(), reason, at, b, escaped)
      ensures Balanced() && emitted == old(emitted) + [e]
    {
      hide BooksMatch, Get;
      var correlated := ack;
      if reason == NoResponse || reason == NoProgress || reason == AmbiguousRetransmission || reason == CrcMismatch {
        correlated := None;
      }
      e := AbandonedTransaction(reason, frameType, request, answer.frame, frameType != UnknownType, answer.expectedLen > 0,
                                timing.(terminal := Some(at)), at, correlated, b, escaped);
      BookedMatches(emitted, books, e);
      books := books.(abandons := books.abandons[reason := Get(books.abandons, reason, 0) + 1]);
      if reason == UnexpectedSyn {
        books := books.(pending := Some(AfterUnexpectedSyn));
      }
      emitted := emitted + [e];
    }

    /** A success settles the pending trouble. */
    method Succeed(e: Event)
      requires Balanced() && IsSuccess(e)
      modifies `books, `emitted
      ensures Balanced() && emitted == old(emitted) + [e]
    {
      hide BooksMatch, Get;
      BookedMatches(emitted, books, e);
      if books.pending.Some? {
        var trouble := books.pending.value;
        books := books.(recoveries := books.recoveries[trouble := Get(books.recoveries, trouble, 0) + 1], pending := None);
      }
      emitted := emitted + [e];
    }

    /** A change of the link closes nothing by itself, but may leave trouble behind. */
    method CountDiscontinuity(e: Event)
      requires Balanced() && e.Discontinuity?
      modifies `books, `emitted
      ensures Balanced() && emitted == old(emitted) + [e]
    {
      hide BooksMatch;
      BookedMatches(emitted, books, e);
      if e.cause == LinkReset {
        books := books.(pending := Some(AfterReset));
      } else if e.cause == LinkDecodeFault {
        books := books.(pending := Some(AfterDecodeFault));
      }
      emitted := emitted + [e];
    }

    // ---- resets ----

    method ResetState()
      modifies `phase, `requestRaw, `request, `frameType, `responseRaw, `answer, `ack, `timing, `lastProgressAt, `gate
      ensures Value() == Fresh(false)
    {
      phase := Idle;
      requestRaw, responseRaw := [], [];
      request, frameType, answer := NO_FRAME, UnknownType, NO_ANSWER;
      ack, timing, lastProgressAt := None, NO_TIMING, None;
      gate := Gate(false, false);
    }

    method ResetStateAfterSyn()
      modifies `phase, `requestRaw, `request, `frameType, `responseRaw, `answer, `ack, `timing, `lastProgressAt, `gate
      ensures Value() == Fresh(true)
    {
      ResetState();
      gate := gate.(synced := true);
    }

    method Reset(afterSyn: bool)
      modifies `phase, `requestRaw, `request, `frameType, `responseRaw, `answer, `ack, `timing, `lastProgressAt, `gate
      ensures Value() == Fresh(afterSyn)
    {
      if afterSyn {
        ResetStateAfterSyn();
      } else {
        ResetState();
      }
    }

    method StartRequest(b: Byte, at: int)
      modifies `phase, `requestRaw, `request, `frameType, `responseRaw, `answer, `ack, `timing, `lastProgressAt, `gate
      ensures Value() == Reconstructor.StartRequest(b, at)
    {
      phase := Request;
      requestRaw, responseRaw := [b], [];
      request, frameType, answer := NO_FRAME, UnknownType, NO_ANSWER;
      ack, timing, lastProgressAt := None, NO_TIMING.(requestStart := Some(at)), Some(at);
      gate := Gate(false, false);
    }

    method AbandonAndReset(reason: AbandonReason, at: int, b: Byte, escaped: bool, afterSyn: bool) returns (event: Option<Event>)
      requires Balanced()
      modifies this
      ensures history == old(history)
      ensures Handled(old(emitted), Outcome(Fresh(afterSyn), Some(AbandonEvent(old(Value()), reason, at, b, escaped))), event)
    {
      hide BooksMatch, AbandonEvent;
      var e := Abandon(reason, at, b, escaped);
      event := Some(e);
      Reset(afterSyn);
    }

    method AbandonHere(reason: AbandonReason, at: int, b: Byte, escaped: bool) returns (event: Option<Event>)
      requires Balanced()
      modifies `phase, `books, `emitted
      ensures Handled(old(emitted), Outcome(old(Value()).(phase := Abandoned), Some(AbandonEvent(old(Value()), reason, at, b, escaped))), event)
    {
      hide BooksMatch, AbandonEvent;
      var e := Abandon(reason, at, b, escaped);
      event := Some(e);
      phase := Abandoned;
    }

    // ---- phases ----

    /** What a handler leaves: the books, the state and the event of its step. */
    ghost predicate Handled(before: seq<Event>, o: Outcome, event: Option<Event>)
      reads this
    {
      Balanced() && Value() == o.state && event == o.event && emitted == before + Emitted(event)
    }

    method HandleIdleSymbol(b: Byte, escaped: bool, at: int) returns (event: Option<Event>)
      requires Balanced()
      modifies this
      ensures history == old(history)
      ensures Handled(old(emitted), HandleIdle(cfg.lib, old(Value()), b, escaped, at), event)
    {
      hide BooksMatch, AbandonEvent;
      event := None;
      if b == SYN {
        gate := Gate(true, false);
      } else if !gate.synced {
      } else if !cfg.lib.isSource(b) {
        gate := Gate(false, true);
      } else if !IsInitiatorAddr(b) {
        event := AbandonAndReset(InvalidQQ, at, b, escaped, false);
      } else {
        StartRequest(b, at);
      }
    }

    method DispatchParsedRequest(frame: Frame, at: int, afterSyn: bool) returns (event: Option<Event>)
      requires Balanced()
      modifies this
      ensures history == old(history)
      ensures Handled(old(emitted), Dispatch(cfg.lib, old(Value()), frame, at, afterSyn), event)
    {
      hide BooksMatch, AbandonEvent;
      event := None;
      var kind := cfg.lib.frameType(frame.target);
      if kind == UnknownType {
        event := AbandonAndReset(CorruptedTarget, at, 0, false, afterSyn);
        return;
      }
      timing, lastProgressAt := timing.(requestEnd := Some(at)), Some(at);
      request, frameType := frame, kind;
      if kind == Broadcast {
        var e := BroadcastFrame(frame, Timing(timing.requestStart, Some(at), None, None, Some(at)), at);
        Succeed(e);
        event := Some(e);
        Reset(afterSyn);
      } else {
        phase := WaitAck;
      }
    }

    method HandleRequestSymbol(b: Byte, escaped: bool, at: int, local: Option<Byte>) returns (event: Option<Event>)
      requires Sound() && phase == Request
      modifies this
      ensures history == old(history)
      ensures Handled(old(emitted), HandleSymbol(cfg.lib, old(Value()), b, escaped, at, local), event)
    {
      hide Wf, ParseFrame, AbandonEvent, Dispatch, BooksMatch;
      if b != SYN || escaped {
        requestRaw := requestRaw + [b];
        lastProgressAt := Some(at);
        event := CheckCollected(b, escaped, at, local);
        return;
      }
      timing, lastProgressAt := timing.(requestEnd := Some(at)), Some(at);
      var parsed := ParseFrame(cfg.lib, requestRaw);
      match parsed {
        case None => event := AbandonAndReset(TruncationReason(requestRaw, local), at, b, escaped, true);
        case Some(frame) => event := DispatchParsedRequest(frame, at, true);
      }
    }

    /** The byte just added is checked where it landed; the length byte says when the request is complete. */
    method CheckCollected(b: Byte, escaped: bool, at: int, local: Option<Byte>) returns (event: Option<Event>)
      requires Balanced()
      modifies this
      ensures history == old(history)
      ensures Handled(old(emitted), CheckRequest(cfg.lib, old(Value()), b, escaped, at, local), event)
    {
      hide ParseFrame, AbandonEvent, Dispatch, BooksMatch;
      event := None;
      var rawLen := |requestRaw|;
      if rawLen == 2 {
        var zz := requestRaw[1];
        if zz == SYN || zz == ESC {
          event := AbandonAndReset(InvalidZZ, at, zz, escaped, false);
          return;
        }
        if zz != BROADCAST && !IsInitiatorAddr(zz) && !IsValidTargetAddr(zz) {
          // Every address that is not reserved is one of the three.
          assert false;
        }
      } else if rawLen == 5 {
        if requestRaw[4] > MAX_DATA_LEN {
          event := AbandonAndReset(InvalidNNInitiator, at, requestRaw[4], escaped, false);
          return;
        }
      }
      if rawLen > MAX_REQUEST_BYTES {
        event := AbandonAndReset(BufferOverflow, at, b, escaped, false);
        return;
      }
      if rawLen >= 5 && rawLen == 6 + requestRaw[4] as int {
        event := CommitRequest(b, escaped, at, local);
      }
    }

    method CommitRequest(b: Byte, escaped: bool, at: int, local: Option<Byte>) returns (event: Option<Event>)
      requires Balanced()
      modifies this
      ensures history == old(history)
      ensures Handled(old(emitted), CompleteRequest(cfg.lib, old(Value()), b, escaped, at, local), event)
    {
      hide ParseFrame, AbandonEvent, Dispatch, BooksMatch;
      event := None;
      var parsed := ParseFrame(cfg.lib, requestRaw);
      match parsed {
        case None =>
          var reason := CorruptedRequest;
          if IsSelfOriginated(requestRaw, local) {
            reason := SelfEcho;
          } else if IsScanProbe(requestRaw) {
            reason := ScanCollision;
          }
          event := AbandonAndReset(reason, at, b, escaped, false);
        case Some(frame) =>
          if IsAddressed(cfg.lib, frame) {
            event := DispatchParsedRequest(frame, at, false);
          }
      }
    }

    method HandleAckSymbol(b: Byte, escaped: bool, at: int, local: Option<Byte>) returns (event: Option<Event>)
      requires Balanced()
      modifies this
      ensures history == old(history)
      ensures Handled(old(emitted), HandleAck(old(Value()), b, escaped, at, local), event)
    {
      hide BooksMatch, AbandonEvent;
      event := None;
      if b == ACK {
        lastProgressAt, ack := Some(at), Some(b);
        if frameType == InitiatorInitiator {
          phase := WaitTerminal;
          return;
        }
        phase := WaitResponse;
        responseRaw, answer := [], answer.(expectedLen := 0, crcValid := false);
      } else if b == NACK {
        ack := Some(b);
        event := AbandonAndReset(Nacked, at, b, escaped, true);
      } else if b == SYN {
        if request.primary == 0x07 && request.secondary == 0x04 {
          event := AbandonAndReset(ScanTimeout, at, b, escaped, true);
        } else if local.Some? && request.source == local.value {
          event := AbandonAndReset(SelfEcho, at, b, escaped, true);
        } else {
          event := AbandonAndReset(UnexpectedSyn, at, b, escaped, true);
        }
      } else {
        event := AbandonHere(UnexpectedSymbol, at, b, escaped);
      }
    }

    method HandleResponseSymbol(b: Byte, escaped: bool, at: int) returns (event: Option<Event>)
      requires Sound() && phase == WaitResponse
      modifies this
      ensures history == old(history)
      ensures Handled(old(emitted), HandleResponse(cfg.lib, old(Value()), b, escaped, at), event)
    {
      hide Answered, Answering, HandleResponseByte, AbandonEvent, BooksMatch;
      if b == SYN && !escaped {
        if |responseRaw| == 0 {
          event := AbandonAndReset(NoResponse, at, b, escaped, true);
        } else {
          event := AbandonAndReset(UnexpectedSyn, at, b, escaped, true);
        }
      } else {
        event := CollectAnswer(b, escaped, at);
      }
    }

    /** The first byte fixes the length, and each byte before the last leaves the answer short of it. */
    method CollectAnswer(b: Byte, escaped: bool, at: int) returns (event: Option<Event>)
      requires Balanced() && Answering(Value())
      modifies this
      ensures history == old(history)
      ensures Handled(old(emitted), HandleResponseByte(cfg.lib, old(Value()), b, escaped, at), event)
    {
      hide CheckResponse, AbandonEvent, BooksMatch;
      event := None;
      lastProgressAt := Some(at);
      if |responseRaw| == 0 {
        if b > MAX_DATA_LEN {
          responseRaw := responseRaw + [b];
          event := AbandonAndReset(InvalidNNTarget, at, b, escaped, false);
          return;
        }
        timing := timing.(responseStart := Some(at));
        answer := answer.(expectedLen := b as int + 2);
      }
      responseRaw := responseRaw + [b];
      CheckAnswered(b, escaped, at);
    }

    /** The answer is complete when it has its declared length; it never has more. */
    method CheckAnswered(b: Byte, escaped: bool, at: int)
      requires |responseRaw| <= answer.expectedLen
      modifies `phase, `answer, `timing
      ensures Outcome(Value(), None) == CheckResponse(cfg.lib, old(Value()), b, escaped, at)
    {
      hide AbandonEvent;
      if |responseRaw| < answer.expectedLen {
        return;
      }
      var (frame, valid) := ParseResponse(cfg.lib, request, responseRaw);
      answer := answer.(frame := frame, crcValid := valid);
      timing := timing.(responseEnd := Some(at));
      phase := WaitFinalAck;
    }

    method HandleFinalAckSymbol(b: Byte, escaped: bool, at: int) returns (event: Option<Event>)
      requires Balanced()
      modifies this
      ensures history == old(history)
      ensures Handled(old(emitted), HandleFinalAck(old(Value()), b, escaped, at), event)
    {
      hide BooksMatch, AbandonEvent;
      event := None;
      if b == ACK {
        if !answer.crcValid {
          event := AbandonHere(CrcMismatch, at, b, escaped);
          return;
        }
        lastProgressAt := Some(at);
        phase := WaitTerminal;
      } else if b == NACK {
        event := AbandonHere(AmbiguousRetransmission, at, b, escaped);
      } else if b == SYN {
        event := AbandonAndReset(UnexpectedSyn, at, b, escaped, true);
      } else {
        event := AbandonHere(UnexpectedSymbol, at, b, escaped);
      }
    }

    method HandleTerminalSymbol(b: Byte, escaped: bool, at: int) returns (event: Option<Event>)
      requires Sound() && phase == WaitTerminal
      modifies this
      ensures history == old(history)
      ensures Handled(old(emitted), HandleTerminal(old(Value()), b, escaped, at), event)
    {
      hide BooksMatch, AbandonEvent, ParseFrame;
      if b != SYN {
        event := AbandonHere(UnexpectedSymbol, at, b, escaped);
        return;
      }
      lastProgressAt := Some(at);
      var closed := timing.(terminal := Some(at));
      var e: Event;
      if frameType == InitiatorInitiator {
        e := InitiatorFrame(request, closed, at, ack);
      } else {
        // Only addressed requests are acknowledged, so the frame is one to a target.
        assert frameType == InitiatorTarget;
        e := Transaction(request, answer.frame, closed, at, ack);
      }
      Succeed(e);
      event := Some(e);
      ResetStateAfterSyn();
    }

    method HandleAnySymbol(b: Byte, escaped: bool, at: int, local: Option<Byte>) returns (event: Option<Event>)
      requires Sound()
      modifies this
      ensures history == old(history)
      ensures Handled(old(emitted), HandleSymbol(cfg.lib, old(Value()), b, escaped, at, local), event)
    {
      hide Wf, HandleIdle, HandleRequestByte, HandleRequestSyn, HandleAck, HandleResponse, HandleFinalAck, HandleTerminal, BooksMatch;
      event := None;
      match phase {
        case Idle => event := HandleIdleSymbol(b, escaped, at);
        case Request => event := HandleRequestSymbol(b, escaped, at, local);
        case WaitAck => event := HandleAckSymbol(b, escaped, at, local);
        case WaitResponse => event := HandleResponseSymbol(b, escaped, at);
        case WaitFinalAck => event := HandleFinalAckSymbol(b, escaped, at);
        case WaitTerminal => event := HandleTerminalSymbol(b, escaped, at);
        case Abandoned =>
          if b == SYN {
            ResetStateAfterSyn();
          }
      }
    }

    method ExpireIfStale(at: int) returns (event: Option<Event>)
      requires Sound()
      modifies `phase, `books, `emitted
      ensures Handled(old(emitted), Expire(cfg, old(Value()), at), event) && Sound()
    {
      hide BooksMatch, AbandonEvent;
      event := None;
      if phase == Idle || phase == Abandoned || lastProgressAt.None? {
        return;
      }
      if at - lastProgressAt.value <= cfg.watchdog {
        return;
      }
      event := AbandonHere(NoProgress, at, 0, false);
    }

    method HandleInterruption(reason: AbandonReason, cause: DiscontinuityReason, at: int) returns (events: seq<Event>)
      requires Balanced()
      modifies this
      ensures history == old(history) && Balanced()
      ensures Value() == Fresh(false) && events == Interrupt(old(Value()), reason, cause, at)
      ensures emitted == old(emitted) + events
    {
      hide BooksMatch, AbandonEvent;
      events := [];
      if phase != Idle && phase != Abandoned {
        var e := Abandon(reason, at, 0, false);
        events := [e];
      }
      ResetState();
      var d := Discontinuity(cause, at);
      CountDiscontinuity(d);
      events := events + [d];
    }

    /**
     * One observation: the object moves to where its longer history takes it, and its counters say
     * what was emitted, each reason for itself and all reasons together.
     */
    method Observe(input: Input) returns (events: seq<Event>)
      requires Valid()
      modifies this
      ensures Valid() && history == old(history) + [input]
      ensures events == StepEvents(cfg, old(Value()), input) && emitted == old(emitted) + events
      ensures CounterTotal(books.abandons) == AllAbandons(Events(cfg, history))
    {
      hide StepState, StepEvents, Wf, CounterTotal, AllAbandons, PendingTrouble, AbandonCount, RecoveryCount;
      StepKeepsWf(cfg, Value(), input);
      events := HandleTapEvent(input);
      RunAppend(Rec(cfg), Fresh(false), history, input);
      history := history + [input];
    }

    method HandleTapEvent(input: Input) returns (events: seq<Event>)
      requires Sound()
      modifies this
      ensures history == old(history) && Balanced()
      ensures Value() == StepState(cfg, old(Value()), input)
      ensures events == StepEvents(cfg, old(Value()), input) && emitted == old(emitted) + events
    {
      hide HandleSymbol, AbandonEvent, BooksMatch, Wf;
      events := [];
      match input {
        case Close(at) => events := HandleInterruption(ShutDown, LinkShutdown, at);
        case Tap(event, local) =>
          match event {
            case Symbol(b, escaped, at) =>
              var e1 := ExpireIfStale(at);
              var e2 := HandleAnySymbol(b, escaped, at, local);
              events := Emitted(e1) + Emitted(e2);
            case ReadTimeout(at) =>
              var e := ExpireIfStale(at);
              events := Emitted(e);
            case Connected(at) =>
              ResetState();
              var d := Discontinuity(LinkConnected, at);
              CountDiscontinuity(d);
              events := [d];
            case Disconnected(at) => events := HandleInterruption(LinkDown, LinkDisconnected, at);
            case Reset(at) => events := HandleInterruption(TransportReset, LinkReset, at);
            case DecodeFault(at) => events := HandleInterruption(DecodeFaulted, LinkDecodeFault, at);
          }
      }
    }
  }
}
