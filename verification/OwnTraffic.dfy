/** From the wire to the verdict: the gateway's own exchanges come back as copies and are recognised. */
module OwnTraffic {
  import opened Protocol
  import opened WireLog
  import opened Identity
  import opened BusTap
  import opened RoundTrip
  import opened WireRoundTrip
  import opened Deduplicator
  import opened DedupLaws
  import opened DedupMatching
  import opened DedupSkew
  import R = Reconstructor

  /** What the bus reports of the gateway's own exchange, with a target or with another initiator. */
  function ReportOf(x: Exchange): BusEvent
    requires x.TargetExchange? || x.InitiatorExchange?
  {
    if x.TargetExchange? then
      AttemptComplete(true, Some(x.request), Some(ResponseFrame(x.request, x.answer)), InitiatorTarget)
    else
      AttemptComplete(true, Some(x.request), None, InitiatorInitiator)
  }

  /** The copy and the report of one exchange have the same identity. */
  lemma SameIdentity(cfg: Config, local: LocalAddress, x: Exchange, at: seq<int>)
    requires x.TargetExchange? || (x.InitiatorExchange? && local.known && x.request.target != local.address)
    requires |at| == |Payload(cfg.lib, x)| + 1
    ensures var e := SuccessEvent(cfg.lib, x, at);
            var h := ReportHash(cfg, ReportOf(x));
            h.Some? && Hear(cfg, local, e) == Eligible(h.value)
  {
    hide HashOf;
  }

  function ResponseOf(x: Exchange): Option<Frame>
    requires x.TargetExchange? || x.InitiatorExchange?
  {
    if x.TargetExchange? then Some(ResponseFrame(x.request, x.answer)) else None
  }

  /** What the digest of a report is taken of. */
  function IdentityOf(cfg: Config, x: Exchange): Identity
    requires x.TargetExchange? || x.InitiatorExchange?
  {
    Identity(if x.TargetExchange? then TARGET_CLASS else INITIATOR_CLASS, x.request.source, x.request.target,
                      ResponseClass(cfg, x.request, if x.TargetExchange? then InitiatorTarget else InitiatorInitiator, ResponseOf(x)),
                      SUCCESS, CanonicalFrameBytes(cfg.lib, x.request), FrameBytes(cfg.lib, ResponseOf(x)))
  }

  lemma ReportDigest(cfg: Config, x: Exchange)
    requires x.TargetExchange? || x.InitiatorExchange?
    ensures ReportHash(cfg, ReportOf(x)) == Some(cfg.digest(Preimage(IdentityOf(cfg, x))))
  {
    hide Preimage, FrameBytes, CanonicalFrameBytes;
  }

  /**
   * With a digest that tells pre-images apart, the copy of an exchange has the identity of a report
   * if and only if the report is of that very exchange.
   */
  lemma CopyMatchesOnlyItsReport(cfg: Config, local: LocalAddress, x: Exchange, y: Exchange, at: seq<int>)
    requires forall a, b :: cfg.digest(a) == cfg.digest(b) ==> a == b
    requires forall request, response :: |cfg.classify(request, response)| < 256
    requires WellFormed(cfg.lib, x) && (x.TargetExchange? || x.InitiatorExchange?)
    requires WellFormed(cfg.lib, y) && |at| == |Payload(cfg.lib, y)| + 1
    requires y.TargetExchange? || (y.InitiatorExchange? && local.known && y.request.target != local.address)
    ensures var h := ReportHash(cfg, ReportOf(x));
            h.Some? && (Hear(cfg, local, SuccessEvent(cfg.lib, y, at)) == Eligible(h.value) <==> x == y)
  {
    hide Preimage, FrameBytes, CanonicalFrameBytes, Payload, Hear, SuccessEvent, ReportHash;
    SameIdentity(cfg, local, y, at);
    ReportDigest(cfg, x);
    ReportDigest(cfg, y);
    var a, b := IdentityOf(cfg, x), IdentityOf(cfg, y);
    if cfg.digest(Preimage(a)) == cfg.digest(Preimage(b)) {
      SameDigestSameFrames(cfg.lib, cfg.digest, a, b, x.request, ResponseOf(x), y.request, ResponseOf(y));
    }
  }

  /** A success without a response counts as acknowledged only between initiators; elsewhere it is ambiguous. */
  lemma UnansweredClass(cfg: Config, request: Frame, frameType: FrameType)
    ensures ResponseClass(cfg, request, frameType, None) == Ascii("ack_only") <==> frameType == InitiatorInitiator
  {
    assert |ACK_ONLY| == 8 && |AMBIGUOUS| == 18;
  }

  /** With such a digest the report of a broadcast is no match for anything heard. */
  lemma BroadcastReportMatchesNothing(cfg: Config, local: LocalAddress, request: Frame, e: R.Event)
    requires forall a, b :: cfg.digest(a) == cfg.digest(b) ==> a == b
    requires Hear(cfg, local, e).Eligible?
    ensures ReportHash(cfg, AttemptComplete(true, Some(request), None, Broadcast)) != Some(Hear(cfg, local, e).hash)
  {
    hide HashOf;
    ClassesDiffer();
    var response := if e.Transaction? then Some(e.response) else None;
    var type_ := if e.Transaction? then InitiatorTarget else InitiatorInitiator;
    OtherClassOtherHash(cfg, BROADCAST_CLASS, request, Broadcast, None,
                        if e.Transaction? then TARGET_CLASS else INITIATOR_CLASS, e.request, type_, response);
  }

  lemma OtherClassOtherHash(cfg: Config, class_: seq<Byte>, f: Frame, type_: FrameType, g: Option<Frame>,
                            class': seq<Byte>, f': Frame, type': FrameType, g': Option<Frame>)
    requires forall a, b :: cfg.digest(a) == cfg.digest(b) ==> a == b
    requires |class_| != |class'| && |class_| < 256 && |class'| < 256
    ensures HashOf(cfg, class_, f, type_, g) != HashOf(cfg, class', f', type', g')
  {
    hide Preimage, FrameBytes, CanonicalFrameBytes, ResponseClass;
    var a := Identity(class_, f.source, f.target, ResponseClass(cfg, f, type_, g), SUCCESS,
                      CanonicalFrameBytes(cfg.lib, f), FrameBytes(cfg.lib, g));
    var b := Identity(class', f'.source, f'.target, ResponseClass(cfg, f', type', g'), SUCCESS,
                      CanonicalFrameBytes(cfg.lib, f'), FrameBytes(cfg.lib, g'));
    PreimageStarts(a);
    PreimageStarts(b);
  }

  lemma PreimageStarts(id: Identity)
    ensures Preimage(id) != [] && Preimage(id)[0] as int == |id.class_| % 256
  {
  }

  /** The first byte of what is hashed is the length of the class name. */
  lemma ClassesDiffer()
    ensures |BROADCAST_CLASS| == 9 && |INITIATOR_CLASS| == 19 && |TARGET_CLASS| == 16
  {
  }

  /**
   * An exchange the gateway reports and then hears as raw wire bytes, after any history of the
   * tap and with only strangers' events in between, comes out as a matched copy.
   */
  lemma OwnExchangeIsMatched(
    rec: R.Config, history: seq<R.Input>, x: Exchange, syn: StreamEvent, first: seq<R.Input>, w: seq<StreamEvent>,
    heard: seq<R.Input>, cfg: Config, env: RetryEnvelope, s: State, a: int, mid: seq<Input>, thirdParty: bool, p: int, h: Digest)
    requires WellFormed(rec.lib, x) && (x.TargetExchange? || x.InitiatorExchange?) && cfg.lib == rec.lib
    requires syn.WireByte? && syn.b == SYN && Hears(first, false, [syn])
    requires Carries(w, Wire(rec.lib, x)) && Hears(heard, false, w) && NoPause(rec, heard)
    requires |heard| == |Payload(cfg.lib, x)| + 1 && forall i :: 0 <= i < |heard| ==> heard[i].Tap?
    requires var e := SuccessEvent(cfg.lib, x, Times(heard));
             var report := ReportOf(x);
             var s1 := Next(cfg, s, Bus(report, a));
             var local := After(cfg, s1, mid).local;
             && ReportHash(cfg, report) == Some(h) && Deduplicator.Acceptable(env, cfg.budgets) && p - a <= RequiredBudgets(env).delivery
             && !Resets(cfg, s, Bus(report, a)) && Of(Deduplicator.Waiting(s.pending, a), h) == [] && Strangers(cfg, s1, mid, h, p)
             && (x.InitiatorExchange? ==> local.known && x.request.target != local.address)
    ensures var e := SuccessEvent(cfg.lib, x, Times(heard));
            var s2 := After(cfg, Next(cfg, s, Bus(ReportOf(x), a)), mid);
            && R.Events(rec, history + first + heard) == R.Events(rec, history + first) + [e]
            && Matched(s2, e, h) in Emit(cfg, s2, Passive(e, thirdParty, p))
  {
    hide Next, Emit, Hear, HashOf, Strangers, Of, Deduplicator.Waiting, Resets, SuccessEvent, Payload, Hears, R.Events, R.After;
    RawRoundTrip(rec, history, x, syn, first, w, heard);
    var e := SuccessEvent(cfg.lib, x, Times(heard));
    var report := ReportOf(x);
    var s1 := Next(cfg, s, Bus(report, a));
    SameIdentity(cfg, After(cfg, s1, mid).local, x, Times(heard));
    ReportThenCopy(cfg, env, s, report, a, mid, e, thirdParty, p, h);
  }

  /**
   * The other order: an exchange that is heard as raw wire bytes first, and is reported within the
   * publish budget, comes out as a matched copy when the report comes.
   */
  lemma OwnExchangeIsMatchedLater(
    rec: R.Config, history: seq<R.Input>, x: Exchange, syn: StreamEvent, first: seq<R.Input>, w: seq<StreamEvent>,
    heard: seq<R.Input>, cfg: Config, env: RetryEnvelope, s: State, thirdParty: bool, p: int, mid: seq<Input>, a: int, h: Digest)
    requires WellFormed(rec.lib, x) && (x.TargetExchange? || x.InitiatorExchange?) && cfg.lib == rec.lib
    requires syn.WireByte? && syn.b == SYN && Hears(first, false, [syn])
    requires Carries(w, Wire(rec.lib, x)) && Hears(heard, false, w) && NoPause(rec, heard)
    requires |heard| == |Payload(cfg.lib, x)| + 1 && forall i :: 0 <= i < |heard| ==> heard[i].Tap?
    requires Inv(cfg, s) && (x.InitiatorExchange? ==> s.local.known && x.request.target != s.local.address)
    requires !HasReport(Deduplicator.Expire(s, p), h) && Of(Deduplicator.Waiting(s.pending, p), h) == []
    requires |Deduplicator.Waiting(s.pending, p)| < cfg.budgets.capacity
    requires var e := SuccessEvent(cfg.lib, x, Times(heard));
             var report := ReportOf(x);
             var s1 := Next(cfg, s, Passive(e, thirdParty, p));
             && ReportHash(cfg, report) == Some(h)
             && Deduplicator.Acceptable(env, cfg.budgets) && a - p <= RequiredBudgets(env).publish
             && Strangers(cfg, s1, mid, h, a) && !Resets(cfg, After(cfg, s1, mid), Bus(report, a))
    ensures var e := SuccessEvent(cfg.lib, x, Times(heard));
            var s2 := After(cfg, Next(cfg, s, Passive(e, thirdParty, p)), mid);
            && R.Events(rec, history + first + heard) == R.Events(rec, history + first) + [e]
            && Matched(s2, e, h) in Emit(cfg, s2, Bus(ReportOf(x), a))
  {
    hide Next, Emit, Hear, HashOf, Strangers, Of, Deduplicator.Waiting, Resets, SuccessEvent, Payload, Hears, R.Events, R.After,
         Inv, HasReport, Deduplicator.Expire;
    RawRoundTrip(rec, history, x, syn, first, w, heard);
    var e := SuccessEvent(cfg.lib, x, Times(heard));
    SameIdentity(cfg, s.local, x, Times(heard));
    CopyThenReport(cfg, env, s, e, thirdParty, p, mid, ReportOf(x), a, h);
  }
}
