/**
 * The epochs of the deduplicator and the address the gateway speaks from, told from the inputs alone:
 * a new epoch starts exactly with a report from another address, a discontinuity or a reset, and every
 * passive event is taken for what its kind and that address make it.
 */
module DedupEpochs {
  import opened Protocol
  import opened Runs
  import opened Deduplicator
  import opened DedupLaws
  import R = Reconstructor

  // ---- the inputs ----

  /** The source of a successful report, if it names one. */
  function SourceOf(i: Input): Option<Byte> {
    match i
    case Bus(AttemptComplete(success, request, _, _), _) =>
      if success && request.Some? && request.value.source != 0 then Some(request.value.source) else None
    case _ => None
  }

  /** The address the gateway was last heard speaking from, or the one given at the start. */
  function OwnAddress(start: Option<Byte>, inputs: seq<Input>): Option<Byte> {
    if inputs == [] then start
    else
      var n := |inputs| - 1;
      if SourceOf(inputs[n]).Some? then SourceOf(inputs[n]) else OwnAddress(start, inputs[..n])
  }

  /** The input cuts the past off: the gateway moved, the link broke, or someone asked for it. */
  predicate StartsEpoch(own: Option<Byte>, i: Input) {
    || i.CriticalReset?
    || (i.Passive? && i.heard.Discontinuity?)
    || (SourceOf(i).Some? && own.Some? && SourceOf(i) != own)
  }

  function EpochStarts(start: Option<Byte>, inputs: seq<Input>): nat {
    if inputs == [] then 0
    else
      var n := |inputs| - 1;
      EpochStarts(start, inputs[..n]) + One(StartsEpoch(OwnAddress(start, inputs[..n]), inputs[n]))
  }

  function KnownAddress(local: LocalAddress): Option<Byte> {
    if local.known then Some(local.address) else None
  }

  // ---- one step ----

  /** What a new epoch leaves of the past: nothing but what its own report brought. */
  predicate Renewed(b: Budgets, s: State, r: State, i: Input) {
    && r.epoch == s.epoch + 1 && r.pending == []
    && (forall h :: h in r.active ==> i.Bus? && r.active[h] == Retained(i.now + b.retention, 1))
    && |r.active| <= 1 && (!i.Bus? ==> r.active == map[])
    && r.recovery.evidence <= One(i.Bus?)
    && (b.threshold > 1 || b.hysteresis > 0 ==> r.degraded)
  }

  /** The notices of a new epoch. */
  function Notices(out: seq<Adjudication>): seq<Adjudication> {
    if out == [] then []
    else
      var n := |out| - 1;
      Notices(out[..n]) + if out[n].disposition == Discontinued || out[n].cause == ByReset then [out[n]] else []
  }

  lemma {:induction false} NoticesConcat(a: seq<Adjudication>, b: seq<Adjudication>)
    ensures Notices(a + b) == Notices(a) + Notices(b)
  {
    if b == [] {
      assert a + b == a;
    } else {
      assert (a + b)[..|a + b| - 1] == a + b[..|b| - 1];
      NoticesConcat(a, b[..|b| - 1]);
    }
  }

  lemma {:induction false} ReleasesNotices(s: State, due: seq<Pending>)
    ensures Notices(Releases(s, due)) == []
  {
    if due != [] {
      var n := |due| - 1;
      ReleasesNotices(s, due[..n]);
      assert [Release(s, due[n])][..0] == [];
      NoticesConcat(Releases(s, due[..n]), [Release(s, due[n])]);
    }
  }

  lemma OneNotice(x: Adjudication)
    ensures Notices([x]) == if x.disposition == Discontinued || x.cause == ByReset then [x] else []
  {
    assert [x][..0] == [];
  }

  lemma ReportRenews(b: Budgets, s: State, h: Digest, now: int)
    requires s.pending == [] && s.active == map[] && s.degraded && s.recovery == NO_RECOVERY
    ensures var r := Report(b, s, h, now);
            && r.epoch == s.epoch && r.pending == [] && r.local == s.local
            && r.active == map[h := Retained(now + b.retention, 1)] && r.recovery.evidence == 1
            && (b.threshold > 1 || b.hysteresis > 0 ==> r.degraded)
  {
  }

  lemma ReportStays(b: Budgets, s: State, h: Digest, now: int)
    ensures var r := Report(b, s, h, now); r.epoch == s.epoch && r.local == s.local
  {
    hide FirstMatch, Consume, Retain;
  }

  /**
   * A successful report: from another address than the known one it starts a new epoch and leaves
   * nothing of the past but its own evidence; otherwise the epoch stays. Its source is the gateway's
   * address from then on.
   */
  lemma ReportMovesEpoch(cfg: Config, s: State, e: BusEvent, now: int)
    ensures var r := Next(cfg, s, Bus(e, now));
            var source := SourceOf(Bus(e, now));
            && (if source.Some? && s.local.known && source.value != s.local.address then
                  Renewed(cfg.budgets, s, r, Bus(e, now))
                else
                  r.epoch == s.epoch)
            && KnownAddress(r.local) == (if source.Some? then source else KnownAddress(s.local))
            && r.local.epoch == (if source.None? then s.local.epoch else if !s.local.known then s.epoch
                                 else s.local.epoch + One(source.value != s.local.address))
  {
    hide Report, Waiting, Live, HashOf;
    if IsReport(e) {
      var s2 := Situated(Expire(s, now), e.request.value.source);
      var h := ReportHash(cfg, e);
      if h.Some? {
        ReportStays(cfg.budgets, s2, h.value, now);
        if s2.pending == [] && s2.active == map[] && s2.degraded && s2.recovery == NO_RECOVERY {
          ReportRenews(cfg.budgets, s2, h.value, now);
        }
      }
    }
  }

  lemma MatchNotices(s: State, h: Digest)
    ensures Notices(MatchOutput(s, h)) == []
  {
    hide FirstMatch;
    var i := FirstMatch(s.pending, h, s.epoch);
    if i.Some? && i.value < |s.pending| {
      OneNotice(Matched(s, s.pending[i.value].event, h));
    }
  }

  lemma BusNotices(cfg: Config, s: State, e: BusEvent, now: int)
    ensures var source := SourceOf(Bus(e, now));
            Notices(Emit(cfg, s, Bus(e, now))) ==
            if source.Some? && s.local.known && source.value != s.local.address then
              [Adjudication(Discontinued, None, [], s.epoch + 1, ByReset)]
            else
              []
  {
    hide MatchOutput, Releases, Due, Waiting, Live, HashOf, Notices;
    var s1 := Expire(s, now);
    var released := Releases(s, Due(s.pending, now));
    ReleasesNotices(s, Due(s.pending, now));
    NoNotices();
    if !IsReport(e) {
      assert released + [] == released;
    } else {
      var address := e.request.value.source;
      var notice := if AddressChanges(s1.local, address) then [ResetNotice(s1)] else [];
      var h := ReportHash(cfg, e);
      var rest := if h.None? then [] else MatchOutput(Situated(s1, address), h.value);
      if h.Some? {
        MatchNotices(Situated(s1, address), h.value);
      }
      OneNotice(ResetNotice(s1));
      NoticesConcat(released, notice + rest);
      NoticesConcat(notice, rest);
    }
  }

  lemma NoNotices()
    ensures Notices([]) == []
  {
  }

  lemma PassiveNotices(cfg: Config, s: State, e: R.Event, thirdParty: bool, now: int)
    ensures Notices(Emit(cfg, s, Passive(e, thirdParty, now))) ==
            if e.Discontinuity? then [Adjudication(Discontinued, None, [], s.epoch + 1, ByReset)] else []
  {
    hide Releases, Due, Waiting, Live, HashOf, Notices;
    var s1 := Expire(s, now);
    ReleasesNotices(s, Due(s.pending, now));
    NoNotices();
    var rest := match Hear(cfg, s.local, e)
                case Boundary => [ResetNotice(s1)]
                case Evidence => []
                case Immediate(inbound) => [Adjudication(if inbound then LocalInbound else Observability, Some(e), [], s.epoch, AtOnce)]
                case Eligible(h) => CopyOutput(cfg, s1, e, h);
    NoticesConcat(Releases(s, Due(s.pending, now)), rest);
    if rest != [] {
      assert rest == [rest[0]];
      OneNotice(rest[0]);
    }
  }

  /** One step keeps track of the address, the epoch and its notice. */
  lemma StepEpoch(cfg: Config, s: State, i: Input)
    ensures var r := Next(cfg, s, i);
            var own := KnownAddress(s.local);
            && KnownAddress(r.local) == (if SourceOf(i).Some? then SourceOf(i) else own)
            && r.epoch == s.epoch + One(StartsEpoch(own, i))
            && (StartsEpoch(own, i) ==> Renewed(cfg.budgets, s, r, i))
            && Notices(Emit(cfg, s, i)) ==
               (if StartsEpoch(own, i) then [Adjudication(Discontinued, None, [], s.epoch + 1, ByReset)] else [])
  {
    hide HandleBus, BusOutput, Releases, Due, Waiting, Live, HashOf, Notices;
    match i
    case Bus(e, now) =>
      ReportMovesEpoch(cfg, s, e, now);
      BusNotices(cfg, s, e, now);
    case Passive(e, thirdParty, now) =>
      PassiveNotices(cfg, s, e, thirdParty, now);
      PassiveEpoch(cfg, s, e, thirdParty, now);
    case Tick(now) => ReleasesNotices(s, Due(s.pending, now));
    case CriticalReset(_) => OneNotice(ResetNotice(s));
  }

  lemma PassiveEpoch(cfg: Config, s: State, e: R.Event, thirdParty: bool, now: int)
    ensures var r := Next(cfg, s, Passive(e, thirdParty, now));
            && r.local == s.local
            && (if e.Discontinuity? then Renewed(cfg.budgets, s, r, Passive(e, thirdParty, now)) else r.epoch == s.epoch)
  {
    hide Waiting, Live, HashOf, Consume;
  }

  // ---- whole runs ----

  /**
   * Over every run: the known address is the one the gateway was last heard speaking from, the epoch
   * counts the inputs that cut the past off, and as many notices came out, the last of them for the
   * current epoch.
   */
  lemma {:induction false} EpochsCounted(cfg: Config, local: LocalAddress, inputs: seq<Input>)
    ensures var s := After(cfg, Initial(local), inputs);
            var start := KnownAddress(local);
            && KnownAddress(s.local) == OwnAddress(start, inputs)
            && s.epoch == 1 + EpochStarts(start, inputs)
            && |Notices(Outputs(cfg, Initial(local), inputs))| == EpochStarts(start, inputs)
  {
    if inputs != [] {
      hide Next, Emit, SourceOf, StartsEpoch, Notices, KnownAddress, Renewed;
      var n := |inputs| - 1;
      EpochsCounted(cfg, local, inputs[..n]);
      var s := After(cfg, Initial(local), inputs[..n]);
      StepEpoch(cfg, s, inputs[n]);
      NoticesConcat(Outputs(cfg, Initial(local), inputs[..n]), Emit(cfg, s, inputs[n]));
    } else {
      NoNotices();
    }
  }

  // ---- what a passive event is taken for ----

  /** The event says that another initiator addressed the gateway. */
  predicate ToGateway(own: Option<Byte>, e: R.Event) {
    match e
    case InitiatorFrame(request, _, _, _) => own == Some(request.target)
    case AbandonedTransaction(_, frameType, request, _, hasRequest, _, _, _, _, _, _) =>
      frameType == InitiatorInitiator && hasRequest && own == Some(request.target)
    case _ => false
  }

  /** The event may be a copy of one of the gateway's own exchanges. */
  predicate MayBeCopy(own: Option<Byte>, e: R.Event) {
    e.Transaction? || (e.InitiatorFrame? && own.Some? && !ToGateway(own, e))
  }

  /** What is said of a passive event at once, apart from what its time releases. */
  function Verdict(own: Option<Byte>, e: R.Event, epoch: nat): seq<Adjudication> {
    if e.Discontinuity? then [Adjudication(Discontinued, None, [], epoch + 1, ByReset)]
    else if e.BroadcastFrame? then []
    else [Adjudication(if ToGateway(own, e) then LocalInbound else Observability, Some(e), [], epoch, AtOnce)]
  }

  /**
   * Every passive event that cannot be a copy gets its verdict at once, by its kind and the gateway's
   * address: exchanges with the gateway are inbound, the others are only observed. One that can be a
   * copy is matched with a retained report of its identity, or waits its grace, or overflows.
   */
  lemma HeardAs(cfg: Config, s: State, e: R.Event, thirdParty: bool, now: int)
    ensures var own := KnownAddress(s.local);
            var r := Next(cfg, s, Passive(e, thirdParty, now));
            var released := Releases(s, Due(s.pending, now));
            var out := Emit(cfg, s, Passive(e, thirdParty, now));
            if !MayBeCopy(own, e) then
              out == released + Verdict(own, e, s.epoch) && (!e.Discontinuity? ==> r.pending == Waiting(s.pending, now))
            else
              var h := if e.Transaction? then HashOf(cfg, TARGET_CLASS, e.request, InitiatorTarget, Some(e.response))
                       else HashOf(cfg, INITIATOR_CLASS, e.request, InitiatorInitiator, None);
              var waiting := Waiting(s.pending, now);
              if h in s.active && s.active[h].expiresAt > now && s.active[h].count > 0 then
                out == released + [Adjudication(MatchedCopy, Some(e), h, s.epoch, ByMatch)] && r.pending == waiting
              else if |waiting| < cfg.budgets.capacity then
                && out == released + []
                && r.pending == waiting + [Pending(e, h, thirdParty, now + cfg.budgets.grace, s.epoch)]
              else
                out == released + [Adjudication(Observability, Some(e), h, s.epoch, ByOverflow)] && r.pending == waiting
  {
    hide Releases, Due, Waiting, HashOf, Consume, RecordEvidence;
    RecordKeeps(cfg.budgets);
  }

  lemma RecordKeeps(b: Budgets)
    ensures forall s: State, now :: RecordEvidence(b, s, now).pending == s.pending
  {
  }
}
