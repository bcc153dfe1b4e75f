/**
 * When passive traffic may count as a third party's: only after enough evidence, spread over a
 * long enough window, since the last degradation.
 */
module DedupRecovery {
  import opened Protocol
  import opened Deduplicator
  import opened DedupLaws
  import R = Reconstructor

  /** What a step says about the health of matching. */
  datatype Mark = Degradation | Sign(at: int)

  function Marks(cfg: Config, s: State, i: Input): seq<Mark> {
    match i
    case Bus(e, now) =>
      if e.ObserverFault? then [Degradation]
      else if !IsReport(e) then []
      else
        var s1 := Expire(s, now);
        var moved := Moves(s.local, e.request.value.source);
        (if moved then [Degradation] else [])
        + (if ReportHash(cfg, e).None? then [Degradation]
           else if Situated(s1, e.request.value.source).pending == [] then [Sign(now)]
           else [Sign(now), Sign(now)])
    case Passive(e, _, now) =>
      var s1 := Expire(s, now);
      (match Hear(cfg, s.local, e)
       case Boundary => [Degradation]
       case Evidence => [Sign(now)]
       case Immediate(_) => []
       case Eligible(h) => if !HasReport(s1, h) && |s1.pending| >= cfg.budgets.capacity then [Degradation] else [Sign(now)])
    case Tick(_) => []
    case CriticalReset(_) => [Degradation]
  }

  function Journal(cfg: Config, s: State, inputs: seq<Input>): seq<Mark> {
    if inputs == [] then []
    else
      var n := |inputs| - 1;
      Journal(cfg, s, inputs[..n]) + Marks(cfg, After(cfg, s, inputs[..n]), inputs[n])
  }

  /** The times of the signs since the last degradation. */
  function SignsSince(journal: seq<Mark>): seq<int> {
    if journal == [] then []
    else
      var last := journal[|journal| - 1];
      if last.Degradation? then [] else SignsSince(journal[..|journal| - 1]) + [last.at]
  }

  /** At some point there were enough signs and they spanned the window. */
  ghost predicate Earned(b: Budgets, signs: seq<int>) {
    exists m :: 0 <= m < |signs| && m + 1 >= b.threshold && signs[m] - signs[0] >= b.hysteresis
  }

  /** The recovery record sums up the signs as long as they do not suffice. */
  ghost predicate Summed(b: Budgets, s: State, signs: seq<int>) {
    if s.degraded then
      !Earned(b, signs) && s.recovery == Recovery(if signs == [] then None else Some(signs[0]), |signs|)
    else
      Earned(b, signs)
  }

  /** One more sign: earned before, or by this very sign. */
  lemma EarnedMore(b: Budgets, signs: seq<int>, now: int)
    ensures var first := if signs == [] then now else signs[0];
            Earned(b, signs + [now]) <==> Earned(b, signs) || (|signs| + 1 >= b.threshold && now - first >= b.hysteresis)
  {
    var all := signs + [now];
    assert all[|signs|] == now && all[0] == if signs == [] then now else signs[0];
    if Earned(b, signs) {
      var m :| 0 <= m < |signs| && m + 1 >= b.threshold && signs[m] - signs[0] >= b.hysteresis;
      assert all[m] == signs[m];
    }
    if Earned(b, all) {
      var m :| 0 <= m < |all| && m + 1 >= b.threshold && all[m] - all[0] >= b.hysteresis;
      assert m < |signs| ==> all[m] == signs[m];
    }
  }

  lemma SignSums(b: Budgets, s: State, signs: seq<int>, now: int)
    requires Summed(b, s, signs)
    ensures Summed(b, RecordEvidence(b, s, now), signs + [now])
  {
    hide Earned;
    EarnedMore(b, signs, now);
    assert (signs + [now])[0] == if signs == [] then now else signs[0];
  }

  lemma SignsAppend(journal: seq<Mark>, m: Mark)
    ensures SignsSince(journal + [m]) == if m.Degradation? then [] else SignsSince(journal) + [m.at]
  {
    assert (journal + [m])[..|journal|] == journal;
  }

  /** Health depends on nothing but the record. */
  lemma SameHealth(b: Budgets, s: State, r: State, signs: seq<int>)
    requires Summed(b, s, signs) && r.degraded == s.degraded && r.recovery == s.recovery
    ensures Summed(b, r, signs)
  {
  }

  lemma DegradeSums(b: Budgets, s: State)
    ensures Summed(b, Degrade(s), [])
  {
  }

  /** Matching a report: one sign for each side that had something to match. */
  lemma ReportSums(b: Budgets, s: State, h: Digest, now: int, signs: seq<int>)
    requires Summed(b, s, signs)
    ensures Summed(b, Report(b, s, h, now), if s.pending == [] then signs + [now] else signs + [now] + [now])
  {
    hide Summed, RecordEvidence, FirstMatch;
    var s1 := s.(active := Retain(s.active, h, now + b.retention));
    var i := FirstMatch(s1.pending, h, s1.epoch);
    var s2 := if i.None? then s1 else s1.(pending := Remove(s1.pending, i.value), active := Consume(s1.active, h));
    SameHealth(b, s, s2, signs);
    SignSums(b, s2, signs, now);
    SignSums(b, RecordEvidence(b, s2, now), signs + [now], now);
  }

  lemma SituatedSums(b: Budgets, s: State, address: Byte, signs: seq<int>)
    requires Summed(b, s, signs)
    ensures Summed(b, Situated(s, address), if Moves(s.local, address) then [] else signs)
  {
  }

  lemma BusSums(cfg: Config, s: State, e: BusEvent, now: int, journal: seq<Mark>)
    requires Summed(cfg.budgets, s, SignsSince(journal))
    ensures Summed(cfg.budgets, HandleBus(cfg, s, e, now), SignsSince(journal + Marks(cfg, s, Bus(e, now))))
  {
    hide Summed, SignsSince, Report, Waiting, Live, Situated, HashOf;
    var b := cfg.budgets;
    var s1 := Expire(s, now);
    SameHealth(b, s, s1, SignsSince(journal));
    if e.ObserverFault? {
      SignsAppend(journal, Degradation);
      DegradeSums(b, s1.(active := map[]));
    } else if !IsReport(e) {
      assert journal + [] == journal;
    } else {
      var address := e.request.value.source;
      var s2 := Situated(s1, address);
      SituatedSums(b, s1, address, SignsSince(journal));
      var moved := if Moves(s.local, address) then [Degradation] else [];
      var journal1 := journal + moved;
      SignsAppend(journal, Degradation);
      assert journal + [] == journal;
      assert Summed(b, s2, SignsSince(journal1));
      ReportMarks(cfg, s2, e, now, journal1);
      var rest := if ReportHash(cfg, e).None? then [Degradation] else if s2.pending == [] then [Sign(now)] else [Sign(now), Sign(now)];
      assert journal + (moved + rest) == journal1 + rest;
    }
  }

  lemma ReportMarks(cfg: Config, s: State, e: BusEvent, now: int, journal: seq<Mark>)
    requires IsReport(e) && Summed(cfg.budgets, s, SignsSince(journal))
    ensures var h := ReportHash(cfg, e);
            Summed(cfg.budgets, if h.None? then Degrade(s) else Report(cfg.budgets, s, h.value, now),
                   SignsSince(journal + if h.None? then [Degradation] else if s.pending == [] then [Sign(now)] else [Sign(now), Sign(now)]))
  {
    hide Summed, SignsSince, Report, HashOf;
    var h := ReportHash(cfg, e);
    SignsAppend(journal, Degradation);
    SignsAppend(journal, Sign(now));
    SignsAppend(journal + [Sign(now)], Sign(now));
    assert journal + [Sign(now), Sign(now)] == journal + [Sign(now)] + [Sign(now)];
    if h.None? {
      DegradeSums(cfg.budgets, s);
    } else {
      ReportSums(cfg.budgets, s, h.value, now, SignsSince(journal));
    }
  }

  lemma PassiveSums(cfg: Config, s: State, e: R.Event, thirdParty: bool, now: int, journal: seq<Mark>)
    requires Summed(cfg.budgets, s, SignsSince(journal))
    ensures Summed(cfg.budgets, HandlePassive(cfg, s, e, thirdParty, now),
                   SignsSince(journal + Marks(cfg, s, Passive(e, thirdParty, now))))
  {
    hide Summed, SignsSince, RecordEvidence, Waiting, Live, HashOf;
    var b := cfg.budgets;
    var signs := SignsSince(journal);
    var s1 := Expire(s, now);
    SameHealth(b, s, s1, signs);
    SignsAppend(journal, Degradation);
    SignsAppend(journal, Sign(now));
    assert journal + [] == journal;
    match Hear(cfg, s.local, e)
    case Boundary => DegradeSums(b, s1.(pending := [], active := map[], epoch := s1.epoch + 1));
    case Evidence => SignSums(b, s1, signs, now);
    case Immediate(_) =>
    case Eligible(h) =>
      if HasReport(s1, h) {
        var s2 := s1.(active := Consume(s1.active, h));
        SameHealth(b, s1, s2, signs);
        SignSums(b, s2, signs, now);
      } else if |s1.pending| >= b.capacity {
        DegradeSums(b, s1);
      } else {
        var s2 := s1.(pending := s1.pending + [Pending(e, h, thirdParty, now + b.grace, s1.epoch)]);
        SameHealth(b, s1, s2, signs);
        SignSums(b, s2, signs, now);
      }
  }

  lemma StepSums(cfg: Config, s: State, i: Input, journal: seq<Mark>)
    requires Summed(cfg.budgets, s, SignsSince(journal))
    ensures Summed(cfg.budgets, Next(cfg, s, i), SignsSince(journal + Marks(cfg, s, i)))
  {
    hide Summed, SignsSince, HandleBus, HandlePassive, Waiting;
    match i
    case Bus(e, now) => BusSums(cfg, s, e, now, journal);
    case Passive(e, thirdParty, now) => PassiveSums(cfg, s, e, thirdParty, now, journal);
    case Tick(now) =>
      assert journal + [] == journal;
      SameHealth(cfg.budgets, s, Next(cfg, s, i), SignsSince(journal));
    case CriticalReset(now) =>
      SignsAppend(journal, Degradation);
      DegradeSums(cfg.budgets, s.(pending := [], active := map[], epoch := s.epoch + 1));
  }

  lemma {:induction false} RunSums(cfg: Config, local: LocalAddress, inputs: seq<Input>)
    ensures Summed(cfg.budgets, After(cfg, Initial(local), inputs), SignsSince(Journal(cfg, Initial(local), inputs)))
  {
    if inputs != [] {
      hide Summed, SignsSince, Marks, Next;
      var n := |inputs| - 1;
      RunSums(cfg, local, inputs[..n]);
      StepSums(cfg, After(cfg, Initial(local), inputs[..n]), inputs[n], Journal(cfg, Initial(local), inputs[..n]));
    }
  }

  /** In every run the deduplicator is healthy exactly when the signs since the last degradation suffice. */
  lemma HealthyExactlyWhenEarned(cfg: Config, local: LocalAddress, inputs: seq<Input>)
    ensures !After(cfg, Initial(local), inputs).degraded <==>
            Earned(cfg.budgets, SignsSince(Journal(cfg, Initial(local), inputs)))
  {
    hide SignsSince, Earned;
    RunSums(cfg, local, inputs);
  }

  lemma {:induction false} ReleasesThirdParty(s: State, due: seq<Pending>)
    ensures forall x :: x in Releases(s, due) && x.disposition == ThirdParty ==> !s.degraded
  {
    if due != [] {
      ReleasesThirdParty(s, due[..|due| - 1]);
    }
  }

  lemma EmitsThirdParty(cfg: Config, s: State, i: Input, x: Adjudication)
    requires x in Emit(cfg, s, i) && x.disposition == ThirdParty
    ensures !s.degraded
  {
    hide Releases, Due, Expire, Situated, FirstMatch, HashOf;
    ReleasesThirdParty(s, Due(s.pending, i.now));
  }

  /**
   * In every run, whatever counts as a third party's comes out only when enough signs, spanning
   * the hysteresis window, followed the most recent degradation or new epoch.
   */
  lemma ThirdPartyIsEarned(cfg: Config, local: LocalAddress, inputs: seq<Input>, i: Input, x: Adjudication)
    requires x in Emit(cfg, After(cfg, Initial(local), inputs), i) && x.disposition == ThirdParty
    ensures Earned(cfg.budgets, SignsSince(Journal(cfg, Initial(local), inputs)))
  {
    hide Emit, SignsSince, Earned;
    RunSums(cfg, local, inputs);
    EmitsThirdParty(cfg, After(cfg, Initial(local), inputs), i, x);
  }

  lemma {:induction false} ReleasesAll(s: State, due: seq<Pending>, p: Pending)
    requires p in due
    ensures Release(s, p) in Releases(s, due)
  {
    var n := |due| - 1;
    if p != due[n] {
      ReleasesAll(s, due[..n], p);
    }
  }

  /**
   * In every run, a copy whose grace is over comes out at the next event or tick, as a third
   * party's exactly when that was earned and its family policy allows it.
   */
  lemma ReleasedAsEarned(cfg: Config, local: LocalAddress, inputs: seq<Input>, i: Input, p: Pending)
    requires !i.CriticalReset? && p in Due(After(cfg, Initial(local), inputs).pending, i.now)
    ensures var s := After(cfg, Initial(local), inputs);
            var earned := !s.degraded;
            && (earned <==> Earned(cfg.budgets, SignsSince(Journal(cfg, Initial(local), inputs))))
            && Adjudication(if earned && p.thirdParty then ThirdParty else Observability, Some(p.event), p.hash, s.epoch, ByGrace)
               in Emit(cfg, s, i)
  {
    hide SignsSince, Earned, Releases, Due, Expire, Situated, Hear, FirstMatch, HashOf;
    HealthyExactlyWhenEarned(cfg, local, inputs);
    var s := After(cfg, Initial(local), inputs);
    ReleasesAll(s, Due(s.pending, i.now), p);
  }
}
