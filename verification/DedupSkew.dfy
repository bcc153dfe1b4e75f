/**
 * How far apart a passive copy and its report may be: with budgets the constructor accepts they
 * are matched whenever the report is no later than the publish budget and the copy no later than
 * the delivery budget, whichever is processed first.
 */
module DedupSkew {
  import opened Protocol
  import opened Runs
  import opened Deduplicator
  import opened DedupLaws
  import opened DedupMatching
  import R = Reconstructor

  /** How long a request may take that uses all the retries of a policy and all the collisions. */
  function Duration(p: RetryPolicy, collisions: int): int {
    (1 + p.timeoutRetries + p.nackRetries) * 250_000_000 + collisions * 125_000_000
  }

  predicate Sensible(e: RetryEnvelope) {
    && e.target.timeoutRetries >= 0 && e.target.nackRetries >= 0 && e.collisionSyns >= 0
    && e.initiator.timeoutRetries >= 0 && e.initiator.nackRetries >= 0
  }

  /** The envelope is the time of the slower of the two kinds of requests, and the windows follow from it. */
  lemma EnvelopeIsLongest(e: RetryEnvelope, b: Budgets)
    requires Sensible(e)
    ensures LogicalEnvelope(e) == Max(Duration(e.target, e.collisionSyns), Duration(e.initiator, e.collisionSyns))
    ensures Acceptable(e, b) <==>
            var longest := Max(Duration(e.target, e.collisionSyns), Duration(e.initiator, e.collisionSyns));
            && b.publish >= longest + 250_000_000 && b.delivery >= 500_000_000 && b.grace >= longest + 500_000_000
            && b.retention >= longest + 1_000_000_000 && b.capacity >= 256
  {
  }

  /** With negative retry counts the envelope can be shorter than a request: the sums are compared before they are clamped. */
  lemma NegativeRetriesMislead()
    ensures var e := RetryEnvelope(RetryPolicy(5, -4), RetryPolicy(1, 1), 0);
            LogicalEnvelope(e) == 750_000_000 < Duration(RetryPolicy(5, 0), 0)
  {
  }

  /** The derived budgets: the envelope is never empty and each window covers the next. */
  lemma BudgetsNest(e: RetryEnvelope)
    ensures var b := RequiredBudgets(e);
            && LogicalEnvelope(e) >= ATTEMPT_UNIT
            && b.publish < b.grace && b.delivery < b.grace && b.grace < b.retention
            && Acceptable(e, b)
  {
  }

  // ---- one identity ----

  function Of(pending: seq<Pending>, h: Digest): seq<Pending> {
    if pending == [] then []
    else
      var n := |pending| - 1;
      Of(pending[..n], h) + if pending[n].hash == h then [pending[n]] else []
  }

  lemma {:induction false} OfConcat(a: seq<Pending>, b: seq<Pending>, h: Digest)
    ensures Of(a + b, h) == Of(a, h) + Of(b, h)
  {
    if b == [] {
      assert a + b == a;
    } else {
      assert (a + b)[..|a + b| - 1] == a + b[..|b| - 1];
      OfConcat(a, b[..|b| - 1], h);
    }
  }

  lemma OfOne(p: Pending, h: Digest)
    ensures Of([p], h) == if p.hash == h then [p] else []
  {
    assert [p][..0] == [];
  }

  lemma WaitingAppend(a: seq<Pending>, p: Pending, now: int)
    ensures Waiting(a + [p], now) == Waiting(a, now) + if p.releaseAt > now then [p] else []
  {
    assert (a + [p])[..|a|] == a;
  }

  lemma {:induction false} OfWaiting(pending: seq<Pending>, now: int, h: Digest)
    ensures Of(Waiting(pending, now), h) == Waiting(Of(pending, h), now)
  {
    if pending != [] {
      var n := |pending| - 1;
      var p := pending[n];
      var w, o := Waiting(pending[..n], now), Of(pending[..n], h);
      var more := if p.releaseAt > now then [p] else [];
      OfWaiting(pending[..n], now, h);
      OfConcat(w, more, h);
      OfOne(p, h);
      assert Waiting(pending, now) == w + more;
      if p.hash == h {
        assert Of(more, h) == more;
        WaitingAppend(o, p, now);
      } else {
        assert Of(more, h) == [] && Of(pending, h) == o;
      }
    }
  }

  lemma OfRemove(pending: seq<Pending>, i: nat, h: Digest)
    requires i < |pending| && pending[i].hash != h
    ensures Of(Remove(pending, i), h) == Of(pending, h)
  {
    hide Of;
    var a, b := pending[..i], pending[i + 1..];
    assert pending == a + ([pending[i]] + b);
    OfConcat(a, [pending[i]] + b, h);
    OfConcat([pending[i]], b, h);
    OfConcat(a, b, h);
    OfOne(pending[i], h);
  }

  lemma {:induction false} OfMember(pending: seq<Pending>, h: Digest, i: nat)
    requires i < |pending| && pending[i].hash == h
    ensures pending[i] in Of(pending, h)
  {
    var n := |pending| - 1;
    if i < n {
      OfMember(pending[..n], h, i);
    }
  }

  lemma {:induction false} OfNonempty(pending: seq<Pending>, h: Digest)
    requires Of(pending, h) != []
    ensures exists i :: 0 <= i < |pending| && pending[i].hash == h
  {
    var n := |pending| - 1;
    if pending[n].hash != h {
      OfNonempty(pending[..n], h);
      var i :| 0 <= i < n && pending[..n][i].hash == h;
      assert pending[i].hash == h;
    }
  }

  // ---- what a stranger's event does to an identity ----

  /** The input has nothing to do with `h`, starts no epoch and reports no fault. */
  predicate Stranger(cfg: Config, s: State, i: Input, h: Digest) {
    !IsReportOf(cfg, i, h) && !IsCopyOf(cfg, s, i, h) && !Resets(cfg, s, i) && !(i.Bus? && i.event.ObserverFault?)
  }

  lemma ReportOther(b: Budgets, s: State, k: Digest, now: int, h: Digest)
    requires k != h
    ensures var r := Report(b, s, k, now);
            Of(r.pending, h) == Of(s.pending, h) && (h in r.active <==> h in s.active) && (h in s.active ==> r.active[h] == s.active[h])
  {
    hide Of, FirstMatch, RecordEvidence;
    FirstMatchIs(s.pending, k, s.epoch);
    var i := FirstMatch(s.pending, k, s.epoch);
    var s1 := s.(active := Retain(s.active, k, now + b.retention));
    var s2 := if i.None? then s1 else s1.(pending := Remove(s.pending, i.value), active := Consume(s1.active, k));
    EvidenceKeeps(b, s2, now);
    EvidenceKeeps(b, MatchPending(b, s1, k, now), now);
    if i.Some? {
      OfRemove(s.pending, i.value, h);
    }
  }

  lemma CopyOther(cfg: Config, s: State, e: R.Event, k: Digest, thirdParty: bool, now: int, h: Digest)
    requires k != h
    ensures var r := Copy(cfg, s, e, k, thirdParty, now);
            Of(r.pending, h) == Of(s.pending, h) && (h in r.active <==> h in s.active) && (h in s.active ==> r.active[h] == s.active[h])
  {
    hide Of, RecordEvidence;
    var p := Pending(e, k, thirdParty, now + cfg.budgets.grace, s.epoch);
    EvidenceKeeps(cfg.budgets, s.(active := Consume(s.active, k)), now);
    EvidenceKeeps(cfg.budgets, s.(pending := s.pending + [p]), now);
    OfConcat(s.pending, [p], h);
    OfOne(p, h);
  }

  /** Waiting copies wait until their time, a retained report is kept until its time. */
  lemma StrangerKeeps(cfg: Config, s: State, i: Input, h: Digest)
    requires Stranger(cfg, s, i, h)
    ensures var r := Next(cfg, s, i);
            && Of(r.pending, h) == Waiting(Of(s.pending, h), i.now)
            && (h in s.active && s.active[h].expiresAt > i.now ==> h in r.active && r.active[h] == s.active[h])
            && (h in r.active ==> h in s.active && r.active[h] == s.active[h])
  {
    hide Of, Waiting, Report, Copy, RecordEvidence, HashOf;
    OfWaiting(s.pending, i.now, h);
    var s1 := Expire(s, i.now);
    if i.Bus? {
      if IsReport(i.event) {
        var s2 := Situated(s1, i.event.request.value.source);
        var k := ReportHash(cfg, i.event);
        if k.Some? {
          ReportOther(cfg.budgets, s2, k.value, i.now, h);
        }
      }
    } else if i.Passive? {
      EvidenceKeeps(cfg.budgets, s1, i.now);
      var heard := Hear(cfg, s.local, i.heard);
      if heard.Eligible? {
        CopyOther(cfg, s1, i.heard, heard.hash, i.thirdParty, i.now, h);
      }
    }
  }

  /** Strangers only, no later than `last`. */
  ghost predicate Strangers(cfg: Config, s: State, inputs: seq<Input>, h: Digest, last: int) {
    forall j :: 0 <= j < |inputs| ==> Stranger(cfg, After(cfg, s, inputs[..j]), inputs[j], h) && inputs[j].now <= last
  }

  lemma StrangersPrefix(cfg: Config, s: State, inputs: seq<Input>, h: Digest, last: int)
    requires inputs != [] && Strangers(cfg, s, inputs, h, last)
    ensures var n := |inputs| - 1;
            && Strangers(cfg, s, inputs[..n], h, last)
            && Stranger(cfg, After(cfg, s, inputs[..n]), inputs[n], h) && inputs[n].now <= last
  {
    hide Stranger, After;
    var n := |inputs| - 1;
    assert inputs[n].now <= last;
    forall j | 0 <= j < n
      ensures Stranger(cfg, After(cfg, s, inputs[..n][..j]), inputs[..n][j], h) && inputs[..n][j].now <= last
    {
      assert inputs[..n][..j] == inputs[..j];
      assert inputs[j].now <= last;
    }
  }

  lemma {:induction false} CopyWaits(cfg: Config, s: State, inputs: seq<Input>, h: Digest, p: Pending, last: int)
    requires Strangers(cfg, s, inputs, h, last) && Of(s.pending, h) == [p] && p.releaseAt > last
    ensures Of(After(cfg, s, inputs).pending, h) == [p]
  {
    hide Stranger, Next, Of;
    if inputs != [] {
      var n := |inputs| - 1;
      StrangersPrefix(cfg, s, inputs, h, last);
      CopyWaits(cfg, s, inputs[..n], h, p, last);
      StrangerKeeps(cfg, After(cfg, s, inputs[..n]), inputs[n], h);
      assert [p][..0] == [];
    }
  }

  lemma {:induction false} ReportStays(cfg: Config, s: State, inputs: seq<Input>, h: Digest, last: int)
    requires Strangers(cfg, s, inputs, h, last) && HasReport(s, h) && s.active[h].expiresAt > last
    ensures HasReport(After(cfg, s, inputs), h) && After(cfg, s, inputs).active[h] == s.active[h]
  {
    hide Stranger, Next, Of;
    if inputs != [] {
      var n := |inputs| - 1;
      StrangersPrefix(cfg, s, inputs, h, last);
      ReportStays(cfg, s, inputs[..n], h, last);
      StrangerKeeps(cfg, After(cfg, s, inputs[..n]), inputs[n], h);
    }
  }

  // ---- the two orders ----

  /** A lone copy that finds room waits. */
  lemma CopyEnters(cfg: Config, s: State, e: R.Event, thirdParty: bool, now: int, h: Digest)
    requires Hear(cfg, s.local, e) == Eligible(h) && !HasReport(Expire(s, now), h) && Of(Waiting(s.pending, now), h) == []
    requires |Waiting(s.pending, now)| < cfg.budgets.capacity
    ensures Of(Next(cfg, s, Passive(e, thirdParty, now)).pending, h) ==
            [Pending(e, h, thirdParty, now + cfg.budgets.grace, s.epoch)]
  {
    hide Of, RecordEvidence, Waiting;
    var s1 := Expire(s, now);
    var p := Pending(e, h, thirdParty, now + cfg.budgets.grace, s.epoch);
    EvidenceKeeps(cfg.budgets, s1.(pending := s1.pending + [p]), now);
    OfConcat(s1.pending, [p], h);
    OfOne(p, h);
  }

  /** The report takes the copy that waits. */
  lemma ReportTakes(cfg: Config, s: State, report: BusEvent, now: int, h: Digest, p: Pending)
    requires Inv(cfg, s) && Of(s.pending, h) == [p] && p.releaseAt > now
    requires IsReportOf(cfg, Bus(report, now), h) && !Resets(cfg, s, Bus(report, now))
    ensures Matched(s, p.event, h) in Emit(cfg, s, Bus(report, now))
  {
    hide Of, FirstMatch, Releases, Due, RecordEvidence, HashOf, Waiting;
    var s1 := Expire(s, now);
    var s2 := Situated(s1, report.request.value.source);
    OfWaiting(s.pending, now, h);
    WaitingAppend([], p, now);
    assert [] + [p] == [p];
    WaitingEmpty(now);
    assert Of(s2.pending, h) == [p];
    ExpireInv(cfg, s, now);
    OfNonempty(s2.pending, h);
    var j :| 0 <= j < |s2.pending| && s2.pending[j].hash == h;
    assert s2.pending[j].epoch == s2.epoch;
    FirstMatchIs(s2.pending, h, s2.epoch);
    var i := FirstMatch(s2.pending, h, s2.epoch);
    assert i.Some?;
    OfMember(s2.pending, h, i.value);
    assert MatchOutput(s2, h) == [Matched(s, p.event, h)];
    assert Emit(cfg, s, Bus(report, now)) == Releases(s, Due(s.pending, now)) + ([] + MatchOutput(s2, h));
  }

  /** The window is exact: the report meets the waiting copy if and only if the copy's grace is not over. */
  lemma ReportTakesExactly(cfg: Config, s: State, report: BusEvent, now: int, h: Digest, p: Pending)
    requires Inv(cfg, s) && Of(s.pending, h) == [p]
    requires IsReportOf(cfg, Bus(report, now), h) && !Resets(cfg, s, Bus(report, now))
    ensures Outcomes(Emit(cfg, s, Bus(report, now)), h, ByMatch) == One(p.releaseAt > now)
  {
    hide Of, FirstMatch, Releases, Due, RecordEvidence, HashOf, Waiting, Outcomes;
    var s1 := Expire(s, now);
    var s2 := Situated(s1, report.request.value.source);
    OfWaiting(s.pending, now, h);
    WaitingAppend([], p, now);
    assert [] + [p] == [p];
    WaitingEmpty(now);
    FirstMatchIs(s2.pending, h, s2.epoch);
    var i := FirstMatch(s2.pending, h, s2.epoch);
    if i.Some? {
      OfMember(s2.pending, h, i.value);
      OutcomesOne(Matched(s2, s2.pending[i.value].event, h), h, ByMatch);
    } else if p.releaseAt > now {
      ExpireInv(cfg, s, now);
      OfNonempty(s2.pending, h);
    }
    NoOutcomes(h);
    assert [] + MatchOutput(s2, h) == MatchOutput(s2, h);
    OnlyReleases(s, now, MatchOutput(s2, h), h);
  }

  lemma WaitingEmpty(now: int)
    ensures Waiting([], now) == []
  {
  }

  /**
   * The copy is processed first: a lone copy at `p` and its report at `a`, with only strangers in
   * between and no new epoch, are matched when the report is at most the publish budget late.
   */
  lemma CopyThenReport(cfg: Config, env: RetryEnvelope, s: State, e: R.Event, thirdParty: bool, p: int, mid: seq<Input>,
                       report: BusEvent, a: int, h: Digest)
    requires Inv(cfg, s) && Acceptable(env, cfg.budgets) && a - p <= RequiredBudgets(env).publish
    requires Hear(cfg, s.local, e) == Eligible(h) && !HasReport(Expire(s, p), h) && Of(Waiting(s.pending, p), h) == []
    requires |Waiting(s.pending, p)| < cfg.budgets.capacity
    requires var s1 := Next(cfg, s, Passive(e, thirdParty, p));
             && Strangers(cfg, s1, mid, h, a)
             && IsReportOf(cfg, Bus(report, a), h) && !Resets(cfg, After(cfg, s1, mid), Bus(report, a))
    ensures var s2 := After(cfg, Next(cfg, s, Passive(e, thirdParty, p)), mid);
            Matched(s2, e, h) in Emit(cfg, s2, Bus(report, a))
  {
    hide Next, Emit, Of, Strangers, Inv, IsReportOf, Resets, Hear, Waiting, HasReport;
    BudgetsNest(env);
    var s1 := Next(cfg, s, Passive(e, thirdParty, p));
    var entry := Pending(e, h, thirdParty, p + cfg.budgets.grace, s.epoch);
    CopyEnters(cfg, s, e, thirdParty, p, h);
    CopyWaits(cfg, s1, mid, h, entry, a);
    StepInv(cfg, s, Passive(e, thirdParty, p));
    RunInv(cfg, s1, mid);
    ReportTakes(cfg, After(cfg, s1, mid), report, a, h, entry);
  }

  /** A report that finds no copy is retained. */
  lemma ReportEnters(cfg: Config, s: State, report: BusEvent, now: int, h: Digest)
    requires IsReportOf(cfg, Bus(report, now), h) && !Resets(cfg, s, Bus(report, now)) && Of(Waiting(s.pending, now), h) == []
    ensures var r := Next(cfg, s, Bus(report, now));
            HasReport(r, h) && r.active[h].expiresAt == now + cfg.budgets.retention
  {
    hide Of, FirstMatch, RecordEvidence, HashOf, Waiting;
    var b := cfg.budgets;
    var s2 := Situated(Expire(s, now), report.request.value.source);
    var s3 := s2.(active := Retain(s2.active, h, now + b.retention));
    FirstMatchIs(s2.pending, h, s2.epoch);
    var i := FirstMatch(s2.pending, h, s2.epoch);
    if i.Some? {
      OfMember(s2.pending, h, i.value);
    }
    EvidenceKeeps(b, s3, now);
    EvidenceKeeps(b, MatchPending(b, s3, h, now), now);
  }

  /** The copy uses up the report that is retained. */
  lemma CopyTakes(cfg: Config, s: State, e: R.Event, thirdParty: bool, now: int, h: Digest)
    requires HasReport(s, h) && s.active[h].expiresAt > now && Hear(cfg, s.local, e) == Eligible(h)
    ensures Matched(s, e, h) in Emit(cfg, s, Passive(e, thirdParty, now))
  {
    hide Releases, Due, Waiting;
    assert HasReport(Expire(s, now), h);
    assert CopyOutput(cfg, Expire(s, now), e, h) == [Matched(s, e, h)];
  }

  /**
   * The report is processed first: a report at `a` and a copy at `p`, with only strangers in
   * between and no new epoch, are matched when the copy is at most the delivery budget late.
   */
  lemma ReportThenCopy(cfg: Config, env: RetryEnvelope, s: State, report: BusEvent, a: int, mid: seq<Input>,
                       e: R.Event, thirdParty: bool, p: int, h: Digest)
    requires Acceptable(env, cfg.budgets) && p - a <= RequiredBudgets(env).delivery
    requires IsReportOf(cfg, Bus(report, a), h) && !Resets(cfg, s, Bus(report, a)) && Of(Waiting(s.pending, a), h) == []
    requires var s1 := Next(cfg, s, Bus(report, a));
             Strangers(cfg, s1, mid, h, p) && Hear(cfg, After(cfg, s1, mid).local, e) == Eligible(h)
    ensures var s2 := After(cfg, Next(cfg, s, Bus(report, a)), mid);
            Matched(s2, e, h) in Emit(cfg, s2, Passive(e, thirdParty, p))
  {
    hide Next, Emit, Of, Strangers, IsReportOf, Resets, Hear, Waiting;
    BudgetsNest(env);
    ReportEnters(cfg, s, report, a, h);
    var s1 := Next(cfg, s, Bus(report, a));
    ReportStays(cfg, s1, mid, h, p);
    CopyTakes(cfg, After(cfg, s1, mid), e, thirdParty, p, h);
  }

  // ---- the exact windows ----

  /** Whatever strangers do, a lone copy waits or is gone. */
  lemma {:induction false} CopyWaitsOrGoes(cfg: Config, s: State, inputs: seq<Input>, h: Digest, p: Pending, last: int)
    requires Strangers(cfg, s, inputs, h, last) && Of(s.pending, h) == [p]
    ensures var of := Of(After(cfg, s, inputs).pending, h); of == [p] || of == []
  {
    hide Stranger, Next, Of;
    if inputs != [] {
      var n := |inputs| - 1;
      StrangersPrefix(cfg, s, inputs, h, last);
      CopyWaitsOrGoes(cfg, s, inputs[..n], h, p, last);
      StrangerKeeps(cfg, After(cfg, s, inputs[..n]), inputs[n], h);
      assert [p][..0] == [];
    }
  }

  lemma {:induction false} ReportStaysOrGoes(cfg: Config, s: State, inputs: seq<Input>, h: Digest, last: int)
    requires Strangers(cfg, s, inputs, h, last)
    ensures var r := After(cfg, s, inputs); h in r.active ==> h in s.active && r.active[h] == s.active[h]
  {
    hide Stranger, Next, Of;
    if inputs != [] {
      var n := |inputs| - 1;
      StrangersPrefix(cfg, s, inputs, h, last);
      ReportStaysOrGoes(cfg, s, inputs[..n], h, last);
      StrangerKeeps(cfg, After(cfg, s, inputs[..n]), inputs[n], h);
    }
  }

  lemma ReportFindsNone(cfg: Config, s: State, report: BusEvent, now: int, h: Digest)
    requires Of(s.pending, h) == [] && IsReportOf(cfg, Bus(report, now), h) && !Resets(cfg, s, Bus(report, now))
    ensures Outcomes(Emit(cfg, s, Bus(report, now)), h, ByMatch) == 0
  {
    hide Of, FirstMatch, Releases, Due, RecordEvidence, HashOf, Waiting, Outcomes;
    var s2 := Situated(Expire(s, now), report.request.value.source);
    OfWaiting(s.pending, now, h);
    WaitingEmpty(now);
    FirstMatchIs(s2.pending, h, s2.epoch);
    var i := FirstMatch(s2.pending, h, s2.epoch);
    if i.Some? {
      OfMember(s2.pending, h, i.value);
    }
    NoOutcomes(h);
    assert [] + MatchOutput(s2, h) == MatchOutput(s2, h);
    OnlyReleases(s, now, MatchOutput(s2, h), h);
  }

  /**
   * Copy first, for any budgets: with only strangers in between and no new epoch, the report at `a`
   * meets the lone copy of `p` if and only if it comes before the copy's grace is over.
   */
  lemma CopyThenReportExactly(cfg: Config, s: State, e: R.Event, thirdParty: bool, p: int, mid: seq<Input>,
                              report: BusEvent, a: int, h: Digest)
    requires Inv(cfg, s)
    requires Hear(cfg, s.local, e) == Eligible(h) && !HasReport(Expire(s, p), h) && Of(Waiting(s.pending, p), h) == []
    requires |Waiting(s.pending, p)| < cfg.budgets.capacity
    requires var s1 := Next(cfg, s, Passive(e, thirdParty, p));
             && Strangers(cfg, s1, mid, h, a)
             && IsReportOf(cfg, Bus(report, a), h) && !Resets(cfg, After(cfg, s1, mid), Bus(report, a))
    ensures var s2 := After(cfg, Next(cfg, s, Passive(e, thirdParty, p)), mid);
            Outcomes(Emit(cfg, s2, Bus(report, a)), h, ByMatch) == One(a - p < cfg.budgets.grace)
  {
    hide Next, Emit, Of, Strangers, Inv, IsReportOf, Resets, Hear, Waiting, HasReport, Outcomes;
    var s1 := Next(cfg, s, Passive(e, thirdParty, p));
    var s2 := After(cfg, s1, mid);
    var entry := Pending(e, h, thirdParty, p + cfg.budgets.grace, s.epoch);
    CopyEnters(cfg, s, e, thirdParty, p, h);
    StepInv(cfg, s, Passive(e, thirdParty, p));
    RunInv(cfg, s1, mid);
    CopyWaitsOrGoes(cfg, s1, mid, h, entry, a);
    if a - p < cfg.budgets.grace {
      CopyWaits(cfg, s1, mid, h, entry, a);
    }
    if Of(s2.pending, h) == [entry] {
      ReportTakesExactly(cfg, s2, report, a, h, entry);
    } else {
      ReportFindsNone(cfg, s2, report, a, h);
    }
  }

  lemma CopyTakesExactly(cfg: Config, s: State, e: R.Event, thirdParty: bool, now: int, h: Digest)
    requires Hear(cfg, s.local, e) == Eligible(h)
    ensures Outcomes(Emit(cfg, s, Passive(e, thirdParty, now)), h, ByMatch) == One(HasReport(Expire(s, now), h))
  {
    hide Releases, Due, Waiting, Outcomes;
    var s1 := Expire(s, now);
    OnlyReleases(s, now, CopyOutput(cfg, s1, e, h), h);
    NoOutcomes(h);
    OutcomesOne(Matched(s1, e, h), h, ByMatch);
    OutcomesOne(Adjudication(Observability, Some(e), h, s1.epoch, ByOverflow), h, ByMatch);
  }

  /**
   * Report first, for any budgets: with only strangers in between and no new epoch, the copy at
   * `p` meets the report of `a` if and only if it comes before the report's retention is over.
   */
  lemma ReportThenCopyExactly(cfg: Config, s: State, report: BusEvent, a: int, mid: seq<Input>,
                              e: R.Event, thirdParty: bool, p: int, h: Digest)
    requires IsReportOf(cfg, Bus(report, a), h) && !Resets(cfg, s, Bus(report, a)) && Of(Waiting(s.pending, a), h) == []
    requires var s1 := Next(cfg, s, Bus(report, a));
             Strangers(cfg, s1, mid, h, p) && Hear(cfg, After(cfg, s1, mid).local, e) == Eligible(h)
    ensures var s2 := After(cfg, Next(cfg, s, Bus(report, a)), mid);
            Outcomes(Emit(cfg, s2, Passive(e, thirdParty, p)), h, ByMatch) == One(p - a < cfg.budgets.retention)
  {
    hide Next, Emit, Of, Strangers, IsReportOf, Resets, Hear, Waiting, Outcomes;
    ReportEnters(cfg, s, report, a, h);
    var s1 := Next(cfg, s, Bus(report, a));
    var s2 := After(cfg, s1, mid);
    ReportStaysOrGoes(cfg, s1, mid, h, p);
    if p - a < cfg.budgets.retention {
      ReportStays(cfg, s1, mid, h, p);
    }
    CopyTakesExactly(cfg, s2, e, thirdParty, p, h);
  }
}
