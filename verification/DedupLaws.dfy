/**
 * The deduplicator's books, per identity and over every run: where reports and passive copies
 * go, and how many of them meet.
 */
module DedupLaws {
  import opened Protocol
  import opened Runs
  import opened Deduplicator
  import R = Reconstructor

  // ---- counting ----

  function Reports(s: State, h: Digest): nat {
    if h in s.active then s.active[h].count else 0
  }

  function Copies(pending: seq<Pending>, h: Digest): nat {
    if pending == [] then 0
    else Copies(pending[..|pending| - 1], h) + if pending[|pending| - 1].hash == h then 1 else 0
  }

  function Outcomes(outputs: seq<Adjudication>, h: Digest, cause: Cause): nat {
    if outputs == [] then 0
    else
      var last := outputs[|outputs| - 1];
      Outcomes(outputs[..|outputs| - 1], h, cause) + if last.hash == h && last.cause == cause then 1 else 0
  }

  lemma {:induction false} OutcomesConcat(a: seq<Adjudication>, b: seq<Adjudication>, h: Digest, cause: Cause)
    ensures Outcomes(a + b, h, cause) == Outcomes(a, h, cause) + Outcomes(b, h, cause)
  {
    if b == [] {
      assert a + b == a;
    } else {
      assert (a + b)[..|a + b| - 1] == a + b[..|b| - 1];
      OutcomesConcat(a, b[..|b| - 1], h, cause);
    }
  }

  lemma {:induction false} CopiesConcat(a: seq<Pending>, b: seq<Pending>, h: Digest)
    ensures Copies(a + b, h) == Copies(a, h) + Copies(b, h)
  {
    if b == [] {
      assert a + b == a;
    } else {
      assert (a + b)[..|a + b| - 1] == a + b[..|b| - 1];
      CopiesConcat(a, b[..|b| - 1], h);
    }
  }

  lemma CopiesOne(p: Pending, h: Digest)
    ensures Copies([p], h) == if p.hash == h then 1 else 0
  {
    assert [p][..0] == [];
  }

  lemma OutcomesOne(x: Adjudication, h: Digest, cause: Cause)
    ensures Outcomes([x], h, cause) == if x.hash == h && x.cause == cause then 1 else 0
  {
    assert [x][..0] == [];
  }

  lemma CopiesRemove(pending: seq<Pending>, i: nat, h: Digest)
    requires i < |pending|
    ensures Copies(Remove(pending, i), h) == Copies(pending, h) - if pending[i].hash == h then 1 else 0
  {
    hide Copies;
    var a, b := pending[..i], pending[i + 1..];
    assert pending == a + ([pending[i]] + b);
    CopiesConcat(a, [pending[i]] + b, h);
    CopiesConcat([pending[i]], b, h);
    CopiesConcat(a, b, h);
    CopiesOne(pending[i], h);
  }

  /** A copy that is counted is there. */
  lemma {:induction false} CopiesPositive(pending: seq<Pending>, h: Digest) returns (i: nat)
    requires Copies(pending, h) > 0
    ensures i < |pending| && pending[i].hash == h
  {
    var n := |pending| - 1;
    if pending[n].hash == h {
      i := n;
    } else {
      i := CopiesPositive(pending[..n], h);
    }
  }

  // ---- expiry ----

  lemma {:induction false} WaitingIs(pending: seq<Pending>, now: int, h: Digest)
    ensures Copies(Waiting(pending, now), h) + Copies(Due(pending, now), h) == Copies(pending, h)
    ensures |Waiting(pending, now)| <= |pending|
    ensures forall i :: 0 <= i < |Waiting(pending, now)| ==>
                          Waiting(pending, now)[i] in pending && Waiting(pending, now)[i].releaseAt > now
  {
    if pending != [] {
      var n := |pending| - 1;
      WaitingIs(pending[..n], now, h);
      var more := if pending[n].releaseAt > now then [pending[n]] else [];
      var gone := if pending[n].releaseAt > now then [] else [pending[n]];
      CopiesConcat(Waiting(pending[..n], now), more, h);
      CopiesConcat(Due(pending[..n], now), gone, h);
      CopiesOne(pending[n], h);
    }
  }

  lemma {:induction false} ReleasesCount(s: State, due: seq<Pending>, h: Digest)
    ensures Outcomes(Releases(s, due), h, ByGrace) == Copies(due, h)
    ensures Outcomes(Releases(s, due), h, ByMatch) == 0 && Outcomes(Releases(s, due), h, ByOverflow) == 0
  {
    if due != [] {
      ReleasesCount(s, due[..|due| - 1], h);
    }
  }

  // ---- what a step brings and takes ----

  /** The input is a successful report with the identity `h`. */
  predicate IsReportOf(cfg: Config, i: Input, h: Digest) {
    i.Bus? && IsReport(i.event) && ReportHash(cfg, i.event) == Some(h)
  }

  /** The input is a passive copy with the identity `h` that may be matched. */
  predicate IsCopyOf(cfg: Config, s: State, i: Input, h: Digest) {
    i.Passive? && Hear(cfg, s.local, i.heard) == Eligible(h)
  }

  /** A report from another address than the one known so far. */
  predicate Moves(local: LocalAddress, source: Byte) {
    local.known && source != 0 && source != local.address
  }

  /** The input starts a new epoch. */
  predicate Resets(cfg: Config, s: State, i: Input) {
    match i
    case Bus(e, _) => IsReport(e) && Moves(s.local, e.request.value.source)
    case Passive(e, _, _) => e.Discontinuity?
    case Tick(_) => false
    case CriticalReset(_) => true
  }

  /** Both sides as expiry leaves them before the input is looked at. */
  function Begun(s: State, i: Input): State {
    match i
    case Bus(_, now) => Expire(s, now)
    case Passive(_, _, now) => Expire(s, now)
    case Tick(now) => s.(pending := Waiting(s.pending, now))
    case CriticalReset(_) => s
  }

  /** Reports that expire, or that a fault or a new epoch clears. */
  function LostReports(cfg: Config, s: State, i: Input, h: Digest): nat {
    var b := Begun(s, i);
    (if h in s.active && h !in b.active then s.active[h].count else 0)
    + if Resets(cfg, s, i) || (i.Bus? && i.event.ObserverFault?) then Reports(b, h) else 0
  }

  /** Copies that a new epoch flushes. */
  function Flushed(cfg: Config, s: State, i: Input, h: Digest): nat {
    if Resets(cfg, s, i) then Copies(Begun(s, i).pending, h) else 0
  }

  // ---- the law of one step ----

  lemma EvidenceKeeps(b: Budgets, s: State, now: int)
    ensures var r := RecordEvidence(b, s, now);
            r.active == s.active && r.pending == s.pending && r.epoch == s.epoch && r.local == s.local
  {
  }

  lemma ConsumeCount(s: State, h: Digest, k: Digest)
    ensures Reports(s.(active := Consume(s.active, h)), k) == Reports(s, k) - if k == h && HasReport(s, h) then 1 else 0
  {
  }

  /** Retaining a report and matching it: what is not matched stays. */
  lemma ReportCounts(b: Budgets, s: State, h: Digest, now: int, k: Digest)
    ensures var r := Report(b, s, h, now);
            var met := Outcomes(MatchOutput(s, h), k, ByMatch);
            && Reports(r, k) + met == Reports(s, k) + One(k == h)
            && Copies(r.pending, k) + met == Copies(s.pending, k)
            && Outcomes(MatchOutput(s, h), k, ByGrace) == 0 && Outcomes(MatchOutput(s, h), k, ByOverflow) == 0
  {
    hide Copies, Outcomes, FirstMatch, RecordEvidence;
    FirstMatchIs(s.pending, h, s.epoch);
    var s1 := s.(active := Retain(s.active, h, now + b.retention));
    ConsumeCount(s1, h, k);
    var i := FirstMatch(s.pending, h, s.epoch);
    var s2 := if i.None? then s1 else s1.(pending := Remove(s.pending, i.value), active := Consume(s1.active, h));
    EvidenceKeeps(b, s2, now);
    EvidenceKeeps(b, MatchPending(b, s1, h, now), now);
    NoOutcomes(k);
    if i.Some? {
      CopiesRemove(s.pending, i.value, k);
      var x := Matched(s, s.pending[i.value].event, h);
      OutcomesOne(x, k, ByMatch);
      OutcomesOne(x, k, ByGrace);
      OutcomesOne(x, k, ByOverflow);
    }
  }

  lemma NoOutcomes(h: Digest)
    ensures forall cause :: Outcomes([], h, cause) == 0
  {
  }

  lemma CopyCounts(cfg: Config, s: State, e: R.Event, h: Digest, thirdParty: bool, now: int, k: Digest)
    ensures var r := Copy(cfg, s, e, h, thirdParty, now);
            var out := CopyOutput(cfg, s, e, h);
            && Reports(r, k) + Outcomes(out, k, ByMatch) == Reports(s, k)
            && Copies(r.pending, k) + Outcomes(out, k, ByMatch) + Outcomes(out, k, ByOverflow) == Copies(s.pending, k) + One(k == h)
            && Outcomes(out, k, ByGrace) == 0
  {
    hide Copies, Outcomes, RecordEvidence;
    NoOutcomes(k);
    if HasReport(s, h) {
      ConsumeCount(s, h, k);
      var x := Matched(s, e, h);
      OutcomesOne(x, k, ByMatch);
      OutcomesOne(x, k, ByGrace);
      OutcomesOne(x, k, ByOverflow);
      EvidenceKeeps(cfg.budgets, s.(active := Consume(s.active, h)), now);
    } else if |s.pending| >= cfg.budgets.capacity {
      var x := Adjudication(Observability, Some(e), h, s.epoch, ByOverflow);
      OutcomesOne(x, k, ByMatch);
      OutcomesOne(x, k, ByGrace);
      OutcomesOne(x, k, ByOverflow);
    } else {
      var p := Pending(e, h, thirdParty, now + cfg.budgets.grace, s.epoch);
      CopiesConcat(s.pending, [p], k);
      CopiesOne(p, k);
      EvidenceKeeps(cfg.budgets, s.(pending := s.pending + [p]), now);
    }
  }

  /** What a step does to the books of one identity. */
  predicate Balanced(cfg: Config, s: State, i: Input, r: State, out: seq<Adjudication>, h: Digest) {
    && Reports(r, h) + Outcomes(out, h, ByMatch) + LostReports(cfg, s, i, h) == Reports(s, h) + One(IsReportOf(cfg, i, h))
    && Copies(r.pending, h) + Outcomes(out, h, ByMatch) + Outcomes(out, h, ByGrace) + Outcomes(out, h, ByOverflow)
       + Flushed(cfg, s, i, h) == Copies(s.pending, h) + One(IsCopyOf(cfg, s, i, h))
  }

  lemma ExpireCounts(s: State, now: int, h: Digest)
    ensures Reports(Expire(s, now), h) == if h in s.active && h !in Expire(s, now).active then 0 else Reports(s, h)
    ensures Copies(Expire(s, now).pending, h) + Copies(Due(s.pending, now), h) == Copies(s.pending, h)
  {
    WaitingIs(s.pending, now, h);
  }

  /** Nothing but the due releases comes out. */
  lemma OnlyReleases(s: State, now: int, tail: seq<Adjudication>, h: Digest)
    ensures var out := Releases(s, Due(s.pending, now)) + tail;
            && Outcomes(out, h, ByMatch) == Outcomes(tail, h, ByMatch)
            && Outcomes(out, h, ByOverflow) == Outcomes(tail, h, ByOverflow)
            && Outcomes(out, h, ByGrace) == Copies(Due(s.pending, now), h) + Outcomes(tail, h, ByGrace)
  {
    var due := Due(s.pending, now);
    ReleasesCount(s, due, h);
    OutcomesConcat(Releases(s, due), tail, h, ByMatch);
    OutcomesConcat(Releases(s, due), tail, h, ByGrace);
    OutcomesConcat(Releases(s, due), tail, h, ByOverflow);
  }

  lemma NoticeCounts(s: State, h: Digest)
    ensures Outcomes([ResetNotice(s)], h, ByMatch) == 0 && Outcomes([ResetNotice(s)], h, ByGrace) == 0
            && Outcomes([ResetNotice(s)], h, ByOverflow) == 0
  {
    OutcomesOne(ResetNotice(s), h, ByMatch);
    OutcomesOne(ResetNotice(s), h, ByGrace);
    OutcomesOne(ResetNotice(s), h, ByOverflow);
  }

  lemma SituatedCounts(s: State, address: Byte, h: Digest)
    ensures var r := Situated(s, address);
            if Moves(s.local, address) then Reports(r, h) == 0 && r.pending == []
            else r.active == s.active && r.pending == s.pending
  {
  }

  /** A report, after expiry: the notice of a new epoch, then the match. */
  lemma ReportStep(cfg: Config, s: State, e: BusEvent, now: int, h: Digest)
    requires IsReport(e)
    ensures Balanced(cfg, s, Bus(e, now), HandleBus(cfg, s, e, now), BusOutput(cfg, s, e, now), h)
  {
    hide Copies, Outcomes, Expire, Report, MatchOutput, Situated, Reports, Releases, Due, ResetNotice;
    var s1 := Expire(s, now);
    var address := e.request.value.source;
    var s2 := Situated(s1, address);
    var hash := ReportHash(cfg, e);
    var notice := if AddressChanges(s1.local, address) then [ResetNotice(s1)] else [];
    var match_ := if hash.None? then [] else MatchOutput(s2, hash.value);
    ExpireCounts(s, now, h);
    ExpireKeepsLocal(s, now);
    SituatedCounts(s1, address, h);
    SameReports(s1, s2, h);
    OnlyReleases(s, now, notice + match_, h);
    OutcomesConcat(notice, match_, h, ByMatch);
    OutcomesConcat(notice, match_, h, ByGrace);
    OutcomesConcat(notice, match_, h, ByOverflow);
    NoticeCounts(s1, h);
    NoOutcomes(h);
    NoCopies(h);
    AbsentCounts(s, s1, h);
    if hash.Some? {
      ReportCounts(cfg.budgets, s2, hash.value, now, h);
    } else {
      SameReports(s2, Degrade(s2), h);
    }
  }

  lemma ExpireKeepsLocal(s: State, now: int)
    ensures Expire(s, now).local == s.local && Expire(s, now).epoch == s.epoch
  {
  }

  lemma SameReports(s: State, r: State, h: Digest)
    ensures s.active == r.active ==> Reports(s, h) == Reports(r, h)
  {
  }

  lemma NoCopies(h: Digest)
    ensures Copies([], h) == 0
  {
  }

  lemma AbsentCounts(s: State, r: State, h: Digest)
    ensures h in s.active ==> Reports(s, h) == s.active[h].count
  {
  }

  lemma OtherBusStep(cfg: Config, s: State, e: BusEvent, now: int, h: Digest)
    requires !IsReport(e)
    ensures Balanced(cfg, s, Bus(e, now), HandleBus(cfg, s, e, now), BusOutput(cfg, s, e, now), h)
  {
    hide Copies, Outcomes, Expire, Releases, Due;
    var s1 := Expire(s, now);
    ExpireCounts(s, now, h);
    OnlyReleases(s, now, [], h);
    NoOutcomes(h);
  }

  lemma PassiveStep(cfg: Config, s: State, e: R.Event, thirdParty: bool, now: int, h: Digest)
    ensures Balanced(cfg, s, Passive(e, thirdParty, now), HandlePassive(cfg, s, e, thirdParty, now),
                     PassiveOutput(cfg, s, e, now), h)
  {
    hide Copies, Outcomes, Expire, Releases, Due, Copy, CopyOutput, RecordEvidence, ResetNotice, HashOf;
    var s1 := Expire(s, now);
    ExpireCounts(s, now, h);
    NoOutcomes(h);
    NoCopies(h);
    match Hear(cfg, s.local, e)
    case Boundary =>
      OnlyReleases(s, now, [ResetNotice(s1)], h);
      NoticeCounts(s1, h);
    case Evidence =>
      OnlyReleases(s, now, [], h);
      EvidenceKeeps(cfg.budgets, s1, now);
    case Immediate(inbound) =>
      var x := Adjudication(if inbound then LocalInbound else Observability, Some(e), [], s.epoch, AtOnce);
      OnlyReleases(s, now, [x], h);
      OutcomesOne(x, h, ByMatch);
      OutcomesOne(x, h, ByGrace);
      OutcomesOne(x, h, ByOverflow);
    case Eligible(k) =>
      OnlyReleases(s, now, CopyOutput(cfg, s1, e, k), h);
      CopyCounts(cfg, s1, e, k, thirdParty, now, h);
  }

  lemma StepBalanced(cfg: Config, s: State, i: Input, h: Digest)
    ensures Balanced(cfg, s, i, Next(cfg, s, i), Emit(cfg, s, i), h)
  {
    match i
    case Bus(e, now) =>
      if IsReport(e) {
        ReportStep(cfg, s, e, now, h);
      } else {
        OtherBusStep(cfg, s, e, now, h);
      }
    case Passive(e, thirdParty, now) => PassiveStep(cfg, s, e, thirdParty, now, h);
    case Tick(now) =>
      WaitingIs(s.pending, now, h);
      ReleasesCount(s, Due(s.pending, now), h);
    case CriticalReset(now) =>
      NoticeCounts(s, h);
      NoCopies(h);
  }
}
