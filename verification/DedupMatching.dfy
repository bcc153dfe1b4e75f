/**
 * Over every run of the deduplicator: an identity never has a retained report and a waiting copy
 * at once, and so the number of matches does not depend on the order of arrival.
 */
module DedupMatching {
  import opened Protocol
  import opened Runs
  import opened Deduplicator
  import opened DedupLaws
  import R = Reconstructor

  /** Reports are counted from one, waiting copies are of this epoch, fit, and have no report. */
  ghost predicate Inv(cfg: Config, s: State) {
    && (forall h :: h in s.active ==> s.active[h].count >= 1)
    && (forall i :: 0 <= i < |s.pending| ==> s.pending[i].epoch == s.epoch && s.pending[i].hash !in s.active)
    && |s.pending| <= Max(cfg.budgets.capacity, 0)
  }

  lemma ExpireInv(cfg: Config, s: State, now: int)
    requires Inv(cfg, s)
    ensures Inv(cfg, Expire(s, now)) && Inv(cfg, s.(pending := Waiting(s.pending, now)))
  {
    WaitingIs(s.pending, now, []);
  }

  lemma EvidenceInv(cfg: Config, s: State, now: int)
    requires Inv(cfg, s)
    ensures Inv(cfg, RecordEvidence(cfg.budgets, s, now))
  {
  }

  lemma {:induction false} CopiesZero(pending: seq<Pending>, h: Digest)
    requires forall i :: 0 <= i < |pending| ==> pending[i].hash != h
    ensures Copies(pending, h) == 0
  {
    if pending != [] {
      CopiesZero(pending[..|pending| - 1], h);
    }
  }

  /** A retained report meets the first waiting copy, if any, and is then used up. */
  lemma ReportInv(cfg: Config, s: State, h: Digest, now: int)
    requires Inv(cfg, s)
    ensures Inv(cfg, Report(cfg.budgets, s, h, now))
  {
    hide FirstMatch, RecordEvidence;
    FirstMatchIs(s.pending, h, s.epoch);
    var b := cfg.budgets;
    var s1 := s.(active := Retain(s.active, h, now + b.retention));
    var i := FirstMatch(s.pending, h, s.epoch);
    var s2 := if i.None? then s1 else s1.(pending := Remove(s.pending, i.value), active := Consume(s1.active, h));
    MatchedInv(cfg, s, h, now + b.retention, i);
    EvidenceInv(cfg, s2, now);
    EvidenceInv(cfg, MatchPending(b, s1, h, now), now);
  }

  lemma MatchedInv(cfg: Config, s: State, h: Digest, expiresAt: int, i: Option<nat>)
    requires Inv(cfg, s)
    requires i.Some? ==> i.value < |s.pending| && s.pending[i.value].hash == h
    requires i.None? ==> forall j :: 0 <= j < |s.pending| ==> !(s.pending[j].epoch == s.epoch && s.pending[j].hash == h)
    ensures var s1 := s.(active := Retain(s.active, h, expiresAt));
            Inv(cfg, if i.None? then s1 else s1.(pending := Remove(s.pending, i.value), active := Consume(s1.active, h)))
  {
    if i.Some? {
      assert h !in s.active;
    }
  }

  lemma CopyInv(cfg: Config, s: State, e: R.Event, h: Digest, thirdParty: bool, now: int)
    requires Inv(cfg, s)
    ensures Inv(cfg, Copy(cfg, s, e, h, thirdParty, now))
  {
    hide RecordEvidence;
    if HasReport(s, h) {
      EvidenceInv(cfg, s.(active := Consume(s.active, h)), now);
    } else if |s.pending| < cfg.budgets.capacity {
      EvidenceInv(cfg, s.(pending := s.pending + [Pending(e, h, thirdParty, now + cfg.budgets.grace, s.epoch)]), now);
    }
  }

  lemma StepInv(cfg: Config, s: State, i: Input)
    requires Inv(cfg, s)
    ensures Inv(cfg, Next(cfg, s, i))
  {
    hide Expire, Report, Copy, RecordEvidence, Waiting;
    ExpireInv(cfg, s, i.now);
    var s1 := Expire(s, i.now);
    if i.Bus? && IsReport(i.event) {
      var h := ReportHash(cfg, i.event);
      var s2 := Situated(s1, i.event.request.value.source);
      if h.Some? {
        ReportInv(cfg, s2, h.value, i.now);
      }
    } else if i.Passive? {
      EvidenceInv(cfg, s1, i.now);
      var heard := Hear(cfg, s.local, i.heard);
      if heard.Eligible? {
        CopyInv(cfg, s1, i.heard, heard.hash, i.thirdParty, i.now);
      }
    }
  }

  lemma {:induction false} RunInv(cfg: Config, s: State, inputs: seq<Input>)
    requires Inv(cfg, s)
    ensures Inv(cfg, After(cfg, s, inputs))
  {
    hide Inv, Next;
    if inputs != [] {
      var n := |inputs| - 1;
      RunInv(cfg, s, inputs[..n]);
      StepInv(cfg, After(cfg, s, inputs[..n]), inputs[n]);
    }
  }

  // ---- totals over a run ----

  function Reported(cfg: Config, inputs: seq<Input>, h: Digest): nat {
    if inputs == [] then 0
    else
      var n := |inputs| - 1;
      Reported(cfg, inputs[..n], h) + One(IsReportOf(cfg, inputs[n], h))
  }

  function Heard(cfg: Config, s: State, inputs: seq<Input>, h: Digest): nat {
    if inputs == [] then 0
    else
      var n := |inputs| - 1;
      Heard(cfg, s, inputs[..n], h) + One(IsCopyOf(cfg, After(cfg, s, inputs[..n]), inputs[n], h))
  }

  function Lost(cfg: Config, s: State, inputs: seq<Input>, h: Digest): nat {
    if inputs == [] then 0
    else
      var n := |inputs| - 1;
      Lost(cfg, s, inputs[..n], h) + LostReports(cfg, After(cfg, s, inputs[..n]), inputs[n], h)
  }

  function AllFlushed(cfg: Config, s: State, inputs: seq<Input>, h: Digest): nat {
    if inputs == [] then 0
    else
      var n := |inputs| - 1;
      AllFlushed(cfg, s, inputs[..n], h) + Flushed(cfg, After(cfg, s, inputs[..n]), inputs[n], h)
  }

  /**
   * Conservation, for every run and identity: a report is matched, still retained or lost to
   * expiry, fault or reset; a copy is matched, released, overflowed, still waiting or flushed.
   */
  lemma {:induction false} Conservation(cfg: Config, s: State, inputs: seq<Input>, h: Digest)
    ensures var r := After(cfg, s, inputs);
            var out := Outputs(cfg, s, inputs);
            && Reports(r, h) + Outcomes(out, h, ByMatch) + Lost(cfg, s, inputs, h) ==
               Reports(s, h) + Reported(cfg, inputs, h)
            && Copies(r.pending, h) + Outcomes(out, h, ByMatch) + Outcomes(out, h, ByGrace) + Outcomes(out, h, ByOverflow)
               + AllFlushed(cfg, s, inputs, h) == Copies(s.pending, h) + Heard(cfg, s, inputs, h)
  {
    hide Next, Emit, Reports, Copies, Outcomes, LostReports, Flushed, IsReportOf, IsCopyOf;
    if inputs == [] {
      NoOutcomes(h);
    } else {
      var n := |inputs| - 1;
      var s1 := After(cfg, s, inputs[..n]);
      Conservation(cfg, s, inputs[..n], h);
      StepBalanced(cfg, s1, inputs[n], h);
      OutcomesConcat(Outputs(cfg, s, inputs[..n]), Emit(cfg, s1, inputs[n]), h, ByMatch);
      OutcomesConcat(Outputs(cfg, s, inputs[..n]), Emit(cfg, s1, inputs[n]), h, ByGrace);
      OutcomesConcat(Outputs(cfg, s, inputs[..n]), Emit(cfg, s1, inputs[n]), h, ByOverflow);
    }
  }

  /** Nothing of the identity got away unmatched by expiry, fault, reset or overflow. */
  predicate Undisturbed(cfg: Config, s: State, inputs: seq<Input>, h: Digest) {
    && Lost(cfg, s, inputs, h) == 0 && AllFlushed(cfg, s, inputs, h) == 0
    && Outcomes(Outputs(cfg, s, inputs), h, ByGrace) == 0 && Outcomes(Outputs(cfg, s, inputs), h, ByOverflow) == 0
  }

  function Min(a: nat, b: nat): nat {
    if a <= b then a else b
  }

  /**
   * Whatever the order of arrival: the matches of an identity never outnumber its reports or its
   * copies, and if nothing disturbs it they are as many as the rarer of the two.
   */
  lemma MatchesAreMinimum(cfg: Config, local: LocalAddress, inputs: seq<Input>, h: Digest)
    ensures var s := Initial(local);
            var met := Outcomes(Outputs(cfg, s, inputs), h, ByMatch);
            && met <= Min(Reported(cfg, inputs, h), Heard(cfg, s, inputs, h))
            && (Undisturbed(cfg, s, inputs, h) ==> met == Min(Reported(cfg, inputs, h), Heard(cfg, s, inputs, h)))
  {
    var s := Initial(local);
    Conservation(cfg, s, inputs, h);
    RunInv(cfg, s, inputs);
    var r := After(cfg, s, inputs);
    if h in r.active {
      CopiesZero(r.pending, h);
    }
  }

  /** Waiting copies are of the current epoch and never more than fit. */
  lemma PendingBounded(cfg: Config, local: LocalAddress, inputs: seq<Input>)
    ensures var r := After(cfg, Initial(local), inputs);
            && |r.pending| <= Max(cfg.budgets.capacity, 0)
            && forall i :: 0 <= i < |r.pending| ==> r.pending[i].epoch == r.epoch && !HasReport(r, r.pending[i].hash)
  {
    RunInv(cfg, Initial(local), inputs);
  }
}
