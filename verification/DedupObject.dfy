/** The deduplicator as the object it is, with its loops, each operation tied to the step it performs. */
module DedupObject {
  import opened Protocol
  import opened Deduplicator
  import opened DedupLaws
  import opened DedupMatching
  import D = Deduplicator
  import R = Reconstructor

  lemma RemoveInPrefix(pending: seq<Pending>, k: nat, i: nat)
    requires k < i < |pending|
    ensures Remove(pending[..i + 1], k) == Remove(pending[..i], k) + [pending[i]]
  {
    assert pending[..i + 1] == pending[..i] + [pending[i]];
  }

  lemma ReleasesAppend(s: State, due: seq<Pending>, p: Pending)
    ensures Releases(s, due + [p]) == Releases(s, due) + [Release(s, p)]
  {
    assert (due + [p])[..|due|] == due;
  }

  class ActivePassiveDeduplicator {
    const cfg: Config
    var epoch: nat
    var degraded: bool
    var recovery: Recovery
    var local: LocalAddress
    var active: map<Digest, Retained>
    var pending: seq<Pending>

    function Value(): State
      reads this
    {
      State(epoch, degraded, recovery, local, active, pending)
    }

    ghost predicate Valid()
      reads this
    {
      Inv(cfg, Value())
    }

    constructor (cfg: Config, local: LocalAddress)
      ensures Valid() && this.cfg == cfg && Value() == Initial(local)
    {
      this.cfg, this.local := cfg, local;
      epoch, degraded, recovery, active, pending := 1, true, NO_RECOVERY, map[], [];
    }

    /** Keeps what still waits and hands out the rest, in order. */
    method ReleaseExpired(now: int) returns (outputs: seq<Adjudication>)
      modifies `pending
      ensures Value() == old(Value()).(pending := Waiting(old(pending), now))
      ensures outputs == Releases(old(Value()), Due(old(pending), now))
    {
      ghost var s := Value();
      outputs := [];
      var next := [];
      for i := 0 to |pending|
        invariant Value() == s
        invariant next == Waiting(pending[..i], now) && outputs == Releases(s, Due(pending[..i], now))
      {
        var p := pending[i];
        assert pending[..i + 1][..i] == pending[..i];
        if p.releaseAt > now {
          next := next + [p];
          assert Due(pending[..i], now) + [] == Due(pending[..i], now);
        } else {
          ReleasesAppend(s, Due(pending[..i], now), p);
          outputs := outputs + [Release(Value(), p)];
        }
      }
      assert pending[..|pending|] == pending;
      pending := next;
    }

    method Prune(now: int)
      modifies `active
      ensures Value() == old(Value()).(active := Live(old(active), now))
    {
      ghost var before := active;
      var rest := active.Keys;
      while rest != {}
        invariant rest <= before.Keys
        invariant active == map h | h in before && (h in rest || before[h].expiresAt > now) :: before[h]
        decreases |rest|
      {
        var h :| h in rest;
        rest := rest - {h};
        if active[h].expiresAt <= now {
          active := active - {h};
        }
      }
    }

    method Consume(h: Digest) returns (had: bool)
      modifies `active
      ensures had == HasReport(old(Value()), h) && Value() == old(Value()).(active := D.Consume(old(active), h))
    {
      if h !in active || active[h].count <= 0 {
        return false;
      }
      if active[h].count == 1 {
        active := active - {h};
        return true;
      }
      active := active[h := active[h].(count := active[h].count - 1)];
      return true;
    }

    method Degrade()
      modifies `degraded, `recovery
      ensures Value() == D.Degrade(old(Value()))
    {
      degraded, recovery := true, NO_RECOVERY;
    }

    method RecordEvidence(now: int)
      modifies `degraded, `recovery
      ensures Value() == D.RecordEvidence(cfg.budgets, old(Value()), now)
    {
      if !degraded {
        return;
      }
      if recovery.startedAt.None? {
        recovery := recovery.(startedAt := Some(now));
      }
      recovery := recovery.(evidence := recovery.evidence + 1);
      if now - recovery.startedAt.value < cfg.budgets.hysteresis {
        return;
      }
      if recovery.evidence < cfg.budgets.threshold {
        return;
      }
      degraded := false;
    }

    method Reset() returns (outputs: seq<Adjudication>)
      modifies this
      ensures Value() == D.Reset(old(Value())) && outputs == [ResetNotice(old(Value()))]
    {
      pending := [];
      active := map[];
      epoch := epoch + 1;
      Degrade();
      outputs := [Adjudication(Discontinued, None, [], epoch, ByReset)];
    }

    /** Takes the first copy of this epoch with the identity out of the list and leaves the others in place. */
    method MatchPending(h: Digest, now: int) returns (outputs: seq<Adjudication>)
      modifies `pending, `active, `degraded, `recovery
      ensures Value() == D.MatchPending(cfg.budgets, old(Value()), h, now)
      ensures outputs == MatchOutput(old(Value()), h)
    {
      hide FirstMatch, D.RecordEvidence;
      ghost var s := Value();
      ghost var first := FirstMatch(pending, h, epoch);
      FirstMatchIs(pending, h, epoch);
      outputs := [];
      if |pending| == 0 {
        return;
      }
      var next := [];
      var matched := false;
      for i := 0 to |pending|
        invariant pending == s.pending && epoch == s.epoch
        invariant matched <==> first.Some? && first.value < i
        invariant next == if matched then Remove(pending[..i], first.value) else pending[..i]
        invariant Value() == if matched then s.(active := D.Consume(s.active, h)) else s
        invariant outputs == if matched then [Matched(s, pending[first.value].event, h)] else []
      {
        var p := pending[i];
        assert pending[..i + 1] == pending[..i] + [p];
        if matched {
          RemoveInPrefix(pending, first.value, i);
        }
        if !matched && p.epoch == epoch && p.hash == h {
          outputs := outputs + [Matched(Value(), p.event, h)];
          var had := Consume(h);
          matched := true;
          assert Remove(pending[..i + 1], i) == pending[..i];
        } else {
          next := next + [p];
        }
      }
      assert pending[..|pending|] == pending;
      pending := next;
      RecordEvidence(now);
    }

    /** The copy whose grace ended first, or none. */
    method OldestReleasable(now: int) returns (index: int)
      ensures index < 0 <==> forall i :: 0 <= i < |pending| ==> pending[i].releaseAt > now
      ensures index >= 0 ==>
                && index < |pending| && pending[index].releaseAt <= now
                && forall i :: 0 <= i < |pending| ==> pending[i].releaseAt >= pending[index].releaseAt
    {
      index := -1;
      for i := 0 to |pending|
        invariant index < 0 <==> forall j :: 0 <= j < i ==> pending[j].releaseAt > now
        invariant index >= 0 ==> index < i && pending[index].releaseAt <= now
        invariant index >= 0 ==> forall j :: 0 <= j < i ==> pending[j].releaseAt >= pending[index].releaseAt
      {
        if pending[i].releaseAt <= now && (index < 0 || pending[i].releaseAt < pending[index].releaseAt) {
          index := i;
        }
      }
    }

    /**
     * Releases what it can until there is room. Where expiry has just run nothing can be released,
     * and the answer is whether there was room already.
     */
    method MakeRoom(now: int) returns (room: bool, outputs: seq<Adjudication>)
      modifies `pending
      ensures room <==> |pending| < cfg.budgets.capacity
      ensures |outputs| + |pending| == |old(pending)|
      ensures (forall i :: 0 <= i < |old(pending)| ==> old(pending)[i].releaseAt > now) ==>
                Value() == old(Value()) && outputs == []
    {
      outputs := [];
      while |pending| >= cfg.budgets.capacity
        invariant |outputs| + |pending| == |old(pending)|
        invariant (forall i :: 0 <= i < |old(pending)| ==> old(pending)[i].releaseAt > now) ==>
                    Value() == old(Value()) && outputs == []
        decreases |pending|
      {
        var index := OldestReleasable(now);
        if index < 0 {
          return false, outputs;
        }
        outputs := outputs + [Release(Value(), pending[index])];
        pending := Remove(pending, index);
      }
      room := true;
    }

    /** Notes the gateway's address; says whether it changed. */
    method UpdateLocalAddress(address: Byte) returns (changed: bool)
      modifies `local
      ensures changed == AddressChanges(old(local), address) && Value() == Addressed(old(Value()), address)
    {
      if address == 0 {
        return false;
      }
      if !local.known {
        local := LocalAddress(true, address, epoch);
        return false;
      }
      if local.address == address {
        return false;
      }
      local := LocalAddress(true, address, local.epoch + 1);
      return true;
    }

    /** Retains a report and matches it. */
    method Report(h: Digest, now: int) returns (outputs: seq<Adjudication>)
      modifies `pending, `active, `degraded, `recovery
      ensures Value() == D.Report(cfg.budgets, old(Value()), h, now) && outputs == MatchOutput(old(Value()), h)
    {
      hide D.MatchPending, D.RecordEvidence, FirstMatch;
      var expiresAt := now + cfg.budgets.retention;
      if h in active {
        active := active[h := Retained(expiresAt, active[h].count + 1)];
      } else {
        active := active[h := Retained(expiresAt, 1)];
      }
      outputs := MatchPending(h, now);
      RecordEvidence(now);
    }

    method HandleBus(e: BusEvent, now: int) returns (outputs: seq<Adjudication>)
      requires Valid()
      modifies this
      ensures Value() == Next(cfg, old(Value()), Bus(e, now)) && outputs == Emit(cfg, old(Value()), Bus(e, now)) && Valid()
    {
      hide D.Report, MatchOutput, Inv, Waiting, Due, Releases, HashOf;
      ghost var s := Value();
      StepInv(cfg, s, Bus(e, now));
      outputs := ReleaseExpired(now);
      Prune(now);
      ghost var released := outputs;
      if e.ObserverFault? {
        active := map[];
        Degrade();
        return;
      }
      if !e.AttemptComplete? || !e.success || e.request.None? {
        return;
      }
      var changed := UpdateLocalAddress(e.request.value.source);
      ghost var notice := [];
      if changed {
        var more := Reset();
        notice := more;
        outputs := outputs + more;
      }
      var h := ReportHash(cfg, e);
      if h.None? {
        Degrade();
        assert notice + [] == notice;
        return;
      }
      var more := Report(h.value, now);
      outputs := outputs + more;
      assert released + notice + more == released + (notice + more);
    }

    /** A copy that may be matched: a report meets it, or it waits, or there is no room. */
    method Copy(e: R.Event, h: Digest, thirdParty: bool, now: int) returns (outputs: seq<Adjudication>)
      requires forall i :: 0 <= i < |pending| ==> pending[i].releaseAt > now
      modifies this
      ensures Value() == D.Copy(cfg, old(Value()), e, h, thirdParty, now) && outputs == CopyOutput(cfg, old(Value()), e, h)
    {
      hide D.RecordEvidence, D.Consume;
      var had := Consume(h);
      if had {
        outputs := [Matched(Value(), e, h)];
        RecordEvidence(now);
        return;
      }
      assert Value() == old(Value()) by {
        NothingConsumed(old(active), h);
      }
      var room, released := MakeRoom(now);
      if !room {
        Degrade();
        return released + [Adjudication(Observability, Some(e), h, epoch, ByOverflow)];
      }
      pending := pending + [Pending(e, h, thirdParty, now + cfg.budgets.grace, epoch)];
      RecordEvidence(now);
      outputs := released;
    }

    method HandlePassive(e: R.Event, thirdParty: bool, now: int) returns (outputs: seq<Adjudication>)
      requires Valid()
      modifies this
      ensures Value() == Next(cfg, old(Value()), Passive(e, thirdParty, now))
      ensures outputs == Emit(cfg, old(Value()), Passive(e, thirdParty, now)) && Valid()
    {
      hide D.Copy, CopyOutput, D.RecordEvidence, Inv, Waiting, Due, Releases, HashOf;
      ghost var s := Value();
      StepInv(cfg, s, Passive(e, thirdParty, now));
      WaitingIs(pending, now, []);
      outputs := ReleaseExpired(now);
      Prune(now);
      ghost var released := outputs;
      assert Value() == Expire(s, now);
      match Hear(cfg, local, e)
      case Boundary =>
        var more := Reset();
        outputs := outputs + more;
      case Evidence =>
        RecordEvidence(now);
        assert released + [] == released;
      case Immediate(inbound) =>
        outputs := outputs + [Adjudication(if inbound then LocalInbound else Observability, Some(e), [], epoch, AtOnce)];
      case Eligible(h) =>
        var more := Copy(e, h, thirdParty, now);
        outputs := outputs + more;
    }

    method HandleTick(now: int) returns (outputs: seq<Adjudication>)
      requires Valid()
      modifies `pending
      ensures Value() == Next(cfg, old(Value()), Tick(now)) && outputs == Emit(cfg, old(Value()), Tick(now)) && Valid()
    {
      StepInv(cfg, Value(), Tick(now));
      outputs := ReleaseExpired(now);
    }

    method HandleCriticalReset(now: int) returns (outputs: seq<Adjudication>)
      requires Valid()
      modifies this
      ensures Value() == Next(cfg, old(Value()), CriticalReset(now))
      ensures outputs == Emit(cfg, old(Value()), CriticalReset(now)) && Valid()
    {
      StepInv(cfg, Value(), CriticalReset(now));
      outputs := Reset();
    }
  }

  lemma NothingConsumed(active: map<Digest, Retained>, h: Digest)
    ensures !(h in active && active[h].count > 0) ==> D.Consume(active, h) == active
  {
  }
}
