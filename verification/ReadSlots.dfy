/** One key's entry in the read scheduler as the object it is, updated field by field under the lock. */
module ReadSlots {
  import opened Protocol
  import opened ShadowCache
  import opened ShadowEligibility
  import opened SemanticReads
  import opened ReadFlight
  import S = SemanticReads

  class ReadSlot {
    const settings: Settings
    var running: bool
    var flight: nat
    var copy: Option<Copy>
    var circuit: Circuit
    var failures: int
    var openedAt: Option<int>
    var probes: int
    var suppressed: nat

    function Entry(): ReadEntry
      reads this
    {
      ReadEntry(running, flight, copy, circuit, failures, openedAt, probes, suppressed)
    }

    predicate Valid()
      reads this
    {
      ValidSettings(settings) && BreakerOk(settings, Entry())
    }

    constructor (settings: Settings)
      requires ValidSettings(settings)
      ensures Valid() && this.settings == settings && Entry() == NEW_ENTRY
    {
      this.settings := settings;
      running, flight, copy, circuit, failures, openedAt, probes, suppressed := false, 0, None, Closed, 0, None, 0, 0;
    }

    method Transition(to: Circuit)
      modifies `circuit, `failures, `openedAt, `probes
      ensures Entry() == S.Transition(settings, old(Entry()), to)
    {
      if !settings.enabled || circuit == to {
        return;
      }
      circuit := to;
      match to
      case Closed =>
        failures := 0;
        openedAt := None;
        probes := settings.probeLimit;
      case HalfOpen =>
        probes := settings.probeLimit;
      case Open =>
        probes := 0;
    }

    /** Lets a fetch start or counts a suppressed call. */
    method Guard(now: int) returns (ok: bool)
      requires Valid() && !running
      modifies `circuit, `failures, `openedAt, `probes, `suppressed
      ensures (Entry(), ok) == S.Guard(settings, old(Entry()), now)
    {
      if !settings.enabled {
        return true;
      }
      if circuit == Open {
        if settings.openCooldown <= 0 || openedAt.None? || now - openedAt.value >= settings.openCooldown {
          Transition(HalfOpen);
          probes := settings.probeLimit;
          return true;
        }
        suppressed := suppressed + 1;
        return false;
      }
      if circuit == HalfOpen && probes <= 0 {
        // The invariant leaves a half-open entry at rest with a probe to give.
        assert false;
      }
      return true;
    }

    method RecordFailure(now: int)
      modifies `circuit, `failures, `openedAt, `probes
      ensures Entry() == S.RecordFailure(settings, old(Entry()), now)
    {
      if !settings.enabled {
        return;
      }
      failures := failures + 1;
      if circuit == HalfOpen {
        if probes > 0 {
          return;
        }
        Transition(Open);
        openedAt := Some(now);
      } else if circuit == Closed {
        if failures >= settings.failureBudget {
          Transition(Open);
          openedAt := Some(now);
        }
      }
    }

    method Grant(now: int) returns (d: Decision)
      requires Valid() && !running
      modifies `running, `flight, `circuit, `failures, `openedAt, `probes, `suppressed
      ensures (Entry(), d) == S.Grant(settings, old(Entry()), now)
    {
      var ok := Guard(now);
      if !ok {
        return Suppress;
      }
      if circuit == HalfOpen {
        probes := probes - 1;
      }
      running, flight := true, flight + 1;
      return StartFetch;
    }

    /** What one call is told under the lock. */
    method Decide(q: Request, cand: Option<Candidate>, passes: nat, c: Cache, now: int) returns (d: Decision)
      requires Valid()
      modifies this
      ensures (Entry(), d) == S.Decide(settings, old(Entry()), q, cand, passes, c, now) && Valid()
    {
      hide S.Grant, SnapshotFresh;
      DecideKeepsBreaker(settings, Entry(), q, cand, passes, c, now);
      if running {
        return Wait;
      }
      if cand.Some? {
        if Revalidates(c, q, cand.value, now) {
          copy := Some(Copy(cand.value.value, now, Some(cand.value.generation), true, cand.value.passive, cand.value.origin));
          return ServeShadow;
        }
        if passes > 0 {
          return Retry;
        }
      }
      if copy.Some? && copy.value.value != [] && q.maxAge > 0 {
        var age := now - copy.value.at;
        if 0 <= age <= q.maxAge {
          if !q.watch || copy.value.generation.None? {
            return ServeCopy(copy.value);
          }
          if SnapshotOf(c, q.key).generation != copy.value.generation.value {
            copy := None;
          } else if copy.value.fromShadow && !SnapshotFresh(c, q.key, q.maxAge, now) {
            copy := None;
          } else {
            return ServeCopy(copy.value);
          }
        }
      }
      d := Grant(now);
    }

    /** What the end of a fetch leaves. */
    method Settle(q: Request, start: nat, fetch: Fetch, write: Option<WriteResult>, c: Cache, now: int, origin: nat)
      returns (ending: Ending)
      requires Valid() && running
      modifies this
      ensures Entry() == S.Settle(settings, old(Entry()), q, start, fetch, write, c, now, origin) && Valid() && !running
      ensures ending == EndingOf(q, start, fetch, write, c)
    {
      hide S.Transition, S.RecordFailure, BreakerOk;
      SettleKeepsBreaker(settings, Entry(), q, start, fetch, write, c, now, origin);
      running := false;
      ending := Returned;
      if fetch.Failed? {
        ending := if fetch.superseded then Superseded else Errored;
      } else if write.Some? && Supersedes(write.value) {
        ending := Superseded;
      } else if q.watch {
        if SnapshotOf(c, q.key).generation != ExpectedGeneration(start, write) {
          ending := Superseded;
        }
      }
      if ending == Returned {
        copy := Some(Copy(fetch.value, now, if q.watch then Some(ExpectedGeneration(start, write)) else None, false, false, origin));
        failures := 0;
        Transition(Closed);
      } else if ending == Superseded {
        copy := None;
        if settings.enabled && circuit == HalfOpen && probes < settings.probeLimit {
          probes := probes + 1;
        }
      } else {
        RecordFailure(now);
      }
    }
  }
}
