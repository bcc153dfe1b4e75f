/**
 * Single flight and the circuit breaker, over every interleaving: at most one fetch per key at a
 * time, at most two per call, and the breaker's books in order.
 */
module ReadFlight {
  import opened Protocol
  import opened ShadowCache
  import opened SemanticReads

  predicate ValidSettings(s: Settings) {
    s.openCooldown >= 0 && s.probeLimit >= 1 && (s.enabled ==> s.failureBudget >= 1)
  }

  // ---- one entry ----

  /**
   * Closed is under budget and remembers no opening; half-open has a probe to give, or one out; open has
   * nobody fetching and no probe. A breaker that is off never counts anything.
   */
  predicate BreakerOk(s: Settings, e: ReadEntry) {
    if s.enabled then
      match e.circuit
      case Closed => 0 <= e.failures < s.failureBudget && e.openedAt.None?
      case HalfOpen =>
        e.openedAt.Some? && if e.running then 0 <= e.probes < s.probeLimit else 1 <= e.probes <= s.probeLimit
      case Open => !e.running && e.openedAt.Some? && e.probes == 0
    else
      e.circuit == Closed && e.failures == 0 && e.openedAt.None? && e.probes == 0 && e.suppressed == 0
  }

  /** The circuit is open and was opened less than the cooldown ago. */
  predicate Cooling(s: Settings, e: ReadEntry, now: int) {
    && s.enabled && e.circuit == Open && e.openedAt.Some?
    && s.openCooldown > 0 && now - e.openedAt.value < s.openCooldown
  }

  /** A guarded start is never in a cooldown, and a refusal always is: half-open never refuses. */
  lemma GrantKeepsBreaker(s: Settings, e: ReadEntry, now: int)
    requires ValidSettings(s) && BreakerOk(s, e) && !e.running
    ensures var r := Grant(s, e, now);
            && BreakerOk(s, r.0)
            && (r.1 == StartFetch <==> !Cooling(s, e, now)) && (r.1 == Suppress <==> Cooling(s, e, now))
            && (r.1 == StartFetch <==> r.0.running)
            && (r.1 == StartFetch ==> s.enabled ==>
                  r.0 == e.(running := true, flight := e.flight + 1, circuit := if e.circuit == Open then HalfOpen else e.circuit,
                            probes := if e.circuit == Open then s.probeLimit - 1
                                      else if e.circuit == HalfOpen then e.probes - 1 else e.probes))
            && (r.1 == StartFetch && !s.enabled ==> r.0 == e.(running := true, flight := e.flight + 1))
            && (r.1 == Suppress ==> r.0 == e.(suppressed := e.suppressed + 1) && e.circuit == Open)
  {
  }

  lemma DecideKeepsBreaker(s: Settings, e: ReadEntry, q: Request, cand: Option<Candidate>, passes: nat, c: Cache, now: int)
    requires ValidSettings(s) && BreakerOk(s, e)
    ensures var r := Decide(s, e, q, cand, passes, c, now);
            && BreakerOk(s, r.0)
            && (r.1 == StartFetch ==> !e.running && r.0.running && !Cooling(s, e, now))
            && (r.1 != StartFetch ==> r.0.running == e.running)
            && (r.1 == Suppress ==> Cooling(s, e, now))
            && (r.1 != StartFetch ==> r.0.circuit == e.circuit && r.0.openedAt == e.openedAt)
  {
    hide Grant, Revalidates, CopyStands;
    if !e.running {
      GrantKeepsBreaker(s, e, now);
      GrantKeepsBreaker(s, e.(copy := None), now);
    }
  }

  /**
   * The end of a fetch: a superseded one changes neither circuit nor failures and gives its probe
   * back; a success closes; a failure opens exactly when the budget or the probes are used up.
   */
  lemma SettleKeepsBreaker(s: Settings, e: ReadEntry, q: Request, start: nat, fetch: Fetch, write: Option<WriteResult>,
                           c: Cache, now: int, origin: nat)
    requires ValidSettings(s) && BreakerOk(s, e) && e.running
    ensures var r := Settle(s, e, q, start, fetch, write, c, now, origin);
            && BreakerOk(s, r) && !r.running && r.flight == e.flight && r.suppressed == e.suppressed
            && (if fetch == Failed(false) then
                  && r.copy == e.copy
                  && (s.enabled ==> && (r.circuit == Open <==>
                                        if e.circuit == HalfOpen then e.probes == 0 else e.failures + 1 >= s.failureBudget)
                                    && (r.circuit == Open ==> r.openedAt == Some(now))
                                    && (r.circuit != Open ==> r == e.(running := false, failures := e.failures + 1)))
                else if Outdated(q, start, fetch, write, c) then
                  r == e.(running := false, copy := None,
                          probes := if s.enabled && e.circuit == HalfOpen then e.probes + 1 else e.probes)
                else
                  && r.circuit == Closed && r.failures == 0 && fetch.Got? && r.copy.Some?
                  && (s.enabled && e.circuit != Closed ==> r.probes == s.probeLimit)
                  && r.copy.value == Copy(fetch.value, now, if q.watch then Some(SnapshotOf(c, q.key).generation) else None,
                                          false, false, origin))
  {
  }

  /** Something newer than the fetch is known: to the fetch itself, to the shadow, or by the key's generation. */
  predicate Outdated(q: Request, start: nat, fetch: Fetch, write: Option<WriteResult>, c: Cache) {
    || fetch == Failed(true)
    || (write.Some? && write.value.Rejected? && write.value.reason in {GenerationAdvanced, StaleTimestamp, SameTimestampConflict})
    || (fetch.Got? && q.watch &&
        SnapshotOf(c, q.key).generation != if write.Some? && write.value.Accepted? then write.value.generation else start)
  }

  // ---- the system ----

  /** From the grant to the end of the fetch. */
  predicate Airborne(pc: Pc) {
    pc.Granted? || pc.Captured? || pc.Fetched? || pc.Stored?
  }

  predicate Flies(y: Sys, t: nat, k: Key) {
    t in y.threads && y.threads[t].request.key == k && Airborne(y.threads[t].pc)
  }

  /** One fetch before a recomputation, one after it. */
  predicate CountOk(th: Thread) {
    && th.recomputes <= MAX_RECOMPUTES
    && (th.pc.Finished? || th.fetches + th.recomputes == MAX_RECOMPUTES + if th.pc.Fetched? || th.pc.Stored? then 1 else 0)
    && th.fetches <= 2 && (th.pc == Finished(Exhausted) ==> th.fetches == 2)
  }

  /** A key is running exactly while one call flies for it. */
  ghost predicate KeyFlight(s: Settings, y: Sys, k: Key) {
    && BreakerOk(s, EntryOf(y, k))
    && (EntryOf(y, k).running <==> exists t :: Flies(y, t, k))
    && (forall t, u :: Flies(y, t, k) && Flies(y, u, k) ==> t == u)
  }

  ghost predicate FlightOk(s: Settings, y: Sys) {
    (forall k :: KeyFlight(s, y, k)) && (forall t :: t in y.threads ==> CountOk(y.threads[t]))
  }

  lemma FlightAt(s: Settings, y: Sys, k: Key)
    requires FlightOk(s, y)
    ensures KeyFlight(s, y, k)
  {
  }

  /** A step that lets nobody take off or land. */
  lemma Cruise(s: Settings, y: Sys, z: Sys)
    requires FlightOk(s, y) && y.entries == z.entries
    requires forall t :: t in z.threads ==> CountOk(z.threads[t])
    requires forall t, k :: Flies(z, t, k) <==> Flies(y, t, k)
    ensures FlightOk(s, z)
  {
    hide BreakerOk, CountOk, Flies;
    forall k ensures KeyFlight(s, z, k) {
      assert KeyFlight(s, y, k);
      if EntryOf(y, k).running {
        var t :| Flies(y, t, k);
        assert Flies(z, t, k);
      }
    }
  }

  /** The usual case: one call moves on and nothing else changes. */
  lemma OneCruises(s: Settings, y: Sys, z: Sys, t: nat, th: Thread)
    requires FlightOk(s, y) && y.entries == z.entries && z.threads == y.threads[t := th] && CountOk(th)
    requires if t in y.threads then th.request == y.threads[t].request && (Airborne(th.pc) <==> Airborne(y.threads[t].pc))
             else !Airborne(th.pc)
    ensures FlightOk(s, z)
  {
    hide KeyFlight, CountOk, Airborne;
    Cruise(s, y, z);
  }

  lemma DecideFlight(s: Settings, y: Sys, t: nat, now: int)
    requires ValidSettings(s) && FlightOk(s, y) && t in y.threads && y.threads[t].pc.Consulted?
    ensures FlightOk(s, DecideFor(s, y, t, now))
  {
    hide Decide, BreakerOk;
    var z := DecideFor(s, y, t, now);
    var th := y.threads[t];
    var key := th.request.key;
    assert KeyFlight(s, y, key);
    DecideKeepsBreaker(s, EntryOf(y, key), th.request, th.pc.candidate, th.passes, y.cache, now);
    forall k ensures KeyFlight(s, z, k) {
      DecideKeyFlight(s, y, t, now, k);
    }
  }

  lemma DecideKeyFlight(s: Settings, y: Sys, t: nat, now: int, k: Key)
    requires ValidSettings(s) && t in y.threads && y.threads[t].pc.Consulted?
    requires KeyFlight(s, y, k) && KeyFlight(s, y, y.threads[t].request.key)
    ensures KeyFlight(s, DecideFor(s, y, t, now), k)
  {
    hide Decide, BreakerOk;
    var z := DecideFor(s, y, t, now);
    var th := y.threads[t];
    var key := th.request.key;
    DecideKeepsBreaker(s, EntryOf(y, key), th.request, th.pc.candidate, th.passes, y.cache, now);
    assert forall u, j :: u != t ==> (Flies(z, u, j) <==> Flies(y, u, j));
    assert !Flies(y, t, k);
    assert forall j :: j != key ==> EntryOf(z, j) == EntryOf(y, j);
    if EntryOf(y, k).running {
      var u :| Flies(y, u, k);
      assert Flies(z, u, k);
    }
    if k == key && EntryOf(z, k).running && !EntryOf(y, k).running {
      assert Flies(z, t, k);
    }
  }

  lemma SettleFlight(s: Settings, y: Sys, t: nat, now: int)
    requires ValidSettings(s) && FlightOk(s, y) && t in y.threads && y.threads[t].pc.Stored?
    ensures FlightOk(s, SettleFor(s, y, t, now))
  {
    hide Settle, EndingOf, BreakerOk;
    var z := SettleFor(s, y, t, now);
    var th := y.threads[t];
    assert KeyFlight(s, y, th.request.key);
    assert Flies(y, t, th.request.key);
    forall k ensures KeyFlight(s, z, k) {
      SettleKeyFlight(s, y, t, now, k);
    }
  }

  lemma SettleKeyFlight(s: Settings, y: Sys, t: nat, now: int, k: Key)
    requires ValidSettings(s) && t in y.threads && y.threads[t].pc.Stored?
    requires KeyFlight(s, y, k) && KeyFlight(s, y, y.threads[t].request.key)
    ensures KeyFlight(s, SettleFor(s, y, t, now), k)
  {
    hide Settle, EndingOf, BreakerOk;
    var z := SettleFor(s, y, t, now);
    var th := y.threads[t];
    var key, pc := th.request.key, th.pc;
    assert Flies(y, t, key) && !Flies(z, t, k);
    SettleKeepsBreaker(s, EntryOf(y, key), th.request, pc.start, pc.fetch, pc.write, y.cache, now, pc.origin);
    assert forall u, j :: u != t ==> (Flies(z, u, j) <==> Flies(y, u, j));
    assert forall j :: j != key ==> EntryOf(z, j) == EntryOf(y, j);
    if k != key && EntryOf(y, k).running {
      var u :| Flies(y, u, k);
      assert Flies(z, u, k);
    }
  }

  lemma TakeFlight(o: Options, s: Settings, y: Sys, step: Step)
    requires ValidSettings(s) && FlightOk(s, y)
    ensures FlightOk(s, Take(o, s, y, step))
  {
    hide KeyFlight, DecideFor, SettleFor, Apply, WriteTo, Lookup, Recorded, SnapshotOf, LatestAcceptance;
    var z := Take(o, s, y, step);
    if step.Environment? {
      Cruise(s, y, z);
    } else if step.Begin? {
      if step.t !in y.threads {
        OneCruises(s, y, z, step.t, z.threads[step.t]);
      }
    } else if step.t in y.threads {
      var t := step.t;
      var pc := y.threads[t].pc;
      if step.DecideStep? && pc.Consulted? {
        DecideFlight(s, y, t, step.now);
      } else if step.SettleStep? && pc.Stored? {
        SettleFlight(s, y, t, step.now);
      } else if z != y {
        MovesOne(o, s, y, step);
        OneCruises(s, y, z, t, z.threads[t]);
      }
    }
  }

  /** The remaining steps move one call on and leave the entries alone. */
  lemma MovesOne(o: Options, s: Settings, y: Sys, step: Step)
    requires !step.Environment? && !step.Begin? && !step.DecideStep? && !step.SettleStep? && step.t in y.threads
    requires CountOk(y.threads[step.t])
    ensures var z := Take(o, s, y, step);
            && z.entries == y.entries && step.t in z.threads && z.threads == y.threads[step.t := z.threads[step.t]]
            && CountOk(z.threads[step.t]) && z.threads[step.t].request == y.threads[step.t].request
            && (Airborne(z.threads[step.t].pc) <==> Airborne(y.threads[step.t].pc))
  {
    hide Apply, WriteTo, Lookup, Recorded, SnapshotOf, LatestAcceptance;
    assert y.threads == y.threads[step.t := y.threads[step.t]];
  }

  lemma {:induction false} RunFlight(o: Options, s: Settings, y: Sys, steps: seq<Step>)
    requires ValidSettings(s) && FlightOk(s, y)
    ensures FlightOk(s, Run(o, s, y, steps))
  {
    hide FlightOk, Take;
    if steps != [] {
      var n := |steps| - 1;
      RunFlight(o, s, y, steps[..n]);
      TakeFlight(o, s, Run(o, s, y, steps[..n]), steps[n]);
    }
  }

  /**
   * In every run two fetches for one key never overlap, no call makes more than two, and a call gives
   * up as exhausted only after its second.
   */
  lemma SingleFlight(o: Options, s: Settings, catalog: map<Key, Descriptor>, activations: map<Key, set<Activation>>,
                     degraded: bool, steps: seq<Step>)
    requires ValidSettings(s)
    ensures var y := Run(o, s, Start(catalog, activations, degraded), steps);
            && (forall t, u, k :: Flies(y, t, k) && Flies(y, u, k) ==> t == u)
            && (forall k :: EntryOf(y, k).running <==> exists t :: Flies(y, t, k))
            && (forall k :: BreakerOk(s, EntryOf(y, k)))
            && (forall t :: t in y.threads ==> y.threads[t].fetches <= 2)
            && (forall t :: t in y.threads && y.threads[t].pc == Finished(Exhausted) ==> y.threads[t].fetches == 2)
  {
    hide Take, BreakerOk;
    var y0 := Start(catalog, activations, degraded);
    StartFlight(s, y0);
    RunFlight(o, s, y0, steps);
    var y := Run(o, s, y0, steps);
    forall t, u, k | Flies(y, t, k) && Flies(y, u, k) ensures t == u {
      assert KeyFlight(s, y, k);
    }
    forall k ensures (EntryOf(y, k).running <==> exists t :: Flies(y, t, k)) && BreakerOk(s, EntryOf(y, k)) {
      assert KeyFlight(s, y, k);
    }
  }

  lemma StartFlight(s: Settings, y: Sys)
    requires ValidSettings(s) && y.entries == map[] && y.threads == map[]
    ensures FlightOk(s, y)
  {
  }

  /** The decision that a state of a run leads to for a call. */
  function NextDecision(s: Settings, y: Sys, t: nat, now: int): Decision
    requires t in y.threads && y.threads[t].pc.Consulted?
  {
    var th := y.threads[t];
    Decide(s, EntryOf(y, th.request.key), th.request, th.pc.candidate, th.passes, y.cache, now).1
  }

  /**
   * In every run a fetch is granted only outside the cooldown of an open circuit, and a call is
   * refused only inside one: the refusal of a half-open circuit without probes never happens.
   */
  lemma CooldownDecides(o: Options, s: Settings, catalog: map<Key, Descriptor>, activations: map<Key, set<Activation>>,
                        degraded: bool, steps: seq<Step>, t: nat, now: int)
    requires ValidSettings(s)
    ensures var y := Run(o, s, Start(catalog, activations, degraded), steps);
            t in y.threads && y.threads[t].pc.Consulted? ==>
              var e := EntryOf(y, y.threads[t].request.key);
              && (NextDecision(s, y, t, now) == StartFetch && s.enabled && e.circuit == Open ==>
                    e.openedAt.Some? && (s.openCooldown <= 0 || now - e.openedAt.value >= s.openCooldown))
              && (NextDecision(s, y, t, now) == Suppress ==>
                    s.enabled && e.circuit == Open && e.openedAt.Some? && now - e.openedAt.value < s.openCooldown)
  {
    hide Take, Decide;
    StartFlight(s, Start(catalog, activations, degraded));
    RunFlight(o, s, Start(catalog, activations, degraded), steps);
    var y := Run(o, s, Start(catalog, activations, degraded), steps);
    if t in y.threads && y.threads[t].pc.Consulted? {
      var th := y.threads[t];
      assert KeyFlight(s, y, th.request.key);
      DecideKeepsBreaker(s, EntryOf(y, th.request.key), th.request, th.pc.candidate, th.passes, y.cache, now);
    }
  }
}
