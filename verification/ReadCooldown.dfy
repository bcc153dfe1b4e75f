/**
 * The circuit breaker over whole runs: only a failed fetch opens a circuit, at the time of its
 * commit, and from then on no fetch of the key starts before the cooldown is over.
 */
module ReadCooldown {
  import opened Protocol
  import opened ShadowCache
  import opened SemanticReads
  import opened ReadFlight
  import opened PlainReads

  predicate OpenSince(e: ReadEntry, at: int) {
    e.circuit == Open && e.openedAt == Some(at)
  }

  /** The step commits a fetch of `k` that failed by itself. */
  predicate CommitsFailure(y: Sys, step: Step, k: Key) {
    && step.SettleStep? && step.t in y.threads
    && y.threads[step.t].request.key == k && y.threads[step.t].pc.Stored? && y.threads[step.t].pc.fetch == Failed(false)
  }

  lemma DecideOpens(s: Settings, y: Sys, t: nat, now: int, k: Key)
    requires ValidSettings(s) && FlightOk(s, y) && t in y.threads && y.threads[t].pc.Consulted?
    ensures var e, e1 := EntryOf(y, k), EntryOf(DecideFor(s, y, t, now), k);
            && (e1.circuit == Open ==> e.circuit == Open && e1.openedAt == e.openedAt)
            && (e.circuit == Open && Cooling(s, e, now) ==> e1.circuit == Open && e1.openedAt == e.openedAt && !e1.running)
  {
    hide Decide, FlightOk;
    var th := y.threads[t];
    var key := th.request.key;
    FlightAt(s, y, key);
    FlightAt(s, y, k);
    DecideKeepsBreaker(s, EntryOf(y, key), th.request, th.pc.candidate, th.passes, y.cache, now);
  }

  lemma SettleOpens(s: Settings, y: Sys, t: nat, now: int, k: Key)
    requires ValidSettings(s) && FlightOk(s, y) && t in y.threads && y.threads[t].pc.Stored?
    ensures var e, e1 := EntryOf(y, k), EntryOf(SettleFor(s, y, t, now), k);
            && (e.circuit == Open ==> e1 == e)
            && (e1.circuit == Open && e.circuit != Open ==> CommitsFailure(y, SettleStep(t, now), k) && e1.openedAt == Some(now))
  {
    hide Settle, FlightOk, EndingOf, Outdated;
    var th := y.threads[t];
    var key, pc := th.request.key, th.pc;
    FlightAt(s, y, key);
    assert Flies(y, t, key);
    SettleKeepsBreaker(s, EntryOf(y, key), th.request, pc.start, pc.fetch, pc.write, y.cache, now, pc.origin);
    SettledEntry(s, y, t, now, k);
  }

  lemma SettledEntry(s: Settings, y: Sys, t: nat, now: int, k: Key)
    requires t in y.threads && y.threads[t].pc.Stored?
    ensures var th := y.threads[t];
            var pc := th.pc;
            EntryOf(SettleFor(s, y, t, now), k) ==
            if k == th.request.key then
              Settle(s, EntryOf(y, k), th.request, pc.start, pc.fetch, pc.write, y.cache, now, pc.origin)
            else
              EntryOf(y, k)
  {
    hide Settle, EndingOf;
  }

  /** What a step does to an open circuit, and which steps open one. */
  lemma StepOpens(o: Options, s: Settings, y: Sys, step: Step, k: Key)
    requires ValidSettings(s) && FlightOk(s, y)
    ensures var e, e1 := EntryOf(y, k), EntryOf(Take(o, s, y, step), k);
            && (e1.circuit == Open ==>
                  || (e.circuit == Open && e1.openedAt == e.openedAt)
                  || (e.circuit != Open && CommitsFailure(y, step, k) && e1.openedAt == Some(step.now)))
            && (e.circuit == Open && (step.DecideStep? ==> Cooling(s, e, step.now)) ==>
                  e1.circuit == Open && e1.openedAt == e.openedAt && !e1.running)
  {
    hide FlightOk, DecideFor, SettleFor, Apply, WriteTo, Lookup, Recorded, SnapshotOf, LatestAcceptance, CommitsFailure;
    FlightAt(s, y, k);
    if !step.Environment? && !step.Begin? && step.t in y.threads {
      var pc := y.threads[step.t].pc;
      if step.DecideStep? && pc.Consulted? {
        DecideOpens(s, y, step.t, step.now, k);
      } else if step.SettleStep? && pc.Stored? {
        SettleOpens(s, y, step.t, step.now, k);
      }
    }
  }

  /**
   * While every decision comes less than the cooldown after the circuit of a key was opened, the
   * circuit stays open and nobody fetches the key, whatever else happens.
   */
  lemma {:induction false} CooldownHolds(o: Options, s: Settings, y: Sys, steps: seq<Step>, k: Key, at: int)
    requires ValidSettings(s) && s.enabled && s.openCooldown > 0 && FlightOk(s, y) && OpenSince(EntryOf(y, k), at)
    requires forall i :: 0 <= i < |steps| && steps[i].DecideStep? ==> steps[i].now - at < s.openCooldown
    ensures OpenSince(EntryOf(Run(o, s, y, steps), k), at) && forall t :: !Flies(Run(o, s, y, steps), t, k)
  {
    hide FlightOk, Take, Flies, BreakerOk;
    if steps != [] {
      var n := |steps| - 1;
      CooldownHolds(o, s, y, steps[..n], k, at);
      RunFlight(o, s, y, steps[..n]);
      StepOpens(o, s, Run(o, s, y, steps[..n]), steps[n], k);
    }
    RunFlight(o, s, y, steps);
    OpenMeansIdle(s, Run(o, s, y, steps), k);
  }

  lemma OpenMeansIdle(s: Settings, y: Sys, k: Key)
    requires FlightOk(s, y) && s.enabled && EntryOf(y, k).circuit == Open
    ensures forall t :: !Flies(y, t, k)
  {
    assert KeyFlight(s, y, k);
  }

  /** In every run an open circuit was opened by the commit of a failed fetch of its key, at that time. */
  lemma {:induction false} OpenedByFailure(o: Options, s: Settings, y0: Sys, steps: seq<Step>, k: Key) returns (i: int)
    requires ValidSettings(s) && y0.entries == map[] && y0.threads == map[] && EntryOf(Run(o, s, y0, steps), k).circuit == Open
    ensures 0 <= i < |steps| && CommitsFailure(Run(o, s, y0, steps[..i]), steps[i], k)
    ensures EntryOf(Run(o, s, y0, steps[..i]), k).circuit != Open
    ensures OpenSince(EntryOf(Run(o, s, y0, steps), k), steps[i].now)
  {
    hide Take, FlightOk, CommitsFailure;
    i := |steps| - 1;
    if steps != [] {
      var n := i;
      StartFlight(s, y0);
      RunFlight(o, s, y0, steps[..n]);
      StepOpens(o, s, Run(o, s, y0, steps[..n]), steps[n], k);
      if EntryOf(Run(o, s, y0, steps[..n]), k).circuit == Open {
        i := OpenedByFailure(o, s, y0, steps[..n], k);
        assert steps[..n][..i] == steps[..i];
      }
    }
  }

  /**
   * In every run: when step `i` opens the circuit of a key, no call fetches that key after any later
   * steps whose decisions all come less than the cooldown after it.
   */
  lemma NoFetchDuringCooldown(o: Options, s: Settings, y0: Sys, steps: seq<Step>, i: int, k: Key, t: nat)
    requires ValidSettings(s) && s.enabled && s.openCooldown > 0 && y0.entries == map[] && y0.threads == map[]
    requires 0 <= i < |steps|
    requires EntryOf(Run(o, s, y0, steps[..i]), k).circuit != Open
    requires EntryOf(Run(o, s, y0, steps[..i + 1]), k).circuit == Open
    ensures steps[i].SettleStep?
    ensures (forall j :: i < j < |steps| && steps[j].DecideStep? ==> steps[j].now - steps[i].now < s.openCooldown) ==>
              !Flies(Run(o, s, y0, steps), t, k)
  {
    hide Take, FlightOk, CommitsFailure, Flies;
    StartFlight(s, y0);
    RunFlight(o, s, y0, steps[..i]);
    RunFlight(o, s, y0, steps[..i + 1]);
    assert steps[..i + 1][..i] == steps[..i];
    var y := Run(o, s, y0, steps[..i]);
    assert Run(o, s, y0, steps[..i + 1]) == Take(o, s, y, steps[i]);
    StepOpens(o, s, y, steps[i], k);
    FailureIsSettle(y, steps[i], k);
    var rest := steps[i + 1..];
    assert steps == steps[..i + 1] + rest;
    RunAfter(o, s, y0, steps[..i + 1], rest);
    if forall j :: i < j < |steps| && steps[j].DecideStep? ==> steps[j].now - steps[i].now < s.openCooldown {
      CooldownHolds(o, s, Run(o, s, y0, steps[..i + 1]), rest, k, steps[i].now);
    }
  }

  lemma FailureIsSettle(y: Sys, step: Step, k: Key)
    requires CommitsFailure(y, step, k)
    ensures step.SettleStep?
  {
  }
}
