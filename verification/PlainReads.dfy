/**
 * Plain reads share the scheduler's entries with watched ones but leave copies that carry no
 * generation. Watched reads are checked exactly as long as no such copy is about.
 */
module PlainReads {
  import opened Protocol
  import opened ShadowCache
  import opened ShadowInvariants
  import opened ShadowViews
  import opened ShadowEligibility
  import opened SemanticReads
  import opened ReadSafety

  /** All calls for `k` in the run are watched ones. */
  predicate AllWatched(steps: seq<Step>, k: Key) {
    forall i :: 0 <= i < |steps| && steps[i].Begin? && steps[i].request.key == k ==> steps[i].request.watch
  }

  predicate CheckedThread(th: Thread) {
    && th.request.watch
    && (th.pc.Finished? && th.pc.outcome.Value? ==> th.pc.outcome.checkedAt.Some?)
  }

  /** Every copy of `k` carries a generation, and every value returned for it was checked. */
  ghost predicate Checked(y: Sys, k: Key) {
    && (EntryOf(y, k).copy.Some? ==> EntryOf(y, k).copy.value.generation.Some?)
    && (forall t :: t in y.threads && y.threads[t].request.key == k ==> CheckedThread(y.threads[t]))
  }

  lemma DecideChecked(s: Settings, y: Sys, t: nat, now: int, k: Key)
    requires Checked(y, k) && t in y.threads && y.threads[t].pc.Consulted?
    ensures Checked(DecideFor(s, y, t, now), k)
  {
    hide Grant, Revalidates;
    var e := EntryOf(y, y.threads[t].request.key);
    GrantKeepsCopy(s, e, now);
    GrantKeepsCopy(s, e.(copy := None), now);
  }

  lemma SettleChecked(s: Settings, y: Sys, t: nat, now: int, k: Key)
    requires Checked(y, k) && t in y.threads && y.threads[t].pc.Stored?
    ensures Checked(SettleFor(s, y, t, now), k)
  {
    hide EndingOf;
  }

  lemma TakeChecked(o: Options, s: Settings, y: Sys, step: Step, k: Key)
    requires Checked(y, k) && (step.Begin? && step.request.key == k ==> step.request.watch)
    ensures Checked(Take(o, s, y, step), k)
  {
    hide DecideFor, SettleFor, Apply, WriteTo, Lookup, Recorded, SnapshotOf, LatestAcceptance;
    if !step.Environment? && !step.Begin? && step.t in y.threads {
      if step.DecideStep? && y.threads[step.t].pc.Consulted? {
        DecideChecked(s, y, step.t, step.now, k);
      } else if step.SettleStep? && y.threads[step.t].pc.Stored? {
        SettleChecked(s, y, step.t, step.now, k);
      }
    }
  }

  lemma {:induction false} RunChecked(o: Options, s: Settings, y: Sys, steps: seq<Step>, k: Key)
    requires Checked(y, k) && AllWatched(steps, k)
    ensures Checked(Run(o, s, y, steps), k)
  {
    hide Checked, Take;
    if steps != [] {
      var n := |steps| - 1;
      RunChecked(o, s, y, steps[..n], k);
      TakeChecked(o, s, Run(o, s, y, steps[..n]), steps[n], k);
    }
  }

  /**
   * If all calls for a key are watched, no value returned for it is older than the last
   * invalidation of the key before the check that preceded the return.
   */
  lemma WatchedReadsAreCurrent(o: Options, s: Settings, catalog: map<Key, Descriptor>,
                               activations: map<Key, set<Activation>>, degraded: bool, steps: seq<Step>, t: nat)
    requires ValidOptions(o)
    ensures var y := Run(o, s, Start(catalog, activations, degraded), steps);
            t in y.threads && y.threads[t].pc.Finished? && y.threads[t].pc.outcome.Value?
            && AllWatched(steps, y.threads[t].request.key) ==>
              var k := y.threads[t].request.key;
              var r := y.threads[t].pc.outcome;
              && r.checkedAt.Some? && r.checkedAt.value <= |y.history|
              && ComesFrom(y.history, k, r.value, r.origin) && Untouched(y.history[..r.checkedAt.value], k, r.origin)
  {
    hide ComesFrom, Untouched, Take;
    NoReadSurvivesInvalidation(o, s, catalog, activations, degraded, steps, t);
    var y0 := Start(catalog, activations, degraded);
    var y := Run(o, s, y0, steps);
    if t in y.threads && AllWatched(steps, y.threads[t].request.key) {
      RunChecked(o, s, y0, steps, y.threads[t].request.key);
    }
  }

  // ---- a copy without a generation ----

  lemma InvalidatedIsIneligible(o: Options, c: Cache, k: Key, at: int, maxAge: int, now: int)
    ensures var found := Lookup(o, Invalidate(o, c, k, at), k, maxAge, now).1; found.Some? ==> !found.value.1
  {
    hide Invalidate, CurrentPin, Without;
    InvalidateViews(o, c, k, at, k);
    SyncViews(o, Invalidate(o, c, k, at), k, k);
  }

  /** After the invalidation a copy stands only if it carries no generation. */
  lemma InvalidationOutdates(o: Options, y: Sys, k: Key, at: int, copy: Copy)
    requires Wf(o, y.cache) && ValidOptions(o) && CopyOk(y, k, copy) && copy.generation.Some?
    ensures SnapshotOf(Invalidate(o, y.cache, k, at), k).generation != copy.generation.value
  {
    hide Invalidate, Wf;
    StepInvalidates(o, y.cache, k, at);
    SnapshotShowsGeneration(o, Invalidate(o, y.cache, k, at), k);
  }

  /** A lookup that finds nothing eligible leaves the snapshots as they are. */
  lemma LookupSnapshots(o: Options, c: Cache, k: Key, maxAge: int, now: int, j: Key)
    ensures SnapshotOf(Lookup(o, c, k, maxAge, now).0, j) == SnapshotOf(c, j)
  {
    hide CurrentPin, Without, LookupEligible;
  }

  /** The next watched call after an invalidation, up to its decision. */
  function ReadAfterInvalidation(k: Key, t: nat, at: int, maxAge: int, now: int): seq<Step> {
    [Environment(DoInvalidate(k, at)), Begin(t, Request(k, true, maxAge)), Consult(t, now), DecideStep(t, now)]
  }

  lemma UpToDecision(o: Options, s: Settings, y: Sys, k: Key, t: nat, at: int, maxAge: int, now: int)
    requires t !in y.threads
    ensures var z := Run(o, s, y, ReadAfterInvalidation(k, t, at, maxAge, now));
            var c := Invalidate(o, y.cache, k, at);
            var r := Decide(s, EntryOf(y, k), Request(k, true, maxAge), None, if maxAge > 0 then 1 else 2,
                            if maxAge > 0 then Lookup(o, c, k, maxAge, now).0 else c, now);
            && z.history == y.history + [Invalidation(k)] && t in z.threads
            && z.threads[t].pc == match r.1
                                  case Wait => Waiting(EntryOf(y, k).flight)
                                  case ServeCopy(copy) =>
                                    Finished(Value(copy.value, copy.origin,
                                                   if copy.generation.Some? then Some(|y.history| + 1) else None))
                                  case Suppress => Finished(CircuitOpen)
                                  case StartFetch => Granted
                                  case _ => Ready
  {
    hide Invalidate, Lookup, SnapshotOf, LatestAcceptance, Decide;
    var s0, s1 := Environment(DoInvalidate(k, at)), Begin(t, Request(k, true, maxAge));
    var y1 := Take(o, s, y, s0);
    var y2 := Take(o, s, y1, s1);
    var y3 := Take(o, s, y2, Consult(t, now));
    InvalidatedIsIneligible(o, y.cache, k, at, maxAge, now);
    assert y3.threads[t].pc == Consulted(None) && y3.history == y1.history;
    FourSteps(o, s, y, s0, s1, Consult(t, now), DecideStep(t, now));
  }

  /**
   * From any state of a run, invalidating a key and then reading it with a watched call, at any
   * time and with any age limit: the call returns a value right away if and only if nobody is
   * fetching and the scheduler has a recent copy that carries no generation. It is that copy, it
   * is not checked, and the key was invalidated after the copy's origin.
   */
  lemma OldCopyReturnedExactly(o: Options, s: Settings, y: Sys, k: Key, t: nat, at: int, maxAge: int, now: int)
    requires Safe(o, y) && ValidOptions(o) && t !in y.threads
    ensures var e := EntryOf(y, k);
            var z := Run(o, s, y, ReadAfterInvalidation(k, t, at, maxAge, now));
            && t in z.threads
            && var pc := z.threads[t].pc;
               && (pc.Finished? && pc.outcome.Value? <==>
                   !e.running && HasRecentCopy(e, maxAge, now) && e.copy.value.generation.None?)
               && (pc.Finished? && pc.outcome.Value? ==>
                     pc.outcome == Value(e.copy.value.value, e.copy.value.origin, None)
                     && !Untouched(z.history, k, e.copy.value.origin))
  {
    hide Run, Invalidate, Lookup, SnapshotOf, SnapshotFresh, Wf, Witness, LatestAcceptance, Grant;
    var e := EntryOf(y, k);
    assert EntryOk(y, k);
    UpToDecision(o, s, y, k, t, at, maxAge, now);
    LookupSnapshots(o, Invalidate(o, y.cache, k, at), k, maxAge, now, k);
    GrantKeepsCopy(s, e, now);
    GrantKeepsCopy(s, e.(copy := None), now);
    if e.copy.Some? && e.copy.value.generation.Some? {
      InvalidationOutdates(o, y, k, at, e.copy.value);
    }
    var z := Run(o, s, y, ReadAfterInvalidation(k, t, at, maxAge, now));
    assert z.history[|y.history|] == Invalidation(k);
  }

  // ---- how such a copy comes about ----

  lemma FourSteps(o: Options, s: Settings, y: Sys, a: Step, b: Step, c: Step, d: Step)
    ensures Run(o, s, y, [a, b, c, d]) == Take(o, s, Take(o, s, Take(o, s, Take(o, s, y, a), b), c), d)
    ensures Run(o, s, y, [a, b, c]) == Take(o, s, Take(o, s, Take(o, s, y, a), b), c)
  {
    hide Take;
    assert [a, b, c, d][..3] == [a, b, c] && [a, b, c][..2] == [a, b] && [a, b][..1] == [a] && [a][..0] == [];
    assert Run(o, s, y, [a]) == Take(o, s, y, a);
    assert Run(o, s, y, [a, b]) == Take(o, s, Take(o, s, y, a), b);
  }

  lemma {:induction false} RunAfter(o: Options, s: Settings, y: Sys, a: seq<Step>, b: seq<Step>)
    ensures Run(o, s, y, a + b) == Run(o, s, Run(o, s, y, a), b)
  {
    hide Take;
    if b == [] {
      assert a + b == a;
    } else {
      assert (a + b)[..|a + b| - 1] == a + b[..|b| - 1];
      RunAfter(o, s, y, a, b[..|b| - 1]);
    }
  }

  /** A plain call up to its fetch. */
  function PlainStart(k: Key, t: nat, maxAge: int, now: int): seq<Step> {
    [Begin(t, Request(k, false, maxAge)), Consult(t, now), DecideStep(t, now), Capture(t)]
  }

  /** A plain call comes to its fetch exactly when nobody fetches, no copy is recent and the breaker allows it. */
  lemma PlainCallFetches(o: Options, s: Settings, y: Sys, k: Key, t: nat, maxAge: int, now: int)
    requires t !in y.threads
    ensures var z := Run(o, s, y, PlainStart(k, t, maxAge, now));
            var e := EntryOf(y, k);
            && t in z.threads && z.threads[t].request == Request(k, false, maxAge) && z.history == y.history
            && (z.threads[t].pc.Captured? <==>
                !e.running && !HasRecentCopy(e, maxAge, now) && Grant(s, e, now).1 == StartFetch)
  {
    hide Run, SnapshotOf, Lookup, Grant;
    GrantKeepsCopy(s, EntryOf(y, k), now);
    FourSteps(o, s, y, Begin(t, Request(k, false, maxAge)), Consult(t, now), DecideStep(t, now), Capture(t));
  }

  /** Whatever a plain call fetches stays behind as a copy without a generation. */
  lemma PlainCallLeavesCopy(o: Options, s: Settings, y: Sys, t: nat, value: seq<Byte>, stored: int, settled: int)
    requires t in y.threads && y.threads[t].pc.Captured? && !y.threads[t].request.watch
    ensures var z := Run(o, s, y, [FetchStep(t, Got(value)), StoreStep(t, stored), SettleStep(t, settled)]);
            var e := EntryOf(z, y.threads[t].request.key);
            && !e.running && e.copy == Some(Copy(value, settled, None, false, false, |y.history|))
            && z.threads.Keys == y.threads.Keys
            && z.history == y.history + [Fetching(y.threads[t].request.key, Got(value))]
  {
    hide Run, SnapshotOf;
    FourSteps(o, s, y, FetchStep(t, Got(value)), StoreStep(t, stored), SettleStep(t, settled), Wake(t));
  }

  /** The whole unfortunate run: a plain read, an invalidation, a watched read. */
  function StaleRun(k: Key, value: seq<Byte>, p: int, at: int, maxAge: int, now: int): seq<Step> {
    PlainStart(k, 0, maxAge, p) + [FetchStep(0, Got(value)), StoreStep(0, p), SettleStep(0, p)]
    + ReadAfterInvalidation(k, 1, at, maxAge, now)
  }

  /**
   * It happens from the start: for every key, value, age limit and invalidation there is a run in
   * which a watched call returns what was fetched before the invalidation of its key.
   */
  lemma StaleReadHappens(o: Options, s: Settings, catalog: map<Key, Descriptor>, activations: map<Key, set<Activation>>,
                         degraded: bool, k: Key, value: seq<Byte>, p: int, at: int, maxAge: int, now: int)
    requires ValidOptions(o) && value != [] && maxAge > 0 && 0 <= now - p <= maxAge
    ensures var z := Run(o, s, Start(catalog, activations, degraded), StaleRun(k, value, p, at, maxAge, now));
            && z.history == [Fetching(k, Got(value)), Invalidation(k)]
            && 1 in z.threads && z.threads[1].request.watch && z.threads[1].request.key == k
            && z.threads[1].pc == Finished(Value(value, 0, None))
  {
    hide Run, Decide, Safe, Untouched, Lookup, Invalidate;
    var y0 := Start(catalog, activations, degraded);
    var a := PlainStart(k, 0, maxAge, p);
    var b := [FetchStep(0, Got(value)), StoreStep(0, p), SettleStep(0, p)];
    var y1, y2 := Run(o, s, y0, a), Run(o, s, y0, a + b);
    PlainCallFetches(o, s, y0, k, 0, maxAge, p);
    PlainStartThreads(o, s, y0, k, 0, maxAge, p);
    PlainCallLeavesCopy(o, s, y1, 0, value, p, p);
    RunAfter(o, s, y0, a, b);
    RunAfter(o, s, y0, a + b, ReadAfterInvalidation(k, 1, at, maxAge, now));
    StartSafe(o, catalog, activations, degraded);
    RunSafe(o, s, y0, a + b);
    UpToDecision(o, s, y2, k, 1, at, maxAge, now);
    OldCopyReturnedExactly(o, s, y2, k, 1, at, maxAge, now);
    ReaderIs(o, s, y2, k, 1, at, maxAge, now);
  }

  lemma PlainStartThreads(o: Options, s: Settings, y: Sys, k: Key, t: nat, maxAge: int, now: int)
    requires t !in y.threads
    ensures Run(o, s, y, PlainStart(k, t, maxAge, now)).threads.Keys == y.threads.Keys + {t}
  {
    hide Run, SnapshotOf, Lookup, Decide;
    FourSteps(o, s, y, Begin(t, Request(k, false, maxAge)), Consult(t, now), DecideStep(t, now), Capture(t));
  }

  lemma ReaderIs(o: Options, s: Settings, y: Sys, k: Key, t: nat, at: int, maxAge: int, now: int)
    requires t !in y.threads
    ensures var z := Run(o, s, y, ReadAfterInvalidation(k, t, at, maxAge, now));
            t in z.threads && z.threads[t].request == Request(k, true, maxAge)
  {
    hide Run, SnapshotOf, Lookup, Decide, Invalidate;
    FourSteps(o, s, y, Environment(DoInvalidate(k, at)), Begin(t, Request(k, true, maxAge)), Consult(t, now), DecideStep(t, now));
  }

  // ---- where unchecked values come from ----

  /** A value returned to a watched call without a check. */
  predicate Unchecked(th: Thread) {
    th.request.watch && th.pc.Finished? && th.pc.outcome.Value? && th.pc.outcome.checkedAt.None?
  }

  /** Step `i` of the run is the commit of a plain fetch of `k` that leaves `copy`. */
  ghost predicate PlainCommit(o: Options, s: Settings, y0: Sys, steps: seq<Step>, i: int, k: Key, copy: Copy) {
    0 <= i < |steps| && CommitsPlain(Run(o, s, y0, steps[..i]), steps[i], k, copy)
  }

  predicate CommitsPlain(y: Sys, step: Step, k: Key, copy: Copy) {
    && step.SettleStep? && step.now == copy.at && step.t in y.threads
    && var th := y.threads[step.t];
       && !th.request.watch && th.request.key == k && th.pc.Stored?
       && th.pc.fetch == Got(copy.value) && th.pc.origin == copy.origin
  }

  /** A copy without a generation was there before the step, or the step commits a plain fetch. */
  lemma CopyStep(o: Options, s: Settings, y: Sys, step: Step, k: Key)
    requires var copy := EntryOf(Take(o, s, y, step), k).copy; copy.Some? && copy.value.generation.None?
    ensures var copy := EntryOf(Take(o, s, y, step), k).copy;
            EntryOf(y, k).copy == copy || CommitsPlain(y, step, k, copy.value)
  {
    hide Apply, WriteTo, Lookup, Recorded, SnapshotOf, LatestAcceptance, Grant, Revalidates, CopyStands, RecordFailure;
    if !step.Environment? && !step.Begin? && step.t in y.threads {
      var e := EntryOf(y, y.threads[step.t].request.key);
      if step.DecideStep? {
        GrantKeepsCopy(s, e, step.now);
        GrantKeepsCopy(s, e.(copy := None), step.now);
      } else if step.SettleStep? {
        FailureKeepsCopy(s, e.(running := false), step.now);
      }
    }
  }

  lemma FailureKeepsCopy(s: Settings, e: ReadEntry, now: int)
    ensures RecordFailure(s, e, now).copy == e.copy
  {
  }

  lemma {:induction false} CopyOrigin(o: Options, s: Settings, y0: Sys, steps: seq<Step>, k: Key) returns (i: int)
    requires y0.entries == map[]
    requires var copy := EntryOf(Run(o, s, y0, steps), k).copy; copy.Some? && copy.value.generation.None?
    ensures PlainCommit(o, s, y0, steps, i, k, EntryOf(Run(o, s, y0, steps), k).copy.value)
  {
    hide Take, CommitsPlain;
    i := |steps| - 1;
    if steps != [] {
      var n := i;
      var copy := EntryOf(Run(o, s, y0, steps), k).copy;
      CopyStep(o, s, Run(o, s, y0, steps[..n]), steps[n], k);
      if EntryOf(Run(o, s, y0, steps[..n]), k).copy == copy {
        i := CopyOrigin(o, s, y0, steps[..n], k);
        assert steps[..n][..i] == steps[..i];
      }
    }
  }

  /** The step serves the call `t` a recent copy that carries no generation. */
  predicate ServesUnchecked(y: Sys, step: Step, t: nat, r: Outcome) {
    && step.DecideStep? && step.t == t && t in y.threads && r.Value?
    && var e := EntryOf(y, y.threads[t].request.key);
       && HasRecentCopy(e, y.threads[t].request.maxAge, step.now) && e.copy.value.generation.None?
       && e.copy.value.value == r.value && e.copy.value.origin == r.origin
  }

  lemma UncheckedStep(o: Options, s: Settings, y: Sys, step: Step, t: nat)
    requires var z := Take(o, s, y, step); t in z.threads && Unchecked(z.threads[t])
    ensures t in y.threads && y.threads[t].request == Take(o, s, y, step).threads[t].request
    ensures var th := Take(o, s, y, step).threads[t]; y.threads[t] == th || ServesUnchecked(y, step, t, th.pc.outcome)
  {
    hide Apply, WriteTo, Lookup, Recorded, SnapshotOf, LatestAcceptance, Grant, Revalidates, EndingOf, Settle;
    if step.DecideStep? && step.t in y.threads {
      var e := EntryOf(y, y.threads[step.t].request.key);
      GrantDecides(s, e, step.now);
      GrantDecides(s, e.(copy := None), step.now);
    }
  }

  lemma GrantDecides(s: Settings, e: ReadEntry, now: int)
    ensures Grant(s, e, now).1 == Suppress || Grant(s, e, now).1 == StartFetch
  {
  }

  /**
   * Over every run, whatever the interleaving: a value that a watched call returned without a check
   * was fetched by a plain call of the same key, which committed it at step `i`, and was served at
   * the later step `j` no more than the call's age limit after that.
   */
  lemma {:induction false} UncheckedIsPlain(o: Options, s: Settings, y0: Sys, steps: seq<Step>, t: nat)
    returns (i: int, j: int, copy: Copy)
    requires ValidOptions(o) && Safe(o, y0) && y0.entries == map[] && y0.threads == map[]
    requires var y := Run(o, s, y0, steps); t in y.threads && Unchecked(y.threads[t])
    ensures var th := Run(o, s, y0, steps).threads[t];
            var k := th.request.key;
            && 0 <= i < j < |steps| && PlainCommit(o, s, y0, steps, i, k, copy)
            && copy.value == th.pc.outcome.value && copy.origin == th.pc.outcome.origin
            && steps[j].DecideStep? && steps[j].t == t && 0 <= steps[j].now - copy.at <= th.request.maxAge
            && var h := Run(o, s, y0, steps[..i]).history;
               copy.origin < |h| && h[copy.origin] == Fetching(k, Got(copy.value))
  {
    hide Take, CommitsPlain, Safe;
    if steps != [] {
      var n := |steps| - 1;
      var y := Run(o, s, y0, steps[..n]);
      var th := Run(o, s, y0, steps).threads[t];
      UncheckedStep(o, s, y, steps[n], t);
      if y.threads[t] == th {
        i, j, copy := UncheckedIsPlain(o, s, y0, steps[..n], t);
        assert steps[..n][..i] == steps[..i];
      } else {
        j := n;
        copy := EntryOf(y, th.request.key).copy.value;
        i := CopyOrigin(o, s, y0, steps[..n], th.request.key);
        assert steps[..n][..i] == steps[..i];
        RunSafe(o, s, y0, steps[..i]);
        CommittedWasFetched(o, Run(o, s, y0, steps[..i]), steps[i], th.request.key, copy);
      }
    }
  }

  lemma CommittedWasFetched(o: Options, y: Sys, step: Step, k: Key, copy: Copy)
    requires Safe(o, y) && CommitsPlain(y, step, k, copy)
    ensures copy.origin < |y.history| && y.history[copy.origin] == Fetching(k, Got(copy.value))
  {
    assert ThreadOk(y, step.t);
  }
}
