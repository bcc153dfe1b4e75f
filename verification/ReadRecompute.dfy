/**
 * A call whose fetch is overtaken by an invalidation does not give up: it looks at the shadow and the
 * copy again, fetches a second time, and returns what the second fetch brings.
 */
module ReadRecompute {
  import opened Protocol
  import opened ShadowCache
  import opened ShadowInvariants
  import opened ShadowViews
  import opened ShadowAdmission
  import opened ShadowEligibility
  import opened SemanticReads
  import opened ReadSafety
  import opened ReadFlight
  import opened PlainReads
  import opened ReadProgress

  /** A first fetch, overtaken by an invalidation of its key before it is offered to the shadow. */
  function OvertakenFetch(k: Key, t: nat, value: seq<Byte>, at: int, stored: int, settled: int): seq<Step> {
    [Capture(t), FetchStep(t, Got(value)), Environment(DoInvalidate(k, at))] + [StoreStep(t, stored), SettleStep(t, settled)]
  }

  /** The stamps known of a key are all before `at`. */
  predicate AllBefore(v: View, at: int) {
    && Precedes(v.invalidatedAt, at) && Precedes(v.highWater, at)
    && (v.core.Some? ==> Precedes(v.core.value.observedAt, at))
  }

  /** The key has no value that may be served. */
  predicate NothingPresent(v: View) {
    v.core.Some? ==> v.core.value.state != Present
  }

  lemma InvalidationVoids(o: Options, c: Cache, k: Key, at: int, later: int)
    requires AllBefore(ViewOf(c, k), later) && at < later
    ensures var v := ViewOf(Invalidate(o, c, k, at), k); AllBefore(v, later) && NothingPresent(v)
  {
    hide Invalidate, ViewOf;
    InvalidateViews(o, c, k, at, k);
  }

  /** A write under an outdated generation is rejected and changes nothing that matters here. */
  lemma OutdatedOffer(o: Options, c: Cache, w: Write, later: int)
    requires Wf(o, c) && ValidOptions(o) && w.source == ActiveConfirmed && w.startGeneration != Generation(c, w.key)
    requires AllBefore(ViewOf(c, w.key), later) && NothingPresent(ViewOf(c, w.key))
    ensures var r := WriteTo(o, c, w);
            && r.1.Rejected? && Wf(o, r.0) && Generation(r.0, w.key) == Generation(c, w.key)
            && AllBefore(ViewOf(r.0, w.key), later) && NothingPresent(ViewOf(r.0, w.key))
  {
    hide Wf, WriteTo, ViewOf, Generation, Admits;
    AcceptedExactly(o, c, w);
    WriteKeeps(o, c, w);
    if WriteTo(o, c, w).1.Rejected? {
      RejectedGeneration(o, c, w);
    }
    WriteViews(o, c, w, w.key);
  }

  /** Up to the offer: the key is one generation further than the call has captured. */
  lemma UpToOvertaken(o: Options, s: Settings, y: Sys, t: nat, value: seq<Byte>, at: int)
    requires t in y.threads && y.threads[t].pc == Granted && y.threads[t].request.watch
    ensures var q := y.threads[t].request;
            var z := Run(o, s, y, [Capture(t), FetchStep(t, Got(value)), Environment(DoInvalidate(q.key, at))]);
            && z.cache == Invalidate(o, y.cache, q.key, at) && z.entries == y.entries && t in z.threads
            && z.threads[t] == y.threads[t].(fetches := y.threads[t].fetches + 1,
                                             pc := Fetched(SnapshotOf(y.cache, q.key).generation, |y.history|, Got(value)))
  {
    hide Run, Invalidate, SnapshotOf;
    FourSteps(o, s, y, Capture(t), FetchStep(t, Got(value)), Environment(DoInvalidate(y.threads[t].request.key, at)), Wake(t));
  }

  /** The offer and the commit of a fetch whose key has moved on: the call is back at its start. */
  lemma CommitOvertaken(o: Options, s: Settings, y: Sys, t: nat, stored: int, settled: int, later: int)
    requires Wf(o, y.cache) && ValidOptions(o) && t in y.threads && y.threads[t].pc.Fetched? && y.threads[t].pc.fetch.Got?
    requires y.threads[t].request.watch && y.threads[t].recomputes > 0
    requires var k := y.threads[t].request.key;
             && y.threads[t].pc.start != Generation(y.cache, k)
             && AllBefore(ViewOf(y.cache, k), later) && NothingPresent(ViewOf(y.cache, k))
    ensures var k := y.threads[t].request.key;
            var z := Run(o, s, y, [StoreStep(t, stored), SettleStep(t, settled)]);
            && Wf(o, z.cache) && t in z.threads && EntryOf(z, k).copy.None?
            && z.threads[t] == y.threads[t].(recomputes := y.threads[t].recomputes - 1, passes := 2, pc := Ready)
            && AllBefore(ViewOf(z.cache, k), later) && NothingPresent(ViewOf(z.cache, k))
  {
    hide Run, Wf, WriteTo, ViewOf, Generation, SnapshotOf, AllBefore, NothingPresent;
    var th := y.threads[t];
    var w := Write(th.request.key, ActiveConfirmed, true, th.pc.fetch.value, stored, th.pc.start);
    OutdatedOffer(o, y.cache, w, later);
    SnapshotShowsGeneration(o, WriteTo(o, y.cache, w).0, w.key);
    TwoSteps(o, s, y, StoreStep(t, stored), SettleStep(t, settled));
  }

  /** With nothing to serve and nobody fetching, the call is granted another fetch. */
  lemma GrantedAgain(o: Options, s: Settings, y: Sys, t: nat, now: int, later: int)
    requires Wf(o, y.cache) && ValidSettings(s) && FlightOk(s, y) && t in y.threads && y.threads[t].pc == Ready
    requires var k := y.threads[t].request.key;
             && EntryOf(y, k).copy.None? && !EntryOf(y, k).running && EntryOf(y, k).circuit != Open
             && AllBefore(ViewOf(y.cache, k), later) && NothingPresent(ViewOf(y.cache, k))
    ensures var k := y.threads[t].request.key;
            var z := Run(o, s, y, [Consult(t, now), DecideStep(t, now)]);
            && Wf(o, z.cache) && t in z.threads && z.threads[t].pc == Granted && z.threads[t].request == y.threads[t].request
            && z.threads[t].fetches == y.threads[t].fetches && AllBefore(ViewOf(z.cache, k), later)
            && EntryOf(z, k).running && BreakerOk(s, EntryOf(z, k))
  {
    hide Run, Wf, Lookup, SnapshotOf, AllBefore, LatestAcceptance, Grant, BreakerOk, FlightOk;
    var th := y.threads[t];
    var q := th.request;
    TwoSteps(o, s, y, Consult(t, now), DecideStep(t, now));
    NothingFound(o, y.cache, q.key, q.maxAge, now);
    LookupKeeps(o, y.cache, q.key, q.maxAge, now);
    assert KeyFlight(s, y, q.key) by { FlightAt(s, y, q.key); }
    GrantKeepsBreaker(s, EntryOf(y, q.key), now);
    var y1 := Take(o, s, y, Consult(t, now));
    assert y1.threads[t].pc == Consulted(None) && EntryOf(y1, q.key) == EntryOf(y, q.key);
  }

  lemma NothingFound(o: Options, c: Cache, k: Key, maxAge: int, now: int)
    requires NothingPresent(ViewOf(c, k))
    ensures var r := Lookup(o, c, k, maxAge, now); (r.1.Some? ==> !r.1.value.1) && ViewOf(r.0, k) == ViewOf(c, k)
  {
    hide CurrentPin, Without;
    SyncViews(o, c, k, k);
  }

  /** Nothing known of the key is in the way of an offer that is later than all of it. */
  lemma LaterOfferStands(o: Options, c: Cache, q: Request, value: seq<Byte>, now: int)
    requires Wf(o, c) && AllBefore(ViewOf(c, q.key), now)
    ensures !Supersedes(WriteTo(o, c, Offer(c, q, value, now)).1)
  {
    hide Wf, SyncPin, CanAdmitWriteConfirm, EnsureCapacity, Accept, ViewOf, RejectByPrecedence, SnapshotOf;
    var w := Offer(c, q, value, now);
    SnapshotShowsGeneration(o, c, q.key);
    if q.key in c.catalog {
      var c1 := EnsureKeyState(c, q.key);
      var c2 := SyncPin(o, c1, q.key);
      KeyStateViews(c, q.key);
      SyncViews(o, c1, q.key, q.key);
      SyncKeepsKeys(o, c1, q.key);
      PrecedenceExactly(c2, w);
    }
  }

  lemma KeyStateViews(c: Cache, k: Key)
    ensures ViewOf(EnsureKeyState(c, k), k) == ViewOf(c, k)
  {
  }

  /**
   * The whole story, from any state of a run: a watched call is granted its first fetch, its key is
   * invalidated before the fetch is offered to the shadow, and nobody interferes any more. The call
   * fetches again and returns the second value, which is also the copy it leaves.
   */
  lemma RecomputedFetchReturns(o: Options, s: Settings, y: Sys, t: nat, first: seq<Byte>, at: int, stored: int, settled: int,
                               again: int, second: seq<Byte>, now: int)
    requires Wf(o, y.cache) && ValidOptions(o) && ValidSettings(s) && FlightOk(s, y)
    requires t in y.threads && y.threads[t].pc == Granted && y.threads[t].request.watch && y.threads[t].fetches == 0
    requires AllBefore(ViewOf(y.cache, y.threads[t].request.key), now) && at < now
    ensures var k := y.threads[t].request.key;
            var steps := OvertakenFetch(k, t, first, at, stored, settled) + [Consult(t, again), DecideStep(t, again)]
                         + FetchSteps(t, Got(second), now);
            var z := Run(o, s, y, steps);
            && t in z.threads && z.threads[t].pc.Finished? && z.threads[t].pc.outcome.Value?
            && z.threads[t].pc.outcome.value == second && z.threads[t].fetches == 2
            && EntryOf(z, k).copy.Some? && EntryOf(z, k).copy.value.value == second
  {
    hide Run, Wf, Invalidate, ViewOf, AllBefore, NothingPresent, FlightOk, BreakerOk, Generation, SnapshotOf, WriteTo;
    var k := y.threads[t].request.key;
    var a, b := [Capture(t), FetchStep(t, Got(first)), Environment(DoInvalidate(k, at))], [StoreStep(t, stored), SettleStep(t, settled)];
    var c, d := [Consult(t, again), DecideStep(t, again)], FetchSteps(t, Got(second), now);
    var y1 := Run(o, s, y, a);
    var y2 := Run(o, s, y1, b);
    var y3 := Run(o, s, y2, c);
    UpToOvertaken(o, s, y, t, first, at);
    FirstOfTwo(s, y, t);
    InvalidateKeeps(o, y.cache, k, at);
    SnapshotShowsGeneration(o, y.cache, k);
    InvalidationVoids(o, y.cache, k, at, now);
    CommitOvertaken(o, s, y1, t, stored, settled, now);
    RunFlight(o, s, y, a);
    RunFlight(o, s, y1, b);
    SettledFlight(o, s, y1, t, stored, settled);
    GrantedAgain(o, s, y2, t, again, now);
    LaterOfferStands(o, y3.cache, y3.threads[t].request, second, now);
    UndisturbedFetchReturns(o, s, y3, t, second, now);
    FetchCounts(o, s, y3, t, second, now);
    RunAfter(o, s, y, a, b);
    RunAfter(o, s, y, a + b, c);
    RunAfter(o, s, y, a + b + c, d);
  }

  /** A call that flies for the first time has one recomputation left. */
  lemma FirstOfTwo(s: Settings, y: Sys, t: nat)
    requires FlightOk(s, y) && t in y.threads && y.threads[t].pc == Granted && y.threads[t].fetches == 0
    ensures y.threads[t].recomputes == 1
  {
    assert CountOk(y.threads[t]);
  }

  /** The commit ends the flight and leaves a circuit that is not open. */
  lemma SettledFlight(o: Options, s: Settings, y: Sys, t: nat, stored: int, settled: int)
    requires ValidSettings(s) && FlightOk(s, y) && t in y.threads && y.threads[t].pc.Fetched? && y.threads[t].pc.fetch.Got?
    ensures var e := EntryOf(Run(o, s, y, [StoreStep(t, stored), SettleStep(t, settled)]), y.threads[t].request.key);
            !e.running && e.circuit != Open
  {
    hide Run, Settle, EndingOf, FlightOk, WriteTo, Apply, Recorded, SnapshotOf, Outdated;
    var k := y.threads[t].request.key;
    TwoSteps(o, s, y, StoreStep(t, stored), SettleStep(t, settled));
    var y1 := Take(o, s, y, StoreStep(t, stored));
    TakeFlight(o, s, y, StoreStep(t, stored));
    FlightAt(s, y1, k);
    assert Flies(y1, t, k);
    var th := y1.threads[t];
    SettleKeepsBreaker(s, EntryOf(y1, k), th.request, th.pc.start, th.pc.fetch, th.pc.write, y1.cache, settled, th.pc.origin);
  }

  lemma FetchCounts(o: Options, s: Settings, y: Sys, t: nat, value: seq<Byte>, now: int)
    requires t in y.threads && y.threads[t].pc == Granted
    ensures var z := Run(o, s, y, FetchSteps(t, Got(value), now));
            t in z.threads && z.threads[t].fetches == y.threads[t].fetches + 1
  {
    hide Run, WriteTo, SnapshotOf, EndingOf, Settle, Recorded, Apply;
    FourSteps(o, s, y, Capture(t), FetchStep(t, Got(value)), StoreStep(t, now), SettleStep(t, now));
  }

  // ---- how calls end ----

  /** The commit of a fetch: what the call is told, in terms of what the fetch and the shadow say. */
  lemma CommitTells(o: Options, s: Settings, y: Sys, t: nat, now: int)
    requires FlightOk(s, y) && t in y.threads && y.threads[t].pc.Stored?
    ensures var th := y.threads[t];
            var pc := th.pc;
            var z := Take(o, s, y, SettleStep(t, now));
            && t in z.threads && z.threads[t].request == th.request && z.threads[t].fetches == th.fetches
            && (if pc.fetch == Failed(false) then z.threads[t].pc == Finished(FetchError)
                else if !Outdated(th.request, pc.start, pc.fetch, pc.write, y.cache) then
                  && pc.fetch.Got?
                  && z.threads[t].pc == Finished(Value(pc.fetch.value, pc.origin, if th.request.watch then Some(|y.history|) else None))
                else if th.fetches == 2 then z.threads[t].pc == Finished(Exhausted)
                else z.threads[t].pc == Ready && z.threads[t].passes == 2)
  {
    hide KeyFlight, Settle, SnapshotOf;
    assert CountOk(y.threads[t]);
  }

  /** The candidate found before is still what the shadow has, and fresh. */
  predicate CandidateHolds(y: Sys, q: Request, cand: Candidate, now: int) {
    SnapshotOf(y.cache, q.key).generation == cand.generation && SnapshotFresh(y.cache, q.key, q.maxAge, now)
  }

  /** The copy is young enough and, if it carries a generation, the shadow agrees with it. */
  predicate CopyHolds(y: Sys, q: Request, copy: Copy, now: int) {
    && copy.value != [] && q.maxAge > 0 && 0 <= now - copy.at <= q.maxAge
    && (q.watch && copy.generation.Some? ==>
          && SnapshotOf(y.cache, q.key).generation == copy.generation.value
          && (copy.fromShadow ==> SnapshotFresh(y.cache, q.key, q.maxAge, now)))
  }

  /**
   * A decision, in this order: wait for a fetch under way, serve the candidate, look again, serve the
   * copy, refuse during a cooldown, fetch.
   */
  lemma DecisionTells(o: Options, s: Settings, y: Sys, t: nat, now: int)
    requires ValidSettings(s) && FlightOk(s, y) && t in y.threads && y.threads[t].pc.Consulted?
    ensures var z := Take(o, s, y, DecideStep(t, now));
            var th, k := y.threads[t], y.threads[t].request.key;
            var q, cand, e := th.request, th.pc.candidate, EntryOf(y, k);
            && t in z.threads && z.threads[t].request == q && z.threads[t].fetches == th.fetches
            && (if e.running then z.threads[t].pc == Waiting(e.flight) && EntryOf(z, k) == e
                else if cand.Some? && CandidateHolds(y, q, cand.value, now) then
                  && z.threads[t].pc == Finished(Value(cand.value.value, cand.value.origin, Some(|y.history|)))
                  && EntryOf(z, k) == e.(copy := Some(Copy(cand.value.value, now, Some(cand.value.generation), true,
                                                           cand.value.passive, cand.value.origin)))
                else if cand.Some? && th.passes > 0 then z.threads[t].pc == Ready && EntryOf(z, k) == e
                else if e.copy.Some? && CopyHolds(y, q, e.copy.value, now) then
                  && z.threads[t].pc == Finished(Value(e.copy.value.value, e.copy.value.origin,
                                                       if q.watch && e.copy.value.generation.Some? then Some(|y.history|) else None))
                  && EntryOf(z, k) == e
                else
                  && z.threads[t].pc == (if Cooling(s, e, now) then Finished(CircuitOpen) else Granted)
                  && (EntryOf(z, k).running <==> !Cooling(s, e, now))
                  && EntryOf(z, k).copy == if HasRecentCopy(e, q.maxAge, now) then None else e.copy)
  {
    hide FlightOk, Grant, SnapshotOf, SnapshotFresh;
    var e := EntryOf(y, y.threads[t].request.key);
    FlightAt(s, y, y.threads[t].request.key);
    if !e.running {
      GrantKeepsBreaker(s, e, now);
      GrantKeepsBreaker(s, e.(copy := None), now);
      GrantKeepsCopy(s, e, now);
      GrantKeepsCopy(s, e.(copy := None), now);
    }
  }

  /**
   * Looking at the shadow: a watched call with an age limit and passes left finds the value that is
   * present and eligible, with its generation and its origin in passive traffic or a confirmed read.
   */
  lemma ConsultTells(o: Options, s: Settings, y: Sys, t: nat, now: int)
    requires Wf(o, y.cache) && t in y.threads && y.threads[t].pc == Ready
    ensures var z := Take(o, s, y, Consult(t, now));
            var th := y.threads[t];
            var q := th.request;
            var looks := q.watch && q.maxAge > 0 && th.passes > 0;
            && t in z.threads && z.entries == y.entries && z.history == y.history
            && z.threads[t] == th.(passes := if looks then th.passes - 1 else th.passes, pc := z.threads[t].pc)
            && z.threads[t].pc.Consulted?
            && (if looks && q.key in y.cache.entries && LookupEligible(y.cache, y.cache.entries[q.key], q.maxAge, now) then
                  var e := y.cache.entries[q.key];
                  z.threads[t].pc.candidate == Some(Candidate(e.value, SnapshotOf(y.cache, q.key).generation,
                                                              e.source == Some(Passive), LatestAcceptance(y.history, q.key)))
                else
                  z.threads[t].pc.candidate.None?)
  {
    hide Wf, Lookup, LatestAcceptance, SnapshotOf, LookupEligible;
    var q := y.threads[t].request;
    LookupTells(o, y.cache, q.key, q.maxAge, now);
  }

  lemma LookupTells(o: Options, c: Cache, k: Key, maxAge: int, now: int)
    requires Wf(o, c)
    ensures var found := Lookup(o, c, k, maxAge, now).1;
            if k in c.entries then
              && found.Some? && (found.value.1 <==> LookupEligible(c, c.entries[k], maxAge, now))
              && (found.value.1 ==> found.value.0.state == Present)
              && found.value.0.value == c.entries[k].value && found.value.0.source == c.entries[k].source
              && found.value.0.generation == SnapshotOf(c, k).generation
            else
              found.None?
  {
    hide Wf, CurrentPin, Without;
    At(o, c, k);
  }

  /** A call that waits is released exactly when the fetch it waits for is over. */
  lemma WakesExactly(o: Options, s: Settings, y: Sys, t: nat)
    requires t in y.threads && y.threads[t].pc.Waiting?
    ensures var z := Take(o, s, y, Wake(t));
            var e := EntryOf(y, y.threads[t].request.key);
            && t in z.threads
            && (if e.running && e.flight == y.threads[t].pc.flight then z == y else z.threads[t] == y.threads[t].(pc := Ready))
  {
  }

  /** Nothing but that and its own cancellation moves a call that waits. */
  lemma WaitsUntilWoken(o: Options, s: Settings, y: Sys, step: Step, t: nat)
    requires t in y.threads && y.threads[t].pc.Waiting? && step != Wake(t) && step != Cancel(t)
    ensures t in Take(o, s, y, step).threads && Take(o, s, y, step).threads[t] == y.threads[t]
  {
    hide Decide, Settle, AfterDecision, AfterEnding, Apply, WriteTo, Lookup, Recorded, SnapshotOf, LatestAcceptance;
  }

  /** Nothing else ends a call but its own cancellation while it waits, and an ended call stays ended. */
  lemma OnlyTheseEnd(o: Options, s: Settings, y: Sys, step: Step, t: nat)
    requires t in y.threads
    ensures var z := Take(o, s, y, step);
            && t in z.threads
            && (y.threads[t].pc.Finished? ==> z.threads[t] == y.threads[t])
            && (z.threads[t].pc.Finished? && !y.threads[t].pc.Finished? ==>
                  || (step.DecideStep? && step.t == t && y.threads[t].pc.Consulted?)
                  || (step.SettleStep? && step.t == t && y.threads[t].pc.Stored?)
                  || (step == Cancel(t) && y.threads[t].pc.Waiting? && z.threads[t].pc == Finished(Cancelled)))
  {
    hide Decide, Settle, AfterDecision, AfterEnding, Apply, WriteTo, Lookup, Recorded, SnapshotOf, LatestAcceptance;
  }
}
