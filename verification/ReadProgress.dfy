/** What a call gets when nobody interferes: the fresh value in the shadow, or what it fetched. */
module ReadProgress {
  import opened Protocol
  import opened ShadowCache
  import opened ShadowInvariants
  import opened ShadowViews
  import opened ShadowEligibility
  import opened SemanticReads
  import opened ReadSafety
  import opened ReadFlight
  import opened PlainReads

  // ---- from the shadow ----

  /** The key's value is present and both freshness tests pass it. */
  predicate Answers(c: Cache, k: Key, maxAge: int, now: int) {
    && k in c.entries && LookupEligible(c, c.entries[k], maxAge, now) && SnapshotFresh(c, k, maxAge, now)
  }

  lemma LookupAnswers(o: Options, c: Cache, k: Key, maxAge: int, now: int)
    requires Wf(o, c) && Answers(c, k, maxAge, now)
    ensures var r := Lookup(o, c, k, maxAge, now);
            && r.1.Some? && r.1.value.1 && r.1.value.0.state == Present && r.1.value.0.value == c.entries[k].value
            && r.1.value.0.generation == SnapshotOf(c, k).generation
            && SnapshotFresh(r.0, k, maxAge, now) && SnapshotOf(r.0, k) == SnapshotOf(c, k)
  {
    hide Wf, CurrentPin, Without;
    LookupFinds(o, c, k, maxAge, now);
    SnapshotShowsGeneration(o, c, k);
  }

  lemma TwoSteps(o: Options, s: Settings, y: Sys, a: Step, b: Step)
    ensures Run(o, s, y, [a, b]) == Take(o, s, Take(o, s, y, a), b)
  {
    hide Take;
    assert [a, b][..1] == [a] && [a][..0] == [];
    assert Run(o, s, y, [a]) == Take(o, s, y, a);
  }

  /** A watched call on an idle key gets the fresh value from the shadow, without a fetch. */
  lemma ShadowAnswers(o: Options, s: Settings, y: Sys, t: nat, now: int)
    requires Wf(o, y.cache) && t in y.threads && y.threads[t].pc == Ready && y.threads[t].passes > 0
    requires var q := y.threads[t].request;
             q.watch && q.maxAge > 0 && !EntryOf(y, q.key).running && Answers(y.cache, q.key, q.maxAge, now)
    ensures var z := Run(o, s, y, [Consult(t, now), DecideStep(t, now)]);
            var k := y.threads[t].request.key;
            && t in z.threads && z.threads[t].fetches == y.threads[t].fetches
            && z.threads[t].pc == Finished(Value(y.cache.entries[k].value, LatestAcceptance(y.history, k), Some(|y.history|)))
  {
    hide Wf, Lookup, SnapshotFresh, SnapshotOf, LookupEligible, LatestAcceptance, Run;
    var th := y.threads[t];
    var q := th.request;
    LookupAnswers(o, y.cache, q.key, q.maxAge, now);
    TwoSteps(o, s, y, Consult(t, now), DecideStep(t, now));
    var y1 := Take(o, s, y, Consult(t, now));
    assert y1.cache == Lookup(o, y.cache, q.key, q.maxAge, now).0 && y1.history == y.history;
    assert y1.threads[t].pc.Consulted? && y1.threads[t].pc.candidate.Some?;
  }

  // ---- from the bus ----

  lemma RejectedAdmitted(o: Options, c: Cache, w: Write, d: Descriptor, pin: Pin)
    requires w.key in c.keys && WriteAdmitted(o, c, w, d, pin).1.Rejected?
    ensures Generation(WriteAdmitted(o, c, w, d, pin).0, w.key) == Generation(c, w.key)
  {
    hide RejectByPrecedence, EnsureCapacity;
    CapacityGeneration(o, c, pin, w.key);
  }

  /** A rejected write does not move its key's generation. */
  lemma RejectedGeneration(o: Options, c: Cache, w: Write)
    requires WriteTo(o, c, w).1.Rejected?
    ensures Generation(WriteTo(o, c, w).0, w.key) == Generation(c, w.key)
  {
    hide WriteAdmitted, SyncPin, CanAdmitWriteConfirm, DesiredPin;
    if w.key in c.catalog {
      var d := c.catalog[w.key];
      var c1 := EnsureKeyState(c, w.key);
      var pin := DesiredPin(Some(d), ActiveSources(c, w.key));
      SyncKeepsKeys(o, c1, w.key);
      if WriteAdmitted(o, SyncPin(o, c1, w.key), w, d, pin).1.Rejected? {
        RejectedAdmitted(o, SyncPin(o, c1, w.key), w, d, pin);
      }
    }
  }

  /** The write that offers a fetched value to the shadow. */
  function Offer(c: Cache, q: Request, value: seq<Byte>, now: int): Write {
    Write(q.key, ActiveConfirmed, true, value, now, SnapshotOf(c, q.key).generation)
  }

  /** Right after its own offer the key is at the generation the call expects. */
  lemma OfferKeepsPace(o: Options, c: Cache, q: Request, value: seq<Byte>, now: int)
    requires Wf(o, c) && ValidOptions(o)
    ensures var w := Offer(c, q, value, now);
            var r := WriteTo(o, c, w);
            SnapshotOf(r.0, q.key).generation == ExpectedGeneration(w.startGeneration, Some(r.1))
  {
    hide Wf, WriteTo, SnapshotOf, Generation;
    var w := Offer(c, q, value, now);
    SnapshotShowsGeneration(o, c, q.key);
    WriteKeeps(o, c, w);
    SnapshotShowsGeneration(o, WriteTo(o, c, w).0, q.key);
    if WriteTo(o, c, w).1.Accepted? {
      AcceptedGeneration(o, c, w);
    } else {
      RejectedGeneration(o, c, w);
    }
  }

  /** Everything from the grant to the commit, with nobody in between. */
  function FetchSteps(t: nat, fetch: Fetch, now: int): seq<Step> {
    [Capture(t), FetchStep(t, fetch), StoreStep(t, now), SettleStep(t, now)]
  }

  lemma UpToStore(o: Options, s: Settings, y: Sys, t: nat, value: seq<Byte>, now: int)
    requires Wf(o, y.cache) && ValidOptions(o) && t in y.threads && y.threads[t].pc == Granted
    ensures var q := y.threads[t].request;
            var start := if q.watch then SnapshotOf(y.cache, q.key).generation else 0;
            var z := Take(o, s, Take(o, s, Take(o, s, y, Capture(t)), FetchStep(t, Got(value))), StoreStep(t, now));
            var r := WriteTo(o, y.cache, Offer(y.cache, q, value, now));
            && t in z.threads && z.threads[t].request == q && z.entries == y.entries
            && z.cache == (if q.watch then r.0 else y.cache)
            && z.threads[t].pc == Stored(start, |y.history|, Got(value), if q.watch then Some(r.1) else None)
  {
    hide WriteTo, Wf, SnapshotOf;
  }

  /**
   * An undisturbed fetch: unless the shadow knows something newer, the call returns what it
   * fetched, keeps it as its copy, ends the flight and closes the circuit.
   */
  lemma UndisturbedFetchReturns(o: Options, s: Settings, y: Sys, t: nat, value: seq<Byte>, now: int)
    requires Wf(o, y.cache) && ValidOptions(o) && ValidSettings(s) && t in y.threads && y.threads[t].pc == Granted
    requires var e := EntryOf(y, y.threads[t].request.key); BreakerOk(s, e) && e.running
    requires var q := y.threads[t].request;
             q.watch ==> !Supersedes(WriteTo(o, y.cache, Offer(y.cache, q, value, now)).1)
    ensures var z := Run(o, s, y, FetchSteps(t, Got(value), now));
            var k := y.threads[t].request.key;
            var e := EntryOf(z, k);
            && t in z.threads && z.threads[t].pc.Finished? && z.threads[t].pc.outcome.Value?
            && z.threads[t].pc.outcome.value == value && z.threads[t].pc.outcome.origin == |y.history|
            && !e.running && e.copy.Some? && e.copy.value.value == value && e.circuit == Closed && e.failures == 0
  {
    hide WriteTo, Wf, SnapshotOf, Run, BreakerOk, Operate;
    var q := y.threads[t].request;
    UpToStore(o, s, y, t, value, now);
    OfferKeepsPace(o, y.cache, q, value, now);
    FourSteps(o, s, y, Capture(t), FetchStep(t, Got(value)), StoreStep(t, now), SettleStep(t, now));
    var y3 := Take(o, s, Take(o, s, Take(o, s, y, Capture(t)), FetchStep(t, Got(value))), StoreStep(t, now));
    FinishReturned(s, y3, t, now);
  }

  /** The commit of a fetch that stands. */
  lemma FinishReturned(s: Settings, y: Sys, t: nat, now: int)
    requires ValidSettings(s) && t in y.threads && y.threads[t].pc.Stored? && y.threads[t].pc.fetch.Got?
    requires var e := EntryOf(y, y.threads[t].request.key); BreakerOk(s, e) && e.running
    requires var th := y.threads[t];
             EndingOf(th.request, th.pc.start, th.pc.fetch, th.pc.write, y.cache) == Returned
    ensures var z := SettleFor(s, y, t, now);
            var e := EntryOf(z, y.threads[t].request.key);
            var value := y.threads[t].pc.fetch.value;
            && t in z.threads && z.threads[t].pc.Finished? && z.threads[t].pc.outcome.Value?
            && z.threads[t].pc.outcome.value == value && z.threads[t].pc.outcome.origin == y.threads[t].pc.origin
            && !e.running && e.copy.Some? && e.copy.value.value == value && e.circuit == Closed && e.failures == 0
  {
    hide EndingOf;
  }
}
