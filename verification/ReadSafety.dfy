/**
 * No read survives an invalidation: in every interleaving, a value a call returns after a
 * generation check was fetched, or taken by the shadow, after the last invalidation of its key.
 */
module ReadSafety {
  import opened Protocol
  import opened ShadowCache
  import opened ShadowInvariants
  import opened ShadowViews
  import opened ShadowEligibility
  import opened SemanticReads

  // ---- the past ----

  /** The key was not invalidated from `from` on. */
  ghost predicate Untouched(h: seq<Happening>, k: Key, from: nat) {
    forall j :: from <= j < |h| ==> h[j] != Invalidation(k)
  }

  /** The value comes from `origin`: the shadow took it there, or a fetch that returns it began there. */
  predicate ComesFrom(h: seq<Happening>, k: Key, value: seq<Byte>, origin: nat) {
    origin < |h| && (h[origin] == Acceptance(k, value) || h[origin] == Fetching(k, Got(value)))
  }

  /** A captured generation that, while it is current, proves the key untouched since `origin`. */
  ghost predicate Witness(y: Sys, k: Key, generation: nat, origin: nat) {
    && generation <= Generation(y.cache, k)
    && (generation == Generation(y.cache, k) ==> Untouched(y.history, k, origin))
  }

  // ---- the invariant ----

  ghost predicate PresentOk(y: Sys, k: Key) {
    k in y.cache.entries && y.cache.entries[k].state == Present ==>
      && ComesFrom(y.history, k, y.cache.entries[k].value, LatestAcceptance(y.history, k))
      && Untouched(y.history, k, LatestAcceptance(y.history, k))
  }

  ghost predicate CopyOk(y: Sys, k: Key, copy: Copy) {
    && ComesFrom(y.history, k, copy.value, copy.origin)
    && (copy.generation.Some? ==> Witness(y, k, copy.generation.value, copy.origin))
  }

  ghost predicate OutcomeOk(y: Sys, k: Key, r: Outcome) {
    r.Value? ==>
      && ComesFrom(y.history, k, r.value, r.origin)
      && (r.checkedAt.Some? ==> r.checkedAt.value <= |y.history| && Untouched(y.history[..r.checkedAt.value], k, r.origin))
  }

  ghost predicate PcOk(y: Sys, q: Request, pc: Pc) {
    match pc
    case Consulted(cand) =>
      cand.Some? ==> q.watch && ComesFrom(y.history, q.key, cand.value.value, cand.value.origin)
                     && Witness(y, q.key, cand.value.generation, cand.value.origin)
    case Captured(start) => q.watch ==> start <= Generation(y.cache, q.key)
    case Fetched(start, origin, fetch) => FetchOk(y, q, origin, fetch) && (q.watch ==> Witness(y, q.key, start, origin))
    case Stored(start, origin, fetch, write) =>
      FetchOk(y, q, origin, fetch) && (q.watch ==> Witness(y, q.key, ExpectedGeneration(start, write), origin))
    case Finished(outcome) => OutcomeOk(y, q.key, outcome)
    case _ => true
  }

  predicate FetchOk(y: Sys, q: Request, origin: nat, fetch: Fetch) {
    origin < |y.history| && y.history[origin] == Fetching(q.key, fetch)
  }

  ghost predicate EntryOk(y: Sys, k: Key) {
    k in y.entries && y.entries[k].copy.Some? ==> CopyOk(y, k, y.entries[k].copy.value)
  }

  ghost predicate ThreadOk(y: Sys, t: nat) {
    t in y.threads ==> PcOk(y, y.threads[t].request, y.threads[t].pc)
  }

  ghost predicate Safe(o: Options, y: Sys) {
    && Wf(o, y.cache)
    && (forall k :: PresentOk(y, k) && EntryOk(y, k))
    && (forall t :: ThreadOk(y, t))
  }

  // ---- what may happen to the cache and the history ----

  /** The past only grows, generations only grow, and an invalidation advances its key's generation. */
  ghost predicate Progress(y: Sys, z: Sys) {
    && y.history <= z.history
    && Grows(y.cache, z.cache)
    && (forall j :: |y.history| <= j < |z.history| && z.history[j].Invalidation? ==>
                      Generation(y.cache, z.history[j].key) < Generation(z.cache, z.history[j].key))
  }

  lemma WitnessKept(y: Sys, z: Sys, k: Key, generation: nat, origin: nat)
    requires Progress(y, z) && Witness(y, k, generation, origin)
    ensures Witness(z, k, generation, origin)
  {
    assert Generation(y.cache, k) <= Generation(z.cache, k);
    if generation == Generation(z.cache, k) {
      forall j | origin <= j < |z.history| ensures z.history[j] != Invalidation(k) {
        if j < |y.history| {
          assert z.history[j] == y.history[j];
        }
      }
    }
  }

  lemma ComesFromKept(y: Sys, z: Sys, k: Key, value: seq<Byte>, origin: nat)
    requires y.history <= z.history && ComesFrom(y.history, k, value, origin)
    ensures ComesFrom(z.history, k, value, origin)
  {
  }

  lemma CopyKept(y: Sys, z: Sys, k: Key, copy: Copy)
    requires Progress(y, z) && CopyOk(y, k, copy)
    ensures CopyOk(z, k, copy)
  {
    hide Witness, ComesFrom;
    ComesFromKept(y, z, k, copy.value, copy.origin);
    if copy.generation.Some? {
      WitnessKept(y, z, k, copy.generation.value, copy.origin);
    }
  }

  lemma OutcomeKept(y: Sys, z: Sys, k: Key, r: Outcome)
    requires Progress(y, z) && OutcomeOk(y, k, r)
    ensures OutcomeOk(z, k, r)
  {
    hide ComesFrom, Untouched;
    if r.Value? {
      ComesFromKept(y, z, k, r.value, r.origin);
      if r.checkedAt.Some? {
        assert z.history[..r.checkedAt.value] == y.history[..r.checkedAt.value];
      }
    }
  }

  lemma PcKept(y: Sys, z: Sys, q: Request, pc: Pc)
    requires Progress(y, z) && PcOk(y, q, pc)
    ensures PcOk(z, q, pc)
  {
    hide Witness, ComesFrom, Untouched, OutcomeOk, ExpectedGeneration;
    match pc
    case Consulted(cand) =>
      if cand.Some? {
        ComesFromKept(y, z, q.key, cand.value.value, cand.value.origin);
        WitnessKept(y, z, q.key, cand.value.generation, cand.value.origin);
      }
    case Captured(start) => assert Generation(y.cache, q.key) <= Generation(z.cache, q.key);
    case Fetched(start, origin, fetch) =>
      if q.watch { WitnessKept(y, z, q.key, start, origin); }
    case Stored(start, origin, fetch, write) =>
      if q.watch { WitnessKept(y, z, q.key, ExpectedGeneration(start, write), origin); }
    case Finished(outcome) => OutcomeKept(y, z, q.key, outcome);
    case _ =>
  }

  // ---- facts about the cache ----

  lemma AcceptGeneration(c: Cache, w: Write, d: Descriptor, ttl: int, pin: Pin)
    requires w.key in c.entries && w.key in c.keys
    ensures Generation(Accept(c, w, d, ttl, pin), w.key) == Generation(c, w.key)
  {
    hide Without, Later;
  }

  lemma CapacityGeneration(o: Options, c: Cache, pin: Pin, k: Key)
    ensures Generation(EnsureCapacity(o, c, pin).0, k) == Generation(c, k)
  {
    hide Without, Next, WriteConfirmCount;
  }

  lemma AdmittedGeneration(o: Options, c: Cache, w: Write, d: Descriptor, pin: Pin)
    requires w.key in c.keys && IndexOk(c, w.key) && WriteAdmitted(o, c, w, d, pin).1.Accepted?
    ensures w.source == ActiveConfirmed ==> Generation(c, w.key) == w.startGeneration
    ensures Generation(WriteAdmitted(o, c, w, d, pin).0, w.key) == WriteAdmitted(o, c, w, d, pin).1.generation
  {
    hide RejectByPrecedence, EnsureCapacity, Accept;
    var k := w.key;
    var ttl := d.ttl.value;
    if k in c.entries {
      AcceptGeneration(c, w, d, ttl, pin);
    } else {
      CapacityGeneration(o, c, pin, k);
      var c1 := AdvanceGeneration(Insert(EnsureCapacity(o, c, pin).0, k, Some(d)), k);
      AcceptGeneration(c1, w, d, ttl, pin);
    }
  }

  /** An accepted write of a fetched value proves the generation it started from, and reports the new one. */
  lemma AcceptedGeneration(o: Options, c: Cache, w: Write)
    requires Wf(o, c) && WriteTo(o, c, w).1.Accepted?
    ensures w.source == ActiveConfirmed ==> Generation(c, w.key) == w.startGeneration
    ensures Generation(WriteTo(o, c, w).0, w.key) == WriteTo(o, c, w).1.generation
  {
    hide Wf, WriteAdmitted, SyncPin, CanAdmitWriteConfirm, DesiredPin;
    var k := w.key;
    var d := c.catalog[k];
    var c1 := EnsureKeyState(c, k);
    EnsureKeyStateKeeps(o, c, k);
    SyncPinKeeps(o, c1, k);
    SyncKeepsKeys(o, c1, k);
    At(o, SyncPin(o, c1, k), k);
    AdmittedGeneration(o, SyncPin(o, c1, k), w, d, DesiredPin(Some(d), ActiveSources(c, k)));
  }

  lemma LookupFinds(o: Options, c: Cache, k: Key, maxAge: int, now: int)
    requires Wf(o, c)
    ensures var found := Lookup(o, c, k, maxAge, now).1;
            found.Some? ==>
              && k in c.entries && found.value.0.value == c.entries[k].value && found.value.0.state == c.entries[k].state
              && found.value.0.generation == Generation(c, k)
  {
    hide Wf, CurrentPin, LookupEligible, Without;
    At(o, c, k);
  }

  lemma SnapshotShowsGeneration(o: Options, c: Cache, k: Key)
    requires Wf(o, c)
    ensures SnapshotOf(c, k).generation == Generation(c, k)
  {
    hide Wf;
    At(o, c, k);
  }

  // ---- cache operations ----

  lemma OperateProgress(o: Options, y: Sys, op: Op)
    requires Wf(o, y.cache) && ValidOptions(o)
    ensures Progress(y, Operate(o, y, op)) && Wf(o, Operate(o, y, op).cache)
  {
    hide Wf, Apply, WriteTo;
    StepKeeps(o, y.cache, op);
    if op.DoInvalidate? {
      StepInvalidates(o, y.cache, op.key, op.at);
    }
  }

  lemma LatestAppended(h: seq<Happening>, x: Happening, k: Key)
    ensures LatestAcceptance(h + [x], k) == if x.Acceptance? && x.key == k then |h| else LatestAcceptance(h, k)
  {
    assert (h + [x])[..|h|] == h;
  }

  lemma PresentAppended(h: seq<Happening>, x: Happening, k: Key, value: seq<Byte>)
    requires ComesFrom(h, k, value, LatestAcceptance(h, k)) && Untouched(h, k, LatestAcceptance(h, k))
    requires x != Invalidation(k) && !(x.Acceptance? && x.key == k)
    ensures ComesFrom(h + [x], k, value, LatestAcceptance(h + [x], k))
    ensures Untouched(h + [x], k, LatestAcceptance(h + [x], k))
  {
    LatestAppended(h, x, k);
  }

  /** What an operation leaves present was present before, or was just accepted. */
  lemma PresentBefore(o: Options, c: Cache, op: Op, k: Key)
    requires k in Apply(o, c, op).entries && Apply(o, c, op).entries[k].state == Present
    ensures var v := Apply(o, c, op).entries[k].value;
            || (op.DoWrite? && Recorded(o, c, op) == [Acceptance(k, v)])
            || (&& k in c.entries && c.entries[k].state == Present && c.entries[k].value == v
                && !(op.DoInvalidate? && op.key == k) && !(op.DoWrite? && op.w.key == k && WriteTo(o, c, op.w).1.Accepted?))
  {
    hide WriteTo, Invalidate, Lookup, SyncPins, Upgrade, AdvanceCursor, CompactKeys, Admissible;
    if op.DoWrite? {
      WriteViews(o, c, op.w, k);
    } else if op.DoInvalidate? {
      InvalidateViews(o, c, op.key, op.at, k);
    } else {
      OtherViews(o, c, op, k);
    }
  }

  lemma OperatePresent(o: Options, y: Sys, op: Op, k: Key)
    requires PresentOk(y, k)
    ensures PresentOk(Operate(o, y, op), k)
  {
    hide Apply, WriteTo, LatestAcceptance;
    var z := Operate(o, y, op);
    var h := y.history;
    if k in z.cache.entries && z.cache.entries[k].state == Present {
      var v := z.cache.entries[k].value;
      PresentBefore(o, y.cache, op, k);
      var more := Recorded(o, y.cache, op);
      if more == [Acceptance(k, v)] {
        LatestAppended(h, Acceptance(k, v), k);
      } else if |more| == 1 {
        PresentAppended(h, more[0], k, v);
      } else {
        assert z.history == h;
      }
    }
  }

  // ---- putting a state together ----

  /** Apart from one call and one entry, only cache and history moved on. */
  ghost predicate Elsewhere(y: Sys, z: Sys, t: nat, k: Key) {
    && (forall j :: j != k && j in z.entries ==> j in y.entries && z.entries[j] == y.entries[j])
    && (forall u :: u != t && u in z.threads ==> u in y.threads && z.threads[u] == y.threads[u])
  }

  lemma SafeAgain(o: Options, y: Sys, z: Sys, t: nat, k: Key)
    requires Safe(o, y) && Progress(y, z) && Wf(o, z.cache) && Elsewhere(y, z, t, k)
    requires (forall j :: PresentOk(z, j)) && EntryOk(z, k) && ThreadOk(z, t)
    ensures Safe(o, z)
  {
    hide Wf, PresentOk, Progress, CopyOk, PcOk;
    forall j ensures EntryOk(z, j) {
      if j != k && j in z.entries && z.entries[j].copy.Some? {
        assert EntryOk(y, j);
        CopyKept(y, z, j, z.entries[j].copy.value);
      }
    }
    forall u ensures ThreadOk(z, u) {
      if u != t && u in z.threads {
        assert ThreadOk(y, u);
        PcKept(y, z, z.threads[u].request, z.threads[u].pc);
      }
    }
  }

  lemma EntryKept(y: Sys, z: Sys, k: Key)
    requires EntryOk(y, k) && Progress(y, z) && y.entries == z.entries
    ensures EntryOk(z, k)
  {
    hide Progress, CopyOk;
    if k in z.entries && z.entries[k].copy.Some? {
      CopyKept(y, z, k, z.entries[k].copy.value);
    }
  }

  // ---- steps ----

  lemma EnvironmentSafe(o: Options, y: Sys, op: Op)
    requires Safe(o, y) && ValidOptions(o)
    ensures Safe(o, Operate(o, y, op))
  {
    hide Wf, Progress, PcOk, CopyOk, PresentOk;
    var z := Operate(o, y, op);
    OperateProgress(o, y, op);
    forall k ensures PresentOk(z, k) {
      OperatePresent(o, y, op, k);
    }
    assert EntryOk(y, "") && ThreadOk(y, 0);
    EntryKept(y, z, "");
    if 0 in z.threads {
      PcKept(y, z, z.threads[0].request, z.threads[0].pc);
    }
    SafeAgain(o, y, z, 0, "");
  }

  /** A step that only moves one call. */
  lemma GotoSafe(o: Options, y: Sys, t: nat, th: Thread)
    requires Safe(o, y) && PcOk(y, th.request, th.pc)
    ensures Safe(o, y.(threads := y.threads[t := th]))
  {
    hide Wf, PcOk, CopyOk, Generation, ComesFrom, Untouched, LatestAcceptance;
    var z := y.(threads := y.threads[t := th]);
    forall k ensures PresentOk(z, k) {
      assert PresentOk(y, k);
    }
    PcKept(y, z, th.request, th.pc);
    assert EntryOk(y, "");
    EntryKept(y, z, "");
    SafeAgain(o, y, z, t, "");
  }

  lemma ConsultSafe(o: Options, y: Sys, t: nat, now: int)
    requires Safe(o, y) && ValidOptions(o) && t in y.threads
    ensures Safe(o, ConsultShadow(o, y, t, now))
  {
    hide Wf, Lookup, Apply, Generation;
    var th := y.threads[t];
    var q := th.request;
    if !q.watch || q.maxAge <= 0 || th.passes == 0 {
      GotoSafe(o, y, t, th.(pc := Consulted(None)));
    } else {
      var op := DoLookup(q.key, q.maxAge, now);
      var y1 := Operate(o, y, op);
      EnvironmentSafe(o, y, op);
      OperateProgress(o, y, op);
      LookupFinds(o, y.cache, q.key, q.maxAge, now);
      assert PresentOk(y, q.key);
      assert y1.history == y.history;
      var found := Lookup(o, y.cache, q.key, q.maxAge, now).1;
      var z := ConsultShadow(o, y, t, now);
      if z.threads[t].pc.candidate.Some? {
        var cand := z.threads[t].pc.candidate.value;
        assert Witness(y, q.key, cand.generation, cand.origin);
        WitnessKept(y, y1, q.key, cand.generation, cand.origin);
      }
      GotoSafe(o, y1, t, z.threads[t]);
    }
  }

  /** An entry and a call move; the cache and the past stay. */
  lemma LockedSafe(o: Options, y: Sys, t: nat, th: Thread, k: Key, e: ReadEntry)
    requires Safe(o, y) && PcOk(y, th.request, th.pc) && (e.copy.Some? ==> CopyOk(y, k, e.copy.value))
    ensures Safe(o, y.(threads := y.threads[t := th], entries := y.entries[k := e]))
  {
    hide Wf, PcOk, CopyOk, Generation, ComesFrom, Untouched, LatestAcceptance;
    var z := y.(threads := y.threads[t := th], entries := y.entries[k := e]);
    forall j ensures PresentOk(z, j) {
      assert PresentOk(y, j);
    }
    PcKept(y, z, th.request, th.pc);
    if e.copy.Some? {
      CopyKept(y, z, k, e.copy.value);
    }
    SafeAgain(o, y, z, t, k);
  }

  lemma GrantKeepsCopy(s: Settings, e: ReadEntry, now: int)
    ensures Grant(s, e, now).0.copy == e.copy && (Grant(s, e, now).1.Suppress? || Grant(s, e, now).1.StartFetch?)
  {
  }

  lemma DecideSafe(o: Options, s: Settings, y: Sys, t: nat, now: int)
    requires Safe(o, y) && t in y.threads && y.threads[t].pc.Consulted?
    ensures Safe(o, DecideFor(s, y, t, now))
  {
    hide Wf, Grant, SnapshotFresh, SnapshotOf, Generation, ComesFrom, Untouched;
    var th := y.threads[t];
    var q := th.request;
    var k := q.key;
    var e := EntryOf(y, k);
    var (e1, d) := Decide(s, e, q, th.pc.candidate, th.passes, y.cache, now);
    assert ThreadOk(y, t) && EntryOk(y, k);
    SnapshotShowsGeneration(o, y.cache, k);
    GrantKeepsCopy(s, e, now);
    GrantKeepsCopy(s, e.(copy := None), now);
    assert y.history[..|y.history|] == y.history;
    LockedSafe(o, y, t, th.(pc := AfterDecision(y, t, d)), k, e1);
  }

  lemma CaptureSafe(o: Options, y: Sys, t: nat)
    requires Safe(o, y) && t in y.threads
    ensures Safe(o, Goto(y, t, Captured(if y.threads[t].request.watch then SnapshotOf(y.cache, y.threads[t].request.key).generation else 0)))
  {
    hide Wf, Generation, SnapshotOf;
    var q := y.threads[t].request;
    SnapshotShowsGeneration(o, y.cache, q.key);
    GotoSafe(o, y, t, y.threads[t].(pc := Captured(if q.watch then SnapshotOf(y.cache, q.key).generation else 0)));
  }

  lemma FetchSafe(o: Options, y: Sys, t: nat, fetch: Fetch)
    requires Safe(o, y) && t in y.threads && y.threads[t].pc.Captured?
    ensures Safe(o, FetchFor(y, t, fetch))
  {
    hide Wf, Generation, CopyOk, LatestAcceptance;
    var z := FetchFor(y, t, fetch);
    var q := y.threads[t].request;
    var x := Fetching(q.key, fetch);
    assert ThreadOk(y, t);
    forall k ensures PresentOk(z, k) {
      assert PresentOk(y, k);
      if k in y.cache.entries && y.cache.entries[k].state == Present {
        PresentAppended(y.history, x, k, y.cache.entries[k].value);
      }
    }
    assert EntryOk(y, "");
    EntryKept(y, z, "");
    SafeAgain(o, y, z, t, "");
  }

  lemma StoreSafe(o: Options, y: Sys, t: nat, now: int)
    requires Safe(o, y) && ValidOptions(o) && t in y.threads && y.threads[t].pc.Fetched?
    ensures Safe(o, StoreFor(o, y, t, now))
  {
    hide Wf, Generation, WriteTo, ComesFrom, Untouched;
    var th := y.threads[t];
    var q, pc := th.request, th.pc;
    assert ThreadOk(y, t);
    if pc.fetch.Failed? || !q.watch {
      GotoSafe(o, y, t, th.(pc := Stored(pc.start, pc.origin, pc.fetch, None)));
    } else {
      var w := Write(q.key, ActiveConfirmed, true, pc.fetch.value, now, pc.start);
      var r := WriteTo(o, y.cache, w).1;
      var y1 := Operate(o, y, DoWrite(w));
      EnvironmentSafe(o, y, DoWrite(w));
      OperateProgress(o, y, DoWrite(w));
      ComesFromKept(y, y1, q.key, pc.fetch.value, pc.origin);
      if r.Accepted? {
        AcceptedGeneration(o, y.cache, w);
        AcceptedUntouched(y, w, pc.origin, r, y1);
      } else {
        WitnessKept(y, y1, q.key, pc.start, pc.origin);
      }
      GotoSafe(o, y1, t, th.(pc := Stored(pc.start, pc.origin, pc.fetch, Some(r))));
    }
  }

  lemma AcceptedUntouched(y: Sys, w: Write, origin: nat, r: WriteResult, z: Sys)
    requires Witness(y, w.key, w.startGeneration, origin) && Generation(y.cache, w.key) == w.startGeneration
    requires r.Accepted? && Generation(z.cache, w.key) == r.generation
    requires z.history == y.history + [Acceptance(w.key, w.value)]
    ensures Witness(z, w.key, r.generation, origin)
  {
  }

  lemma SettleSafe(o: Options, s: Settings, y: Sys, t: nat, now: int)
    requires Safe(o, y) && t in y.threads && y.threads[t].pc.Stored?
    ensures Safe(o, SettleFor(s, y, t, now))
  {
    hide Wf, SnapshotOf, Generation, Untouched, ExpectedGeneration;
    var th := y.threads[t];
    var q, pc := th.request, th.pc;
    var k := q.key;
    assert ThreadOk(y, t) && EntryOk(y, k);
    SnapshotShowsGeneration(o, y.cache, k);
    assert y.history[..|y.history|] == y.history;
    var ending := EndingOf(q, pc.start, pc.fetch, pc.write, y.cache);
    LockedSafe(o, y, t, AfterEnding(th, ending, |y.history|), k,
               Settle(s, EntryOf(y, k), q, pc.start, pc.fetch, pc.write, y.cache, now, pc.origin));
  }

  lemma TakeSafe(o: Options, s: Settings, y: Sys, step: Step)
    requires Safe(o, y) && ValidOptions(o)
    ensures Safe(o, Take(o, s, y, step))
  {
    hide Safe, Operate, ConsultShadow, DecideFor, FetchFor, StoreFor, SettleFor, SnapshotOf;
    if step.Environment? {
      EnvironmentSafe(o, y, step.op);
    } else if step.Begin? {
      GotoSafe(o, y, step.t, Thread(step.request, MAX_PASSES, MAX_RECOMPUTES, 0, Ready));
    } else if step.t in y.threads {
      var t := step.t;
      var th := y.threads[t];
      match step
      case Consult(_, now) => ConsultSafe(o, y, t, now);
      case Discard(_, _) => GotoSafe(o, y, t, th.(pc := Consulted(None)));
      case DecideStep(_, now) => if th.pc.Consulted? { DecideSafe(o, s, y, t, now); }
      case Wake(_) => GotoSafe(o, y, t, th.(pc := Ready));
      case Cancel(_) => GotoSafe(o, y, t, th.(pc := Finished(Cancelled)));
      case Capture(_) => CaptureSafe(o, y, t);
      case FetchStep(_, fetch) => if th.pc.Captured? { FetchSafe(o, y, t, fetch); }
      case StoreStep(_, now) => if th.pc.Fetched? { StoreSafe(o, y, t, now); }
      case SettleStep(_, now) => if th.pc.Stored? { SettleSafe(o, s, y, t, now); }
    }
  }

  lemma {:induction false} RunSafe(o: Options, s: Settings, y: Sys, steps: seq<Step>)
    requires Safe(o, y) && ValidOptions(o)
    ensures Safe(o, Run(o, s, y, steps))
  {
    hide Safe, Take;
    if steps != [] {
      var n := |steps| - 1;
      RunSafe(o, s, y, steps[..n]);
      TakeSafe(o, s, Run(o, s, y, steps[..n]), steps[n]);
    }
  }

  lemma StartSafe(o: Options, catalog: map<Key, Descriptor>, activations: map<Key, set<Activation>>, degraded: bool)
    ensures Safe(o, Start(catalog, activations, degraded))
  {
  }

  /**
   * In every run from the start, whatever the interleaving: a value returned after a generation
   * check was accepted by the shadow, or its fetch began, after every invalidation of its key
   * that came before the check.
   */
  lemma NoReadSurvivesInvalidation(o: Options, s: Settings, catalog: map<Key, Descriptor>,
                                   activations: map<Key, set<Activation>>, degraded: bool, steps: seq<Step>, t: nat)
    requires ValidOptions(o)
    ensures var y := Run(o, s, Start(catalog, activations, degraded), steps);
            t in y.threads && y.threads[t].pc.Finished? && y.threads[t].pc.outcome.Value? ==>
              var k := y.threads[t].request.key;
              var r := y.threads[t].pc.outcome;
              && ComesFrom(y.history, k, r.value, r.origin)
              && (r.checkedAt.Some? ==> r.checkedAt.value <= |y.history| &&
                                        Untouched(y.history[..r.checkedAt.value], k, r.origin))
  {
    hide ComesFrom, Untouched, Take;
    var y0 := Start(catalog, activations, degraded);
    StartSafe(o, catalog, activations, degraded);
    RunSafe(o, s, y0, steps);
    var y := Run(o, s, y0, steps);
    assert ThreadOk(y, t);
  }
}
