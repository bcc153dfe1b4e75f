/**
 * What callers of the shadow cache are told: the reason of a rejection and the generations of a
 * result are exactly those the key's stamps, policy and budgets call for, the write generation of a
 * key counts what happened to it, and an upgrade takes the catalog's descriptor.
 */
module ShadowResults {
  import opened Protocol
  import opened Runs
  import opened ShadowCache
  import opened ShadowInvariants
  import opened ShadowViews
  import opened ShadowAdmission
  import opened ShadowBudget
  import opened ShadowOrder
  import opened ReadSafety
  import opened Compaction

  // ---- why a write is rejected ----

  /** A stamp of the key is later than the write, or as late and not overruled by it. */
  predicate Late(v: View, w: Write, generation: nat) {
    var qualified := w.source == ActiveConfirmed && w.startGeneration == generation;
    if v.invalidatedAt.Some? && w.at <= v.invalidatedAt.value then
      w.at < v.invalidatedAt.value || !qualified
    else
      match v.core
      case None => v.highWater.Some? && (w.at < v.highWater.value || (w.at == v.highWater.value && !qualified))
      case Some(core) => core.observedAt.Some? && w.at < core.observedAt.value
  }

  /** The reasons in the order in which they are looked at. */
  function ReasonFor(o: Options, c: Cache, w: Write): Option<Rejection> {
    var k := w.key;
    if !Considered(c, w) then Some(PolicyReject)
    else if DesiredPin(Some(c.catalog[k]), ActiveSources(c, k)) == WriteConfirmPin && !CanAdmitWriteConfirm(o, c, k) then
      Some(CapacityReject)
    else if !GenerationHolds(c, w) then Some(GenerationAdvanced)
    else if Late(ViewOf(c, k), w, Generation(c, k)) then Some(StaleTimestamp)
    else if !Admits(ViewOf(c, k), w, Generation(c, k)) then Some(SameTimestampConflict)
    else if c.catalog[k].ttl.None? || c.catalog[k].ttl.value <= 0 then Some(PolicyReject)
    else if k !in c.entries && !HasRoom(o, c) then Some(CapacityReject)
    else None
  }

  /** Stale and conflicting writes are told apart by their time: at the same time it is a conflict of sources or values. */
  lemma PrecedenceReason(c: Cache, w: Write)
    requires w.key in c.keys
    ensures var v, g := ViewOf(c, w.key), Generation(c, w.key);
            RejectByPrecedence(c.keys[w.key], EntryAt(c, w.key), w) ==
            if Late(v, w, g) then Some(StaleTimestamp) else if !Admits(v, w, g) then Some(SameTimestampConflict) else None
  {
  }

  lemma AdmittedReason(o: Options, c: Cache, w: Write, d: Descriptor, pin: Pin)
    requires Wf(o, c) && ValidOptions(o) && w.key in c.keys
    requires w.key !in c.entries && pin == WriteConfirmPin ==> CanAdmitWriteConfirm(o, c, w.key)
    ensures var r := WriteAdmitted(o, c, w, d, pin).1;
            var v, g := ViewOf(c, w.key), Generation(c, w.key);
            && r.Rejected? == (|| !GenerationHolds(c, w) || Late(v, w, g) || !Admits(v, w, g) || d.ttl.None? || d.ttl.value <= 0
                               || (w.key !in c.entries && !HasRoom(o, c)))
            && (r.Rejected? ==>
                  r.reason == (if !GenerationHolds(c, w) then GenerationAdvanced
                               else if Late(v, w, g) then StaleTimestamp
                               else if !Admits(v, w, g) then SameTimestampConflict
                               else if d.ttl.None? || d.ttl.value <= 0 then PolicyReject else CapacityReject)
                  && r.generation == (if r.reason in {GenerationAdvanced, StaleTimestamp, SameTimestampConflict} then g else 0))
  {
    hide RejectByPrecedence, EnsureCapacity, Accept, AdvanceGeneration, Insert, Admits, Late, ViewOf, Wf, CanAdmitWriteConfirm;
    PrecedenceReason(c, w);
    if w.key !in c.entries {
      CapacityExactly(o, c, w.key, pin);
    }
  }

  /** The view, the generation and the residency a write is judged by, before and after its synchronisation. */
  lemma JudgedAlike(o: Options, c: Cache, k: Key)
    requires Wf(o, c)
    ensures var c2 := SyncPin(o, EnsureKeyState(c, k), k);
            && Wf(o, c2) && k in c2.keys && c2.entries.Keys == c.entries.Keys
            && ViewOf(c2, k) == ViewOf(c, k) && Generation(c2, k) == Generation(c, k)
            && (k !in c.entries ==> c2 == EnsureKeyState(c, k))
  {
    hide Wf, SyncPin;
    var c1 := EnsureKeyState(c, k);
    EnsureKeyStateKeeps(o, c, k);
    SyncPinKeeps(o, c1, k);
    SyncKeepsKeys(o, c1, k);
    SyncKeepsResidents(o, c1, k);
    SyncViews(o, c1, k, k);
    SyncMissing(o, c1, k);
  }

  /** Every write is told exactly why it is rejected, and at which generation its key is when time or generation decided. */
  lemma ToldExactly(o: Options, c: Cache, w: Write)
    requires Wf(o, c) && ValidOptions(o)
    ensures var r := WriteTo(o, c, w).1;
            && (r.Rejected? <==> ReasonFor(o, c, w).Some?)
            && (r.Rejected? ==>
                  && ReasonFor(o, c, w) == Some(r.reason)
                  && r.generation == (if r.reason in {GenerationAdvanced, StaleTimestamp, SameTimestampConflict}
                                      then Generation(c, w.key) else 0))
  {
    hide WriteAdmitted, SyncPin, CanAdmitWriteConfirm, Admits, Late, Wf, ViewOf, HasRoom;
    var k := w.key;
    if Considered(c, w) {
      var d := c.catalog[k];
      var pin := DesiredPin(Some(d), ActiveSources(c, k));
      var c1 := EnsureKeyState(c, k);
      SameAdmission(o, c, c1, k);
      JudgedAlike(o, c, k);
      RoomAlike(o, c, k);
      if pin != WriteConfirmPin || CanAdmitWriteConfirm(o, c1, k) {
        AdmittedReason(o, SyncPin(o, c1, k), w, d, pin);
      }
    }
  }

  lemma RoomAlike(o: Options, c: Cache, k: Key)
    ensures k !in c.entries ==> (HasRoom(o, EnsureKeyState(c, k)) <==> HasRoom(o, c))
  {
  }

  // ---- the write generation ----

  function WriteGeneration(c: Cache, k: Key): nat {
    if k in c.keys then c.keys[k].lastWriteGeneration else 0
  }

  /** The entry shows the write generation of its key. */
  predicate ShowsWrites(c: Cache, k: Key) {
    k in c.entries ==> k in c.keys && c.entries[k].lastWriteGeneration == c.keys[k].lastWriteGeneration
  }

  lemma AcceptCounts(c: Cache, w: Write, d: Descriptor, ttl: int, pin: Pin, k: Key)
    requires w.key in c.entries && w.key in c.keys
    ensures var r := Accept(c, w, d, ttl, pin);
            && WriteGeneration(r, k) == WriteGeneration(c, k) + One(k == w.key)
            && (k == w.key || ShowsWrites(c, k) ==> ShowsWrites(r, k))
  {
    hide Without, Later;
  }

  lemma CapacityCounts(o: Options, c: Cache, pin: Pin, k: Key)
    ensures var r := EnsureCapacity(o, c, pin).0;
            WriteGeneration(r, k) == WriteGeneration(c, k) && (ShowsWrites(c, k) ==> ShowsWrites(r, k))
  {
    hide Without, Next, WriteConfirmCount;
  }

  lemma SyncCounts(o: Options, c: Cache, j: Key, k: Key)
    ensures var r := SyncPin(o, c, j);
            WriteGeneration(r, k) == WriteGeneration(c, k) && (ShowsWrites(c, k) ==> ShowsWrites(r, k))
  {
    hide Without, CurrentPin;
  }

  lemma {:induction false} SyncsCount(o: Options, c: Cache, order: seq<Key>, k: Key)
    ensures var r := SyncPins(o, c, order);
            WriteGeneration(r, k) == WriteGeneration(c, k) && (ShowsWrites(c, k) ==> ShowsWrites(r, k))
  {
    hide SyncPin, WriteGeneration, ShowsWrites;
    if order != [] {
      var n := |order| - 1;
      SyncsCount(o, c, order[..n], k);
      SyncCounts(o, SyncPins(o, c, order[..n]), order[n], k);
    }
  }

  lemma WriteAdmittedCounts(o: Options, c: Cache, w: Write, d: Descriptor, pin: Pin, k: Key)
    requires w.key in c.keys
    ensures var r := WriteAdmitted(o, c, w, d, pin);
            && WriteGeneration(r.0, k) == WriteGeneration(c, k) + One(r.1.Accepted? && k == w.key)
            && (ShowsWrites(c, k) ==> ShowsWrites(r.0, k))
            && (r.1.Accepted? ==> r.1.lastWriteGeneration == WriteGeneration(r.0, w.key))
  {
    hide RejectByPrecedence, EnsureCapacity, Accept, ShowsWrites;
    if d.ttl.Some? {
      if w.key in c.entries {
        AcceptCounts(c, w, d, d.ttl.value, pin, k);
        AcceptCounts(c, w, d, d.ttl.value, pin, w.key);
      } else {
        CapacityCounts(o, c, pin, k);
        CapacityCounts(o, c, pin, w.key);
        var c1 := EnsureCapacity(o, c, pin).0;
        var c2 := AdvanceGeneration(Insert(c1, w.key, Some(d)), w.key);
        OthersShow(c1, w.key, Some(d), k);
        AcceptCounts(c2, w, d, d.ttl.value, pin, k);
        AcceptCounts(c2, w, d, d.ttl.value, pin, w.key);
      }
    }
  }

  lemma OthersShow(c: Cache, j: Key, d: Option<Descriptor>, k: Key)
    requires j in c.keys
    ensures k != j && ShowsWrites(c, k) ==> ShowsWrites(AdvanceGeneration(Insert(c, j, d), j), k) && ShowsWrites(Insert(c, j, d), k)
  {
  }

  lemma WriteCounts(o: Options, c: Cache, w: Write, k: Key)
    ensures var r := WriteTo(o, c, w);
            && WriteGeneration(r.0, k) == WriteGeneration(c, k) + One(r.1.Accepted? && k == w.key)
            && (ShowsWrites(c, k) ==> ShowsWrites(r.0, k))
            && (r.1.Accepted? ==> r.1.lastWriteGeneration == WriteGeneration(r.0, w.key))
  {
    hide WriteAdmitted, SyncPin, CanAdmitWriteConfirm, DesiredPin;
    var j := w.key;
    if j in c.catalog {
      var c1 := EnsureKeyState(c, j);
      SyncKeepsKeys(o, c1, j);
      SyncCounts(o, c1, j, k);
      WriteAdmittedCounts(o, SyncPin(o, c1, j), w, c.catalog[j], DesiredPin(Some(c.catalog[j]), ActiveSources(c, j)), k);
    }
  }

  lemma InvalidateEntryCounts(c: Cache, j: Key, d: Option<Descriptor>, pin: Pin, k: Key)
    requires j in c.entries && j in c.keys
    ensures var r := InvalidateEntry(c, j, d, pin);
            && WriteGeneration(r, k) == WriteGeneration(c, k) + One(k == j)
            && (k == j || ShowsWrites(c, k) ==> ShowsWrites(r, k))
  {
    hide Without;
  }

  lemma AbsentCounts(c: Cache, j: Key, k: Key)
    requires j in c.keys
    ensures var r := InvalidateAbsent(c, j);
            && WriteGeneration(r, k) == WriteGeneration(c, k) + One(k == j)
            && (ShowsWrites(c, k) && (k == j ==> k !in c.entries) ==> ShowsWrites(r, k))
  {
  }

  lemma MissingCounts(o: Options, c: Cache, j: Key, d: Option<Descriptor>, pin: Pin, k: Key)
    requires j in c.keys && j !in c.entries
    ensures var r := InvalidateMissing(o, c, j, d, pin);
            && WriteGeneration(r, k) == WriteGeneration(c, k) + One(k == j)
            && (ShowsWrites(c, k) ==> ShowsWrites(r, k))
  {
    hide EnsureCapacity, InvalidateEntry, InvalidateAbsent, AdmittedPin, CanAdmitWriteConfirm, ShowsWrites;
    AbsentCounts(c, j, k);
    CapacityCounts(o, c, pin, k);
    CapacityKeepsMissing(o, c, pin, j);
    var c1 := EnsureCapacity(o, c, pin).0;
    AbsentCounts(c1, j, k);
    OthersShow(c1, j, d, k);
    var c2 := Insert(c1, j, d);
    InvalidateEntryCounts(c2, j, d, AdmittedPin(o, c2, j, pin), k);
  }

  lemma InvalidateCounts(o: Options, c: Cache, j: Key, at: int, k: Key)
    ensures var r := Invalidate(o, c, j, at);
            && WriteGeneration(r, k) == WriteGeneration(c, k) + One(k == j)
            && (ShowsWrites(c, k) ==> ShowsWrites(r, k))
  {
    hide InvalidateEntry, InvalidateMissing, AdmittedPin, DesiredPin, Later;
    var d := if j in c.catalog then Some(c.catalog[j]) else None;
    var pin := DesiredPin(d, ActiveSources(c, j));
    var c1 := MarkInvalid(c, j, at);
    if j in c1.entries {
      InvalidateEntryCounts(c1, j, d, AdmittedPin(o, c1, j, pin), k);
    } else {
      MissingCounts(o, c1, j, d, pin, k);
    }
  }

  /** A visit counts when it buries. */
  lemma SyncedCounts(o: Options, c: Cache, j: Key, now: int, k: Key)
    requires j in c.entries && j in c.keys
    ensures var r := CompactSynced(o, c, j, now);
            && WriteGeneration(r, k) == WriteGeneration(c, k) + One(k == j && Overdue(Fate(c, k), Invalidated, o.retainWindow, now))
            && (ShowsWrites(c, k) ==> ShowsWrites(r, k))
  {
    hide Without, Next;
  }

  lemma CompactKeyCounts(o: Options, c: Cache, j: Key, now: int, k: Key)
    ensures var r := CompactKey(o, c, j, now);
            && WriteGeneration(r, k) == WriteGeneration(c, k) + One(k == j && Overdue(Fate(c, k), Invalidated, o.retainWindow, now))
            && (ShowsWrites(c, k) ==> ShowsWrites(r, k))
  {
    hide SyncPin, CompactSynced, Overdue;
    if j in c.entries {
      SyncKeepsResidents(o, c, j);
      SyncCounts(o, c, j, k);
      SyncFate(o, c, j, k);
      SyncedCounts(o, EnsureKeyState(SyncPin(o, c, j), j), j, now, k);
    } else {
      AbsentIsNotOverdue(o, c, j, now);
    }
  }

  lemma AbsentIsNotOverdue(o: Options, c: Cache, k: Key, now: int)
    requires k !in c.entries
    ensures !Overdue(Fate(c, k), Invalidated, o.retainWindow, now)
  {
  }

  /** Of a whole batch, however often a key is in it, the key is buried at most once. */
  lemma {:induction false} BatchCounts(o: Options, c: Cache, batch: seq<Key>, now: int, k: Key)
    ensures var r := CompactKeys(o, c, batch, now);
            var buried := k in batch && Overdue(Fate(c, k), Invalidated, o.retainWindow, now);
            && WriteGeneration(r, k) == WriteGeneration(c, k) + One(buried)
            && (ShowsWrites(c, k) ==> ShowsWrites(r, k))
            && (Overdue(Fate(r, k), Invalidated, o.retainWindow, now) <==> Overdue(Fate(c, k), Invalidated, o.retainWindow, now) && !buried)
  {
    hide CompactKey, Fate, ShowsWrites, WriteGeneration;
    if batch != [] {
      var n := |batch| - 1;
      BatchCounts(o, c, batch[..n], now, k);
      assert k in batch <==> k in batch[..n] || k == batch[n];
      var d := CompactKeys(o, c, batch[..n], now);
      CompactKeyCounts(o, d, batch[n], now, k);
      CompactKeyFate(o, d, batch[n], now, k);
    }
  }

  /** The operation buries `k`: compaction visits it when its value has been invalid for the retain window. */
  predicate Buries(o: Options, c: Cache, op: Op, k: Key) {
    op.DoCompact? && k in op.batch && k in c.entries && c.entries[k].state == Invalidated
    && c.entries[k].invalidatedAt.Some? && op.now - c.entries[k].invalidatedAt.value >= o.retainWindow
  }

  /** The operation writes, invalidates or buries `k`. */
  predicate Counts(o: Options, c: Cache, op: Op, k: Key) {
    || (op.DoWrite? && op.w.key == k && WriteTo(o, c, op.w).1.Accepted?)
    || (op.DoInvalidate? && op.key == k)
    || Buries(o, c, op, k)
  }

  function CountOf(o: Options, c: Cache, ops: seq<Op>, k: Key): nat {
    if ops == [] then 0
    else
      var n := |ops| - 1;
      CountOf(o, c, ops[..n], k) + One(Counts(o, After(o, c, ops[..n]), ops[n], k))
  }

  lemma StepCounts(o: Options, c: Cache, op: Op, k: Key)
    ensures var r := Apply(o, c, op);
            && WriteGeneration(r, k) == WriteGeneration(c, k) + One(Counts(o, c, op, k))
            && (ShowsWrites(c, k) ==> ShowsWrites(r, k))
  {
    hide WriteTo, Invalidate, SyncPins, SyncPin, CompactKeys, LookupEligible;
    match op
    case DoWrite(w) => WriteCounts(o, c, w, k);
    case DoInvalidate(j, at) => InvalidateCounts(o, c, j, at, k);
    case DoLookup(j, maxAge, now) =>
      SyncCounts(o, c, j, k);
      SyncKeepsResidents(o, c, j);
    case DoSync(order) => SyncsCount(o, c, order, k);
    case DoReconfigure(catalog, activations, degraded, upgraded, order) =>
      SyncsCount(o, Upgrade(c.(catalog := catalog, activations := activations, degraded := degraded), upgraded), order, k);
    case DoNextBatch =>
    case DoCompact(batch, now) => BatchCounts(o, c, batch, now, k);
  }

  /**
   * Over every run, across eviction and re-creation: the write generation of a key is the number of its
   * accepted writes, invalidations and burials, and its entry shows that number.
   */
  lemma {:induction false} WritesCounted(o: Options, c: Cache, ops: seq<Op>, k: Key)
    requires c.entries == map[] && c.keys == map[]
    ensures WriteGeneration(After(o, c, ops), k) == CountOf(o, c, ops, k) && ShowsWrites(After(o, c, ops), k)
  {
    hide Apply, Counts;
    if ops != [] {
      var n := |ops| - 1;
      WritesCounted(o, c, ops[..n], k);
      StepCounts(o, After(o, c, ops[..n]), ops[n], k);
    }
  }

  /** An accepted write is told the generation and the write generation its key has afterwards. */
  lemma AcceptedIsTold(o: Options, c: Cache, w: Write)
    requires Wf(o, c) && WriteTo(o, c, w).1.Accepted?
    ensures var r := WriteTo(o, c, w);
            && r.1 == Accepted(Generation(r.0, w.key), WriteGeneration(r.0, w.key))
            && WriteGeneration(r.0, w.key) == WriteGeneration(c, w.key) + 1
  {
    hide Wf, WriteTo;
    AcceptedGeneration(o, c, w);
    WriteCounts(o, c, w, w.key);
  }

  // ---- upgrades ----

  /** A reconfiguration gives the upgraded key's entry the new catalog's descriptor and leaves all other contents alone. */
  lemma UpgradeTakesCatalog(o: Options, c: Cache, op: Op, k: Key)
    requires op.DoReconfigure?
    ensures var d := Apply(o, c, op);
            if op.upgraded == Some(k) && k in c.entries && k in op.catalog then
              k in d.entries && ViewOf(d, k) == ViewOf(c, k).(core := Some(ViewOf(c, k).core.value.(descriptor := Some(op.catalog[k]))))
            else
              ViewOf(d, k) == ViewOf(c, k)
  {
    hide SyncPins;
    var c1 := Upgrade(c.(catalog := op.catalog, activations := op.activations, degraded := op.degraded), op.upgraded);
    SyncsView(o, c1, op.order, k);
    SyncsKeepResidents(o, c1, op.order);
  }
}
