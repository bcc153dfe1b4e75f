/** Exactly what the shadow cache lets in, and whom it keeps. */
module ShadowAdmission {
  import opened Protocol
  import opened ShadowCache
  import opened ShadowInvariants
  import opened ShadowViews

  /** Later than everything known of the key, or as late and with the better claim. */
  predicate Admits(v: View, w: Write, generation: nat) {
    var qualified := w.source == ActiveConfirmed && w.startGeneration == generation;
    if v.invalidatedAt == Some(w.at) then
      qualified
    else
      && (v.invalidatedAt.Some? ==> v.invalidatedAt.value < w.at)
      && match v.core
         case None => Precedes(v.highWater, w.at) || (v.highWater == Some(w.at) && qualified)
         case Some(core) => Precedes(core.observedAt, w.at) || (core.observedAt == Some(w.at) && Outranks(core, w))
  }

  predicate Precedes(a: Option<int>, at: int) {
    a.None? || a.value < at
  }

  /** At the same time: a confirmed value replaces a passive one, an equal value is not replaced by a weaker source. */
  predicate Outranks(core: Core, w: Write) {
    if core.value == [] || core.value == w.value then !(w.source == Passive && core.source == Some(ActiveConfirmed))
    else w.source == ActiveConfirmed && core.source != Some(ActiveConfirmed)
  }

  lemma PrecedenceExactly(c: Cache, w: Write)
    requires w.key in c.keys
    ensures RejectByPrecedence(c.keys[w.key], EntryAt(c, w.key), w).None? <==>
            Admits(ViewOf(c, w.key), w, Generation(c, w.key))
  {
  }

  // ---- room ----

  /** Evicting an unpinned entry frees no place among those pinned to confirm writes. */
  lemma EvictionKeepsCount(c: Cache, k: Key)
    requires k in c.entries && c.entries[k].pin == NoPin
    ensures WriteConfirmCount(RemoveEntry(c, k)) == WriteConfirmCount(c)
  {
    var d := RemoveEntry(c, k);
    assert Confirming(d.entries, d.entries.Keys) == Confirming(c.entries, c.entries.Keys);
  }

  predicate HasRoom(o: Options, c: Cache) {
    |c.entries| < o.capacity || c.lru != []
  }

  /** Whether a key without an entry may get one with this pin. */
  predicate MayEnter(o: Options, c: Cache, k: Key, pin: Pin) {
    (pin == WriteConfirmPin ==> CanAdmitWriteConfirm(o, c, k)) && HasRoom(o, c)
  }

  lemma CapacityExactly(o: Options, c: Cache, k: Key, pin: Pin)
    requires Wf(o, c) && ValidOptions(o) && k !in c.entries && (pin == WriteConfirmPin ==> CanAdmitWriteConfirm(o, c, k))
    ensures EnsureCapacity(o, c, pin).1 <==> HasRoom(o, c)
  {
    hide WriteConfirmCount, RemoveEntry, Wf;
    if |c.entries| >= o.capacity && c.lru != [] {
      FirstIsUnpinned(o, c);
      EvictionKeepsCount(c, c.lru[0]);
    }
  }

  lemma FirstIsUnpinned(o: Options, c: Cache)
    requires Wf(o, c) && c.lru != []
    ensures c.lru[0] in c.entries && c.entries[c.lru[0]].pin == NoPin
  {
    assert c.lru[0] in c.lru;
    assert PinOk(c, c.lru[0]);
  }

  // ---- writes ----

  /** Catalogued, not for debugging, trusted, activated, and shadowing on. */
  predicate PolicyAllows(c: Cache, w: Write) {
    && w.key in c.catalog && !c.catalog[w.key].debug && w.confident && !c.degraded && ActiveSources(c, w.key) != {}
    && c.catalog[w.key].ttl.Some? && c.catalog[w.key].ttl.value > 0
  }

  predicate GenerationHolds(c: Cache, w: Write) {
    w.source == ActiveConfirmed ==> w.startGeneration == Generation(c, w.key)
  }

  lemma AdmittedExactly(o: Options, c: Cache, w: Write, d: Descriptor, pin: Pin)
    requires Wf(o, c) && ValidOptions(o) && w.key in c.keys
    requires w.key !in c.entries && pin == WriteConfirmPin ==> CanAdmitWriteConfirm(o, c, w.key)
    ensures WriteAdmitted(o, c, w, d, pin).1.Accepted? <==>
            && GenerationHolds(c, w) && Admits(ViewOf(c, w.key), w, Generation(c, w.key))
            && d.ttl.Some? && d.ttl.value > 0 && (w.key in c.entries || HasRoom(o, c))
  {
    hide RejectByPrecedence, EnsureCapacity, Accept, AdvanceGeneration, Insert, Admits, ViewOf, Wf, CanAdmitWriteConfirm;
    PrecedenceExactly(c, w);
    if w.key !in c.entries {
      CapacityExactly(o, c, w.key, pin);
    }
  }

  /**
   * A write is accepted if and only if the policy allows it, its generation holds, its time and
   * source have the better claim, and its key has an entry or may get one.
   */
  lemma AcceptedExactly(o: Options, c: Cache, w: Write)
    requires Wf(o, c) && ValidOptions(o)
    ensures WriteTo(o, c, w).1.Accepted? <==>
            && PolicyAllows(c, w) && GenerationHolds(c, w) && Admits(ViewOf(c, w.key), w, Generation(c, w.key))
            && (DesiredPin(Some(c.catalog[w.key]), ActiveSources(c, w.key)) == WriteConfirmPin ==> CanAdmitWriteConfirm(o, c, w.key))
            && (w.key in c.entries || HasRoom(o, c))
  {
    hide WriteAdmitted, SyncPin, CanAdmitWriteConfirm, DesiredPin, Admits, Wf;
    var k := w.key;
    if k in c.catalog {
      var d := c.catalog[k];
      var pin := DesiredPin(Some(d), ActiveSources(c, k));
      var c1 := EnsureKeyState(c, k);
      var c2 := SyncPin(o, c1, k);
      EnsureKeyStateKeeps(o, c, k);
      SyncPinKeeps(o, c1, k);
      SyncKeepsKeys(o, c1, k);
      SyncKeepsResidents(o, c1, k);
      SyncViews(o, c1, k, k);
      SyncMissing(o, c1, k);
      SameAdmission(o, c, c1, k);
      if k in c.entries || pin != WriteConfirmPin || CanAdmitWriteConfirm(o, c1, k) {
        AdmittedExactly(o, c2, w, d, pin);
      }
    }
  }

  lemma SameAdmission(o: Options, c: Cache, d: Cache, k: Key)
    requires c.entries == d.entries
    ensures CanAdmitWriteConfirm(o, c, k) <==> CanAdmitWriteConfirm(o, d, k)
  {
  }

  // ---- invalidations ----

  lemma MissingExactly(o: Options, c: Cache, k: Key, d: Option<Descriptor>, pin: Pin)
    requires Wf(o, c) && ValidOptions(o) && k in c.keys && k !in c.entries
    ensures k in InvalidateMissing(o, c, k, d, pin).entries <==> MayEnter(o, c, k, pin)
  {
    hide EnsureCapacity, CanAdmitWriteConfirm, AdmittedPin, ApplyPin, Wf;
    if pin == WriteConfirmPin ==> CanAdmitWriteConfirm(o, c, k) {
      CapacityExactly(o, c, k, pin);
      CapacityKeepsMissing(o, c, pin, k);
      if EnsureCapacity(o, c, pin).1 {
        var c2 := Insert(EnsureCapacity(o, c, pin).0, k, d);
        EntryStays(c2, k, d, AdmittedPin(o, c2, k, pin));
      }
    }
  }

  lemma EntryStays(c: Cache, k: Key, d: Option<Descriptor>, pin: Pin)
    requires k in c.entries && k in c.keys
    ensures k in InvalidateEntry(c, k, d, pin).entries
  {
    hide Without;
  }

  /** An invalidated key has an entry afterwards if and only if it had one or may get one. */
  lemma InvalidationEntersExactly(o: Options, c: Cache, k: Key, at: int)
    requires Wf(o, c) && ValidOptions(o)
    ensures var d := if k in c.catalog then Some(c.catalog[k]) else None;
            k in Invalidate(o, c, k, at).entries <==>
            k in c.entries || MayEnter(o, c, k, DesiredPin(d, ActiveSources(c, k)))
  {
    hide InvalidateEntry, InvalidateMissing, CanAdmitWriteConfirm, DesiredPin, AdmittedPin, Later, Wf;
    var d := if k in c.catalog then Some(c.catalog[k]) else None;
    var pin := DesiredPin(d, ActiveSources(c, k));
    var c1 := MarkInvalid(c, k, at);
    MarkInvalidKeeps(o, c, k, at);
    SameAdmission(o, c, c1, k);
    if k in c.entries {
      EntryStays(c1, k, d, AdmittedPin(o, c1, k, pin));
    } else {
      MissingExactly(o, c1, k, d, pin);
    }
  }

  // ---- whom the pins keep ----

  /** A statically pinned entry of a polled key, with nothing that would unpin it. */
  predicate Guarded(c: Cache, k: Key) {
    && k in c.entries && c.entries[k].pin == StaticPin && ForUse(c.entries[k].descriptor)
    && Poller in ActiveSources(c, k) && !c.degraded && (k in c.catalog ==> !c.catalog[k].debug)
  }

  predicate ForUse(d: Option<Descriptor>) {
    d.Some? ==> !d.value.debug
  }

  /** A pinned entry of another key is left as it is. */
  predicate Spared(c: Cache, d: Cache, j: Key) {
    && SamePolicy(c, d)
    && (j in c.entries && c.entries[j].pin != NoPin ==> j in d.entries && d.entries[j] == c.entries[j])
  }

  lemma CapacitySpares(o: Options, c: Cache, pin: Pin, j: Key)
    requires Wf(o, c)
    ensures Spared(c, EnsureCapacity(o, c, pin).0, j)
  {
    hide Wf, Without, Next, WriteConfirmCount;
    if c.lru != [] {
      FirstIsUnpinned(o, c);
    }
  }

  lemma SyncSpares(o: Options, c: Cache, k: Key, j: Key)
    ensures SamePolicy(c, SyncPin(o, c, k))
    ensures j != k ==> Spared(c, SyncPin(o, c, k), j)
    ensures Guarded(c, j) ==> Guarded(SyncPin(o, c, k), j)
  {
    hide Without, CanAdmitWriteConfirm;
  }

  lemma AcceptSpares(c: Cache, w: Write, d: Descriptor, ttl: int, pin: Pin, j: Key)
    requires w.key in c.entries && w.key in c.keys
    ensures var r := Accept(c, w, d, ttl, pin);
            SamePolicy(c, r) && w.key in r.entries && r.entries[w.key].pin == pin && r.entries[w.key].descriptor == Some(d)
            && (j != w.key ==> Spared(c, r, j))
  {
    hide Without, StoreSnapshot, Later;
  }

  lemma InvalidateEntrySpares(c: Cache, k: Key, d: Option<Descriptor>, pin: Pin, j: Key)
    requires k in c.entries && k in c.keys
    ensures var r := InvalidateEntry(c, k, d, pin);
            SamePolicy(c, r) && k in r.entries && r.entries[k].pin == pin && r.entries[k].descriptor == d
            && (j != k ==> Spared(c, r, j))
  {
    hide Without, StoreSnapshot;
  }

  lemma WriteAdmittedGuards(o: Options, c: Cache, w: Write, d: Descriptor, pin: Pin, j: Key)
    requires Wf(o, c) && w.key in c.keys && Guarded(c, j)
    requires j == w.key ==> pin == StaticPin && !d.debug
    ensures Guarded(WriteAdmitted(o, c, w, d, pin).0, j)
  {
    hide Wf, RejectByPrecedence, EnsureCapacity, Accept;
    var k := w.key;
    if k in c.entries {
      if d.ttl.Some? {
        AcceptSpares(c, w, d, d.ttl.value, pin, j);
      }
    } else {
      CapacitySpares(o, c, pin, j);
      if d.ttl.Some? {
        var c1 := AdvanceGeneration(Insert(EnsureCapacity(o, c, pin).0, k, Some(d)), k);
        AcceptSpares(c1, w, d, d.ttl.value, pin, j);
      }
    }
  }

  lemma WriteGuards(o: Options, c: Cache, w: Write, j: Key)
    requires Wf(o, c) && Guarded(c, j)
    ensures Guarded(WriteTo(o, c, w).0, j)
  {
    hide Wf, WriteAdmitted, CanAdmitWriteConfirm, SyncPin;
    var k := w.key;
    if k in c.catalog {
      var d := c.catalog[k];
      var c1 := EnsureKeyState(c, k);
      EnsureKeyStateKeeps(o, c, k);
      SyncPinKeeps(o, c1, k);
      SyncKeepsKeys(o, c1, k);
      SyncSpares(o, c1, k, j);
      WriteAdmittedGuards(o, SyncPin(o, c1, k), w, d, DesiredPin(Some(d), ActiveSources(c, k)), j);
    }
  }

  lemma InvalidateMissingGuards(o: Options, c: Cache, k: Key, d: Option<Descriptor>, pin: Pin, j: Key)
    requires Wf(o, c) && k in c.keys && k !in c.entries && Guarded(c, j)
    ensures Guarded(InvalidateMissing(o, c, k, d, pin), j)
  {
    hide Wf, EnsureCapacity, InvalidateEntry, AdmittedPin, CanAdmitWriteConfirm;
    CapacitySpares(o, c, pin, j);
    var c2 := Insert(EnsureCapacity(o, c, pin).0, k, d);
    InvalidateEntrySpares(c2, k, d, AdmittedPin(o, c2, k, pin), j);
  }

  lemma InvalidateGuards(o: Options, c: Cache, k: Key, at: int, j: Key)
    requires Wf(o, c) && Guarded(c, j)
    ensures Guarded(Invalidate(o, c, k, at), j)
  {
    hide Wf, InvalidateEntry, InvalidateMissing, CanAdmitWriteConfirm, Later;
    var d := if k in c.catalog then Some(c.catalog[k]) else None;
    var pin := DesiredPin(d, ActiveSources(c, k));
    var c1 := MarkInvalid(c, k, at);
    MarkInvalidKeeps(o, c, k, at);
    if k in c1.entries {
      InvalidateEntrySpares(c1, k, d, AdmittedPin(o, c1, k, pin), j);
    } else {
      InvalidateMissingGuards(o, c1, k, d, pin, j);
    }
  }

  lemma {:induction false} SyncsGuard(o: Options, c: Cache, order: seq<Key>, j: Key)
    requires Guarded(c, j)
    ensures Guarded(SyncPins(o, c, order), j)
  {
    hide SyncPin, Guarded;
    if order != [] {
      var n := |order| - 1;
      SyncsGuard(o, c, order[..n], j);
      SyncSpares(o, SyncPins(o, c, order[..n]), order[n], j);
    }
  }

  lemma StepGuards(o: Options, c: Cache, op: Op, j: Key)
    requires Wf(o, c) && Guarded(c, j) && !op.DoCompact? && !op.DoReconfigure?
    ensures Guarded(Apply(o, c, op), j)
  {
    hide Wf, WriteTo, Invalidate, SyncPins, SyncPin, LookupEligible;
    match op
    case DoWrite(w) => WriteGuards(o, c, w, j);
    case DoInvalidate(k, at) => InvalidateGuards(o, c, k, at, j);
    case DoLookup(k, maxAge, now) =>
      SyncSpares(o, c, k, j);
      SyncKeepsResidents(o, c, k);
    case DoSync(order) => SyncsGuard(o, c, order, j);
    case DoNextBatch =>
  }

  lemma {:induction false} RunGuards(o: Options, c: Cache, ops: seq<Op>, j: Key)
    requires Wf(o, c) && ValidOptions(o) && Guarded(c, j)
    requires forall i :: 0 <= i < |ops| ==> !ops[i].DoCompact? && !ops[i].DoReconfigure?
    ensures Guarded(After(o, c, ops), j)
  {
    hide Wf, Apply, Guarded;
    if ops != [] {
      var n := |ops| - 1;
      RunGuards(o, c, ops[..n], j);
      RunKeeps(o, c, ops[..n]);
      StepGuards(o, After(o, c, ops[..n]), ops[n], j);
    }
  }

  /** A key with an active poller whose descriptors are not for debugging, while the pinned budget holds. */
  predicate Polled(c: Cache, k: Key) {
    && k in c.entries && c.entries[k].descriptor.Some? && !c.entries[k].descriptor.value.debug
    && Poller in ActiveSources(c, k) && !c.degraded && (k in c.catalog ==> !c.catalog[k].debug)
  }

  lemma SyncPolled(o: Options, c: Cache, k: Key, j: Key)
    requires Polled(c, j)
    ensures Polled(SyncPin(o, c, k), j) && (j == k ==> Guarded(SyncPin(o, c, k), j))
  {
    hide Without, CanAdmitWriteConfirm;
  }

  lemma {:induction false} SyncsPolled(o: Options, c: Cache, order: seq<Key>, j: Key)
    requires Polled(c, j)
    ensures Polled(SyncPins(o, c, order), j) && (j in order ==> Guarded(SyncPins(o, c, order), j))
  {
    hide SyncPin, Polled, Guarded;
    if order != [] {
      var n := |order| - 1;
      SyncsPolled(o, c, order[..n], j);
      SyncPolled(o, SyncPins(o, c, order[..n]), order[n], j);
      SyncSpares(o, SyncPins(o, c, order[..n]), order[n], j);
      assert j in order ==> j == order[n] || j in order[..n];
    }
  }

  /**
   * Once the pins are synchronised, the entry of a polled key outlasts every run of writes,
   * invalidations, lookups and synchronisations: only compaction, or a change of the catalog, the
   * activations or the pinned budget, could cost it its place.
   */
  lemma PolledEntriesStay(o: Options, c: Cache, order: seq<Key>, ops: seq<Op>, k: Key)
    requires Wf(o, c) && ValidOptions(o) && Polled(c, k) && k in order
    requires forall i :: 0 <= i < |ops| ==> !ops[i].DoCompact? && !ops[i].DoReconfigure?
    ensures var d := After(o, SyncPins(o, c, order), ops); k in d.entries && d.entries[k].pin == StaticPin
  {
    hide Wf, SyncPins;
    SyncsPolled(o, c, order, k);
    SyncPinsKeeps(o, c, order);
    RunGuards(o, SyncPins(o, c, order), ops, k);
  }
}
