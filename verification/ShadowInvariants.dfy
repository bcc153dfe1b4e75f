/**
 * What every operation of the shadow cache keeps: the shape of its two lists, the agreement of
 * the lock-free snapshots with the entries, and generations that never go back.
 */
module ShadowInvariants {
  import opened Protocol
  import opened Runs
  import opened ShadowCache

  ghost predicate Distinct<T>(s: seq<T>) {
    forall i, j :: 0 <= i < j < |s| ==> s[i] != s[j]
  }

  /** The eviction list holds the evictable keys, the compactor list all of them, once each. */
  ghost predicate Lists(c: Cache) {
    && Distinct(c.lru)
    && (forall k :: k in c.lru <==> k in c.entries && c.entries[k].evictable)
    && Distinct(c.compactor)
    && (forall k :: k in c.compactor <==> k in c.entries)
    && (c.cursor.Some? ==> c.cursor.value in c.compactor)
  }

  /** Exactly the unpinned entries can be evicted. */
  predicate PinOk(c: Cache, k: Key) {
    k in c.entries ==> (c.entries[k].evictable <==> c.entries[k].pin == NoPin)
  }

  /** What a reader without the lock should see of a key. */
  function Projection(c: Cache, k: Key): Snapshot {
    if k in c.entries then
      var e := c.entries[k];
      Resident(e.generation, e.state, e.observedAt, e.expiresAt)
    else
      Absent(Generation(c, k))
  }

  function Generation(c: Cache, k: Key): nat {
    if k in c.keys then c.keys[k].generation else 0
  }

  predicate IndexOk(c: Cache, k: Key) {
    && SnapshotOf(c, k) == Projection(c, k)
    && (k in c.entries ==> k in c.keys && c.entries[k].generation == c.keys[k].generation >= 1)
  }

  ghost predicate Wf(o: Options, c: Cache) {
    Lists(c) && (forall k :: PinOk(c, k) && IndexOk(c, k)) && |c.entries| <= o.capacity
  }

  /** The invariant, with one entry in the middle of an update. */
  ghost predicate WfExcept(o: Options, c: Cache, key: Key) {
    Lists(c) && (forall k :: k != key ==> PinOk(c, k) && IndexOk(c, k)) && |c.entries| <= o.capacity
  }

  ghost predicate Grows(c: Cache, d: Cache) {
    forall k :: Generation(c, k) <= Generation(d, k)
  }

  // ---- lists and maps ----

  lemma {:induction false} WithoutIs<T>(s: seq<T>, k: T)
    ensures forall x :: x in Without(s, k) <==> x in s && x != k
    ensures Distinct(s) ==> Distinct(Without(s, k))
  {
    if s != [] {
      WithoutIs(s[1..], k);
      if Distinct(s) {
        assert Distinct(s[1..]);
        assert s[0] !in Without(s[1..], k);
      }
    }
  }

  lemma {:induction false} NextIs<T>(s: seq<T>, k: T)
    requires Distinct(s)
    ensures Next(s, k).Some? ==> Next(s, k).value in s && Next(s, k).value != k
  {
    if |s| >= 2 && s[0] != k {
      NextIs(s[1..], k);
    }
  }

  lemma RemovedSize(m: map<Key, Entry>, k: Key)
    requires k in m
    ensures |m - {k}| == |m| - 1
  {
    assert (m - {k}).Keys == m.Keys - {k};
  }

  lemma AddedSize(m: map<Key, Entry>, k: Key, e: Entry)
    ensures |m[k := e]| == if k in m then |m| else |m| + 1
  {
    assert m[k := e].Keys == m.Keys + {k};
  }

  // ---- primitives ----

  /** Taking a key off a list, or to its end. */
  lemma Requeued<T>(s: seq<T>, k: T, back: bool)
    requires Distinct(s)
    ensures var t := Without(s, k) + (if back then [k] else []);
            Distinct(t) && forall x :: x in t <==> (x in s && x != k) || (back && x == k)
  {
    WithoutIs(s, k);
    assert k !in Without(s, k);
  }

  lemma {:induction false} WithoutAbsent<T>(s: seq<T>, k: T)
    requires k !in s
    ensures Without(s, k) == s
  {
    if s != [] {
      WithoutAbsent(s[1..], k);
    }
  }

  lemma ApplyPinLists(c: Cache, k: Key, pin: Pin)
    requires Lists(c) && k in c.entries
    ensures Lists(ApplyPin(c, k, pin))
  {
    hide Distinct, Without;
    Requeued(c.lru, k, pin == NoPin);
    if !c.entries[k].evictable {
      WithoutAbsent(c.lru, k);
    }
  }

  lemma ApplyPinKeeps(o: Options, c: Cache, k: Key, pin: Pin)
    requires WfExcept(o, c, k) && k in c.entries && IndexOk(c, k)
    ensures Wf(o, ApplyPin(c, k, pin)) && Grows(c, ApplyPin(c, k, pin))
  {
    hide Lists;
    var d := ApplyPin(c, k, pin);
    ApplyPinLists(c, k, pin);
    AddedSize(c.entries, k, d.entries[k]);
    forall j ensures PinOk(d, j) && IndexOk(d, j) {
      assert j != k ==> PinOk(c, j) && IndexOk(c, j);
    }
  }

  lemma RemoveKeeps(o: Options, c: Cache, k: Key)
    requires WfExcept(o, c, k) && k in c.entries && k in c.keys
    ensures Wf(o, RemoveEntry(c, k)) && Grows(c, RemoveEntry(c, k))
    ensures |RemoveEntry(c, k).entries| == |c.entries| - 1
  {
    var d := RemoveEntry(c, k);
    WithoutIs(c.lru, k);
    WithoutIs(c.compactor, k);
    NextIs(c.compactor, k);
    RemovedSize(c.entries, k);
    forall j ensures PinOk(d, j) && IndexOk(d, j) {
      assert j != k ==> PinOk(c, j) && IndexOk(c, j);
    }
  }

  lemma EnsureKeyStateKeeps(o: Options, c: Cache, k: Key)
    requires Wf(o, c)
    ensures Wf(o, EnsureKeyState(c, k)) && Grows(c, EnsureKeyState(c, k))
  {
    var d := EnsureKeyState(c, k);
    forall j ensures PinOk(d, j) && IndexOk(d, j) {
      assert PinOk(c, j) && IndexOk(c, j);
    }
  }

  lemma SyncPinKeeps(o: Options, c: Cache, k: Key)
    requires Wf(o, c)
    ensures Wf(o, SyncPin(o, c, k)) && Grows(c, SyncPin(o, c, k))
  {
    hide ApplyPin, CurrentPin;
    if k in c.entries && c.entries[k].descriptor.Some? {
      assert IndexOk(c, k);
      ApplyPinKeeps(o, c, k, CurrentPin(o, c, k));
    }
  }

  lemma {:induction false} SyncPinsKeeps(o: Options, c: Cache, order: seq<Key>)
    requires Wf(o, c)
    ensures Wf(o, SyncPins(o, c, order)) && Grows(c, SyncPins(o, c, order))
  {
    hide SyncPin, Wf;
    if order != [] {
      var n := |order| - 1;
      SyncPinsKeeps(o, c, order[..n]);
      SyncPinKeeps(o, SyncPins(o, c, order[..n]), order[n]);
    }
  }

  /** A resident's generation and snapshot may be rewritten together. */
  lemma UpdateKeeps(o: Options, c: Cache, k: Key, e: Entry, st: KeyState)
    requires WfExcept(o, c, k) && k in c.entries && k in c.keys
    requires e.evictable == c.entries[k].evictable && e.generation == st.generation >= 1
    requires c.keys[k].generation <= st.generation
    ensures var d := c.(entries := c.entries[k := e], keys := c.keys[k := StoreSnapshot(e, st)]);
            WfExcept(o, d, k) && IndexOk(d, k) && Grows(c, d)
  {
    var d := c.(entries := c.entries[k := e], keys := c.keys[k := StoreSnapshot(e, st)]);
    AddedSize(c.entries, k, e);
    forall j | j != k ensures PinOk(d, j) && IndexOk(d, j) {
      assert PinOk(c, j) && IndexOk(c, j);
    }
  }

  lemma AdvanceKeeps(o: Options, c: Cache, k: Key)
    requires WfExcept(o, c, k) && k in c.entries && k in c.keys
    ensures WfExcept(o, AdvanceGeneration(c, k), k) && Grows(c, AdvanceGeneration(c, k))
  {
    var d := AdvanceGeneration(c, k);
    AddedSize(c.entries, k, d.entries[k]);
    forall j | j != k ensures PinOk(d, j) && IndexOk(d, j) {
      assert PinOk(c, j) && IndexOk(c, j);
    }
  }

  lemma InsertKeeps(o: Options, c: Cache, k: Key, d: Option<Descriptor>)
    requires Wf(o, c) && k !in c.entries && |c.entries| < o.capacity
    ensures WfExcept(o, Insert(c, k, d), k) && Grows(c, Insert(c, k, d))
  {
    var r := Insert(c, k, d);
    AddedSize(c.entries, k, r.entries[k]);
    forall j | j != k ensures PinOk(r, j) && IndexOk(r, j) {
      assert PinOk(c, j) && IndexOk(c, j);
    }
  }

  /** The invariant at one key. */
  lemma At(o: Options, c: Cache, k: Key)
    requires Wf(o, c)
    ensures WfExcept(o, c, k) && PinOk(c, k) && IndexOk(c, k)
  {
  }

  // ---- capacity ----

  /** What an insertion may cost the other residents: nothing, or the least recently used unpinned one. */
  ghost predicate EvictsAtMostOne(o: Options, c: Cache, d: Cache) {
    || c.entries.Keys <= d.entries.Keys
    || (&& c.lru != [] && c.lru[0] in c.entries && c.entries[c.lru[0]].pin == NoPin
        && |c.entries| == o.capacity && c.entries.Keys - d.entries.Keys == {c.lru[0]})
  }

  /**
   * Making room evicts at most one entry, an unpinned one and the one least recently used, and
   * there is room afterwards exactly when there was room or something to evict.
   */
  lemma CapacityKeeps(o: Options, c: Cache, pin: Pin)
    requires Wf(o, c) && o.capacity > 0
    ensures var d := EnsureCapacity(o, c, pin).0;
            && Wf(o, d) && Grows(c, d)
            && (|d.entries| < o.capacity <==> |c.entries| < o.capacity || c.lru != [])
            && EvictsAtMostOne(o, c, d) && d.entries.Keys <= c.entries.Keys
    ensures EnsureCapacity(o, c, pin).1 ==> |EnsureCapacity(o, c, pin).0.entries| < o.capacity
    ensures pin != WriteConfirmPin && |EnsureCapacity(o, c, pin).0.entries| < o.capacity ==> EnsureCapacity(o, c, pin).1
  {
    if |c.entries| >= o.capacity && c.lru != [] {
      var k := c.lru[0];
      assert k in c.lru;
      assert PinOk(c, k) && IndexOk(c, k);
      RemoveKeeps(o, c, k);
    }
  }

  // ---- operations ----

  lemma AcceptKeeps(o: Options, c: Cache, w: Write, d: Descriptor, ttl: int, pin: Pin)
    requires WfExcept(o, c, w.key) && w.key in c.entries && w.key in c.keys
    requires c.entries[w.key].generation == c.keys[w.key].generation >= 1
    ensures Wf(o, Accept(c, w, d, ttl, pin)) && Grows(c, Accept(c, w, d, ttl, pin))
    ensures Accept(c, w, d, ttl, pin).entries.Keys == c.entries.Keys
  {
    hide WfExcept, Wf, IndexOk, ApplyPin;
    var k := w.key;
    var st := c.keys[k];
    var e := c.entries[k].(descriptor := Some(d), source := Some(w.source), state := Present, value := w.value,
                           observedAt := Some(w.at), expiresAt := Some(w.at + ttl), invalidatedAt := None, pin := pin,
                           lastWriteGeneration := st.lastWriteGeneration + 1);
    var st1 := st.(highWater := Later(st.highWater, w.at), invalidatedAt := None,
                   lastWriteGeneration := st.lastWriteGeneration + 1);
    UpdateKeeps(o, c, k, e, st1);
    var c1 := c.(entries := c.entries[k := e], keys := c.keys[k := StoreSnapshot(e, st1)]);
    ApplyPinKeeps(o, c1, k, pin);
    PinKeepsResidents(c1, k, pin);
  }

  lemma PinKeepsResidents(c: Cache, k: Key, pin: Pin)
    requires k in c.entries
    ensures ApplyPin(c, k, pin).entries.Keys == c.entries.Keys
    ensures ApplyPin(c, k, pin).keys == c.keys
  {
  }

  lemma InvalidateEntryKeeps(o: Options, c: Cache, k: Key, d: Option<Descriptor>, pin: Pin)
    requires WfExcept(o, c, k) && k in c.entries && k in c.keys
    ensures Wf(o, InvalidateEntry(c, k, d, pin)) && Grows(c, InvalidateEntry(c, k, d, pin))
    ensures InvalidateEntry(c, k, d, pin).entries.Keys == c.entries.Keys
    ensures Generation(InvalidateEntry(c, k, d, pin), k) == Generation(c, k) + 1
  {
    hide WfExcept, Wf, IndexOk, ApplyPin;
    var c1 := AdvanceGeneration(c, k);
    AdvanceKeeps(o, c, k);
    var st := c1.keys[k];
    var e := c1.entries[k].(descriptor := d, state := if c1.entries[k].value != [] then Invalidated else Tombstone,
                            invalidatedAt := st.invalidatedAt, pin := pin,
                            lastWriteGeneration := st.lastWriteGeneration + 1);
    var st1 := st.(lastWriteGeneration := st.lastWriteGeneration + 1);
    UpdateKeeps(o, c1, k, e, st1);
    var c2 := c1.(entries := c1.entries[k := e], keys := c1.keys[k := StoreSnapshot(e, st1)]);
    ApplyPinKeeps(o, c2, k, pin);
    PinKeepsResidents(c2, k, pin);
  }

  lemma NewEntryKeeps(o: Options, c: Cache, w: Write, d: Descriptor, ttl: int, pin: Pin)
    requires Wf(o, c) && o.capacity > 0 && w.key in c.keys && w.key !in c.entries
    requires EnsureCapacity(o, c, pin).1
    ensures var c1 := AdvanceGeneration(Insert(EnsureCapacity(o, c, pin).0, w.key, Some(d)), w.key);
            var r := Accept(c1, w, d, ttl, pin);
            Wf(o, r) && Grows(c, r) && EvictsAtMostOne(o, c, r)
  {
    hide Wf, WfExcept, EnsureCapacity, RemoveEntry, Accept;
    var k := w.key;
    CapacityKeeps(o, c, pin);
    var c1 := EnsureCapacity(o, c, pin).0;
    InsertKeeps(o, c1, k, Some(d));
    var c2 := Insert(c1, k, Some(d));
    AdvanceKeeps(o, c2, k);
    AcceptKeeps(o, AdvanceGeneration(c2, k), w, d, ttl, pin);
  }

  lemma WriteAdmittedKeeps(o: Options, c: Cache, w: Write, d: Descriptor, pin: Pin)
    requires Wf(o, c) && o.capacity > 0 && w.key in c.keys
    ensures var r := WriteAdmitted(o, c, w, d, pin).0;
            && Wf(o, r) && Grows(c, r) && EvictsAtMostOne(o, c, r)
            && (w.key in c.entries ==> r.entries.Keys == c.entries.Keys)
  {
    hide Wf, WfExcept, RejectByPrecedence, Accept, Insert, EnsureCapacity, AdvanceGeneration, RemoveEntry;
    At(o, c, w.key);
    if w.key in c.entries {
      if d.ttl.Some? {
        AcceptKeeps(o, c, w, d, d.ttl.value, pin);
      }
    } else {
      CapacityKeeps(o, c, pin);
      if EnsureCapacity(o, c, pin).1 && d.ttl.Some? {
        NewEntryKeeps(o, c, w, d, d.ttl.value, pin);
      }
    }
  }

  lemma WriteKeeps(o: Options, c: Cache, w: Write)
    requires Wf(o, c) && o.capacity > 0
    ensures var r := WriteTo(o, c, w).0;
            Wf(o, r) && Grows(c, r) && EvictsAtMostOne(o, c, r)
  {
    hide Wf, WriteAdmitted, CanAdmitWriteConfirm, CurrentPin, DesiredPin, ApplyPin;
    var k := w.key;
    var c1 := EnsureKeyState(c, k);
    EnsureKeyStateKeeps(o, c, k);
    SyncPinKeeps(o, c1, k);
    var c2 := SyncPin(o, c1, k);
    if k in c.entries {
      PinKeepsResidents(c1, k, CurrentPin(o, c1, k));
    }
    if k in c.catalog {
      var d := c.catalog[k];
      var pin := DesiredPin(Some(d), ActiveSources(c, k));
      WriteAdmittedKeeps(o, c2, w, d, pin);
    }
  }

  lemma MarkInvalidKeeps(o: Options, c: Cache, k: Key, at: int)
    requires Wf(o, c)
    ensures Wf(o, MarkInvalid(c, k, at)) && Grows(c, MarkInvalid(c, k, at))
  {
    hide Lists, Later;
    EnsureKeyStateKeeps(o, c, k);
    var c0 := EnsureKeyState(c, k);
    var d := MarkInvalid(c, k, at);
    assert Lists(d) by {
      MarkInvalidLists(c, k, at);
    }
    forall j ensures PinOk(d, j) && IndexOk(d, j) {
      assert PinOk(c0, j) && IndexOk(c0, j);
    }
  }

  lemma MarkInvalidLists(c: Cache, k: Key, at: int)
    requires Lists(c)
    ensures Lists(MarkInvalid(c, k, at)) && MarkInvalid(c, k, at).entries == c.entries
  {
  }

  lemma InvalidateAbsentKeeps(o: Options, c: Cache, k: Key)
    requires Wf(o, c) && k in c.keys && k !in c.entries
    ensures Wf(o, InvalidateAbsent(c, k)) && Grows(c, InvalidateAbsent(c, k))
  {
    var d := InvalidateAbsent(c, k);
    forall j ensures PinOk(d, j) && IndexOk(d, j) {
      assert PinOk(c, j) && IndexOk(c, j);
    }
  }

  lemma InvalidateMissingKeeps(o: Options, c: Cache, k: Key, d: Option<Descriptor>, pin: Pin)
    requires Wf(o, c) && o.capacity > 0 && k in c.keys && k !in c.entries
    ensures var r := InvalidateMissing(o, c, k, d, pin);
            && Wf(o, r) && Grows(c, r) && EvictsAtMostOne(o, c, r)
            && Generation(r, k) > Generation(c, k)
  {
    hide Wf, WfExcept, InvalidateEntry, EnsureCapacity, AdmittedPin, CanAdmitWriteConfirm;
    if pin == WriteConfirmPin && !CanAdmitWriteConfirm(o, c, k) {
      InvalidateAbsentKeeps(o, c, k);
    } else {
      CapacityKeeps(o, c, pin);
      var c1 := EnsureCapacity(o, c, pin).0;
      if EnsureCapacity(o, c, pin).1 {
        InsertKeeps(o, c1, k, d);
        var c2 := Insert(c1, k, d);
        InvalidateEntryKeeps(o, c2, k, d, AdmittedPin(o, c2, k, pin));
      } else {
        InvalidateAbsentKeeps(o, c1, k);
      }
    }
  }

  /** An invalidation keeps the invariant and always advances its key's generation. */
  lemma InvalidateKeeps(o: Options, c: Cache, k: Key, at: int)
    requires Wf(o, c) && o.capacity > 0
    ensures var r := Invalidate(o, c, k, at);
            && Wf(o, r) && Grows(c, r) && EvictsAtMostOne(o, c, r)
            && Generation(r, k) > Generation(c, k)
  {
    hide Wf, WfExcept, InvalidateEntry, InvalidateMissing, AdmittedPin, DesiredPin, Later;
    var c1 := MarkInvalid(c, k, at);
    MarkInvalidKeeps(o, c, k, at);
    var d := if k in c.catalog then Some(c.catalog[k]) else None;
    var pin := DesiredPin(d, ActiveSources(c, k));
    At(o, c1, k);
    if k in c1.entries {
      InvalidateEntryKeeps(o, c1, k, d, AdmittedPin(o, c1, k, pin));
    } else {
      InvalidateMissingKeeps(o, c1, k, d, pin);
    }
  }

  lemma TouchKeeps(o: Options, c: Cache, k: Key)
    requires Wf(o, c) && k in c.entries && c.entries[k].pin == NoPin
    ensures Wf(o, Touch(c, k)) && Grows(c, Touch(c, k))
  {
    hide Distinct, Without;
    At(o, c, k);
    Requeued(c.lru, k, true);
    var d := Touch(c, k);
    assert Lists(d);
    forall j ensures PinOk(d, j) && IndexOk(d, j) {
      assert PinOk(c, j) && IndexOk(c, j);
    }
  }

  lemma LookupKeeps(o: Options, c: Cache, k: Key, maxAge: int, now: int)
    requires Wf(o, c)
    ensures Wf(o, Lookup(o, c, k, maxAge, now).0) && Grows(c, Lookup(o, c, k, maxAge, now).0)
  {
    hide Wf, SyncPin, Touch, LookupEligible;
    SyncPinKeeps(o, c, k);
    SyncKeepsResidents(o, c, k);
    var c1 := SyncPin(o, c, k);
    if k in c1.entries && c1.entries[k].pin == NoPin {
      TouchKeeps(o, c1, k);
    }
  }

  lemma {:induction false} FromIsSuffix<T>(s: seq<T>, cursor: Option<T>)
    ensures |From(s, cursor)| <= |s| && From(s, cursor) == s[|s| - |From(s, cursor)|..]
  {
    if !(cursor.None? || s == [] || s[0] == cursor.value) {
      FromIsSuffix(s[1..], cursor);
    }
  }

  lemma AdvanceCursorKeeps(o: Options, c: Cache)
    requires Wf(o, c)
    ensures Wf(o, AdvanceCursor(o, c)) && Grows(c, AdvanceCursor(o, c))
  {
    hide Distinct;
    FromIsSuffix(c.compactor, c.cursor);
    var d := AdvanceCursor(o, c);
    forall j ensures PinOk(d, j) && IndexOk(d, j) {
      assert PinOk(c, j) && IndexOk(c, j);
    }
  }

  lemma ReconfigureKeeps(o: Options, c: Cache, catalog: map<Key, Descriptor>, activations: map<Key, set<Activation>>,
                         degraded: bool)
    requires Wf(o, c)
    ensures var d := c.(catalog := catalog, activations := activations, degraded := degraded);
            Wf(o, d) && Grows(c, d)
  {
    var d := c.(catalog := catalog, activations := activations, degraded := degraded);
    forall j ensures PinOk(d, j) && IndexOk(d, j) {
      assert PinOk(c, j) && IndexOk(c, j);
    }
  }

  lemma UpgradeKeeps(o: Options, c: Cache, k: Option<Key>)
    requires Wf(o, c)
    ensures Wf(o, Upgrade(c, k)) && Grows(c, Upgrade(c, k))
  {
    hide Distinct;
    var d := Upgrade(c, k);
    if k.Some? && k.value in c.entries && k.value in c.catalog {
      AddedSize(c.entries, k.value, d.entries[k.value]);
    }
    forall j ensures PinOk(d, j) && IndexOk(d, j) {
      assert PinOk(c, j) && IndexOk(c, j);
    }
  }

  lemma BuryKeeps(o: Options, c: Cache, k: Key)
    requires Wf(o, c) && k in c.entries && k in c.keys
    ensures Wf(o, Bury(c, k)) && Grows(c, Bury(c, k))
  {
    hide Distinct, Lists, IndexOk;
    At(o, c, k);
    AdvanceKeeps(o, c, k);
    var c1 := AdvanceGeneration(c, k);
    var st := c1.keys[k].(lastWriteGeneration := c1.keys[k].lastWriteGeneration + 1);
    var e := c1.entries[k].(state := Tombstone, value := [], lastWriteGeneration := st.lastWriteGeneration);
    UpdateKeeps(o, c1, k, e, st);
  }

  lemma CompactSyncedKeeps(o: Options, c: Cache, k: Key, now: int)
    requires Wf(o, c) && k in c.entries && k in c.keys
    ensures Wf(o, CompactSynced(o, c, k, now)) && Grows(c, CompactSynced(o, c, k, now))
  {
    hide Wf, WfExcept, Bury, RemoveEntry;
    BuryKeeps(o, c, k);
    At(o, c, k);
    AdvanceKeeps(o, c, k);
    RemoveKeeps(o, AdvanceGeneration(c, k), k);
  }

  lemma CompactKeyKeeps(o: Options, c: Cache, k: Key, now: int)
    requires Wf(o, c)
    ensures Wf(o, CompactKey(o, c, k, now)) && Grows(c, CompactKey(o, c, k, now))
  {
    hide Wf, CompactSynced, CurrentPin, ApplyPin;
    if k in c.entries {
      SyncPinKeeps(o, c, k);
      EnsureKeyStateKeeps(o, SyncPin(o, c, k), k);
      SyncKeepsResidents(o, c, k);
      CompactSyncedKeeps(o, EnsureKeyState(SyncPin(o, c, k), k), k, now);
    }
  }

  lemma SyncMissing(o: Options, c: Cache, k: Key)
    ensures k !in c.entries ==> SyncPin(o, c, k) == c
  {
  }

  lemma SyncKeepsResidents(o: Options, c: Cache, k: Key)
    ensures SyncPin(o, c, k).entries.Keys == c.entries.Keys
  {
  }

  lemma {:induction false} CompactKeysKeeps(o: Options, c: Cache, batch: seq<Key>, now: int)
    requires Wf(o, c)
    ensures Wf(o, CompactKeys(o, c, batch, now)) && Grows(c, CompactKeys(o, c, batch, now))
  {
    hide Wf, CompactKey;
    if batch != [] {
      var n := |batch| - 1;
      CompactKeysKeeps(o, c, batch[..n], now);
      CompactKeyKeeps(o, CompactKeys(o, c, batch[..n], now), batch[n], now);
    }
  }

  // ---- runs ----

  lemma StepKeeps(o: Options, c: Cache, op: Op)
    requires Wf(o, c) && ValidOptions(o)
    ensures Wf(o, Apply(o, c, op)) && Grows(c, Apply(o, c, op))
  {
    hide Wf, WriteTo, Invalidate, Lookup, SyncPins, Upgrade, AdvanceCursor, CompactKeys;
    match op
    case DoWrite(w) => WriteKeeps(o, c, w);
    case DoInvalidate(k, at) => InvalidateKeeps(o, c, k, at);
    case DoLookup(k, maxAge, now) => LookupKeeps(o, c, k, maxAge, now);
    case DoSync(order) => SyncPinsKeeps(o, c, order);
    case DoReconfigure(catalog, activations, degraded, upgraded, order) =>
      ReconfigureKeeps(o, c, catalog, activations, degraded);
      var c1 := c.(catalog := catalog, activations := activations, degraded := degraded);
      UpgradeKeeps(o, c1, upgraded);
      SyncPinsKeeps(o, Upgrade(c1, upgraded), order);
    case DoNextBatch => AdvanceCursorKeeps(o, c);
    case DoCompact(batch, now) => CompactKeysKeeps(o, c, batch, now);
  }

  function After(o: Options, c: Cache, ops: seq<Op>): Cache {
    StateAfter(Shadow(o), c, ops)
  }

  /** From an invariant state, every run keeps the invariant and no generation ever goes back. */
  lemma {:induction false} RunKeeps(o: Options, c: Cache, ops: seq<Op>)
    requires Wf(o, c) && ValidOptions(o)
    ensures Wf(o, After(o, c, ops)) && Grows(c, After(o, c, ops))
  {
    hide Wf, Apply;
    if ops != [] {
      var n := |ops| - 1;
      RunKeeps(o, c, ops[..n]);
      StepKeeps(o, After(o, c, ops[..n]), ops[n]);
    }
  }

  ghost predicate Reachable(o: Options, c: Cache) {
    exists catalog, activations, degraded, ops :: c == After(o, EmptyCache(catalog, activations, degraded), ops)
  }

  /**
   * In every reachable state the snapshot of every key is the projection of the entry map, the
   * lists have their shape and no more entries are resident than fit.
   */
  lemma ReachableIsWf(o: Options, c: Cache)
    requires ValidOptions(o) && Reachable(o, c)
    ensures Wf(o, c)
  {
    var catalog, activations, degraded, ops :| c == After(o, EmptyCache(catalog, activations, degraded), ops);
    RunKeeps(o, EmptyCache(catalog, activations, degraded), ops);
  }

  /**
   * A generation captured without the lock tells for ever whether the key was invalidated since:
   * after any run with an invalidation of the key in it, the captured generation is behind.
   */
  lemma CaptureDetectsInvalidation(o: Options, c: Cache, before: seq<Op>, k: Key, at: int, after: seq<Op>)
    requires Wf(o, c) && ValidOptions(o)
    ensures var d := After(o, c, before + [DoInvalidate(k, at)] + after);
            SnapshotOf(c, k).generation < SnapshotOf(d, k).generation
  {
    hide Wf, Apply, Invalidate;
    var c1 := After(o, c, before);
    var c2 := After(o, c, before + [DoInvalidate(k, at)]);
    RunAppend(Shadow(o), c, before, DoInvalidate(k, at));
    RunConcat(Shadow(o), c, before + [DoInvalidate(k, at)], after);
    RunKeeps(o, c, before);
    StepInvalidates(o, c1, k, at);
    RunKeeps(o, c2, after);
    At(o, c, k);
    At(o, After(o, c2, after), k);
  }

  lemma StepInvalidates(o: Options, c: Cache, k: Key, at: int)
    requires Wf(o, c) && ValidOptions(o)
    ensures var d := Apply(o, c, DoInvalidate(k, at)); Wf(o, d) && Generation(c, k) < Generation(d, k)
  {
    InvalidateKeeps(o, c, k, at);
  }

  // ---- who stays ----

  lemma {:induction false} SyncsKeepResidents(o: Options, c: Cache, order: seq<Key>)
    ensures SyncPins(o, c, order).entries.Keys == c.entries.Keys
  {
    hide SyncPin;
    if order != [] {
      var n := |order| - 1;
      SyncsKeepResidents(o, c, order[..n]);
      SyncKeepsResidents(o, SyncPins(o, c, order[..n]), order[n]);
    }
  }

  lemma UpgradeKeepsResidents(c: Cache, k: Option<Key>)
    ensures Upgrade(c, k).entries.Keys == c.entries.Keys
  {
  }

  /**
   * Nothing but compaction and eviction for space takes an entry away, eviction takes at most one,
   * and it is never a pinned one.
   */
  lemma EntriesStay(o: Options, c: Cache, op: Op)
    requires Wf(o, c) && ValidOptions(o) && !op.DoCompact?
    ensures var d := Apply(o, c, op);
            && EvictsAtMostOne(o, c, d)
            && (!op.DoWrite? && !op.DoInvalidate? ==> d.entries.Keys == c.entries.Keys)
            && forall k :: k in c.entries && c.entries[k].pin != NoPin ==> k in d.entries
  {
    hide Wf, WriteTo, Invalidate, SyncPin, SyncPins, Upgrade, Touch, LookupEligible;
    match op {
      case DoWrite(w) => WriteKeeps(o, c, w);
      case DoInvalidate(k, at) => InvalidateKeeps(o, c, k, at);
      case DoLookup(k, maxAge, now) =>
        SyncKeepsResidents(o, c, k);
        TouchKeepsEntries(SyncPin(o, c, k), k);
      case DoSync(order) => SyncsKeepResidents(o, c, order);
      case DoReconfigure(catalog, activations, degraded, upgraded, order) =>
        var c1 := c.(catalog := catalog, activations := activations, degraded := degraded);
        UpgradeKeepsResidents(c1, upgraded);
        SyncsKeepResidents(o, Upgrade(c1, upgraded), order);
      case DoNextBatch =>
    }
    var d := Apply(o, c, op);
    forall k | k in c.entries && c.entries[k].pin != NoPin ensures k in d.entries {
      assert k !in d.entries ==> k in c.entries.Keys - d.entries.Keys;
    }
  }

  lemma TouchKeepsEntries(c: Cache, k: Key)
    ensures Touch(c, k).entries == c.entries
  {
  }
}
