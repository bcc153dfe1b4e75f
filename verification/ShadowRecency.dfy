/**
 * What the eviction list means: it is in the order in which its keys were last used, where a use is an
 * eligible lookup or the moment the entry became evictable. So eviction takes the entry that has gone
 * unused for longest.
 */
module ShadowRecency {
  import opened Protocol
  import opened ShadowCache
  import opened ShadowInvariants
  import opened ShadowViews

  predicate Evictable(c: Cache, k: Key) {
    k in c.entries && c.entries[k].pin == NoPin
  }

  /** The operation uses `k`: it becomes evictable by it, or is looked up and eligible. */
  predicate Used(o: Options, c: Cache, op: Op, k: Key) {
    && Evictable(Apply(o, c, op), k)
    && (|| !Evictable(c, k)
        || (op.DoLookup? && op.key == k && LookupEligible(c, c.entries[k], op.maxAge, op.now)))
  }

  /** How many operations of the run had happened after the last use of `k`. */
  function LastUse(o: Options, c: Cache, ops: seq<Op>, k: Key): nat {
    if ops == [] then 0
    else
      var n := |ops| - 1;
      if Used(o, After(o, c, ops[..n]), ops[n], k) then n + 1 else LastUse(o, c, ops[..n], k)
  }

  lemma {:induction false} LastUseBound(o: Options, c: Cache, ops: seq<Op>, k: Key)
    ensures LastUse(o, c, ops, k) <= |ops|
  {
    hide Used;
    if ops != [] {
      LastUseBound(o, c, ops[..|ops| - 1], k);
    }
  }

  // ---- lists ----

  ghost predicate Before<T(!new)>(l: seq<T>, a: T, b: T) {
    exists i, j :: 0 <= i < j < |l| && l[i] == a && l[j] == b
  }

  /**
   * From `l` to `m` the keys of `u` went to the back: whatever stands before one that did not move
   * did not move either, and stood before it already. Only keys of `u` are new.
   */
  ghost predicate Shift(l: seq<Key>, m: seq<Key>, u: set<Key>) {
    && (forall a, b :: Before(m, a, b) && b !in u ==> a !in u && Before(l, a, b))
    && (forall x :: x in m && x !in l ==> x in u)
  }

  lemma ShiftTrans(l: seq<Key>, m: seq<Key>, n: seq<Key>, u: set<Key>, v: set<Key>)
    requires Shift(l, m, u) && Shift(m, n, v)
    ensures Shift(l, n, u + v)
  {
    hide Before;
  }

  lemma ShiftSame(l: seq<Key>)
    ensures Shift(l, l, {})
  {
    hide Before;
  }

  lemma {:induction false} WithoutAt<T>(l: seq<T>, k: T, i: int) returns (p: int)
    requires 0 <= i < |Without(l, k)|
    ensures 0 <= p < |l| && l[p] == Without(l, k)[i]
  {
    if l[0] == k {
      p := WithoutAt(l[1..], k, i);
      p := p + 1;
    } else if i > 0 {
      p := WithoutAt(l[1..], k, i - 1);
      p := p + 1;
    } else {
      p := 0;
    }
  }

  lemma {:induction false} WithoutBefore<T>(l: seq<T>, k: T, i: int, j: int) returns (p: int, q: int)
    requires 0 <= i < j < |Without(l, k)|
    ensures 0 <= p < q < |l| && l[p] == Without(l, k)[i] && l[q] == Without(l, k)[j]
  {
    if l[0] == k {
      p, q := WithoutBefore(l[1..], k, i, j);
      p, q := p + 1, q + 1;
    } else if i > 0 {
      p, q := WithoutBefore(l[1..], k, i - 1, j - 1);
      p, q := p + 1, q + 1;
    } else {
      q := WithoutAt(l[1..], k, j - 1);
      p, q := 0, q + 1;
    }
  }

  lemma ShiftWithout(l: seq<Key>, k: Key)
    ensures Shift(l, Without(l, k), {})
  {
    var m := Without(l, k);
    WithoutIs(l, k);
    forall a, b | Before(m, a, b) ensures Before(l, a, b) {
      var i, j :| 0 <= i < j < |m| && m[i] == a && m[j] == b;
      var p, q := WithoutBefore(l, k, i, j);
    }
  }

  lemma ShiftPush(l: seq<Key>, k: Key)
    requires k !in l
    ensures Shift(l, l + [k], {k})
  {
    forall a, b | Before(l + [k], a, b) && b != k ensures a != k && Before(l, a, b) {
      var i, j :| 0 <= i < j < |l + [k]| && (l + [k])[i] == a && (l + [k])[j] == b;
      assert l[i] == a && l[j] == b;
    }
  }

  lemma ShiftMove(l: seq<Key>, k: Key)
    ensures Shift(l, Without(l, k) + [k], {k})
  {
    WithoutIs(l, k);
    ShiftWithout(l, k);
    ShiftPush(Without(l, k), k);
    ShiftTrans(l, Without(l, k), Without(l, k) + [k], {}, {k});
    assert {} + {k} == {k};
  }

  // ---- one operation ----

  /** From `c` to `d` the keys of `u` came onto the list anew, and nothing else moved. */
  ghost predicate Enters(c: Cache, d: Cache, u: set<Key>) {
    Shift(c.lru, d.lru, u) && u !! (set x | x in c.lru)
  }

  lemma EntersNothing(c: Cache, d: Cache)
    requires c.lru == d.lru
    ensures Enters(c, d, {})
  {
    hide Shift;
    ShiftSame(c.lru);
  }

  lemma ListedIsEvictable(o: Options, c: Cache, k: Key)
    requires Wf(o, c)
    ensures k in c.lru <==> Evictable(c, k)
  {
    assert PinOk(c, k);
  }

  /** The keys a pin puts onto the list. */
  function Pushed(c: Cache, k: Key, pin: Pin): set<Key>
    requires k in c.entries
  {
    if pin == NoPin && !c.entries[k].evictable then {k} else {}
  }

  lemma ApplyPinEnters(c: Cache, k: Key, pin: Pin)
    requires k in c.entries && (k in c.lru <==> c.entries[k].evictable)
    requires pin == NoPin && c.entries[k].evictable ==> c.entries[k].pin == NoPin
    ensures Enters(c, ApplyPin(c, k, pin), Pushed(c, k, pin))
  {
    hide Shift;
    var e := c.entries[k];
    ShiftSame(c.lru);
    if !(e.pin == pin && (e.evictable <==> pin == NoPin)) {
      if e.evictable {
        ShiftWithout(c.lru, k);
        assert Without(c.lru, k) + [] == Without(c.lru, k);
      } else if pin == NoPin {
        ShiftPush(c.lru, k);
      } else {
        assert c.lru + [] == c.lru;
      }
    }
  }

  lemma SyncEnters(o: Options, c: Cache, k: Key)
    requires Wf(o, c)
    ensures var u := if k in c.entries && c.entries[k].descriptor.Some? then Pushed(c, k, CurrentPin(o, c, k)) else {};
            Enters(c, SyncPin(o, c, k), u)
  {
    hide ApplyPin, CurrentPin, Enters;
    if k in c.entries && c.entries[k].descriptor.Some? {
      assert PinOk(c, k);
      assert k in c.lru <==> c.entries[k].evictable;
      ApplyPinEnters(c, k, CurrentPin(o, c, k));
    } else {
      EntersNothing(c, c);
    }
  }

  /** The entry has the pin that it should have, so that no synchronisation takes it away. */
  predicate Settled(c: Cache, k: Key) {
    && k in c.entries && c.entries[k].descriptor.Some? && c.entries[k].pin != NoPin
    && c.entries[k].pin == DesiredPin(c.entries[k].descriptor, ActiveSources(c, k))
    && (c.entries[k].pin == StaticPin ==> !c.degraded)
  }

  predicate StaysOff(c: Cache, k: Key) {
    k in c.entries ==> Settled(c, k)
  }

  /** A synchronisation settles what it pins, and what is settled or gone stays so. */
  lemma SyncSettles(o: Options, c: Cache, k: Key, j: Key)
    requires Wf(o, c)
    ensures var d := SyncPin(o, c, k);
            && (StaysOff(c, j) ==> StaysOff(d, j))
            && (j in c.lru && j !in d.lru ==> StaysOff(d, j))
            && (StaysOff(c, k) && k in c.entries ==> CurrentPin(o, c, k) == c.entries[k].pin != NoPin)
  {
    hide Without, Wf, WriteConfirmCount;
    SyncPinKeeps(o, c, k);
    ListedIsEvictable(o, c, j);
    ListedIsEvictable(o, SyncPin(o, c, k), j);
  }

  /** A whole synchronisation, or a compaction, so far: what left the list has settled or is gone. */
  ghost predicate Proceeds(c0: Cache, c: Cache, u: set<Key>) {
    Enters(c0, c, u) && forall x :: x in c0.lru && x !in c.lru ==> StaysOff(c, x)
  }

  lemma SyncProceeds(o: Options, c0: Cache, c: Cache, u: set<Key>, k: Key) returns (v: set<Key>)
    requires Wf(o, c) && Proceeds(c0, c, u)
    ensures Proceeds(c0, SyncPin(o, c, k), v)
  {
    hide Wf, SyncPin, Shift, CurrentPin, StaysOff;
    var d := SyncPin(o, c, k);
    var more := if k in c.entries && c.entries[k].descriptor.Some? then Pushed(c, k, CurrentPin(o, c, k)) else {};
    SyncEnters(o, c, k);
    ShiftTrans(c0.lru, c.lru, d.lru, u, more);
    v := u + more;
    SyncSettles(o, c, k, k);
    assert k in more ==> k !in c0.lru;
    forall x | x in c0.lru && x !in d.lru ensures StaysOff(d, x) {
      SyncSettles(o, c, k, x);
    }
  }

  lemma {:induction false} SyncsProceed(o: Options, c: Cache, order: seq<Key>) returns (u: set<Key>)
    requires Wf(o, c)
    ensures Proceeds(c, SyncPins(o, c, order), u)
  {
    hide Wf, SyncPin, Enters, StaysOff;
    if order == [] {
      EntersNothing(c, c);
      u := {};
    } else {
      var n := |order| - 1;
      u := SyncsProceed(o, c, order[..n]);
      SyncPinsKeeps(o, c, order[..n]);
      u := SyncProceeds(o, c, SyncPins(o, c, order[..n]), u, order[n]);
    }
  }

  lemma BuryStaysOff(c: Cache, k: Key, j: Key)
    requires k in c.entries && k in c.keys
    ensures Bury(c, k).lru == c.lru && (StaysOff(c, j) ==> StaysOff(Bury(c, k), j))
  {
    hide StoreSnapshot;
  }

  lemma RemoveStaysOff(c: Cache, k: Key, j: Key)
    requires k in c.entries && k in c.keys
    ensures var d := RemoveEntry(AdvanceGeneration(c, k), k);
            && d.lru == (if c.entries[k].evictable then Without(c.lru, k) else c.lru)
            && (StaysOff(c, j) ==> StaysOff(d, j)) && k !in d.entries
  {
    hide StoreAbsent, Without, Next;
  }

  lemma CompactSyncedLists(o: Options, c: Cache, k: Key, now: int, j: Key)
    requires k in c.entries && k in c.keys
    ensures var d := CompactSynced(o, c, k, now);
            && (d.lru == c.lru || d.lru == Without(c.lru, k))
            && (StaysOff(c, j) ==> StaysOff(d, j)) && (j in c.lru && j !in d.lru ==> StaysOff(d, j))
  {
    hide Bury, RemoveEntry, AdvanceGeneration, Settled;
    BuryStaysOff(c, k, j);
    RemoveStaysOff(c, k, j);
    WithoutIs(c.lru, k);
  }

  lemma CompactProceeds(o: Options, c0: Cache, c: Cache, u: set<Key>, k: Key, now: int) returns (v: set<Key>)
    requires Wf(o, c) && Proceeds(c0, c, u)
    ensures Proceeds(c0, CompactKey(o, c, k, now), v)
  {
    hide Wf, SyncPin, Shift, StaysOff, CompactSynced;
    v := u;
    if k in c.entries {
      v := SyncProceeds(o, c0, c, u, k);
      var c1 := SyncPin(o, c, k);
      SyncPinKeeps(o, c, k);
      SyncKeepsResidents(o, c, k);
      EnsureKeyStateKeeps(o, c1, k);
      var c2 := EnsureKeyState(c1, k);
      var d := CompactSynced(o, c2, k, now);
      forall x | x in c0.lru && x !in d.lru ensures StaysOff(d, x) {
        KeyStateStaysOff(c1, k, x);
        CompactSyncedLists(o, c2, k, now, x);
      }
      CompactSyncedLists(o, c2, k, now, k);
      ShiftSame(c2.lru);
      ShiftWithout(c2.lru, k);
      ShiftTrans(c0.lru, c2.lru, d.lru, v, {});
      assert v + {} == v;
    }
  }

  lemma KeyStateStaysOff(c: Cache, k: Key, j: Key)
    ensures StaysOff(EnsureKeyState(c, k), j) <==> StaysOff(c, j)
  {
  }

  lemma {:induction false} CompactsProceed(o: Options, c: Cache, batch: seq<Key>, now: int) returns (u: set<Key>)
    requires Wf(o, c)
    ensures Proceeds(c, CompactKeys(o, c, batch, now), u)
  {
    hide Wf, CompactKey, Enters, StaysOff;
    if batch == [] {
      EntersNothing(c, c);
      u := {};
    } else {
      var n := |batch| - 1;
      u := CompactsProceed(o, c, batch[..n], now);
      CompactKeysKeeps(o, c, batch[..n], now);
      u := CompactProceeds(o, c, CompactKeys(o, c, batch[..n], now), u, batch[n], now);
    }
  }

  lemma WithoutPush(l: seq<Key>, gone: Key, k: Key)
    requires k !in l
    ensures Shift(l, Without(l, gone), {}) && Shift(l, Without(l, gone) + [k], {k})
  {
    hide Shift;
    WithoutIs(l, gone);
    ShiftWithout(l, gone);
    ShiftPush(Without(l, gone), k);
    ShiftTrans(l, Without(l, gone), Without(l, gone) + [k], {}, {k});
    assert {} + {k} == {k};
  }

  /** Making room only takes the first of the list away. */
  lemma CapacityEnters(o: Options, c: Cache, pin: Pin)
    ensures Enters(c, EnsureCapacity(o, c, pin).0, {})
  {
    hide Shift, WriteConfirmCount, Next, StoreAbsent;
    ShiftSame(c.lru);
    if c.lru != [] {
      ShiftWithout(c.lru, c.lru[0]);
    }
  }

  lemma EntersTrans(c: Cache, d: Cache, e: Cache, u: set<Key>, v: set<Key>)
    requires Enters(c, d, u) && Enters(d, e, v) && v !! (set x | x in c.lru)
    ensures Enters(c, e, u + v)
  {
    hide Shift;
    ShiftTrans(c.lru, d.lru, e.lru, u, v);
  }

  lemma AcceptEnters(c: Cache, w: Write, d: Descriptor, ttl: int, pin: Pin)
    requires w.key in c.entries && w.key in c.keys && (w.key in c.lru <==> c.entries[w.key].evictable)
    ensures Enters(c, Accept(c, w, d, ttl, pin), Pushed(c, w.key, pin))
  {
    hide ApplyPin, Shift, StoreSnapshot, Later, Enters;
    var k := w.key;
    var st := c.keys[k];
    var e := c.entries[k].(descriptor := Some(d), source := Some(w.source), state := Present, value := w.value,
                           observedAt := Some(w.at), expiresAt := Some(w.at + ttl), invalidatedAt := None, pin := pin,
                           lastWriteGeneration := st.lastWriteGeneration + 1);
    var st1 := st.(highWater := Later(st.highWater, w.at), invalidatedAt := None,
                   lastWriteGeneration := st.lastWriteGeneration + 1);
    var c1 := c.(entries := c.entries[k := e], keys := c.keys[k := StoreSnapshot(e, st1)]);
    ApplyPinEnters(c1, k, pin);
    SameList(c, c1, ApplyPin(c1, k, pin), Pushed(c, k, pin));
  }

  lemma InvalidateEntryEnters(c: Cache, k: Key, d: Option<Descriptor>, pin: Pin)
    requires k in c.entries && k in c.keys && (k in c.lru <==> c.entries[k].evictable)
    ensures Enters(c, InvalidateEntry(c, k, d, pin), Pushed(c, k, pin))
  {
    hide ApplyPin, Shift, StoreSnapshot, Enters;
    var c1 := AdvanceGeneration(c, k);
    var st := c1.keys[k];
    var e := c1.entries[k].(descriptor := d, state := if c1.entries[k].value != [] then Invalidated else Tombstone,
                            invalidatedAt := st.invalidatedAt, pin := pin,
                            lastWriteGeneration := st.lastWriteGeneration + 1);
    var st1 := st.(lastWriteGeneration := st.lastWriteGeneration + 1);
    var c2 := c1.(entries := c1.entries[k := e], keys := c1.keys[k := StoreSnapshot(e, st1)]);
    ApplyPinEnters(c2, k, pin);
    SameList(c, c2, ApplyPin(c2, k, pin), Pushed(c, k, pin));
  }

  lemma SameList(c: Cache, c1: Cache, d: Cache, u: set<Key>)
    requires Enters(c1, d, u) && c1.lru == c.lru
    ensures Enters(c, d, u)
  {
  }

  lemma WfLists(o: Options, c: Cache, k: Key)
    requires WfExcept(o, c, k)
    ensures k in c.lru <==> k in c.entries && c.entries[k].evictable
  {
  }

  /** A new entry takes its place at the back, if it is evictable, and the first may have gone. */
  lemma NewEntryEnters(o: Options, c: Cache, w: Write, d: Descriptor, ttl: int, pin: Pin) returns (u: set<Key>)
    requires Wf(o, c) && o.capacity > 0 && w.key in c.keys && w.key !in c.entries && EnsureCapacity(o, c, pin).1
    ensures var c1 := AdvanceGeneration(Insert(EnsureCapacity(o, c, pin).0, w.key, Some(d)), w.key);
            Enters(c, Accept(c1, w, d, ttl, pin), u)
  {
    hide Wf, WfExcept, Lists, EnsureCapacity, Accept, Enters;
    var k := w.key;
    CapacityKeeps(o, c, pin);
    CapacityEnters(o, c, pin);
    var c1 := EnsureCapacity(o, c, pin).0;
    InsertKeeps(o, c1, k, Some(d));
    var c2 := Insert(c1, k, Some(d));
    AdvanceKeeps(o, c2, k);
    var c3 := AdvanceGeneration(c2, k);
    WfLists(o, c3, k);
    AcceptEnters(c3, w, d, ttl, pin);
    u := Pushed(c3, k, pin);
    SameList(c1, c3, Accept(c3, w, d, ttl, pin), u);
    ListedIsEvictable(o, c, k);
    EntersTrans(c, c1, Accept(c3, w, d, ttl, pin), {}, u);
    assert {} + u == u;
  }

  lemma MissingEnters(o: Options, c: Cache, k: Key, d: Option<Descriptor>, pin: Pin) returns (u: set<Key>)
    requires Wf(o, c) && o.capacity > 0 && k in c.keys && k !in c.entries
    ensures Enters(c, InvalidateMissing(o, c, k, d, pin), u)
  {
    hide Wf, WfExcept, Lists, EnsureCapacity, InvalidateEntry, CanAdmitWriteConfirm, AdmittedPin, Enters;
    var c1 := EnsureCapacity(o, c, pin).0;
    CapacityKeeps(o, c, pin);
    CapacityEnters(o, c, pin);
    EntersNothing(c, InvalidateAbsent(c, k));
    EntersAbsent(c, c1, k);
    u := {};
    if (pin == WriteConfirmPin ==> CanAdmitWriteConfirm(o, c, k)) && EnsureCapacity(o, c, pin).1 {
      InsertKeeps(o, c1, k, d);
      var c2 := Insert(c1, k, d);
      var p := AdmittedPin(o, c2, k, pin);
      WfLists(o, c2, k);
      InvalidateEntryEnters(c2, k, d, p);
      u := Pushed(c2, k, p);
      SameList(c1, c2, InvalidateEntry(c2, k, d, p), u);
      ListedIsEvictable(o, c, k);
      EntersTrans(c, c1, InvalidateEntry(c2, k, d, p), {}, u);
      assert {} + u == u;
    }
  }

  lemma EntersAbsent(c: Cache, c1: Cache, k: Key)
    requires Enters(c, c1, {}) && k in c1.keys
    ensures Enters(c, InvalidateAbsent(c1, k), {})
  {
  }

  lemma InvalidateEnters(o: Options, c: Cache, k: Key, at: int) returns (u: set<Key>)
    requires Wf(o, c) && o.capacity > 0
    ensures Enters(c, Invalidate(o, c, k, at), u)
  {
    hide Wf, InvalidateEntry, InvalidateMissing, AdmittedPin, Later, Enters;
    var d := if k in c.catalog then Some(c.catalog[k]) else None;
    var pin := DesiredPin(d, ActiveSources(c, k));
    var c1 := MarkInvalid(c, k, at);
    MarkInvalidKeeps(o, c, k, at);
    if k in c1.entries {
      var p := AdmittedPin(o, c1, k, pin);
      At(o, c1, k);
      WfLists(o, c1, k);
      InvalidateEntryEnters(c1, k, d, p);
      u := Pushed(c1, k, p);
      SameList(c, c1, InvalidateEntry(c1, k, d, p), u);
    } else {
      u := MissingEnters(o, c1, k, d, pin);
      SameList(c, c1, InvalidateMissing(o, c1, k, d, pin), u);
    }
  }

  /** A write of a resident key after its synchronisation: what that pinned is not unpinned again. */
  lemma ResidentEnters(o: Options, c: Cache, w: Write, d: Descriptor, ttl: int, pin: Pin) returns (u: set<Key>)
    requires Wf(o, c) && w.key in c.keys && w.key in c.entries && !d.debug
    requires w.key in SyncPin(o, c, w.key).entries && w.key in SyncPin(o, c, w.key).keys
    requires pin == DesiredPin(Some(d), ActiveSources(c, w.key))
    ensures Enters(c, Accept(SyncPin(o, c, w.key), w, d, ttl, pin), u)
  {
    hide Wf, SyncPin, Accept, Enters, CurrentPin;
    var k := w.key;
    var c1 := SyncPin(o, c, k);
    SyncPinKeeps(o, c, k);
    SyncEnters(o, c, k);
    SyncSettles(o, c, k, k);
    SyncPolicy(o, c, k);
    At(o, c1, k);
    WfLists(o, c1, k);
    AcceptEnters(c1, w, d, ttl, pin);
    var a := if c.entries[k].descriptor.Some? then Pushed(c, k, CurrentPin(o, c, k)) else {};
    var b := Pushed(c1, k, pin);
    ListedIsEvictable(o, c1, k);
    assert k in b ==> k !in c.lru;
    EntersTrans(c, c1, Accept(c1, w, d, ttl, pin), a, b);
    u := a + b;
  }

  lemma SyncPolicy(o: Options, c: Cache, k: Key)
    ensures SamePolicy(c, SyncPin(o, c, k))
  {
    hide Without, CurrentPin;
  }

  lemma WriteAdmittedEnters(o: Options, c: Cache, w: Write, d: Descriptor, pin: Pin) returns (u: set<Key>)
    requires Wf(o, c) && o.capacity > 0 && w.key in c.keys && w.key in SyncPin(o, c, w.key).keys && !d.debug
    requires pin == DesiredPin(Some(d), ActiveSources(c, w.key))
    ensures Enters(c, WriteAdmitted(o, SyncPin(o, c, w.key), w, d, pin).0, u)
  {
    hide Wf, SyncPin, Accept, Enters, CurrentPin, RejectByPrecedence, EnsureCapacity, Insert, AdvanceGeneration;
    var k := w.key;
    SyncKeepsResidents(o, c, k);
    SyncMissing(o, c, k);
    SyncEnters(o, c, k);
    u := if k in c.entries && c.entries[k].descriptor.Some? then Pushed(c, k, CurrentPin(o, c, k)) else {};
    if WriteAdmitted(o, SyncPin(o, c, k), w, d, pin).1.Accepted? {
      if k in c.entries {
        u := ResidentEnters(o, c, w, d, d.ttl.value, pin);
      } else {
        u := NewEntryEnters(o, c, w, d, d.ttl.value, pin);
      }
    } else if k !in c.entries {
      CapacityEnters(o, c, pin);
      EntersNothing(c, c);
      u := {};
    }
  }

  lemma WriteEnters(o: Options, c: Cache, w: Write) returns (u: set<Key>)
    requires Wf(o, c) && o.capacity > 0
    ensures Enters(c, WriteTo(o, c, w).0, u)
  {
    hide Wf, WriteAdmitted, SyncPin, CanAdmitWriteConfirm, Enters;
    var k := w.key;
    EntersNothing(c, c);
    u := {};
    if k in c.catalog && !c.catalog[k].debug {
      var c1 := EnsureKeyState(c, k);
      EntersNothing(c, c1);
      EnsureKeyStateKeeps(o, c, k);
      SyncKeepsKeys(o, c1, k);
      if WriteTo(o, c, w).0 != c && WriteTo(o, c, w).0 != c1 {
        var d := c.catalog[k];
        u := WriteAdmittedEnters(o, c1, w, d, DesiredPin(Some(d), ActiveSources(c, k)));
        SameList(c, c1, WriteTo(o, c, w).0, u);
      }
    }
  }

  // ---- every operation ----

  /** Exactly the used keys have moved, and they are at the back. */
  ghost predicate MovesUsed(o: Options, c: Cache, op: Op) {
    var d := Apply(o, c, op);
    forall a, b :: Before(d.lru, a, b) && !Used(o, c, op, b) ==> !Used(o, c, op, a) && Before(c.lru, a, b)
  }

  lemma EntersMovesUsed(o: Options, c: Cache, op: Op, u: set<Key>)
    requires Wf(o, c) && Wf(o, Apply(o, c, op)) && Enters(c, Apply(o, c, op), u)
    requires op.DoLookup? && Evictable(Apply(o, c, op), op.key) && op.key in c.entries ==>
               !LookupEligible(c, c.entries[op.key], op.maxAge, op.now)
    ensures MovesUsed(o, c, op)
  {
    hide Apply, Wf, LookupEligible;
    var d := Apply(o, c, op);
    forall a, b | Before(d.lru, a, b) && !Used(o, c, op, b) ensures !Used(o, c, op, a) && Before(c.lru, a, b) {
      ListedIsEvictable(o, c, a);
      ListedIsEvictable(o, c, b);
      ListedIsEvictable(o, d, a);
      ListedIsEvictable(o, d, b);
    }
  }

  /** The state in which a lookup decides whether to move its key. */
  lemma LookupParts(o: Options, c: Cache, k: Key, maxAge: int, now: int)
    requires k in c.entries
    ensures var c1 := SyncPin(o, c, k);
            && k in c1.entries && c1.keys == c.keys
            && Lookup(o, c, k, maxAge, now).0 ==
               if LookupEligible(c, c.entries[k], maxAge, now) && c1.entries[k].pin == NoPin then Touch(c1, k) else c1
  {
    hide Without, CurrentPin;
  }

  lemma LookupMovesUsed(o: Options, c: Cache, op: Op)
    requires Wf(o, c) && op.DoLookup?
    ensures MovesUsed(o, c, op)
  {
    hide Wf, SyncPin, LookupEligible, Lookup, Enters, MovesUsed, Without, CurrentPin;
    var k := op.key;
    LookupKeeps(o, c, k, op.maxAge, op.now);
    if k !in c.entries {
      LookupMissing(o, c, k, op.maxAge, op.now);
      EntersNothing(c, c);
      EntersMovesUsed(o, c, op, {});
    } else {
      LookupParts(o, c, k, op.maxAge, op.now);
      SyncEnters(o, c, k);
      var u := if c.entries[k].descriptor.Some? then Pushed(c, k, CurrentPin(o, c, k)) else {};
      var c1 := SyncPin(o, c, k);
      if LookupEligible(c, c.entries[k], op.maxAge, op.now) && c1.entries[k].pin == NoPin {
        TouchMovesUsed(o, c, op, c1, u);
      } else {
        EntersMovesUsed(o, c, op, u);
      }
    }
  }

  lemma LookupMissing(o: Options, c: Cache, k: Key, maxAge: int, now: int)
    requires k !in c.entries
    ensures Lookup(o, c, k, maxAge, now).0 == c
  {
  }

  lemma TouchMovesUsed(o: Options, c: Cache, op: Op, c1: Cache, u: set<Key>)
    requires Wf(o, c) && op.DoLookup? && op.key in c.entries && LookupEligible(c, c.entries[op.key], op.maxAge, op.now)
    requires Enters(c, c1, u) && u <= {op.key} && Evictable(c1, op.key) && Apply(o, c, op) == Touch(c1, op.key)
    ensures MovesUsed(o, c, op)
  {
    hide Wf, LookupEligible, Apply, Before;
    var k := op.key;
    var d := Apply(o, c, op);
    ShiftMove(c1.lru, k);
    ShiftTrans(c.lru, c1.lru, d.lru, u, {k});
    assert u + {k} == {k};
    assert Used(o, c, op, k);
    forall a, b | Before(d.lru, a, b) && !Used(o, c, op, b) ensures !Used(o, c, op, a) && Before(c.lru, a, b) {
      assert b !in {k};
      assert Before(c.lru, a, b);
      BeforeIn(c.lru, a, b);
      ListedIsEvictable(o, c, a);
    }
  }

  lemma BeforeIn(l: seq<Key>, a: Key, b: Key)
    requires Before(l, a, b)
    ensures a in l && b in l
  {
  }

  lemma ReconfigureMovesUsed(o: Options, c: Cache, op: Op)
    requires Wf(o, c) && ValidOptions(o) && op.DoReconfigure?
    ensures MovesUsed(o, c, op)
  {
    hide Wf, MovesUsed, Enters, SyncPins;
    var c1 := c.(catalog := op.catalog, activations := op.activations, degraded := op.degraded);
    var c2 := Upgrade(c1, op.upgraded);
    ReconfigureKeeps(o, c, op.catalog, op.activations, op.degraded);
    UpgradeKeeps(o, c1, op.upgraded);
    var u := SyncsProceed(o, c2, op.order);
    StepKeeps(o, c, op);
    SameList(c, c2, Apply(o, c, op), u);
    EntersMovesUsed(o, c, op, u);
  }

  /** Every operation moves exactly the keys it uses to the back, and leaves the others in their order. */
  lemma StepMovesUsed(o: Options, c: Cache, op: Op)
    requires Wf(o, c) && ValidOptions(o)
    ensures MovesUsed(o, c, op)
  {
    hide Wf, MovesUsed, Enters, WriteTo, Invalidate, SyncPins, CompactKeys, Lookup;
    StepKeeps(o, c, op);
    match op
    case DoLookup(_, _, _) => LookupMovesUsed(o, c, op);
    case DoReconfigure(_, _, _, _, _) => ReconfigureMovesUsed(o, c, op);
    case DoWrite(w) =>
      var u := WriteEnters(o, c, w);
      EntersMovesUsed(o, c, op, u);
    case DoInvalidate(k, at) =>
      var u := InvalidateEnters(o, c, k, at);
      EntersMovesUsed(o, c, op, u);
    case DoSync(order) =>
      var u := SyncsProceed(o, c, order);
      EntersMovesUsed(o, c, op, u);
    case DoNextBatch =>
      EntersNothing(c, Apply(o, c, op));
      EntersMovesUsed(o, c, op, {});
    case DoCompact(batch, now) =>
      var u := CompactsProceed(o, c, batch, now);
      EntersMovesUsed(o, c, op, u);
  }

  // ---- whole runs ----

  /** Over every run the eviction list is in the order of last use. */
  lemma {:induction false} ListIsByLastUse(o: Options, c: Cache, ops: seq<Op>, a: Key, b: Key)
    requires ValidOptions(o) && Wf(o, c) && c.lru == [] && Before(After(o, c, ops).lru, a, b)
    ensures LastUse(o, c, ops, a) <= LastUse(o, c, ops, b)
  {
    hide Wf, Apply, Used, Before;
    if ops == [] {
      NothingBefore(a, b);
    } else {
      var n := |ops| - 1;
      var d := After(o, c, ops[..n]);
      RunKeeps(o, c, ops[..n]);
      StepMovesUsed(o, d, ops[n]);
      LastUseBound(o, c, ops, a);
      if !Used(o, d, ops[n], b) {
        ListIsByLastUse(o, c, ops[..n], a, b);
      }
    }
  }

  lemma NothingBefore(a: Key, b: Key)
    ensures !Before([], a, b)
  {
  }

  lemma FirstBefore(l: seq<Key>, b: Key)
    requires b in l
    ensures l[0] == b || Before(l, l[0], b)
  {
    var j :| 0 <= j < |l| && l[j] == b;
    assert l[0] == l[0] && l[j] == b;
  }

  /**
   * Over every run: an entry that a write or an invalidation evicts was evictable, and of all evictable
   * entries it is the one whose last use is longest ago. Nothing is evicted while there is room.
   */
  lemma EvictedIsLeastRecentlyUsed(o: Options, c: Cache, ops: seq<Op>, op: Op, k: Key, j: Key)
    requires ValidOptions(o) && Wf(o, c) && c.lru == [] && (op.DoWrite? || op.DoInvalidate?)
    requires var d := After(o, c, ops); k in d.entries && k !in Apply(o, d, op).entries && Evictable(d, j)
    ensures var d := After(o, c, ops);
            Evictable(d, k) && |d.entries| == o.capacity && LastUse(o, c, ops, k) <= LastUse(o, c, ops, j)
  {
    hide Wf, Apply, Used, Before;
    var d := After(o, c, ops);
    RunKeeps(o, c, ops);
    EvictsFirst(o, d, op, k);
    ListedIsEvictable(o, d, j);
    FirstBefore(d.lru, j);
    if j != k {
      ListIsByLastUse(o, c, ops, k, j);
    }
  }

  lemma EvictsFirst(o: Options, c: Cache, op: Op, k: Key)
    requires ValidOptions(o) && Wf(o, c) && (op.DoWrite? || op.DoInvalidate?) && k in c.entries && k !in Apply(o, c, op).entries
    ensures c.lru != [] && c.lru[0] == k && Evictable(c, k) && |c.entries| == o.capacity
  {
    hide Wf, WriteTo, Invalidate;
    if op.DoWrite? {
      WriteKeeps(o, c, op.w);
    } else {
      InvalidateKeeps(o, c, op.key, op.at);
    }
    assert k in c.entries.Keys - Apply(o, c, op).entries.Keys;
  }
}
