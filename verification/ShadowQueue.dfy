/**
 * The compactor's list: entries stand in it in the order in which they became resident, and removing
 * one, by eviction or by compaction, leaves the compactor's place in its walk.
 */
module ShadowQueue {
  import opened Protocol
  import opened ShadowCache
  import opened ShadowInvariants
  import opened ShadowViews
  import opened ShadowRecency
  import opened Compaction

  // ---- the place in the walk ----

  lemma {:induction false} NextAfter<T>(before: seq<T>, tail: seq<T>, k: T)
    requires k !in before
    ensures Next(before + [k] + tail, k) == if tail == [] then None else Some(tail[0])
  {
    if before == [] {
      assert before + [k] + tail == [k] + tail;
    } else {
      assert (before + [k] + tail)[1..] == before[1..] + [k] + tail;
      NextAfter(before[1..], tail, k);
      if tail == [] && |before| == 1 {
        assert (before + [k] + tail)[1..] == [k];
      }
    }
  }

  /** The key under the cursor goes: the cursor moves to the one after it, or starts over. */
  lemma GapCloses<T>(before: seq<T>, tail: seq<T>, k: T)
    requires k !in before && k !in tail && (forall x :: x in tail ==> x !in before)
    ensures Rotated(before + tail, if tail == [] then None else Some(tail[0])) == tail + before
  {
    hide From, Rotated;
    if tail == [] {
      assert before + tail == before && tail + before == before;
      FromNone(before);
      RotatedOf(before, None, [], before);
    } else {
      assert tail[0] in tail;
      FromSplit(before, tail, tail[0]);
      RotatedOf(before + tail, Some(tail[0]), before, tail);
    }
  }

  lemma WithoutMiddle<T>(before: seq<T>, tail: seq<T>, k: T)
    requires k !in before && k !in tail
    ensures Without(before + ([k] + tail), k) == before + tail
    ensures Without([k] + tail + before, k) == tail + before
  {
    hide Without;
    WithoutConcat(before, [k] + tail, k);
    WithoutConcat([k] + tail, before, k);
    WithoutConcat([k], tail, k);
    JustOne(k);
    WithoutAbsent(before, k);
    WithoutAbsent(tail, k);
    assert [] + tail == tail;
  }

  lemma SplitRotates<T>(s: seq<T>, before: seq<T>, tail: seq<T>, k: T)
    requires s == before + ([k] + tail) && From(s, Some(k)) == [k] + tail
    requires k !in before && k !in tail && (forall x :: x in tail ==> x !in before)
    ensures Rotated(Without(s, k), Next(s, k)) == Without(Rotated(s, Some(k)), k)
  {
    hide From, Without, Rotated, Next;
    RotatedOf(s, Some(k), before, [k] + tail);
    assert before + [k] + tail == s;
    NextAfter(before, tail, k);
    WithoutMiddle(before, tail, k);
    GapCloses(before, tail, k);
  }

  lemma SplitAt<T>(s: seq<T>, k: T) returns (before: seq<T>, tail: seq<T>)
    requires k in s
    ensures s == before + ([k] + tail) && From(s, Some(k)) == [k] + tail && k !in before
  {
    hide From;
    FromStarts(s, k);
    var rest := From(s, Some(k));
    before, tail := s[..|s| - |rest|], rest[1..];
    assert rest == [k] + tail;
  }

  lemma RemoveNextRotates<T>(s: seq<T>, k: T)
    requires InList(s, Some(k))
    ensures Rotated(Without(s, k), Next(s, k)) == Without(Rotated(s, Some(k)), k)
  {
    hide Distinct, From, Without, Rotated, Next;
    var before, tail := SplitAt(s, k);
    assert before + [k] + tail == before + ([k] + tail);
    Apart(before + [k], tail);
    NotBehind(before, tail, k);
    SplitRotates(s, before, tail, k);
  }

  lemma NotBehind<T>(before: seq<T>, tail: seq<T>, k: T)
    requires forall x :: x in before + [k] ==> x !in tail
    ensures k !in tail && forall x :: x in tail ==> x !in before
  {
    assert k in before + [k];
  }

  lemma JustOne<T>(k: T)
    ensures Without([k], k) == []
  {
  }

  /** Whoever goes, evicted or compacted, the walk goes on as it was without that key. */
  lemma RemovalKeepsPlace(o: Options, c: Cache, k: Key)
    requires Wf(o, c) && k in c.entries
    ensures Rotation(RemoveEntry(c, k)) == Without(Rotation(c), k)
  {
    hide Wf, Rotated, Without, Next, InList;
    WfCursor(o, c);
    if c.cursor == Some(k) {
      RemoveNextRotates(c.compactor, k);
    } else {
      RemoveRotates(c.compactor, c.cursor, k);
    }
  }

  // ---- the order of arrival ----

  /** The operation makes `k` resident. */
  predicate Joins(o: Options, c: Cache, op: Op, k: Key) {
    k !in c.entries && k in Apply(o, c, op).entries
  }

  /** How many operations of the run had happened when `k` last became resident. */
  function JoinedAt(o: Options, c: Cache, ops: seq<Op>, k: Key): nat {
    if ops == [] then 0
    else
      var n := |ops| - 1;
      if Joins(o, After(o, c, ops[..n]), ops[n], k) then n + 1 else JoinedAt(o, c, ops[..n], k)
  }

  lemma {:induction false} JoinedBound(o: Options, c: Cache, ops: seq<Op>, k: Key)
    ensures JoinedAt(o, c, ops, k) <= |ops|
  {
    hide Joins;
    if ops != [] {
      JoinedBound(o, c, ops[..|ops| - 1], k);
    }
  }

  /** Nothing but removals, and perhaps one new key at the back. */
  ghost predicate Lines(l: seq<Key>, m: seq<Key>, k: Key) {
    Shift(l, m, {}) || (k !in l && Shift(l, m, {k}))
  }

  lemma SameLines(l: seq<Key>, k: Key)
    ensures Lines(l, l, k)
  {
    hide Shift;
    ShiftSame(l);
  }

  lemma CapacityLines(o: Options, c: Cache, pin: Pin, k: Key)
    requires k !in c.compactor
    ensures var d := EnsureCapacity(o, c, pin).0; Shift(c.compactor, d.compactor, {}) && Shift(c.compactor, d.compactor + [k], {k})
  {
    hide Shift, WriteConfirmCount, Next, StoreAbsent;
    ShiftSame(c.compactor);
    ShiftPush(c.compactor, k);
    if c.lru != [] {
      WithoutPush(c.compactor, c.lru[0], k);
    }
  }

  lemma SyncQueue(o: Options, c: Cache, k: Key)
    ensures SyncPin(o, c, k).compactor == c.compactor
  {
    hide CurrentPin, Without;
  }

  lemma {:induction false} SyncsQueue(o: Options, c: Cache, order: seq<Key>)
    ensures SyncPins(o, c, order).compactor == c.compactor
  {
    hide SyncPin;
    if order != [] {
      var n := |order| - 1;
      SyncsQueue(o, c, order[..n]);
      SyncQueue(o, SyncPins(o, c, order[..n]), order[n]);
    }
  }

  lemma AcceptQueue(c: Cache, w: Write, d: Descriptor, ttl: int, pin: Pin)
    requires w.key in c.entries && w.key in c.keys
    ensures Accept(c, w, d, ttl, pin).compactor == c.compactor
  {
    hide Without, StoreSnapshot, Later;
  }

  lemma InvalidateEntryQueue(c: Cache, k: Key, d: Option<Descriptor>, pin: Pin)
    requires k in c.entries && k in c.keys
    ensures InvalidateEntry(c, k, d, pin).compactor == c.compactor
  {
    hide Without, StoreSnapshot;
  }

  lemma WriteAdmittedLines(o: Options, c: Cache, w: Write, d: Descriptor, pin: Pin)
    requires w.key in c.keys && (w.key in c.compactor <==> w.key in c.entries)
    ensures Lines(c.compactor, WriteAdmitted(o, c, w, d, pin).0.compactor, w.key)
  {
    hide RejectByPrecedence, EnsureCapacity, Accept, Shift;
    SameLines(c.compactor, w.key);
    if w.key in c.entries {
      if d.ttl.Some? {
        AcceptQueue(c, w, d, d.ttl.value, pin);
      }
    } else {
      CapacityLines(o, c, pin, w.key);
      if d.ttl.Some? {
        AcceptQueue(AdvanceGeneration(Insert(EnsureCapacity(o, c, pin).0, w.key, Some(d)), w.key), w, d, d.ttl.value, pin);
      }
    }
  }

  lemma WriteLines(o: Options, c: Cache, w: Write)
    requires Wf(o, c)
    ensures Lines(c.compactor, WriteTo(o, c, w).0.compactor, w.key)
  {
    hide Wf, WriteAdmitted, SyncPin, CanAdmitWriteConfirm, Lines;
    var k := w.key;
    SameLines(c.compactor, k);
    if k in c.catalog {
      var c1 := EnsureKeyState(c, k);
      WfCursor(o, c);
      SyncQueue(o, c1, k);
      SyncKeepsKeys(o, c1, k);
      SyncKeepsResidents(o, c1, k);
      WriteAdmittedLines(o, SyncPin(o, c1, k), w, c.catalog[k], DesiredPin(Some(c.catalog[k]), ActiveSources(c, k)));
    }
  }

  lemma MissingLines(o: Options, c: Cache, k: Key, d: Option<Descriptor>, pin: Pin)
    requires k in c.keys && k !in c.entries && k !in c.compactor
    ensures Lines(c.compactor, InvalidateMissing(o, c, k, d, pin).compactor, k)
  {
    hide EnsureCapacity, InvalidateEntry, AdmittedPin, CanAdmitWriteConfirm, Shift;
    SameLines(c.compactor, k);
    CapacityLines(o, c, pin, k);
    var c2 := Insert(EnsureCapacity(o, c, pin).0, k, d);
    InvalidateEntryQueue(c2, k, d, AdmittedPin(o, c2, k, pin));
  }

  lemma InvalidateLines(o: Options, c: Cache, k: Key, at: int)
    requires Wf(o, c)
    ensures Lines(c.compactor, Invalidate(o, c, k, at).compactor, k)
  {
    hide Wf, InvalidateEntry, InvalidateMissing, AdmittedPin, Later, Lines;
    var d := if k in c.catalog then Some(c.catalog[k]) else None;
    var pin := DesiredPin(d, ActiveSources(c, k));
    var c1 := MarkInvalid(c, k, at);
    WfCursor(o, c);
    SameLines(c.compactor, k);
    if k in c1.entries {
      InvalidateEntryQueue(c1, k, d, AdmittedPin(o, c1, k, pin));
    } else {
      MissingLines(o, c1, k, d, pin);
    }
  }

  lemma CompactSyncedQueue(o: Options, c: Cache, k: Key, now: int)
    requires k in c.entries && k in c.keys
    ensures Shift(c.compactor, CompactSynced(o, c, k, now).compactor, {})
  {
    hide Shift, Without, Next, StoreSnapshot, StoreAbsent;
    ShiftSame(c.compactor);
    ShiftWithout(c.compactor, k);
  }

  lemma {:induction false} CompactQueue(o: Options, c: Cache, batch: seq<Key>, now: int)
    ensures Shift(c.compactor, CompactKeys(o, c, batch, now).compactor, {})
  {
    hide Shift, SyncPin, CompactSynced;
    ShiftSame(c.compactor);
    if batch != [] {
      var n := |batch| - 1;
      CompactQueue(o, c, batch[..n], now);
      var d := CompactKeys(o, c, batch[..n], now);
      if batch[n] in d.entries {
        SyncQueue(o, d, batch[n]);
        SyncKeepsResidents(o, d, batch[n]);
        var d1 := EnsureKeyState(SyncPin(o, d, batch[n]), batch[n]);
        CompactSyncedQueue(o, d1, batch[n], now);
        var none: set<Key> := {};
        ShiftTrans(c.compactor, d.compactor, CompactSynced(o, d1, batch[n], now).compactor, none, none);
        assert none + none == none;
      }
    }
  }

  lemma StepLines(o: Options, c: Cache, op: Op) returns (k: Key)
    requires Wf(o, c)
    ensures Lines(c.compactor, Apply(o, c, op).compactor, k)
  {
    hide Wf, WriteTo, Invalidate, SyncPins, SyncPin, CompactKeys, LookupEligible, Shift;
    k := "";
    SameLines(c.compactor, k);
    match op
    case DoWrite(w) =>
      WriteLines(o, c, w);
      k := w.key;
    case DoInvalidate(key, at) =>
      InvalidateLines(o, c, key, at);
      k := key;
    case DoLookup(key, maxAge, now) =>
      SyncQueue(o, c, key);
      SyncKeepsResidents(o, c, key);
    case DoSync(order) => SyncsQueue(o, c, order);
    case DoReconfigure(catalog, activations, degraded, upgraded, order) =>
      SyncsQueue(o, Upgrade(c.(catalog := catalog, activations := activations, degraded := degraded), upgraded), order);
    case DoNextBatch =>
    case DoCompact(batch, now) => CompactQueue(o, c, batch, now);
  }

  /** A step lets new keys join at the back and leaves the others in their order. */
  lemma StepJoins(o: Options, c: Cache, op: Op, a: Key, b: Key)
    requires Wf(o, c) && ValidOptions(o) && Before(Apply(o, c, op).compactor, a, b) && !Joins(o, c, op, b)
    ensures !Joins(o, c, op, a) && Before(c.compactor, a, b)
  {
    hide Wf, Apply, Before;
    var d := Apply(o, c, op);
    StepKeeps(o, c, op);
    WfCursor(o, c);
    WfCursor(o, d);
    BeforeIn(d.compactor, a, b);
    var k := StepLines(o, c, op);
    assert Before(c.compactor, a, b);
    BeforeIn(c.compactor, a, b);
  }

  /** Over every run the compactor's list is in the order in which its keys became resident. */
  lemma {:induction false} QueueIsByArrival(o: Options, c: Cache, ops: seq<Op>, a: Key, b: Key)
    requires ValidOptions(o) && Wf(o, c) && c.compactor == [] && Before(After(o, c, ops).compactor, a, b)
    ensures JoinedAt(o, c, ops, a) <= JoinedAt(o, c, ops, b)
  {
    hide Wf, Apply, Joins, Before;
    if ops == [] {
      NothingBefore(a, b);
    } else {
      var n := |ops| - 1;
      var d := After(o, c, ops[..n]);
      RunKeeps(o, c, ops[..n]);
      JoinedBound(o, c, ops, a);
      if !Joins(o, d, ops[n], b) {
        StepJoins(o, d, ops[n], a, b);
        QueueIsByArrival(o, c, ops[..n], a, b);
      }
    }
  }
}
