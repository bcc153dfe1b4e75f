/** The shadow cache as the object it is, each operation tied to its value-level counterpart. */
module ShadowStore {
  import opened Protocol
  import opened ShadowCache
  import opened ShadowInvariants
  import S = ShadowCache
  import Compaction

  lemma OneMore(entries: map<Key, Entry>, ks: set<Key>, k: Key)
    requires k in entries && k !in ks
    ensures |Confirming(entries, ks + {k})| ==
            |Confirming(entries, ks)| + if k != "" && entries[k].pin == WriteConfirmPin then 1 else 0
  {
    var more := if k != "" && entries[k].pin == WriteConfirmPin then {k} else {};
    assert Confirming(entries, ks + {k}) == Confirming(entries, ks) + more;
  }

  lemma {:induction false} NextInList<T>(s: seq<T>, i: nat)
    requires Distinct(s) && i < |s|
    ensures Next(s, s[i]) == if i + 1 < |s| then Some(s[i + 1]) else None
  {
    if |s| >= 2 && i > 0 {
      NextInList(s[1..], i - 1);
    }
  }

  lemma NextFrom<T>(s: seq<T>, cursor: Option<T>, i: nat)
    requires Distinct(s) && i < |From(s, cursor)|
    ensures var rest := From(s, cursor); Next(s, rest[i]) == if i + 1 < |rest| then Some(rest[i + 1]) else None
  {
    hide Distinct, Next, From;
    FromIsSuffix(s, cursor);
    NextInList(s, |s| - |From(s, cursor)| + i);
  }

  lemma FromBegins<T>(s: seq<T>, cursor: Option<T>)
    requires Compaction.InList(s, cursor) && s != []
    ensures From(s, cursor) != []
    ensures From(s, cursor)[0] == if cursor.Some? then cursor.value else s[0]
  {
    if cursor.Some? {
      Compaction.FromStarts(s, cursor.value);
    }
  }

  /** The next `n` elements from the cursor on, or up to the end, and the place after them. */
  method TakeFrom<T(==)>(s: seq<T>, cursor: Option<T>, n: nat) returns (batch: seq<T>, next: Option<T>)
    requires Compaction.InList(s, cursor)
    ensures var rest := From(s, cursor);
            && batch == (if |rest| <= n then rest else rest[..n])
            && next == (if |rest| <= n then None else Some(rest[n]))
  {
    hide Distinct, Next, From;
    batch := [];
    if |s| == 0 {
      FromIsSuffix(s, cursor);
      next := None;
      return;
    }
    FromBegins(s, cursor);
    ghost var rest := From(s, cursor);
    next := if cursor.None? then Some(s[0]) else cursor;
    while |batch| < n && next.Some?
      invariant |batch| <= |rest| && |batch| <= n && batch == rest[..|batch|]
      invariant next == if |batch| < |rest| then Some(rest[|batch|]) else None
      decreases |rest| - |batch|
    {
      NextFrom(s, cursor, |batch|);
      batch := batch + [next.value];
      next := Next(s, next.value);
    }
  }

  class Store {
    const options: Options
    var catalog: map<Key, Descriptor>
    var activations: map<Key, set<Activation>>
    var degraded: bool
    var entries: map<Key, Entry>
    var keys: map<Key, KeyState>
    var lru: seq<Key>
    var compactor: seq<Key>
    var cursor: Option<Key>

    function Value(): Cache
      reads this
    {
      Cache(catalog, activations, degraded, entries, keys, lru, compactor, cursor)
    }

    ghost predicate Valid()
      reads this
    {
      ValidOptions(options) && Wf(options, Value())
    }

    constructor (options: Options, catalog: map<Key, Descriptor>, activations: map<Key, set<Activation>>, degraded: bool)
      requires ValidOptions(options)
      ensures Valid() && this.options == options && Value() == EmptyCache(catalog, activations, degraded)
    {
      this.options := options;
      this.catalog, this.activations, this.degraded := catalog, activations, degraded;
      entries, keys, lru, compactor, cursor := map[], map[], [], [], None;
    }

    method ApplyPin(k: Key, desired: Pin)
      requires k in entries
      modifies `entries, `lru
      ensures Value() == S.ApplyPin(old(Value()), k, desired)
    {
      var e := entries[k];
      if e.pin == desired {
        if desired == NoPin && !e.evictable {
          lru := lru + [k];
          entries := entries[k := e.(evictable := true)];
        }
        if desired != NoPin && e.evictable {
          lru := Without(lru, k);
          entries := entries[k := e.(evictable := false)];
          assert lru == lru + [];
        }
        return;
      }
      if e.evictable {
        lru := Without(lru, k);
        e := e.(evictable := false);
      }
      e := e.(pin := desired);
      if desired == NoPin {
        lru := lru + [k];
        e := e.(evictable := true);
      }
      entries := entries[k := e];
      assert lru == lru + [];
    }

    /** Counts one by one, leaving out the empty key. */
    method CountWriteConfirm() returns (total: nat)
      ensures total == WriteConfirmCount(Value())
    {
      var rest := entries.Keys;
      total := 0;
      while rest != {}
        invariant rest <= entries.Keys
        invariant total == |Confirming(entries, entries.Keys - rest)|
        decreases |rest|
      {
        var k :| k in rest;
        OneMore(entries, entries.Keys - rest, k);
        assert entries.Keys - (rest - {k}) == entries.Keys - rest + {k};
        rest := rest - {k};
        if k != "" && entries[k].pin == WriteConfirmPin {
          total := total + 1;
        }
      }
      assert entries.Keys - rest == entries.Keys;
    }

    method CanAdmit(k: Key) returns (ok: bool)
      ensures ok == CanAdmitWriteConfirm(options, Value(), k)
    {
      if k in entries && (entries[k].pin == StaticPin || entries[k].pin == WriteConfirmPin) {
        return true;
      }
      var count := CountWriteConfirm();
      return count < options.writeConfirmCap;
    }

    method SyncPin(k: Key)
      requires k in entries
      modifies `entries, `lru
      ensures Value() == S.SyncPin(options, old(Value()), k)
    {
      var e := entries[k];
      if e.descriptor.None? {
        return;
      }
      var desired := DesiredPin(e.descriptor, ActiveSources(Value(), k));
      if desired == StaticPin && degraded {
        desired := NoPin;
      }
      if desired == WriteConfirmPin {
        var ok := CanAdmit(k);
        if !ok {
          desired := NoPin;
        }
      }
      ApplyPin(k, desired);
    }

    method RemoveEntry(k: Key)
      modifies `entries, `keys, `lru, `compactor, `cursor
      ensures Value() == S.RemoveEntry(old(Value()), k)
    {
      if k !in entries {
        return;
      }
      if entries[k].evictable {
        lru := Without(lru, k);
      }
      if cursor == Some(k) {
        cursor := Next(compactor, k);
      }
      compactor := Without(compactor, k);
      entries := entries - {k};
      if k in keys {
        keys := keys[k := StoreAbsent(keys[k])];
      }
    }

    /** The eviction loop: the invariant is what makes it stop after one round. */
    method EnsureCapacity(desired: Pin) returns (ok: bool)
      requires Valid()
      modifies `entries, `keys, `lru, `compactor, `cursor
      ensures (Value(), ok) == S.EnsureCapacity(options, old(Value()), desired) && Valid()
    {
      ghost var c := Value();
      CapacityKeeps(options, c, desired);
      if |entries| < options.capacity {
        return true;
      }
      while |entries| >= options.capacity
        invariant Value() == if |entries| >= options.capacity || c.lru == [] then c else S.RemoveEntry(c, c.lru[0])
        invariant |c.entries| == options.capacity && Valid()
        decreases |entries|
      {
        if lru == [] {
          return false;
        }
        assert lru[0] in lru;
        At(options, Value(), lru[0]);
        RemoveKeeps(options, Value(), lru[0]);
        RemoveEntry(lru[0]);
      }
      if desired == WriteConfirmPin {
        var count := CountWriteConfirm();
        if count >= options.writeConfirmCap {
          return false;
        }
      }
      return true;
    }

    method Touch(k: Key)
      requires Valid() && k in entries && entries[k].pin == NoPin
      modifies `lru, `entries
      ensures Value() == S.Touch(old(Value()), k)
    {
      At(options, Value(), k);
      if !entries[k].evictable {
        assert false;
      }
      lru := Without(lru, k) + [k];
    }

    method Lookup(k: Key, maxAge: int, now: int) returns (r: Option<(Entry, bool)>)
      requires Valid()
      modifies `lru, `entries
      ensures (Value(), r) == S.Lookup(options, old(Value()), k, maxAge, now) && Valid()
    {
      LookupKeeps(options, Value(), k, maxAge, now);
      if k !in entries {
        return None;
      }
      SyncPinKeeps(options, Value(), k);
      SyncKeepsResidents(options, Value(), k);
      SyncPin(k);
      var e := entries[k];
      var eligible := LookupEligible(Value(), e, maxAge, now);
      if eligible && e.pin == NoPin {
        Touch(k);
      }
      return Some((e, eligible));
    }

    method EnsureKeyState(k: Key)
      modifies `keys
      ensures Value() == S.EnsureKeyState(old(Value()), k)
    {
      if k !in keys {
        keys := keys[k := NEW_KEY_STATE];
      }
    }

    method AdvanceGeneration(k: Key)
      requires k in entries && k in keys
      modifies `entries, `keys
      ensures Value() == S.AdvanceGeneration(old(Value()), k)
    {
      keys := keys[k := keys[k].(generation := keys[k].generation + 1)];
      entries := entries[k := entries[k].(generation := keys[k].generation)];
    }

    /**
     * The accepted value goes into the entry, the key state, the eviction list and the snapshot. The
     * entry has a generation already, so the branch that would give it its first one is dead.
     */
    method Accept(w: Write, d: Descriptor, ttl: int, pin: Pin)
      requires w.key in entries && w.key in keys && entries[w.key].generation >= 1
      modifies `entries, `keys, `lru
      ensures Value() == S.Accept(old(Value()), w, d, ttl, pin)
    {
      hide S.ApplyPin;
      var k := w.key;
      var e, st := entries[k], keys[k];
      e := e.(descriptor := Some(d), source := Some(w.source), state := Present, value := w.value,
              observedAt := Some(w.at), expiresAt := Some(w.at + ttl), invalidatedAt := None);
      if st.highWater.None? || w.at > st.highWater.value {
        st := st.(highWater := Some(w.at));
      }
      st := st.(invalidatedAt := None);
      e := e.(pin := pin);
      if e.generation == 0 {
        assert false;
      }
      st := st.(lastWriteGeneration := st.lastWriteGeneration + 1);
      e := e.(lastWriteGeneration := st.lastWriteGeneration);
      entries := entries[k := e];
      keys := keys[k := StoreSnapshot(e, st)];
      ApplyPin(k, pin);
    }

    method Insert(k: Key, d: Option<Descriptor>)
      modifies `entries, `compactor
      ensures Value() == S.Insert(old(Value()), k, d)
    {
      compactor := compactor + [k];
      entries := entries[k := Entry(d, None, Tombstone, [], None, None, 0, 0, None, NoPin, false)];
    }

    method WriteAdmitted(w: Write, d: Descriptor, pin: Pin) returns (r: WriteResult)
      requires Valid() && w.key in keys
      modifies `entries, `keys, `lru, `compactor, `cursor
      ensures (Value(), r) == S.WriteAdmitted(options, old(Value()), w, d, pin)
    {
      hide Wf, S.EnsureCapacity, S.Accept, S.Insert, S.AdvanceGeneration, RejectByPrecedence;
      var k := w.key;
      var st := keys[k];
      if w.source == ActiveConfirmed && st.generation != w.startGeneration {
        return Rejected(GenerationAdvanced, st.generation);
      }
      var rejection := RejectByPrecedence(st, EntryAt(Value(), k), w);
      if rejection.Some? {
        return Rejected(rejection.value, st.generation);
      }
      if d.ttl.None? || d.ttl.value <= 0 {
        return Rejected(PolicyReject, 0);
      }
      if k !in entries {
        var ok := EnsureCapacity(pin);
        if !ok {
          return Rejected(CapacityReject, 0);
        }
        r := AcceptNew(w, d, d.ttl.value, pin, st);
      } else {
        var generation := entries[k].generation;
        At(options, Value(), k);
        Accept(w, d, d.ttl.value, pin);
        r := Accepted(generation, st.lastWriteGeneration + 1);
      }
    }

    method AcceptNew(w: Write, d: Descriptor, ttl: int, pin: Pin, st: KeyState) returns (r: WriteResult)
      requires w.key in keys
      modifies `entries, `keys, `lru, `compactor
      ensures var c := S.AdvanceGeneration(S.Insert(old(Value()), w.key, Some(d)), w.key);
              Value() == S.Accept(c, w, d, ttl, pin)
      ensures r == Accepted(st.generation + 1, st.lastWriteGeneration + 1)
    {
      hide S.Accept;
      Insert(w.key, Some(d));
      AdvanceGeneration(w.key);
      Accept(w, d, ttl, pin);
      r := Accepted(st.generation + 1, st.lastWriteGeneration + 1);
    }

    method Write(w: Write) returns (r: WriteResult)
      requires Valid()
      modifies `entries, `keys, `lru, `compactor, `cursor
      ensures (Value(), r) == S.WriteTo(options, old(Value()), w) && Valid()
    {
      hide Wf, S.WriteAdmitted, CanAdmitWriteConfirm, S.SyncPin;
      var k := w.key;
      ghost var c := Value();
      WriteKeeps(options, c, w);
      if k !in catalog || catalog[k].debug || !w.confident {
        return Rejected(PolicyReject, 0);
      }
      if degraded {
        return Rejected(PolicyReject, 0);
      }
      var d := catalog[k];
      var sources := ActiveSources(Value(), k);
      if sources == {} {
        return Rejected(PolicyReject, 0);
      }
      EnsureKeyStateKeeps(options, c, k);
      SyncPinKeeps(options, S.EnsureKeyState(c, k), k);
      EnsureKeyState(k);
      var desired := DesiredPin(Some(d), sources);
      if desired == WriteConfirmPin {
        var ok := CanAdmit(k);
        if !ok {
          return Rejected(CapacityReject, 0);
        }
      }
      SyncMissing(options, Value(), k);
      if k in entries {
        SyncPin(k);
      }
      r := WriteAdmitted(w, d, desired);
    }

    method MarkInvalid(k: Key, at: int)
      modifies `keys
      ensures Value() == S.MarkInvalid(old(Value()), k, at)
    {
      EnsureKeyState(k);
      var st := keys[k];
      if st.invalidatedAt.None? || at > st.invalidatedAt.value {
        st := st.(invalidatedAt := Some(at));
      }
      if st.highWater.None? || at > st.highWater.value {
        st := st.(highWater := Some(at));
      }
      keys := keys[k := st];
    }

    method InvalidateAbsent(k: Key)
      requires k in keys
      modifies `keys
      ensures Value() == S.InvalidateAbsent(old(Value()), k)
    {
      var st := keys[k];
      st := st.(generation := st.generation + 1, lastWriteGeneration := st.lastWriteGeneration + 1);
      keys := keys[k := StoreAbsent(st)];
    }

    method InvalidateEntry(k: Key, d: Option<Descriptor>, pin: Pin)
      requires k in entries && k in keys
      modifies `entries, `keys, `lru
      ensures Value() == S.InvalidateEntry(old(Value()), k, d, pin)
    {
      hide S.ApplyPin;
      AdvanceGeneration(k);
      var e, st := entries[k], keys[k];
      e := e.(descriptor := d, state := Tombstone);
      if e.value != [] {
        e := e.(state := Invalidated);
      }
      e := e.(invalidatedAt := st.invalidatedAt, pin := pin);
      st := st.(lastWriteGeneration := st.lastWriteGeneration + 1);
      e := e.(lastWriteGeneration := st.lastWriteGeneration);
      entries := entries[k := e];
      keys := keys[k := StoreSnapshot(e, st)];
      ApplyPin(k, pin);
    }

    /** The pin an entry gets on invalidation, and the invalidation. */
    method InvalidateResident(k: Key, d: Option<Descriptor>, pin: Pin)
      requires k in entries && k in keys
      modifies `entries, `keys, `lru
      ensures var c := old(Value()); Value() == S.InvalidateEntry(c, k, d, AdmittedPin(options, c, k, pin))
    {
      hide S.InvalidateEntry, CanAdmitWriteConfirm;
      var desired := pin;
      if desired == WriteConfirmPin {
        var ok := CanAdmit(k);
        if !ok {
          desired := NoPin;
        }
      }
      InvalidateEntry(k, d, desired);
    }

    method InvalidateMissing(k: Key, d: Option<Descriptor>, pin: Pin)
      requires Valid() && k in keys && k !in entries
      modifies `entries, `keys, `lru, `compactor, `cursor
      ensures Value() == S.InvalidateMissing(options, old(Value()), k, d, pin)
    {
      hide Wf, S.EnsureCapacity, S.InvalidateEntry, S.InvalidateAbsent, CanAdmitWriteConfirm, AdmittedPin;
      if pin == WriteConfirmPin {
        var admitted := CanAdmit(k);
        if !admitted {
          InvalidateAbsent(k);
          return;
        }
      }
      var ok := EnsureCapacity(pin);
      if !ok {
        InvalidateAbsent(k);
        return;
      }
      Insert(k, d);
      InvalidateResident(k, d, pin);
    }

    method Invalidate(k: Key, at: int)
      requires Valid()
      modifies `entries, `keys, `lru, `compactor, `cursor
      ensures Value() == S.Invalidate(options, old(Value()), k, at) && Valid()
      ensures Generation(Value(), k) > Generation(old(Value()), k)
    {
      hide Wf, S.InvalidateEntry, S.InvalidateMissing, DesiredPin, AdmittedPin;
      ghost var c := Value();
      InvalidateKeeps(options, c, k, at);
      MarkInvalidKeeps(options, c, k, at);
      var d := if k in catalog then Some(catalog[k]) else None;
      var pin := DesiredPin(d, ActiveSources(Value(), k));
      MarkInvalid(k, at);
      if k in entries {
        InvalidateResident(k, d, pin);
      } else {
        InvalidateMissing(k, d, pin);
      }
    }

    method NextBatch() returns (batch: seq<Key>)
      requires Valid()
      modifies `cursor
      ensures batch == S.NextBatch(options, old(Value())) && Value() == S.AdvanceCursor(options, old(Value())) && Valid()
    {
      hide Wf, From;
      ghost var c := Value();
      AdvanceCursorKeeps(options, c);
      Compaction.WfCursor(options, c);
      batch, cursor := TakeFrom(compactor, cursor, options.batchSize);
    }

    method CompactKey(k: Key, now: int)
      modifies `entries, `keys, `lru, `compactor, `cursor
      ensures Value() == S.CompactKey(options, old(Value()), k, now)
    {
      hide CurrentPin, S.ApplyPin, S.RemoveEntry;
      if k !in entries {
        return;
      }
      SyncKeepsResidents(options, Value(), k);
      SyncPin(k);
      EnsureKeyState(k);
      if entries[k].state == Invalidated {
        if entries[k].invalidatedAt.None? || now - entries[k].invalidatedAt.value < options.retainWindow {
          return;
        }
        Bury(k);
      } else if entries[k].state == Tombstone {
        if entries[k].invalidatedAt.None? || now - entries[k].invalidatedAt.value < options.hardLifespan {
          return;
        }
        AdvanceGeneration(k);
        RemoveEntry(k);
      }
    }

    method Bury(k: Key)
      requires k in entries && k in keys
      modifies `entries, `keys
      ensures Value() == S.Bury(old(Value()), k)
    {
      AdvanceGeneration(k);
      var e := entries[k].(state := Tombstone, value := []);
      var st := keys[k].(lastWriteGeneration := keys[k].lastWriteGeneration + 1);
      e := e.(lastWriteGeneration := st.lastWriteGeneration);
      entries := entries[k := e];
      keys := keys[k := StoreSnapshot(e, st)];
    }

    method CompactBatch(batch: seq<Key>, now: int)
      requires Valid()
      modifies `entries, `keys, `lru, `compactor, `cursor
      ensures Value() == CompactKeys(options, old(Value()), batch, now) && Valid()
    {
      hide Wf, S.CompactKey;
      ghost var c := Value();
      for i := 0 to |batch|
        invariant Value() == CompactKeys(options, c, batch[..i], now)
      {
        CompactKey(batch[i], now);
        assert batch[..i + 1][..i] == batch[..i];
      }
      assert batch[..|batch|] == batch;
      CompactKeysKeeps(options, c, batch, now);
    }

    /** One pass; `clock` gives the time at which each round runs. */
    method CompactOnce(clock: nat -> int)
      requires Valid()
      modifies `entries, `keys, `lru, `compactor, `cursor
      ensures Value() == Compaction.Pass(options, old(Value()), clock) && Valid()
    {
      hide Wf, S.NextBatch, S.AdvanceCursor, CompactKeys;
      ghost var c := Value();
      var remaining := |compactor|;
      var i: nat := 0;
      while remaining > 0
        invariant Valid()
        invariant Compaction.Rounds(options, Value(), remaining, clock, i) == Compaction.Pass(options, c, clock)
      {
        var batch := NextBatch();
        if batch == [] {
          break;
        }
        CompactBatch(batch, clock(i));
        remaining, i := remaining - |batch|, i + 1;
      }
    }

    method SyncAll(order: seq<Key>)
      requires forall k :: k in order ==> k in entries
      modifies `entries, `lru
      ensures Value() == SyncPins(options, old(Value()), order)
    {
      hide S.SyncPin;
      ghost var c := Value();
      for i := 0 to |order|
        invariant entries.Keys == c.entries.Keys
        invariant Value() == SyncPins(options, c, order[..i])
      {
        assert order[i] in order;
        SyncKeepsResidents(options, Value(), order[i]);
        SyncPin(order[i]);
        assert order[..i + 1][..i] == order[..i];
      }
      assert order[..|order|] == order;
    }
  }
}
