/**
 * The budget of entries pinned to confirm writes. The admission test looks at the count, but lets
 * every pinned entry pass, so a key that loses its poller and is left to write confirmation can
 * exceed the cap. Short of that the cap holds in every run.
 */
module ShadowBudget {
  import opened Protocol
  import opened Runs
  import opened ShadowCache
  import opened ShadowInvariants
  import opened ShadowViews
  import opened ShadowAdmission

  predicate WithinCap(o: Options, c: Cache) {
    WriteConfirmCount(c) <= o.writeConfirmCap
  }

  /** The activations ask for a pin to confirm writes. */
  predicate ForConfirmation(sources: set<Activation>) {
    WriteConfirm in sources && Poller !in sources
  }

  function SourcesIn(activations: map<Key, set<Activation>>, k: Key): set<Activation> {
    if k in activations then activations[k] else {}
  }

  /** No statically pinned entry is left to write confirmation under these activations. */
  ghost predicate NoneDemoted(c: Cache, activations: map<Key, set<Activation>>) {
    forall k :: k in c.entries && k != "" && c.entries[k].pin == StaticPin ==> !ForConfirmation(SourcesIn(activations, k))
  }

  /** What every step keeps: the cap, and the reason why it holds. */
  ghost predicate Budgeted(o: Options, c: Cache) {
    WithinCap(o, c) && NoneDemoted(c, c.activations)
  }

  // ---- one key's pin ----

  /** From `c` to `d` at most the pin of `k` changed, and entries other than `k` may be gone. */
  ghost predicate OnlyPin(c: Cache, d: Cache, k: Key) {
    && c.activations == d.activations
    && forall j :: j in d.entries && j != k ==> j in c.entries && c.entries[j].pin == d.entries[j].pin
  }

  predicate Confirms(c: Cache, k: Key) {
    k in c.entries && k != "" && c.entries[k].pin == WriteConfirmPin
  }

  /** The count with one key's pin changed, and perhaps others gone. */
  lemma CountMoves(c: Cache, d: Cache, k: Key)
    requires OnlyPin(c, d, k)
    ensures WriteConfirmCount(d) <= WriteConfirmCount(c) + One(Confirms(d, k)) - One(Confirms(c, k))
  {
    var before, now := Confirming(c.entries, c.entries.Keys), Confirming(d.entries, d.entries.Keys);
    assert k in before <==> Confirms(c, k);
    assert k in now <==> Confirms(d, k);
    WithoutOne(before, k);
    WithoutOne(now, k);
    assert now - {k} <= before - {k};
    SmallerSet(now - {k}, before - {k});
  }

  lemma WithoutOne(s: set<Key>, x: Key)
    ensures |s - {x}| == |s| - One(x in s)
  {
    if x !in s {
      assert s - {x} == s;
    }
  }

  lemma SmallerSet(a: set<Key>, b: set<Key>)
    requires a <= b
    ensures |a| <= |b|
  {
    assert b == a + (b - a);
  }

  /** The count with one key's pin changed and all others still there. */
  lemma CountMovesExactly(c: Cache, d: Cache, k: Key)
    requires OnlyPin(c, d, k) && OnlyPin(d, c, k)
    ensures WriteConfirmCount(d) == WriteConfirmCount(c) + One(Confirms(d, k)) - One(Confirms(c, k))
  {
    CountMoves(c, d, k);
    CountMoves(d, c, k);
  }

  /** A change of one pin keeps the budget when the pin is owed to the poller, or there is a place for it. */
  lemma PinBudgeted(o: Options, c: Cache, d: Cache, k: Key)
    requires Budgeted(o, c) && OnlyPin(c, d, k)
    requires k in d.entries && k != "" && d.entries[k].pin == StaticPin ==> !ForConfirmation(ActiveSources(c, k))
    requires Confirms(d, k) ==> Confirms(c, k) || WriteConfirmCount(c) < o.writeConfirmCap
    ensures Budgeted(o, d)
  {
    hide WriteConfirmCount;
    CountMoves(c, d, k);
  }

  // ---- the operations ----

  lemma ApplyPinOnly(c: Cache, k: Key, pin: Pin)
    requires k in c.entries
    ensures var d := ApplyPin(c, k, pin);
            OnlyPin(c, d, k) && OnlyPin(d, c, k) && k in d.entries && d.entries[k].pin == pin
  {
    hide Without;
  }

  /** An admitted key that is not demoted confirms writes already, or there is a place for it. */
  lemma AdmittedHasPlace(o: Options, c: Cache, k: Key)
    requires NoneDemoted(c, c.activations) && ForConfirmation(ActiveSources(c, k)) && CanAdmitWriteConfirm(o, c, k)
    ensures k == "" || Confirms(c, k) || WriteConfirmCount(c) < o.writeConfirmCap
  {
  }

  lemma SyncBudgeted(o: Options, c: Cache, k: Key)
    requires Budgeted(o, c)
    ensures Budgeted(o, SyncPin(o, c, k))
  {
    hide Budgeted, ApplyPin, CanAdmitWriteConfirm, WriteConfirmCount;
    if k in c.entries && c.entries[k].descriptor.Some? {
      var pin := CurrentPin(o, c, k);
      ApplyPinOnly(c, k, pin);
      assert NoneDemoted(c, c.activations) by { BudgetParts(o, c); }
      if pin == WriteConfirmPin {
        AdmittedHasPlace(o, c, k);
      }
      PinBudgeted(o, c, ApplyPin(c, k, pin), k);
    }
  }

  lemma BudgetParts(o: Options, c: Cache)
    ensures Budgeted(o, c) <==> WithinCap(o, c) && NoneDemoted(c, c.activations)
  {
  }

  lemma {:induction false} SyncsBudgeted(o: Options, c: Cache, order: seq<Key>)
    requires Budgeted(o, c)
    ensures Budgeted(o, SyncPins(o, c, order))
  {
    hide SyncPin, Budgeted;
    if order != [] {
      var n := |order| - 1;
      SyncsBudgeted(o, c, order[..n]);
      SyncBudgeted(o, SyncPins(o, c, order[..n]), order[n]);
    }
  }

  lemma AcceptOnly(c: Cache, w: Write, d: Descriptor, ttl: int, pin: Pin)
    requires w.key in c.entries && w.key in c.keys
    ensures var r := Accept(c, w, d, ttl, pin);
            OnlyPin(c, r, w.key) && OnlyPin(r, c, w.key) && w.key in r.entries && r.entries[w.key].pin == pin
  {
    hide Without, StoreSnapshot, Later;
  }

  lemma InvalidateEntryOnly(c: Cache, k: Key, d: Option<Descriptor>, pin: Pin)
    requires k in c.entries && k in c.keys
    ensures var r := InvalidateEntry(c, k, d, pin);
            OnlyPin(c, r, k) && OnlyPin(r, c, k) && k in r.entries && r.entries[k].pin == pin
  {
    hide Without, StoreSnapshot;
  }

  /** Making room takes no pinned entry and so changes no count. */
  lemma CapacityOnly(o: Options, c: Cache, pin: Pin, k: Key)
    requires Wf(o, c)
    ensures var d := EnsureCapacity(o, c, pin).0; OnlyPin(c, d, k) && WriteConfirmCount(d) == WriteConfirmCount(c)
    ensures k !in c.entries ==> k !in EnsureCapacity(o, c, pin).0.entries
  {
    hide Wf, Without, Next;
    if c.lru != [] {
      FirstIsUnpinned(o, c);
      EvictionKeepsCount(c, c.lru[0]);
    }
  }

  lemma InsertOnly(c: Cache, k: Key, d: Option<Descriptor>)
    requires k !in c.entries
    ensures OnlyPin(c, Insert(c, k, d), k) && WriteConfirmCount(Insert(c, k, d)) == WriteConfirmCount(c)
  {
    var r := Insert(c, k, d);
    assert Confirming(r.entries, r.entries.Keys) == Confirming(c.entries, c.entries.Keys);
  }

  lemma OnlyPinTrans(c: Cache, d: Cache, e: Cache, k: Key)
    requires OnlyPin(c, d, k) && OnlyPin(d, e, k)
    ensures OnlyPin(c, e, k)
  {
  }

  /** The place a write needs for its pin. */
  predicate HasPlace(o: Options, c: Cache, k: Key, pin: Pin) {
    pin == WriteConfirmPin ==> k == "" || Confirms(c, k) || WriteConfirmCount(c) < o.writeConfirmCap
  }

  /** A new entry for `k`, whatever had to go for it. */
  lemma NewEntryOnly(o: Options, c: Cache, w: Write, d: Descriptor, ttl: int, pin: Pin)
    requires Wf(o, c) && w.key !in c.entries && w.key in c.keys
    ensures var r := Accept(AdvanceGeneration(Insert(EnsureCapacity(o, c, pin).0, w.key, Some(d)), w.key), w, d, ttl, pin);
            OnlyPin(c, r, w.key) && r.entries[w.key].pin == pin
  {
    hide Wf, EnsureCapacity, Accept, WriteConfirmCount;
    CapacityOnly(o, c, pin, w.key);
    var c1 := AdvanceGeneration(Insert(EnsureCapacity(o, c, pin).0, w.key, Some(d)), w.key);
    AcceptOnly(c1, w, d, ttl, pin);
    OnlyPinTrans(c, c1, Accept(c1, w, d, ttl, pin), w.key);
  }

  lemma WriteAdmittedBudgeted(o: Options, c: Cache, w: Write, d: Descriptor, pin: Pin)
    requires Wf(o, c) && Budgeted(o, c) && w.key in c.keys
    requires pin == StaticPin ==> !ForConfirmation(ActiveSources(c, w.key))
    requires HasPlace(o, c, w.key, pin)
    ensures Budgeted(o, WriteAdmitted(o, c, w, d, pin).0)
  {
    hide Wf, Budgeted, RejectByPrecedence, EnsureCapacity, Accept, AdvanceGeneration, Insert, WriteConfirmCount;
    var k := w.key;
    var r := WriteAdmitted(o, c, w, d, pin).0;
    if k in c.entries {
      if d.ttl.Some? {
        AcceptOnly(c, w, d, d.ttl.value, pin);
      }
    } else {
      CapacityOnly(o, c, pin, k);
      if d.ttl.Some? {
        NewEntryOnly(o, c, w, d, d.ttl.value, pin);
      }
    }
    if r != c {
      PinBudgeted(o, c, r, k);
    }
  }

  /** After synchronising the key of an admitted write, there is still a place for its pin. */
  lemma SyncKeepsPlace(o: Options, c: Cache, k: Key)
    requires Budgeted(o, c) && ForConfirmation(ActiveSources(c, k)) && CanAdmitWriteConfirm(o, c, k)
    ensures HasPlace(o, SyncPin(o, c, k), k, WriteConfirmPin)
  {
    hide ApplyPin, CanAdmitWriteConfirm, WriteConfirmCount;
    AdmittedHasPlace(o, c, k);
    if k in c.entries && c.entries[k].descriptor.Some? {
      ApplyPinOnly(c, k, CurrentPin(o, c, k));
      CountMoves(c, SyncPin(o, c, k), k);
    }
  }

  lemma SamePins(o: Options, c: Cache, d: Cache)
    requires c.entries == d.entries && c.activations == d.activations
    ensures Budgeted(o, c) <==> Budgeted(o, d)
    ensures WriteConfirmCount(c) == WriteConfirmCount(d)
  {
  }

  lemma WriteBudgeted(o: Options, c: Cache, w: Write)
    requires Wf(o, c) && Budgeted(o, c)
    ensures Budgeted(o, WriteTo(o, c, w).0)
  {
    hide Wf, Budgeted, WriteAdmitted, CanAdmitWriteConfirm, SyncPin;
    var k := w.key;
    if k in c.catalog {
      var d := c.catalog[k];
      var c1 := EnsureKeyState(c, k);
      SamePins(o, c, c1);
      EnsureKeyStateKeeps(o, c, k);
      SyncPinKeeps(o, c1, k);
      SyncKeepsKeys(o, c1, k);
      SyncSpares(o, c1, k, k);
      SyncBudgeted(o, c1, k);
      var pin := DesiredPin(Some(d), ActiveSources(c, k));
      if pin == WriteConfirmPin && CanAdmitWriteConfirm(o, c1, k) {
        SyncKeepsPlace(o, c1, k);
      }
      if pin == WriteConfirmPin ==> CanAdmitWriteConfirm(o, c1, k) {
        WriteAdmittedBudgeted(o, SyncPin(o, c1, k), w, d, pin);
      }
    }
  }

  lemma EntryInvalidationBudgeted(o: Options, c: Cache, k: Key, d: Option<Descriptor>, pin: Pin)
    requires Budgeted(o, c) && k in c.entries && k in c.keys && pin == DesiredPin(d, ActiveSources(c, k))
    ensures Budgeted(o, InvalidateEntry(c, k, d, AdmittedPin(o, c, k, pin)))
  {
    hide Budgeted, InvalidateEntry, CanAdmitWriteConfirm, WriteConfirmCount;
    var p := AdmittedPin(o, c, k, pin);
    BudgetParts(o, c);
    InvalidateEntryOnly(c, k, d, p);
    if p == WriteConfirmPin {
      AdmittedHasPlace(o, c, k);
    }
    PinBudgeted(o, c, InvalidateEntry(c, k, d, p), k);
  }

  lemma MissingInvalidationBudgeted(o: Options, c: Cache, k: Key, d: Option<Descriptor>, pin: Pin)
    requires Wf(o, c) && Budgeted(o, c) && k !in c.entries && k in c.keys && pin == DesiredPin(d, ActiveSources(c, k))
    ensures Budgeted(o, InvalidateMissing(o, c, k, d, pin))
  {
    hide Wf, Budgeted, EnsureCapacity, InvalidateEntry, AdmittedPin, CanAdmitWriteConfirm, WriteConfirmCount;
    var c1 := EnsureCapacity(o, c, pin).0;
    CapacityOnly(o, c, pin, k);
    PinBudgeted(o, c, c1, k);
    SamePins(o, c1, InvalidateAbsent(c1, k));
    SamePins(o, c, InvalidateAbsent(c, k));
    var c2 := Insert(c1, k, d);
    InsertOnly(c1, k, d);
    PinBudgeted(o, c1, c2, k);
    EntryInvalidationBudgeted(o, c2, k, d, pin);
  }

  lemma InvalidateBudgeted(o: Options, c: Cache, k: Key, at: int)
    requires Wf(o, c) && Budgeted(o, c)
    ensures Budgeted(o, Invalidate(o, c, k, at))
  {
    hide Wf, Budgeted, InvalidateEntry, InvalidateMissing, AdmittedPin, Later;
    var d := if k in c.catalog then Some(c.catalog[k]) else None;
    var pin := DesiredPin(d, ActiveSources(c, k));
    var c1 := MarkInvalid(c, k, at);
    MarkInvalidKeeps(o, c, k, at);
    SamePins(o, c, c1);
    if k in c1.entries {
      EntryInvalidationBudgeted(o, c1, k, d, pin);
    } else {
      MissingInvalidationBudgeted(o, c1, k, d, pin);
    }
  }

  /** Burying and removing change no pin. */
  lemma CompactSyncedOnly(o: Options, c: Cache, k: Key, now: int)
    requires k in c.entries && k in c.keys
    ensures var d := CompactSynced(o, c, k, now);
            OnlyPin(c, d, k) && (k in d.entries ==> d.entries[k].pin == c.entries[k].pin)
  {
    hide Without, Next, StoreSnapshot, StoreAbsent;
  }

  lemma CompactKeyBudgeted(o: Options, c: Cache, k: Key, now: int)
    requires Budgeted(o, c)
    ensures Budgeted(o, CompactKey(o, c, k, now))
  {
    hide Budgeted, SyncPin, CompactSynced, WriteConfirmCount;
    if k in c.entries {
      SyncBudgeted(o, c, k);
      SyncKeepsResidents(o, c, k);
      var c1 := EnsureKeyState(SyncPin(o, c, k), k);
      SamePins(o, SyncPin(o, c, k), c1);
      BudgetParts(o, c1);
      CompactSyncedOnly(o, c1, k, now);
      PinBudgeted(o, c1, CompactSynced(o, c1, k, now), k);
    }
  }

  lemma {:induction false} CompactBudgeted(o: Options, c: Cache, batch: seq<Key>, now: int)
    requires Budgeted(o, c)
    ensures Budgeted(o, CompactKeys(o, c, batch, now))
  {
    hide Budgeted, CompactKey;
    if batch != [] {
      var n := |batch| - 1;
      CompactBudgeted(o, c, batch[..n], now);
      CompactKeyBudgeted(o, CompactKeys(o, c, batch[..n], now), batch[n], now);
    }
  }

  /** Reconfiguring demotes no statically pinned entry. */
  ghost predicate Gentle(c: Cache, op: Op) {
    op.DoReconfigure? ==> NoneDemoted(c, op.activations)
  }

  lemma ReconfigureBudgeted(o: Options, c: Cache, op: Op)
    requires Budgeted(o, c) && op.DoReconfigure? && Gentle(c, op)
    ensures Budgeted(o, Apply(o, c, op))
  {
    var c1 := c.(catalog := op.catalog, activations := op.activations, degraded := op.degraded);
    var c2 := Upgrade(c1, op.upgraded);
    assert Confirming(c2.entries, c2.entries.Keys) == Confirming(c.entries, c.entries.Keys);
    assert Budgeted(o, c2);
    SyncsBudgeted(o, c2, op.order);
  }

  lemma StepBudgeted(o: Options, c: Cache, op: Op)
    requires Wf(o, c) && Budgeted(o, c) && Gentle(c, op)
    ensures Budgeted(o, Apply(o, c, op))
  {
    hide Wf, Budgeted, WriteTo, Invalidate, SyncPins, SyncPin, CompactKeys, LookupEligible, Gentle;
    match op
    case DoWrite(w) => WriteBudgeted(o, c, w);
    case DoInvalidate(k, at) => InvalidateBudgeted(o, c, k, at);
    case DoLookup(k, maxAge, now) =>
      SyncBudgeted(o, c, k);
      SyncKeepsResidents(o, c, k);
      SyncMissing(o, c, k);
      SamePins(o, SyncPin(o, c, k), Apply(o, c, op));
    case DoSync(order) => SyncsBudgeted(o, c, order);
    case DoReconfigure(_, _, _, _, _) => ReconfigureBudgeted(o, c, op);
    case DoNextBatch => SamePins(o, c, Apply(o, c, op));
    case DoCompact(batch, now) => CompactBudgeted(o, c, batch, now);
  }

  /** Every reconfiguration of the run is gentle where it comes. */
  ghost predicate GentleRun(o: Options, c: Cache, ops: seq<Op>) {
    forall i :: 0 <= i < |ops| ==> Gentle(After(o, c, ops[..i]), ops[i])
  }

  lemma {:induction false} RunBudgeted(o: Options, c: Cache, ops: seq<Op>)
    requires Wf(o, c) && ValidOptions(o) && Budgeted(o, c) && GentleRun(o, c, ops)
    ensures Budgeted(o, After(o, c, ops))
  {
    hide Wf, Apply, Budgeted, Gentle;
    if ops != [] {
      var n := |ops| - 1;
      forall i | 0 <= i < n ensures Gentle(After(o, c, ops[..n][..i]), ops[..n][i]) {
        assert ops[..n][..i] == ops[..i];
        assert Gentle(After(o, c, ops[..i]), ops[i]);
      }
      RunBudgeted(o, c, ops[..n]);
      RunKeeps(o, c, ops[..n]);
      assert Gentle(After(o, c, ops[..n]), ops[n]);
      StepBudgeted(o, After(o, c, ops[..n]), ops[n]);
    }
  }

  /**
   * Over every run in which no reconfiguration takes the poller from a statically pinned entry and
   * leaves it to write confirmation, no more entries are pinned to confirm writes than the cap allows.
   */
  lemma CapHolds(o: Options, catalog: map<Key, Descriptor>, activations: map<Key, set<Activation>>, degraded: bool,
                 ops: seq<Op>)
    requires ValidOptions(o) && o.writeConfirmCap >= 0 && GentleRun(o, EmptyCache(catalog, activations, degraded), ops)
    ensures WriteConfirmCount(After(o, EmptyCache(catalog, activations, degraded), ops)) <= o.writeConfirmCap
  {
    var c := EmptyCache(catalog, activations, degraded);
    assert Confirming(c.entries, c.entries.Keys) == {};
    RunBudgeted(o, c, ops);
  }

  // ---- the exact condition ----

  /** The next synchronisation turns the static pin of `k` into one that confirms writes. */
  predicate Demoted(c: Cache, k: Key) {
    && k in c.entries && k != "" && c.entries[k].pin == StaticPin && c.entries[k].descriptor.Some?
    && !c.entries[k].descriptor.value.debug && ForConfirmation(ActiveSources(c, k))
  }

  /** Synchronising one entry exceeds the cap if and only if the cap is reached and that entry is demoted. */
  lemma SyncExceedsExactly(o: Options, c: Cache, k: Key)
    requires WithinCap(o, c)
    ensures !WithinCap(o, SyncPin(o, c, k)) <==> WriteConfirmCount(c) == o.writeConfirmCap && Demoted(c, k)
  {
    hide ApplyPin, WriteConfirmCount;
    if k in c.entries && c.entries[k].descriptor.Some? {
      ApplyPinOnly(c, k, CurrentPin(o, c, k));
      CountMovesExactly(c, SyncPin(o, c, k), k);
    }
  }

  /** At this point of a synchronisation the cap is reached and the next entry is demoted. */
  predicate Overruns(o: Options, c: Cache, order: seq<Key>, i: int)
    requires 0 <= i < |order|
  {
    var d := SyncPins(o, c, order[..i]);
    WriteConfirmCount(d) == o.writeConfirmCap && Demoted(d, order[i])
  }

  /** Synchronising all entries stays within the cap throughout if and only if it never overruns. */
  lemma {:induction false} SyncsExceedExactly(o: Options, c: Cache, order: seq<Key>)
    requires WithinCap(o, c)
    ensures (forall i :: 0 <= i <= |order| ==> WithinCap(o, SyncPins(o, c, order[..i]))) <==>
            (forall i :: 0 <= i < |order| ==> !Overruns(o, c, order, i))
  {
    hide SyncPin, WithinCap, Demoted, WriteConfirmCount;
    if forall i :: 0 <= i <= |order| ==> WithinCap(o, SyncPins(o, c, order[..i])) {
      forall i | 0 <= i < |order| ensures !Overruns(o, c, order, i) {
        SyncsOneMore(o, c, order, i);
        SyncExceedsExactly(o, SyncPins(o, c, order[..i]), order[i]);
      }
    }
    if forall i :: 0 <= i < |order| ==> !Overruns(o, c, order, i) {
      forall i | 0 <= i <= |order| ensures WithinCap(o, SyncPins(o, c, order[..i])) {
        StaysWithin(o, c, order, i);
      }
    }
  }

  lemma SyncsOneMore(o: Options, c: Cache, order: seq<Key>, i: int)
    requires 0 <= i < |order|
    ensures SyncPins(o, c, order[..i + 1]) == SyncPin(o, SyncPins(o, c, order[..i]), order[i])
  {
    hide SyncPin;
    assert order[..i + 1][..i] == order[..i];
  }

  lemma {:induction false} StaysWithin(o: Options, c: Cache, order: seq<Key>, n: int)
    requires WithinCap(o, c) && 0 <= n <= |order| && forall i :: 0 <= i < |order| ==> !Overruns(o, c, order, i)
    ensures WithinCap(o, SyncPins(o, c, order[..n]))
    decreases n
  {
    hide SyncPin, WithinCap, Demoted, WriteConfirmCount;
    if n > 0 {
      StaysWithin(o, c, order, n - 1);
      assert !Overruns(o, c, order, n - 1);
      SyncsOneMore(o, c, order, n - 1);
      SyncExceedsExactly(o, SyncPins(o, c, order[..n - 1]), order[n - 1]);
    }
  }

  /** An invalidation exceeds the cap if and only if the cap is reached and it demotes a resident key. */
  lemma InvalidateExceedsExactly(o: Options, c: Cache, k: Key, at: int)
    requires Wf(o, c) && WithinCap(o, c)
    ensures !WithinCap(o, Invalidate(o, c, k, at)) <==>
            && WriteConfirmCount(c) == o.writeConfirmCap && k in c.entries && k != "" && c.entries[k].pin == StaticPin
            && ForConfirmation(ActiveSources(c, k)) && !(k in c.catalog && c.catalog[k].debug)
  {
    hide Wf, WriteConfirmCount, InvalidateEntry, InvalidateMissing, Later;
    var d := if k in c.catalog then Some(c.catalog[k]) else None;
    var pin := DesiredPin(d, ActiveSources(c, k));
    var c1 := MarkInvalid(c, k, at);
    MarkInvalidKeeps(o, c, k, at);
    SamePins(o, c, c1);
    if k in c1.entries {
      InvalidateEntryOnly(c1, k, d, AdmittedPin(o, c1, k, pin));
      CountMovesExactly(c1, Invalidate(o, c, k, at), k);
    } else {
      MissingWithinCap(o, c1, k, d, pin);
    }
  }

  lemma MissingWithinCap(o: Options, c: Cache, k: Key, d: Option<Descriptor>, pin: Pin)
    requires Wf(o, c) && WithinCap(o, c) && k !in c.entries && k in c.keys
    ensures WithinCap(o, InvalidateMissing(o, c, k, d, pin))
  {
    hide Wf, EnsureCapacity, InvalidateEntry, WriteConfirmCount;
    var c1 := EnsureCapacity(o, c, pin).0;
    CapacityOnly(o, c, pin, k);
    SamePins(o, c1, InvalidateAbsent(c1, k));
    SamePins(o, c, InvalidateAbsent(c, k));
    var c2 := Insert(c1, k, d);
    InsertOnly(c1, k, d);
    InvalidateEntryOnly(c2, k, d, AdmittedPin(o, c2, k, pin));
    CountMoves(c2, InvalidateEntry(c2, k, d, AdmittedPin(o, c2, k, pin)), k);
  }

  /** What the policy asks of a write before anything is looked at. */
  predicate Considered(c: Cache, w: Write) {
    && w.key in c.catalog && !c.catalog[w.key].debug && w.confident && !c.degraded && ActiveSources(c, w.key) != {}
  }

  /** Only an accepted write changes the pins after the synchronisation. */
  lemma AdmittedPins(o: Options, c: Cache, w: Write, d: Descriptor, pin: Pin)
    requires w.key in c.keys && w.key in c.entries
    ensures var r := WriteAdmitted(o, c, w, d, pin);
            if r.1.Accepted? then
              OnlyPin(c, r.0, w.key) && OnlyPin(r.0, c, w.key) && w.key in r.0.entries && r.0.entries[w.key].pin == pin
            else
              r.0 == c
  {
    hide RejectByPrecedence, Accept;
    if d.ttl.Some? {
      AcceptOnly(c, w, d, d.ttl.value, pin);
    }
  }

  lemma EnteringWithinCap(o: Options, c: Cache, w: Write, d: Descriptor, pin: Pin)
    requires Wf(o, c) && WithinCap(o, c) && w.key in c.keys && w.key !in c.entries
    requires pin == WriteConfirmPin ==> CanAdmitWriteConfirm(o, c, w.key)
    ensures WithinCap(o, WriteAdmitted(o, c, w, d, pin).0)
  {
    hide Wf, RejectByPrecedence, EnsureCapacity, Accept, AdvanceGeneration, Insert, WriteConfirmCount;
    CapacityOnly(o, c, pin, w.key);
    if d.ttl.Some? {
      NewEntryOnly(o, c, w, d, d.ttl.value, pin);
    }
    CountMoves(c, WriteAdmitted(o, c, w, d, pin).0, w.key);
  }

  /**
   * A write exceeds the cap if and only if the cap is reached and it demotes a resident key, by the
   * synchronisation that precedes it or by being accepted.
   */
  lemma WriteExceedsExactly(o: Options, c: Cache, w: Write)
    requires Wf(o, c) && WithinCap(o, c)
    ensures !WithinCap(o, WriteTo(o, c, w).0) <==>
            && WriteConfirmCount(c) == o.writeConfirmCap && Considered(c, w)
            && w.key in c.entries && w.key != "" && c.entries[w.key].pin == StaticPin
            && ForConfirmation(ActiveSources(c, w.key)) && (Demoted(c, w.key) || WriteTo(o, c, w).1.Accepted?)
  {
    hide Wf, WriteAdmitted, WriteConfirmCount, ApplyPin;
    var k := w.key;
    if Considered(c, w) {
      var d := c.catalog[k];
      var c1 := EnsureKeyState(c, k);
      var c2 := SyncPin(o, c1, k);
      var pin := DesiredPin(Some(d), ActiveSources(c, k));
      SamePins(o, c, c1);
      EnsureKeyStateKeeps(o, c, k);
      SyncKeepsKeys(o, c1, k);
      if pin != WriteConfirmPin || CanAdmitWriteConfirm(o, c1, k) {
        if k in c.entries {
          ResidentPins(o, c1, w, d, pin);
        } else {
          EnteringWithinCap(o, c1, w, d, pin);
        }
      }
    }
  }

  /** The count across a considered write of a resident key: synchronised, then perhaps accepted. */
  lemma ResidentPins(o: Options, c: Cache, w: Write, d: Descriptor, pin: Pin)
    requires w.key in c.keys && w.key in c.entries && w.key in SyncPin(o, c, w.key).keys
    ensures w.key in SyncPin(o, c, w.key).entries
    ensures var r := WriteAdmitted(o, SyncPin(o, c, w.key), w, d, pin);
            var now := if r.1.Accepted? then pin
                       else if c.entries[w.key].descriptor.Some? then CurrentPin(o, c, w.key)
                       else c.entries[w.key].pin;
            && WriteConfirmCount(r.0) == WriteConfirmCount(c) + One(now == WriteConfirmPin && w.key != "") - One(Confirms(c, w.key))
  {
    hide WriteAdmitted, WriteConfirmCount, CurrentPin, ApplyPin;
    var k := w.key;
    var c2 := SyncPin(o, c, k);
    if c.entries[k].descriptor.Some? {
      ApplyPinOnly(c, k, CurrentPin(o, c, k));
    }
    AdmittedPins(o, c2, w, d, pin);
    var r := WriteAdmitted(o, c2, w, d, pin).0;
    OnlyPinTrans(c, c2, r, k);
    OnlyPinTrans(r, c2, c, k);
    CountMovesExactly(c, r, k);
  }

  // ---- a run that exceeds the cap ----

  const NO_CONFIRMATION := Options(1, 0, 1, 1, 1)
  const ONE_KEY: map<Key, Descriptor> := map["k" := Descriptor(false, Some(1))]
  const POLLED := EmptyCache(ONE_KEY, map["k" := {Poller}], false)
  const FIRST_WRITE := Write("k", Passive, true, [], 0, 0)

  /** The polled key gets a statically pinned entry. */
  lemma PolledGetsEntry()
    ensures var r := WriteTo(NO_CONFIRMATION, POLLED, FIRST_WRITE).0;
            && r.entries.Keys == {"k"} && r.entries["k"].pin == StaticPin && r.entries["k"].descriptor == Some(ONE_KEY["k"])
  {
    hide Without;
    assert POLLED.entries == map[];
    assert ActiveSources(POLLED, "k") == {Poller};
  }

  /** The cap fails on this run: with no place to confirm writes, a polled key is left to write confirmation. */
  lemma CapCanFail()
    ensures var ops := [DoWrite(FIRST_WRITE), DoReconfigure(ONE_KEY, map["k" := {WriteConfirm}], false, None, ["k"])];
            WriteConfirmCount(After(NO_CONFIRMATION, POLLED, ops)) == 1
  {
    hide WriteTo, Without;
    var o, wr := NO_CONFIRMATION, DoWrite(FIRST_WRITE);
    var re := DoReconfigure(ONE_KEY, map["k" := {WriteConfirm}], false, None, ["k"]);
    PolledGetsEntry();
    var c1 := WriteTo(o, POLLED, FIRST_WRITE).0;
    var c2 := c1.(catalog := ONE_KEY, activations := map["k" := {WriteConfirm}], degraded := false);
    RunAppend(Shadow(o), POLLED, [wr], re);
    RunAppend(Shadow(o), POLLED, [], wr);
    assert [] + [wr] == [wr] && [wr] + [re] == [wr, re];
    assert ["k"][..0] == [];
    assert SyncPins(o, c2, ["k"]) == SyncPin(o, c2, "k");
    ApplyPinOnly(c2, "k", WriteConfirmPin);
    var d := SyncPin(o, c2, "k");
    assert Confirming(d.entries, d.entries.Keys) == {"k"};
  }
}
