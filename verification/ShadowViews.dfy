/**
 * What the operations of the shadow cache do to one key: to its time stamps and to the content of
 * its entry, leaving aside pins and generations.
 */
module ShadowViews {
  import opened Protocol
  import opened ShadowCache
  import opened ShadowInvariants

  datatype Core = Core(
    descriptor: Option<Descriptor>, source: Option<Source>, state: EntryState, value: seq<Byte>,
    observedAt: Option<int>, expiresAt: Option<int>)

  datatype View = View(invalidatedAt: Option<int>, highWater: Option<int>, core: Option<Core>)

  function ViewOf(c: Cache, k: Key): View {
    var st := if k in c.keys then c.keys[k] else NEW_KEY_STATE;
    var core := if k !in c.entries then None else
                  var e := c.entries[k];
                  Some(Core(e.descriptor, e.source, e.state, e.value, e.observedAt, e.expiresAt));
    View(st.invalidatedAt, st.highWater, core)
  }

  /** Nothing happens, or the entry goes, or what was invalidated is buried. */
  predicate Fades(v: View, w: View) {
    || w == v
    || w == v.(core := None)
    || (v.core.Some? && v.core.value.state != Present && w == v.(core := Some(v.core.value.(state := Tombstone, value := []))))
  }

  /** Only the descriptor may change. */
  predicate Regraded(v: View, w: View) {
    || w == v
    || (v.core.Some? && w.core.Some? && w == v.(core := Some(v.core.value.(descriptor := w.core.value.descriptor))))
  }

  /** What the precedence rules let in. */
  predicate Admissible(v: View, source: Source, at: int) {
    && (v.invalidatedAt.Some? ==> v.invalidatedAt.value <= at && (v.invalidatedAt.value == at ==> source == ActiveConfirmed))
    && (v.invalidatedAt != Some(at) && v.core.None? && v.highWater.Some? ==>
          v.highWater.value <= at && (v.highWater.value == at ==> source == ActiveConfirmed))
    && (v.invalidatedAt != Some(at) && v.core.Some? && v.core.value.observedAt.Some? ==>
          && v.core.value.observedAt.value <= at
          && (v.core.value.observedAt.value == at && v.core.value.source == Some(ActiveConfirmed) ==>
                source == ActiveConfirmed))
  }

  lemma PrecedenceAdmits(c: Cache, w: Write)
    requires w.key in c.keys && RejectByPrecedence(c.keys[w.key], EntryAt(c, w.key), w).None?
    ensures Admissible(ViewOf(c, w.key), w.source, w.at)
  {
  }

  // ---- how operations change the view ----

  lemma RemoveFades(c: Cache, k: Key, j: Key)
    ensures Fades(ViewOf(c, j), ViewOf(RemoveEntry(c, k), j))
  {
  }

  lemma SyncViews(o: Options, c: Cache, k: Key, j: Key)
    ensures ViewOf(SyncPin(o, c, k), j) == ViewOf(c, j)
  {
    hide CurrentPin, Without;
  }

  lemma {:induction false} SyncsView(o: Options, c: Cache, order: seq<Key>, j: Key)
    ensures ViewOf(SyncPins(o, c, order), j) == ViewOf(c, j)
  {
    hide SyncPin, ViewOf;
    if order != [] {
      var n := |order| - 1;
      SyncsView(o, c, order[..n], j);
      SyncViews(o, SyncPins(o, c, order[..n]), order[n], j);
    }
  }

  lemma CapacityFades(o: Options, c: Cache, pin: Pin, j: Key)
    ensures Fades(ViewOf(c, j), ViewOf(EnsureCapacity(o, c, pin).0, j))
  {
    hide ViewOf, RemoveEntry, WriteConfirmCount;
    if c.lru != [] {
      RemoveFades(c, c.lru[0], j);
    }
  }

  /** What an accepted write leaves. */
  function AcceptedView(v: View, w: Write, d: Descriptor, ttl: int): View {
    View(None, Later(v.highWater, w.at),
         Some(Core(Some(d), Some(w.source), Present, w.value, Some(w.at), Some(w.at + ttl))))
  }

  lemma AcceptViews(c: Cache, w: Write, d: Descriptor, ttl: int, pin: Pin, j: Key)
    requires w.key in c.entries && w.key in c.keys
    ensures ViewOf(Accept(c, w, d, ttl, pin), j) ==
            if j == w.key then AcceptedView(ViewOf(c, j), w, d, ttl)
            else ViewOf(c, j)
  {
    hide Without, Later;
  }

  function Blank(d: Option<Descriptor>): Core {
    Core(d, None, Tombstone, [], None, None)
  }

  lemma NewEntryViews(c: Cache, k: Key, d: Option<Descriptor>, j: Key)
    requires k in c.keys && k !in c.entries
    ensures var r := AdvanceGeneration(Insert(c, k, d), k);
            ViewOf(r, j) == if j == k then ViewOf(c, j).(core := Some(Blank(d))) else ViewOf(c, j)
  {
  }

  /** The view after an accepted write or a rejected one. */
  predicate Written(d: Descriptor, v: View, v': View, w: Write, j: Key, accepted: bool) {
    if accepted && j == w.key then
      && Admissible(v, w.source, w.at)
      && d.ttl.Some? && d.ttl.value > 0 && v' == AcceptedView(v, w, d, d.ttl.value)
    else
      Fades(v, v')
  }

  /** A value for a key that has no entry: a new one is made, if there is room. */
  lemma NewValueViews(o: Options, c: Cache, w: Write, d: Descriptor, ttl: int, pin: Pin, j: Key)
    requires w.key in c.keys && w.key !in c.entries
    ensures var (c1, ok) := EnsureCapacity(o, c, pin);
            && Fades(ViewOf(c, j), ViewOf(c1, j))
            && var r := Accept(AdvanceGeneration(Insert(c1, w.key, Some(d)), w.key), w, d, ttl, pin);
               if j == w.key then ViewOf(r, j) == AcceptedView(ViewOf(c, j), w, d, ttl) else ViewOf(r, j) == ViewOf(c1, j)
  {
    hide Accept, EnsureCapacity, AdvanceGeneration, Later, ViewOf;
    var c1 := EnsureCapacity(o, c, pin).0;
    CapacityFades(o, c, pin, j);
    CapacityKeepsMissing(o, c, pin, w.key);
    NewEntryViews(c1, w.key, Some(d), j);
    NewEntryResident(c1, w.key, Some(d));
    AcceptViews(AdvanceGeneration(Insert(c1, w.key, Some(d)), w.key), w, d, ttl, pin, j);
  }

  lemma WriteAdmittedViews(o: Options, c: Cache, w: Write, d: Descriptor, pin: Pin, j: Key)
    requires w.key in c.keys
    ensures var r := WriteAdmitted(o, c, w, d, pin);
            Written(d, ViewOf(c, j), ViewOf(r.0, j), w, j, r.1.Accepted?)
  {
    hide Accept, EnsureCapacity, RejectByPrecedence, AdvanceGeneration, Insert, Admissible, AcceptedView, ViewOf;
    var k := w.key;
    if RejectByPrecedence(c.keys[k], EntryAt(c, k), w).None? && d.ttl.Some? {
      PrecedenceAdmits(c, w);
      if k in c.entries {
        AcceptViews(c, w, d, d.ttl.value, pin, j);
      } else {
        NewValueViews(o, c, w, d, d.ttl.value, pin, j);
      }
    }
  }

  predicate SamePolicy(c: Cache, d: Cache) {
    c.catalog == d.catalog && c.activations == d.activations && c.degraded == d.degraded
  }

  lemma CapacityKeepsMissing(o: Options, c: Cache, pin: Pin, k: Key)
    ensures k !in c.entries ==> k !in EnsureCapacity(o, c, pin).0.entries
    ensures SamePolicy(c, EnsureCapacity(o, c, pin).0)
  {
  }

  lemma NewEntryResident(c: Cache, k: Key, d: Option<Descriptor>)
    requires k in c.keys
    ensures var r := AdvanceGeneration(Insert(c, k, d), k); k in r.entries && k in r.keys
  {
  }

  lemma WriteViews(o: Options, c: Cache, w: Write, j: Key)
    ensures var r := WriteTo(o, c, w);
            if w.key in c.catalog then Written(c.catalog[w.key], ViewOf(c, j), ViewOf(r.0, j), w, j, r.1.Accepted?)
            else r == (c, Rejected(PolicyReject, 0))
  {
    hide WriteAdmitted, CanAdmitWriteConfirm, DesiredPin, SyncPin, Admissible, Later;
    var k := w.key;
    var c1 := EnsureKeyState(c, k);
    if k in c.catalog {
      var d := c.catalog[k];
      SyncKeepsKeys(o, c1, k);
      SyncViews(o, c1, k, j);
      WriteAdmittedViews(o, SyncPin(o, c1, k), w, d, DesiredPin(Some(d), ActiveSources(c, k)), j);
    }
  }

  lemma SyncKeepsKeys(o: Options, c: Cache, k: Key)
    ensures SyncPin(o, c, k).keys == c.keys
  {
  }

  /** An entry that is invalidated keeps its content. */
  function VoidedView(v: View, d: Option<Descriptor>): View {
    if v.core.None? then
      v
    else
      v.(core := Some(v.core.value.(descriptor := d, state := if v.core.value.value != [] then Invalidated else Tombstone)))
  }

  lemma InvalidateEntryViews(c: Cache, k: Key, d: Option<Descriptor>, pin: Pin, j: Key)
    requires k in c.entries && k in c.keys
    ensures ViewOf(InvalidateEntry(c, k, d, pin), j) == if j == k then VoidedView(ViewOf(c, j), d) else ViewOf(c, j)
  {
    hide Without;
  }

  lemma InvalidateAbsentViews(c: Cache, k: Key, j: Key)
    requires k in c.keys
    ensures ViewOf(InvalidateAbsent(c, k), j) == ViewOf(c, j)
  {
  }

  /** An invalidation stamps its key; a missing entry may be made, and another may go. */
  predicate Voids(v: View, v': View, d: Option<Descriptor>, k: Key, at: int, j: Key) {
    if j == k then
      var stamped := v.(invalidatedAt := Later(v.invalidatedAt, at), highWater := Later(v.highWater, at));
      v' == VoidedView(stamped, d) || (v.core.None? && v' == stamped.(core := Some(Blank(d))))
    else
      Fades(v, v')
  }

  lemma InvalidateMissingViews(o: Options, c: Cache, k: Key, d: Option<Descriptor>, pin: Pin, j: Key)
    requires k in c.keys && k !in c.entries
    ensures var r := InvalidateMissing(o, c, k, d, pin);
            if j == k then ViewOf(r, j) == ViewOf(c, j) || ViewOf(r, j) == ViewOf(c, j).(core := Some(Blank(d)))
            else Fades(ViewOf(c, j), ViewOf(r, j))
  {
    hide InvalidateEntry, InvalidateAbsent, EnsureCapacity, AdmittedPin, CanAdmitWriteConfirm;
    InvalidateAbsentViews(c, k, j);
    CapacityFades(o, c, pin, j);
    CapacityKeepsMissing(o, c, pin, k);
    var c1 := EnsureCapacity(o, c, pin).0;
    InvalidateAbsentViews(c1, k, j);
    var c2 := Insert(c1, k, d);
    InvalidateEntryViews(c2, k, d, AdmittedPin(o, c2, k, pin), j);
  }

  lemma MarkInvalidViews(c: Cache, k: Key, at: int, j: Key)
    ensures var v := ViewOf(c, j);
            ViewOf(MarkInvalid(c, k, at), j) ==
            if j == k then v.(invalidatedAt := Later(v.invalidatedAt, at), highWater := Later(v.highWater, at)) else v
    ensures j in MarkInvalid(c, k, at).entries <==> ViewOf(c, j).core.Some?
  {
    hide Later;
  }

  lemma InvalidateViews(o: Options, c: Cache, k: Key, at: int, j: Key)
    ensures Voids(ViewOf(c, j), ViewOf(Invalidate(o, c, k, at), j),
                  if k in c.catalog then Some(c.catalog[k]) else None, k, at, j)
  {
    hide InvalidateEntry, InvalidateMissing, AdmittedPin, DesiredPin, Later, ViewOf;
    var c1 := MarkInvalid(c, k, at);
    MarkInvalidViews(c, k, at, j);
    var d := if k in c.catalog then Some(c.catalog[k]) else None;
    var pin := DesiredPin(d, ActiveSources(c, k));
    if k in c1.entries {
      InvalidateEntryViews(c1, k, d, AdmittedPin(o, c1, k, pin), j);
    } else {
      InvalidateMissingViews(o, c1, k, d, pin, j);
    }
  }

  lemma CompactSyncedFades(o: Options, c: Cache, k: Key, now: int, j: Key)
    requires k in c.entries && k in c.keys
    ensures Fades(ViewOf(c, j), ViewOf(CompactSynced(o, c, k, now), j))
  {
    hide RemoveEntry;
    RemoveFades(AdvanceGeneration(c, k), k, j);
  }

  lemma CompactKeyFades(o: Options, c: Cache, k: Key, now: int, j: Key)
    ensures Fades(ViewOf(c, j), ViewOf(CompactKey(o, c, k, now), j))
  {
    hide SyncPin, CompactSynced;
    if k in c.entries {
      SyncViews(o, c, k, j);
      SyncKeepsResidents(o, c, k);
      CompactSyncedFades(o, EnsureKeyState(SyncPin(o, c, k), k), k, now, j);
    }
  }

  lemma {:induction false} CompactKeysFades(o: Options, c: Cache, batch: seq<Key>, now: int, j: Key)
    ensures Fades(ViewOf(c, j), ViewOf(CompactKeys(o, c, batch, now), j))
  {
    hide CompactKey, ViewOf;
    if batch != [] {
      var n := |batch| - 1;
      CompactKeysFades(o, c, batch[..n], now, j);
      CompactKeyFades(o, CompactKeys(o, c, batch[..n], now), batch[n], now, j);
    }
  }

  /** The operations that stamp nothing. */
  lemma OtherViews(o: Options, c: Cache, op: Op, j: Key)
    requires !op.DoWrite? && !op.DoInvalidate?
    ensures if op.DoReconfigure? && op.upgraded == Some(j) then Regraded(ViewOf(c, j), ViewOf(Apply(o, c, op), j))
            else Fades(ViewOf(c, j), ViewOf(Apply(o, c, op), j))
  {
    hide SyncPins, SyncPin, CompactKeys;
    match op
    case DoLookup(k, maxAge, now) =>
      SyncViews(o, c, k, j);
      SyncKeepsResidents(o, c, k);
    case DoSync(order) => SyncsView(o, c, order, j);
    case DoReconfigure(catalog, activations, degraded, upgraded, order) =>
      var c1 := Upgrade(c.(catalog := catalog, activations := activations, degraded := degraded), upgraded);
      SyncsView(o, c1, order, j);
    case DoNextBatch =>
    case DoCompact(batch, now) => CompactKeysFades(o, c, batch, now, j);
  }
}
