/**
 * The shadow cache as a value: entries, their key states with the lock-free snapshots, the
 * eviction list and the compactor list with its cursor, and what every operation does to them.
 */
module ShadowCache {
  import opened Protocol
  import opened Runs

  type Key = string

  datatype Source = Passive | ActiveConfirmed

  datatype EntryState = Present | Invalidated | Tombstone

  datatype Pin = NoPin | WriteConfirmPin | StaticPin

  datatype Activation = Poller | WriteConfirm | OtherActivation

  /** `ttl` is the freshness lifetime, when the descriptor has a valid one. */
  datatype Descriptor = Descriptor(debug: bool, ttl: Option<int>)

  /** `evictable` says that the entry has its element in the eviction list. */
  datatype Entry = Entry(
    descriptor: Option<Descriptor>, source: Option<Source>, state: EntryState, value: seq<Byte>,
    observedAt: Option<int>, expiresAt: Option<int>, generation: nat, lastWriteGeneration: nat,
    invalidatedAt: Option<int>, pin: Pin, evictable: bool)

  /** What readers see without the lock. */
  datatype Snapshot =
    | Absent(generation: nat)
    | Resident(generation: nat, state: EntryState, observedAt: Option<int>, expiresAt: Option<int>)

  datatype KeyState = KeyState(
    generation: nat, lastWriteGeneration: nat, invalidatedAt: Option<int>, highWater: Option<int>, snapshot: Snapshot)

  const NEW_KEY_STATE := KeyState(0, 0, None, None, Absent(0))

  datatype Options = Options(
    capacity: nat, writeConfirmCap: int, retainWindow: int, hardLifespan: int, batchSize: nat)

  /** What the normalised options guarantee. */
  predicate ValidOptions(o: Options) {
    o.capacity > 0 && o.batchSize > 0 && o.retainWindow > 0 && o.hardLifespan >= o.retainWindow
  }

  const DEFAULT_CAPACITY := 4096
  const DEFAULT_PINNED_CAPACITY := 2048
  const DEFAULT_WRITE_CONFIRM_CAP := 256
  const DEFAULT_RETAIN_WINDOW := 900_000_000_000
  const DEFAULT_HARD_LIFESPAN := 86_400_000_000_000
  const DEFAULT_BATCH_SIZE := 64

  /** Missing and impossible options are replaced, and the write-confirm cap never exceeds the capacity. */
  function NormalizedOptions(capacity: int, pinnedCapacity: int, writeConfirmCap: int, retainWindow: int,
                             hardLifespan: int, batchSize: int): (o: Options)
    ensures ValidOptions(o) && 0 <= o.writeConfirmCap <= o.capacity
  {
    var cap := if capacity <= 0 then DEFAULT_CAPACITY else capacity;
    var pinned := if 0 < pinnedCapacity <= cap then pinnedCapacity
                  else if DEFAULT_PINNED_CAPACITY > cap then cap else DEFAULT_PINNED_CAPACITY;
    var confirm := if 0 <= writeConfirmCap <= pinned then writeConfirmCap
                   else if DEFAULT_WRITE_CONFIRM_CAP > pinned then pinned else DEFAULT_WRITE_CONFIRM_CAP;
    var retain := if retainWindow <= 0 then DEFAULT_RETAIN_WINDOW else retainWindow;
    var hard := if hardLifespan <= 0 then DEFAULT_HARD_LIFESPAN else hardLifespan;
    Options(cap, confirm, retain, if hard < retain then retain else hard,
            if batchSize <= 0 then DEFAULT_BATCH_SIZE else batchSize)
  }

  datatype Cache = Cache(
    catalog: map<Key, Descriptor>, activations: map<Key, set<Activation>>, degraded: bool,
    entries: map<Key, Entry>, keys: map<Key, KeyState>,
    lru: seq<Key>, compactor: seq<Key>, cursor: Option<Key>)

  function EmptyCache(catalog: map<Key, Descriptor>, activations: map<Key, set<Activation>>, degraded: bool): Cache {
    Cache(catalog, activations, degraded, map[], map[], [], [], None)
  }

  // ---- lists ----

  function Without<T(==)>(s: seq<T>, k: T): seq<T> {
    if s == [] then [] else if s[0] == k then Without(s[1..], k) else [s[0]] + Without(s[1..], k)
  }

  /** The element after `k`. */
  function Next<T(==)>(s: seq<T>, k: T): Option<T> {
    if |s| < 2 then None else if s[0] == k then Some(s[1]) else Next(s[1..], k)
  }

  // ---- pins ----

  function ActiveSources(c: Cache, k: Key): set<Activation> {
    if k in c.activations then c.activations[k] else {}
  }

  function DesiredPin(d: Option<Descriptor>, sources: set<Activation>): Pin {
    if d.Some? && d.value.debug then NoPin
    else if Poller in sources then StaticPin
    else if WriteConfirm in sources then WriteConfirmPin
    else NoPin
  }

  /** Those of the given keys that are pinned to confirm writes; the empty key never counts. */
  function Confirming(entries: map<Key, Entry>, ks: set<Key>): set<Key> {
    set k | k in ks && k in entries && k != "" && entries[k].pin == WriteConfirmPin
  }

  function WriteConfirmCount(c: Cache): nat {
    |Confirming(c.entries, c.entries.Keys)|
  }

  predicate CanAdmitWriteConfirm(o: Options, c: Cache, k: Key) {
    (k in c.entries && c.entries[k].pin != NoPin) || WriteConfirmCount(c) < o.writeConfirmCap
  }

  /** Gives an entry its pin and puts it on, or takes it off, the eviction list. */
  function ApplyPin(c: Cache, k: Key, desired: Pin): Cache
    requires k in c.entries
  {
    var e := c.entries[k];
    if e.pin == desired && (e.evictable <==> desired == NoPin) then
      c
    else
      c.(entries := c.entries[k := e.(pin := desired, evictable := desired == NoPin)],
         lru := (if e.evictable then Without(c.lru, k) else c.lru) + (if desired == NoPin then [k] else []))
  }

  /** The pin an entry should have now, as far as the budgets allow. */
  function CurrentPin(o: Options, c: Cache, k: Key): Pin
    requires k in c.entries
  {
    var desired := DesiredPin(c.entries[k].descriptor, ActiveSources(c, k));
    if desired == StaticPin && c.degraded then NoPin
    else if desired == WriteConfirmPin && !CanAdmitWriteConfirm(o, c, k) then NoPin
    else desired
  }

  function SyncPin(o: Options, c: Cache, k: Key): Cache {
    if k !in c.entries || c.entries[k].descriptor.None? then c else ApplyPin(c, k, CurrentPin(o, c, k))
  }

  /** All pins, in the order the entries happen to be visited. */
  function SyncPins(o: Options, c: Cache, order: seq<Key>): Cache {
    if order == [] then c else SyncPin(o, SyncPins(o, c, order[..|order| - 1]), order[|order| - 1])
  }

  // ---- key states and residency ----

  function EnsureKeyState(c: Cache, k: Key): Cache {
    if k in c.keys then c else c.(keys := c.keys[k := NEW_KEY_STATE])
  }

  function StoreAbsent(st: KeyState): KeyState {
    st.(snapshot := Absent(st.generation))
  }

  function StoreSnapshot(e: Entry, st: KeyState): KeyState {
    st.(snapshot := Resident(e.generation, e.state, e.observedAt, e.expiresAt))
  }

  function RemoveEntry(c: Cache, k: Key): (r: Cache)
    ensures r.keys.Keys == c.keys.Keys
  {
    if k !in c.entries then
      c
    else
      c.(entries := c.entries - {k},
         lru := if c.entries[k].evictable then Without(c.lru, k) else c.lru,
         cursor := if c.cursor == Some(k) then Next(c.compactor, k) else c.cursor,
         compactor := Without(c.compactor, k),
         keys := if k in c.keys then c.keys[k := StoreAbsent(c.keys[k])] else c.keys)
  }

  /** Room for one more entry: at most the least recently used unpinned one goes. */
  function EnsureCapacity(o: Options, c: Cache, desired: Pin): (r: (Cache, bool))
    ensures r.0.keys.Keys == c.keys.Keys
  {
    if |c.entries| < o.capacity then
      (c, true)
    else if c.lru == [] then
      (c, false)
    else
      var c1 := RemoveEntry(c, c.lru[0]);
      (c1, !(desired == WriteConfirmPin && WriteConfirmCount(c1) >= o.writeConfirmCap))
  }

  /** A new entry, not yet on the eviction list, last in line for the compactor. */
  function Insert(c: Cache, k: Key, d: Option<Descriptor>): Cache {
    var blank := Entry(d, None, Tombstone, [], None, None, 0, 0, None, NoPin, false);
    c.(entries := c.entries[k := blank], compactor := c.compactor + [k])
  }

  function Later(a: Option<int>, at: int): Option<int> {
    if a.None? || at > a.value then Some(at) else a
  }

  // ---- writes ----

  datatype Write = Write(
    key: Key, source: Source, confident: bool, value: seq<Byte>, at: int, startGeneration: nat)

  datatype Rejection = StaleTimestamp | SameTimestampConflict | GenerationAdvanced | PolicyReject | CapacityReject

  datatype WriteResult =
    | Accepted(generation: nat, lastWriteGeneration: nat)
    | Rejected(reason: Rejection, generation: nat)

  function Precedence(s: Option<Source>): int {
    if s == Some(ActiveConfirmed) then 1 else 0
  }

  /** Which writes the timestamps already known for a key rule out. */
  function RejectByPrecedence(st: KeyState, entry: Option<Entry>, w: Write): Option<Rejection> {
    var qualified := w.source == ActiveConfirmed && w.startGeneration == st.generation;
    if st.invalidatedAt.Some? && w.at < st.invalidatedAt.value then Some(StaleTimestamp)
    else if st.invalidatedAt == Some(w.at) then (if qualified then None else Some(StaleTimestamp))
    else if entry.None? then
      if st.highWater.Some? && (w.at < st.highWater.value || (w.at == st.highWater.value && !qualified)) then
        Some(StaleTimestamp)
      else
        None
    else
      var e := entry.value;
      if e.observedAt.Some? && w.at < e.observedAt.value then Some(StaleTimestamp)
      else if e.observedAt != Some(w.at) then None
      else if e.value == [] || e.value == w.value then
        if Some(w.source) == e.source || Precedence(Some(w.source)) >= Precedence(e.source) then None
        else Some(SameTimestampConflict)
      else if Some(w.source) == e.source then Some(SameTimestampConflict)
      else if Precedence(Some(w.source)) > Precedence(e.source) then None
      else Some(SameTimestampConflict)
  }

  function EntryAt(c: Cache, k: Key): Option<Entry> {
    if k in c.entries then Some(c.entries[k]) else None
  }

  /** The accepted value goes into the entry, the key state and the snapshot. */
  function Accept(c: Cache, w: Write, d: Descriptor, ttl: int, pin: Pin): Cache
    requires w.key in c.entries && w.key in c.keys
  {
    var k := w.key;
    var st := c.keys[k];
    var e := c.entries[k].(descriptor := Some(d), source := Some(w.source), state := Present, value := w.value,
                           observedAt := Some(w.at), expiresAt := Some(w.at + ttl), invalidatedAt := None, pin := pin,
                           lastWriteGeneration := st.lastWriteGeneration + 1);
    var st1 := st.(highWater := Later(st.highWater, w.at), invalidatedAt := None,
                   lastWriteGeneration := st.lastWriteGeneration + 1);
    ApplyPin(c.(entries := c.entries[k := e], keys := c.keys[k := StoreSnapshot(e, st1)]), k, pin)
  }

  function AdvanceGeneration(c: Cache, k: Key): Cache
    requires k in c.entries && k in c.keys
  {
    var g := c.keys[k].generation + 1;
    c.(entries := c.entries[k := c.entries[k].(generation := g)], keys := c.keys[k := c.keys[k].(generation := g)])
  }

  /** The part of a write after the policy checks. */
  function WriteAdmitted(o: Options, c: Cache, w: Write, d: Descriptor, pin: Pin): (Cache, WriteResult)
    requires w.key in c.keys
  {
    var k := w.key;
    var st := c.keys[k];
    var rejection := RejectByPrecedence(st, EntryAt(c, k), w);
    if w.source == ActiveConfirmed && st.generation != w.startGeneration then
      (c, Rejected(GenerationAdvanced, st.generation))
    else if rejection.Some? then
      (c, Rejected(rejection.value, st.generation))
    else if d.ttl.None? || d.ttl.value <= 0 then
      (c, Rejected(PolicyReject, 0))
    else if k in c.entries then
      (Accept(c, w, d, d.ttl.value, pin), Accepted(c.entries[k].generation, st.lastWriteGeneration + 1))
    else
      var (c1, ok) := EnsureCapacity(o, c, pin);
      if !ok then
        (c1, Rejected(CapacityReject, 0))
      else
        (Accept(AdvanceGeneration(Insert(c1, k, Some(d)), k), w, d, d.ttl.value, pin),
         Accepted(st.generation + 1, st.lastWriteGeneration + 1))
  }

  function WriteTo(o: Options, c: Cache, w: Write): (Cache, WriteResult) {
    var k := w.key;
    var sources := ActiveSources(c, k);
    if k !in c.catalog || c.catalog[k].debug || !w.confident || c.degraded || sources == {} then
      (c, Rejected(PolicyReject, 0))
    else
      var d := c.catalog[k];
      var c1 := EnsureKeyState(c, k);
      var pin := DesiredPin(Some(d), sources);
      if pin == WriteConfirmPin && !CanAdmitWriteConfirm(o, c1, k) then
        (c1, Rejected(CapacityReject, 0))
      else
        WriteAdmitted(o, SyncPin(o, c1, k), w, d, pin)
  }

  // ---- invalidations ----

  /** The invalidation could not get an entry: only the generation records it. */
  function InvalidateAbsent(c: Cache, k: Key): Cache
    requires k in c.keys
  {
    var st := c.keys[k];
    c.(keys := c.keys[k := StoreAbsent(st.(generation := st.generation + 1, lastWriteGeneration := st.lastWriteGeneration + 1))])
  }

  function InvalidateEntry(c: Cache, k: Key, d: Option<Descriptor>, pin: Pin): Cache
    requires k in c.entries && k in c.keys
  {
    var c1 := AdvanceGeneration(c, k);
    var st := c1.keys[k];
    var e := c1.entries[k].(descriptor := d, state := if c1.entries[k].value != [] then Invalidated else Tombstone,
                            invalidatedAt := st.invalidatedAt, pin := pin,
                            lastWriteGeneration := st.lastWriteGeneration + 1);
    var st1 := st.(lastWriteGeneration := st.lastWriteGeneration + 1);
    ApplyPin(c1.(entries := c1.entries[k := e], keys := c1.keys[k := StoreSnapshot(e, st1)]), k, pin)
  }

  /** The key state remembers the latest invalidation and the latest stamp of any kind. */
  function MarkInvalid(c: Cache, k: Key, at: int): (r: Cache)
    ensures k in r.keys
  {
    var c0 := EnsureKeyState(c, k);
    var st := c0.keys[k];
    c0.(keys := c0.keys[k := st.(invalidatedAt := Later(st.invalidatedAt, at), highWater := Later(st.highWater, at))])
  }

  /** The pin an invalidation settles for. */
  function AdmittedPin(o: Options, c: Cache, k: Key, pin: Pin): Pin {
    if pin == WriteConfirmPin && !CanAdmitWriteConfirm(o, c, k) then NoPin else pin
  }

  /** The invalidation of a key that has no entry. */
  function InvalidateMissing(o: Options, c: Cache, k: Key, d: Option<Descriptor>, pin: Pin): Cache
    requires k in c.keys
  {
    if pin == WriteConfirmPin && !CanAdmitWriteConfirm(o, c, k) then
      InvalidateAbsent(c, k)
    else
      var (c1, ok) := EnsureCapacity(o, c, pin);
      if !ok then
        InvalidateAbsent(c1, k)
      else
        var c2 := Insert(c1, k, d);
        InvalidateEntry(c2, k, d, AdmittedPin(o, c2, k, pin))
  }

  function Invalidate(o: Options, c: Cache, k: Key, at: int): Cache {
    var d := if k in c.catalog then Some(c.catalog[k]) else None;
    var pin := DesiredPin(d, ActiveSources(c, k));
    var c1 := MarkInvalid(c, k, at);
    if k in c1.entries then
      InvalidateEntry(c1, k, d, AdmittedPin(o, c1, k, pin))
    else
      InvalidateMissing(o, c1, k, d, pin)
  }

  // ---- reads ----

  function EffectiveLimit(e: Entry, maxAge: int): int {
    if e.descriptor.None? || e.descriptor.value.ttl.None? then
      maxAge
    else
      var ttl := e.descriptor.value.ttl.value;
      if maxAge <= 0 || (ttl > 0 && ttl < maxAge) then ttl else maxAge
  }

  predicate LookupEligible(c: Cache, e: Entry, maxAge: int, now: int) {
    var limit := EffectiveLimit(e, maxAge);
    && !c.degraded && e.state == Present && limit > 0
    && e.observedAt.Some? && 0 <= now - e.observedAt.value <= limit
  }

  /** The key becomes the most recently used. */
  function Touch(c: Cache, k: Key): Cache {
    c.(lru := Without(c.lru, k) + [k])
  }

  /** A locked lookup: the cache after it, and the entry with the verdict. */
  function Lookup(o: Options, c: Cache, k: Key, maxAge: int, now: int): (Cache, Option<(Entry, bool)>) {
    if k !in c.entries then
      (c, None)
    else
      var c1 := SyncPin(o, c, k);
      var e := c1.entries[k];
      var eligible := LookupEligible(c1, e, maxAge, now);
      (if eligible && e.pin == NoPin then Touch(c1, k) else c1, Some((e, eligible)))
  }

  function SnapshotOf(c: Cache, k: Key): Snapshot {
    if k in c.keys then c.keys[k].snapshot else Absent(0)
  }

  predicate SnapshotEligible(c: Cache, k: Key, now: int) {
    var s := SnapshotOf(c, k);
    && s.Resident? && !c.degraded && s.state == Present
    && s.expiresAt.Some? && now <= s.expiresAt.value
  }

  // ---- compaction ----

  /** The list from the cursor on. */
  function From<T(==)>(s: seq<T>, cursor: Option<T>): seq<T> {
    if cursor.None? || s == [] || s[0] == cursor.value then s else From(s[1..], cursor)
  }

  /** The keys the compactor takes next. */
  function NextBatch(o: Options, c: Cache): seq<Key> {
    var rest := From(c.compactor, c.cursor);
    if |rest| <= o.batchSize then rest else rest[..o.batchSize]
  }

  /** The cursor moves past the batch. */
  function AdvanceCursor(o: Options, c: Cache): Cache {
    var rest := From(c.compactor, c.cursor);
    c.(cursor := if |rest| <= o.batchSize then None else Some(rest[o.batchSize]))
  }

  /** What compaction leaves of an invalidated entry. */
  function Bury(c: Cache, k: Key): Cache
    requires k in c.entries && k in c.keys
  {
    var c1 := AdvanceGeneration(c, k);
    var st := c1.keys[k].(lastWriteGeneration := c1.keys[k].lastWriteGeneration + 1);
    var e := c1.entries[k].(state := Tombstone, value := [], lastWriteGeneration := st.lastWriteGeneration);
    c1.(entries := c1.entries[k := e], keys := c1.keys[k := StoreSnapshot(e, st)])
  }

  predicate Aged(e: Entry, state: EntryState, window: int, now: int) {
    e.state == state && e.invalidatedAt.Some? && now - e.invalidatedAt.value >= window
  }

  function CompactSynced(o: Options, c: Cache, k: Key, now: int): Cache
    requires k in c.entries && k in c.keys
  {
    if Aged(c.entries[k], Invalidated, o.retainWindow, now) then Bury(c, k)
    else if Aged(c.entries[k], Tombstone, o.hardLifespan, now) then RemoveEntry(AdvanceGeneration(c, k), k)
    else c
  }

  function CompactKey(o: Options, c: Cache, k: Key, now: int): Cache {
    if k !in c.entries then c else CompactSynced(o, EnsureKeyState(SyncPin(o, c, k), k), k, now)
  }

  function CompactKeys(o: Options, c: Cache, batch: seq<Key>, now: int): Cache {
    if batch == [] then c else CompactKey(o, CompactKeys(o, c, batch[..|batch| - 1], now), batch[|batch| - 1], now)
  }

  // ---- runs ----

  /**
   * Everything that can happen under the cache's lock. `Reconfigure` stands for every change
   * of the catalog, the activations and the pinned budget.
   */
  datatype Op =
    | DoWrite(w: Write)
    | DoInvalidate(key: Key, at: int)
    | DoLookup(key: Key, maxAge: int, now: int)
    | DoSync(order: seq<Key>)
    | DoReconfigure(catalog: map<Key, Descriptor>, activations: map<Key, set<Activation>>, degraded: bool,
                    upgraded: Option<Key>, order: seq<Key>)
    | DoNextBatch
    | DoCompact(batch: seq<Key>, now: int)

  /** A stamp on a key: an accepted write or an invalidation. */
  datatype Stamp = Wrote(key: Key, source: Source, at: int) | Voided(key: Key, at: int)

  function Upgrade(c: Cache, k: Option<Key>): Cache {
    if k.Some? && k.value in c.entries && k.value in c.catalog then
      c.(entries := c.entries[k.value := c.entries[k.value].(descriptor := Some(c.catalog[k.value]))])
    else
      c
  }

  function Apply(o: Options, c: Cache, op: Op): Cache {
    match op
    case DoWrite(w) => WriteTo(o, c, w).0
    case DoInvalidate(k, at) => Invalidate(o, c, k, at)
    case DoLookup(k, maxAge, now) => Lookup(o, c, k, maxAge, now).0
    case DoSync(order) => SyncPins(o, c, order)
    case DoReconfigure(catalog, activations, degraded, upgraded, order) =>
      SyncPins(o, Upgrade(c.(catalog := catalog, activations := activations, degraded := degraded), upgraded), order)
    case DoNextBatch => AdvanceCursor(o, c)
    case DoCompact(batch, now) => CompactKeys(o, c, batch, now)
  }

  function Stamps(o: Options, c: Cache, op: Op): seq<Stamp> {
    match op
    case DoWrite(w) => if WriteTo(o, c, w).1.Accepted? then [Wrote(w.key, w.source, w.at)] else []
    case DoInvalidate(k, at) => [Voided(k, at)]
    case _ => []
  }

  function Shadow(o: Options): Machine<Cache, Op, Stamp> {
    Machine((c, op) => Apply(o, c, op), (c, op) => Stamps(o, c, op))
  }
}
