/**
 * The order in which a key's writes and invalidations are accepted, seen through their stamps:
 * the high-water mark is always the latest stamp, and stamps never go back if and only if no
 * invalidation is stamped before the mark.
 */
module ShadowOrder {
  import opened Protocol
  import opened Runs
  import opened ShadowCache
  import opened ShadowInvariants
  import opened ShadowViews

  /** The latest stamp of a key. */
  function Latest(log: seq<Stamp>, k: Key): Option<int> {
    if log == [] then
      None
    else
      var n := |log| - 1;
      if log[n].key == k then Later(Latest(log[..n], k), log[n].at) else Latest(log[..n], k)
  }

  /** The latest invalidation of a key. */
  function LatestVoid(log: seq<Stamp>, k: Key): Option<int> {
    if log == [] then
      None
    else
      var n := |log| - 1;
      if log[n].key == k && log[n].Voided? then Later(LatestVoid(log[..n], k), log[n].at) else LatestVoid(log[..n], k)
  }

  /** Stamps of one key never go back. */
  ghost predicate InOrder(log: seq<Stamp>) {
    forall i, j :: 0 <= i < j < |log| && log[i].key == log[j].key ==> log[i].at <= log[j].at
  }

  /** No invalidation is stamped before an earlier stamp of its key. */
  ghost predicate VoidsInOrder(log: seq<Stamp>) {
    forall i, j :: 0 <= i < j < |log| && log[i].key == log[j].key && log[j].Voided? ==> log[i].at <= log[j].at
  }

  predicate PassiveWrite(s: Stamp) {
    s.Wrote? && s.source == Passive
  }

  /** A passive write is later than every invalidation accepted before it. */
  ghost predicate PassiveAfterVoids(log: seq<Stamp>) {
    forall i, j :: 0 <= i < j < |log| && log[i].key == log[j].key && log[i].Voided? && PassiveWrite(log[j]) ==>
                     log[i].at < log[j].at
  }

  lemma {:induction false} LatestBounds(log: seq<Stamp>, k: Key)
    ensures forall i :: 0 <= i < |log| && log[i].key == k ==> Latest(log, k).Some? && log[i].at <= Latest(log, k).value
    ensures forall i :: 0 <= i < |log| && log[i].key == k && log[i].Voided? ==>
                          LatestVoid(log, k).Some? && log[i].at <= LatestVoid(log, k).value
    ensures LatestVoid(log, k).Some? ==> Latest(log, k).Some? && LatestVoid(log, k).value <= Latest(log, k).value
  {
    if log != [] {
      var n := |log| - 1;
      LatestBounds(log[..n], k);
      assert forall i :: 0 <= i < n ==> log[i] == log[..n][i];
    }
  }

  lemma {:induction false} LatestIsReached(log: seq<Stamp>, k: Key) returns (i: int)
    requires Latest(log, k).Some?
    ensures 0 <= i < |log| && log[i].key == k && log[i].at == Latest(log, k).value
  {
    var n := |log| - 1;
    if log[n].key == k && Latest(log, k) == Some(log[n].at) {
      i := n;
    } else {
      i := LatestIsReached(log[..n], k);
    }
  }

  // ---- runs ----

  /** With the invalidations in order, what the checks see is the latest stamp. */
  predicate Tracks(v: View, log: seq<Stamp>, k: Key) {
    && (v.invalidatedAt.Some? ==> v.invalidatedAt == v.highWater)
    && (v.invalidatedAt.None? && v.core.Some? ==> v.core.value.observedAt == v.highWater)
    && (v.invalidatedAt.None? && v.core.Some? && v.highWater.Some? && LatestVoid(log, k) == v.highWater ==>
          v.core.value.source == Some(ActiveConfirmed))
  }

  /** The stamps stay, and so do the entry's time and source while there is an entry. */
  predicate KeepsTimes(v: View, v': View) {
    && v'.invalidatedAt == v.invalidatedAt && v'.highWater == v.highWater
    && (v'.core.Some? ==> && v.core.Some? && v'.core.value.observedAt == v.core.value.observedAt
                          && v'.core.value.source == v.core.value.source)
  }

  lemma TracksFades(v: View, v': View, log: seq<Stamp>, k: Key)
    requires Tracks(v, log, k) && KeepsTimes(v, v')
    ensures Tracks(v', log, k)
  {
  }

  lemma LatestAppend(log: seq<Stamp>, s: Stamp, k: Key)
    ensures Latest(log + [s], k) == if s.key == k then Later(Latest(log, k), s.at) else Latest(log, k)
    ensures LatestVoid(log + [s], k) ==
            if s.key == k && s.Voided? then Later(LatestVoid(log, k), s.at) else LatestVoid(log, k)
  {
    assert (log + [s])[..|log|] == log;
  }

  /** The rules admit only what is not before the mark, and passive writes only after the last invalidation. */
  lemma AdmittedInOrder(v: View, log: seq<Stamp>, k: Key, source: Source, at: int)
    requires Tracks(v, log, k) && v.highWater == Latest(log, k) && Admissible(v, source, at)
    ensures v.highWater.Some? ==> v.highWater.value <= at
    ensures LatestVoid(log, k).Some? && source == Passive ==> LatestVoid(log, k).value < at
  {
    LatestBounds(log, k);
  }

  lemma AppendInOrder(log: seq<Stamp>, s: Stamp)
    requires InOrder(log) && (Latest(log, s.key).Some? ==> Latest(log, s.key).value <= s.at)
    ensures InOrder(log + [s])
  {
    LatestBounds(log, s.key);
  }

  lemma AppendPassive(log: seq<Stamp>, s: Stamp)
    requires PassiveAfterVoids(log)
    requires PassiveWrite(s) && LatestVoid(log, s.key).Some? ==> LatestVoid(log, s.key).value < s.at
    ensures PassiveAfterVoids(log + [s])
  {
    LatestBounds(log, s.key);
  }

  ghost predicate MarksLatest(c: Cache, log: seq<Stamp>) {
    forall k :: ViewOf(c, k).highWater == Latest(log, k)
  }

  ghost predicate AllTrack(c: Cache, log: seq<Stamp>) {
    forall k :: Tracks(ViewOf(c, k), log, k)
  }

  /** What holds after every run: the mark is the latest stamp, and order follows from ordered invalidations. */
  ghost predicate Ordered(c: Cache, log: seq<Stamp>) {
    && MarksLatest(c, log)
    && (VoidsInOrder(log) ==> InOrder(log) && PassiveAfterVoids(log) && AllTrack(c, log))
  }

  lemma VoidsPrefix(log: seq<Stamp>, s: Stamp)
    requires VoidsInOrder(log + [s])
    ensures VoidsInOrder(log)
    ensures s.Voided? && Latest(log, s.key).Some? ==> Latest(log, s.key).value <= s.at
  {
    var all := log + [s];
    assert forall i :: 0 <= i < |log| ==> all[i] == log[i];
    if s.Voided? && Latest(log, s.key).Some? {
      var i := LatestIsReached(log, s.key);
      assert all[i].at <= all[|log|].at;
    }
  }

  lemma WriteOrdered(o: Options, c: Cache, w: Write, log: seq<Stamp>)
    requires Ordered(c, log) && WriteTo(o, c, w).1.Accepted?
    ensures Ordered(WriteTo(o, c, w).0, log + [Wrote(w.key, w.source, w.at)])
  {
    hide WriteTo, ViewOf, Admissible, InOrder, PassiveAfterVoids, VoidsInOrder, Latest, LatestVoid;
    var d := WriteTo(o, c, w).0;
    var s := Wrote(w.key, w.source, w.at);
    forall k ensures ViewOf(d, k).highWater == Latest(log + [s], k) {
      WriteViews(o, c, w, k);
      LatestAppend(log, s, k);
      assert ViewOf(c, k).highWater == Latest(log, k);
    }
    if VoidsInOrder(log + [s]) {
      VoidsPrefix(log, s);
      WriteViews(o, c, w, w.key);
      assert Tracks(ViewOf(c, w.key), log, w.key) && ViewOf(c, w.key).highWater == Latest(log, w.key);
      AdmittedInOrder(ViewOf(c, w.key), log, w.key, w.source, w.at);
      AppendInOrder(log, s);
      AppendPassive(log, s);
      forall k ensures Tracks(ViewOf(d, k), log + [s], k) {
        WriteTracks(o, c, w, log, k);
      }
    }
  }

  lemma WriteTracks(o: Options, c: Cache, w: Write, log: seq<Stamp>, k: Key)
    requires WriteTo(o, c, w).1.Accepted? && Tracks(ViewOf(c, k), log, k) && ViewOf(c, k).highWater == Latest(log, k)
    ensures Tracks(ViewOf(WriteTo(o, c, w).0, k), log + [Wrote(w.key, w.source, w.at)], k)
  {
    hide WriteTo, ViewOf, Latest, LatestVoid;
    WriteViews(o, c, w, k);
    LatestAppend(log, Wrote(w.key, w.source, w.at), k);
    if k == w.key {
      AdmittedInOrder(ViewOf(c, k), log, k, w.source, w.at);
    }
  }

  lemma InvalidateOrdered(o: Options, c: Cache, key: Key, at: int, log: seq<Stamp>)
    requires Ordered(c, log)
    ensures Ordered(Invalidate(o, c, key, at), log + [Voided(key, at)])
  {
    hide Invalidate, ViewOf, InOrder, PassiveAfterVoids, VoidsInOrder, Latest, LatestVoid;
    var d := Invalidate(o, c, key, at);
    var s := Voided(key, at);
    forall k ensures ViewOf(d, k).highWater == Latest(log + [s], k) {
      InvalidateViews(o, c, key, at, k);
      LatestAppend(log, s, k);
      assert ViewOf(c, k).highWater == Latest(log, k);
    }
    if VoidsInOrder(log + [s]) {
      VoidsPrefix(log, s);
      AppendInOrder(log, s);
      AppendPassive(log, s);
      forall k ensures Tracks(ViewOf(d, k), log + [s], k) {
        InvalidateViews(o, c, key, at, k);
        LatestAppend(log, s, k);
        assert Tracks(ViewOf(c, k), log, k) && ViewOf(c, k).highWater == Latest(log, k);
      }
    }
  }

  lemma FadesOrdered(c: Cache, d: Cache, log: seq<Stamp>)
    requires Ordered(c, log) && forall k :: KeepsTimes(ViewOf(c, k), ViewOf(d, k))
    ensures Ordered(d, log)
  {
    hide ViewOf, InOrder, PassiveAfterVoids, VoidsInOrder, Latest, LatestVoid;
    forall k ensures ViewOf(d, k).highWater == Latest(log, k) {
      assert KeepsTimes(ViewOf(c, k), ViewOf(d, k)) && ViewOf(c, k).highWater == Latest(log, k);
    }
    if VoidsInOrder(log) {
      forall k ensures Tracks(ViewOf(d, k), log, k) {
        assert Tracks(ViewOf(c, k), log, k);
        TracksFades(ViewOf(c, k), ViewOf(d, k), log, k);
      }
    }
  }

  lemma StepOrdered(o: Options, c: Cache, op: Op, log: seq<Stamp>)
    requires Ordered(c, log)
    ensures Ordered(Apply(o, c, op), log + Stamps(o, c, op))
  {
    hide Ordered, WriteTo, Invalidate, ViewOf;
    var d := Apply(o, c, op);
    if op.DoWrite? && WriteTo(o, c, op.w).1.Accepted? {
      WriteOrdered(o, c, op.w, log);
    } else if op.DoInvalidate? {
      InvalidateOrdered(o, c, op.key, op.at, log);
    } else {
      forall k ensures KeepsTimes(ViewOf(c, k), ViewOf(d, k)) {
        if op.DoWrite? {
          WriteViews(o, c, op.w, k);
        } else {
          OtherViews(o, c, op, k);
        }
      }
      FadesOrdered(c, d, log);
      assert log + Stamps(o, c, op) == log;
    }
  }

  function Log(o: Options, c: Cache, ops: seq<Op>): seq<Stamp> {
    Output(Shadow(o), c, ops)
  }

  lemma {:induction false} RunOrdered(o: Options, c: Cache, ops: seq<Op>)
    requires c.entries == map[] && c.keys == map[]
    ensures Ordered(After(o, c, ops), Log(o, c, ops))
  {
    if ops == [] {
    } else {
      hide Ordered, Apply, Stamps;
      var n := |ops| - 1;
      RunOrdered(o, c, ops[..n]);
      StepOrdered(o, After(o, c, ops[..n]), ops[n], Log(o, c, ops[..n]));
    }
  }

  /**
   * Over every run, across eviction, compaction and re-creation: a key's stamps never go back if
   * and only if its invalidations never do, and then every passive write is strictly later than
   * every invalidation before it.
   */
  lemma TimeOrder(o: Options, c: Cache, ops: seq<Op>)
    requires c.entries == map[] && c.keys == map[]
    ensures var log := Log(o, c, ops);
            && (InOrder(log) <==> VoidsInOrder(log))
            && (VoidsInOrder(log) ==> PassiveAfterVoids(log))
            && MarksLatest(After(o, c, ops), log)
  {
    RunOrdered(o, c, ops);
  }

  // ---- an invalidation stamped before the mark ----

  /** A write that only the timestamps could still refuse. */
  predicate Welcome(c: Cache, w: Write) {
    && w.key in c.catalog && !c.catalog[w.key].debug && w.confident && !c.degraded
    && ActiveSources(c, w.key) == {OtherActivation}
    && c.catalog[w.key].ttl.Some? && c.catalog[w.key].ttl.value > 0
  }

  /** Invalidating a key without an entry makes a blank entry, whatever the high-water mark says. */
  lemma MissingGetsBlank(o: Options, c: Cache, k: Key, d: Option<Descriptor>)
    requires Wf(o, c) && ValidOptions(o) && k in c.keys && k !in c.entries
    requires |c.entries| < o.capacity || c.lru != []
    ensures var r := InvalidateMissing(o, c, k, d, NoPin);
            k in r.entries && k in r.keys && r.entries[k].observedAt.None?
  {
    hide Wf, WfExcept, RemoveEntry, Without, Lists;
    CapacityKeeps(o, c, NoPin);
    CapacityKeepsMissing(o, c, NoPin, k);
  }

  lemma InvalidateMakesBlank(o: Options, c: Cache, k: Key, at: int)
    requires Wf(o, c) && ValidOptions(o) && k !in c.entries && ActiveSources(c, k) == {OtherActivation}
    requires |c.entries| < o.capacity || c.lru != []
    ensures var r := Invalidate(o, c, k, at);
            && k in r.entries && k in r.keys && r.entries[k].observedAt.None?
            && ViewOf(r, k).invalidatedAt == Later(ViewOf(c, k).invalidatedAt, at)
  {
    hide InvalidateMissing, Later, Wf, InvalidateEntry;
    MarkInvalidKeeps(o, c, k, at);
    var d := if k in c.catalog then Some(c.catalog[k]) else None;
    MissingGetsBlank(o, MarkInvalid(c, k, at), k, d);
    InvalidateViews(o, c, k, at, k);
  }

  lemma BlankTakesAnyLaterWrite(o: Options, c: Cache, w: Write)
    requires Welcome(c, w) && w.source == Passive && w.key in c.entries && w.key in c.keys
    requires c.entries[w.key].observedAt.None? && ViewOf(c, w.key).invalidatedAt.Some?
    requires ViewOf(c, w.key).invalidatedAt.value < w.at
    ensures WriteTo(o, c, w).1.Accepted?
  {
    hide CurrentPin, CanAdmitWriteConfirm, Accept;
    SyncViews(o, c, w.key, w.key);
  }

  lemma InvalidateEntryPolicy(c: Cache, k: Key, d: Option<Descriptor>, pin: Pin)
    requires k in c.entries && k in c.keys
    ensures SamePolicy(c, InvalidateEntry(c, k, d, pin))
  {
    hide Without, StoreSnapshot;
  }

  lemma InvalidatePolicy(o: Options, c: Cache, k: Key, at: int)
    ensures SamePolicy(c, Invalidate(o, c, k, at))
  {
    hide Later, AdmittedPin, DesiredPin, CanAdmitWriteConfirm, EnsureCapacity, InvalidateEntry;
    var c1 := MarkInvalid(c, k, at);
    var d := if k in c.catalog then Some(c.catalog[k]) else None;
    var pin := DesiredPin(d, ActiveSources(c, k));
    if k in c1.entries {
      InvalidateEntryPolicy(c1, k, d, AdmittedPin(o, c1, k, pin));
    } else {
      CapacityKeepsMissing(o, c1, pin, k);
      var c2 := Insert(EnsureCapacity(o, c1, pin).0, k, d);
      InvalidateEntryPolicy(c2, k, d, AdmittedPin(o, c2, k, pin));
    }
  }

  /**
   * Once a key has lost its entry, an invalidation followed by a write accepts that write whatever
   * the high-water mark: only the stamp of the invalidation is looked at.
   */
  lemma EarlyInvalidationReopens(o: Options, c: Cache, k: Key, at: int, w: Write)
    requires Wf(o, c) && ValidOptions(o) && k !in c.entries && (|c.entries| < o.capacity || c.lru != [])
    requires Welcome(c, w) && w.key == k && w.source == Passive && at < w.at
    requires ViewOf(c, k).invalidatedAt.Some? ==> ViewOf(c, k).invalidatedAt.value < w.at
    ensures Log(o, c, [DoInvalidate(k, at), DoWrite(w)]) == [Voided(k, at), Wrote(k, Passive, w.at)]
  {
    hide Invalidate, WriteTo, Wf, ViewOf;
    InvalidateMakesBlank(o, c, k, at);
    InvalidatePolicy(o, c, k, at);
    BlankTakesAnyLaterWrite(o, Invalidate(o, c, k, at), w);
    RunAppend(Shadow(o), c, [], DoInvalidate(k, at));
    RunAppend(Shadow(o), c, [DoInvalidate(k, at)], DoWrite(w));
    assert [] + [DoInvalidate(k, at)] == [DoInvalidate(k, at)];
    assert [DoInvalidate(k, at)] + [DoWrite(w)] == [DoInvalidate(k, at), DoWrite(w)];
  }

  const ONE_ENTRY := Options(1, 0, 1, 1, 1)
  const TWO_KEYS := EmptyCache(map["a" := Descriptor(false, Some(9)), "b" := Descriptor(false, Some(9))],
                               map["a" := {OtherActivation}, "b" := {OtherActivation}], false)

  function PassiveWriteOf(k: Key, at: int): Write {
    Write(k, Passive, true, [], at, 0)
  }

  /** A blank entry, its first generation and its first value. */
  lemma FreshEntry(c: Cache, w: Write, d: Descriptor, ttl: int)
    requires w.key in c.keys && w.key !in c.entries
    ensures var r := Accept(AdvanceGeneration(Insert(c, w.key, Some(d)), w.key), w, d, ttl, NoPin);
            && r.entries.Keys == c.entries.Keys + {w.key} && r.keys.Keys == c.keys.Keys
            && SamePolicy(c, r) && r.lru != []
  {
    hide StoreSnapshot, Without, Later;
  }

  /** What a first write leaves. */
  ghost predicate Introduced(o: Options, c: Cache, r: Cache, k: Key) {
    && Wf(o, r) && SamePolicy(c, r) && r.lru != [] && k in r.entries && (forall j :: j in r.keys ==> j in c.keys || j == k)
    && (o.capacity == 1 ==> r.entries.Keys == {k})
  }

  lemma FirstAdmitted(o: Options, c: Cache, w: Write, d: Descriptor)
    requires Wf(o, c) && ValidOptions(o) && w.source == Passive && d.ttl.Some? && d.ttl.value > 0
    requires w.key !in c.entries && w.key in c.keys && c.keys[w.key] == NEW_KEY_STATE
    requires |c.entries| < o.capacity || c.lru != []
    ensures var r := WriteAdmitted(o, c, w, d, NoPin);
            r.1.Accepted? && Introduced(o, c, r.0, w.key)
  {
    hide EnsureCapacity, Accept, AdvanceGeneration, Wf;
    CapacityKeeps(o, c, NoPin);
    CapacityKeepsMissing(o, c, NoPin, w.key);
    FreshEntry(EnsureCapacity(o, c, NoPin).0, w, d, d.ttl.value);
    WriteAdmittedKeeps(o, c, w, d, NoPin);
    assert |EnsureCapacity(o, c, NoPin).0.entries.Keys| == |EnsureCapacity(o, c, NoPin).0.entries|;
  }

  /** A passive write of a key that is known by its catalog entry alone. */
  lemma FirstWrite(o: Options, c: Cache, k: Key, at: int)
    requires Wf(o, c) && ValidOptions(o) && Welcome(c, PassiveWriteOf(k, at)) && k !in c.keys
    requires |c.entries| < o.capacity || c.lru != []
    ensures var r := WriteTo(o, c, PassiveWriteOf(k, at));
            r.1.Accepted? && Introduced(o, c, r.0, k)
  {
    hide WriteTo, WriteAdmitted, Wf;
    At(o, c, k);
    EnsureKeyStateKeeps(o, c, k);
    var c1 := EnsureKeyState(c, k);
    WelcomeWrite(o, c, PassiveWriteOf(k, at));
    FirstAdmitted(o, c1, PassiveWriteOf(k, at), c.catalog[k]);
  }

  lemma WelcomeWrite(o: Options, c: Cache, w: Write)
    requires Welcome(c, w) && w.key !in c.entries
    ensures WriteTo(o, c, w) == WriteAdmitted(o, EnsureKeyState(c, w.key), w, c.catalog[w.key], NoPin)
  {
    hide WriteAdmitted, CanAdmitWriteConfirm;
  }

  /** Writing the second key evicts the first. */
  lemma SecondEvictsFirst()
    ensures var r := WriteTo(ONE_ENTRY, TWO_KEYS, PassiveWriteOf("a", 10));
            var s := WriteTo(ONE_ENTRY, r.0, PassiveWriteOf("b", 20));
            && r.1.Accepted? && s.1.Accepted? && Wf(ONE_ENTRY, s.0) && SamePolicy(TWO_KEYS, s.0)
            && "a" !in s.0.entries && s.0.lru != [] && ViewOf(s.0, "a").invalidatedAt.None?
  {
    hide WriteTo, Wf, ViewOf;
    EmptyIsWf(ONE_ENTRY);
    FirstWrite(ONE_ENTRY, TWO_KEYS, "a", 10);
    var c := WriteTo(ONE_ENTRY, TWO_KEYS, PassiveWriteOf("a", 10)).0;
    FirstWrite(ONE_ENTRY, c, "b", 20);
    WriteViews(ONE_ENTRY, TWO_KEYS, PassiveWriteOf("a", 10), "a");
    WriteViews(ONE_ENTRY, c, PassiveWriteOf("b", 20), "a");
  }

  /**
   * The order is lost on this run: the second key evicts the first, whose early invalidation then
   * lets in a write older than one already accepted.
   */
  lemma StampsCanGoBack()
    ensures var ops := [DoWrite(PassiveWriteOf("a", 10)), DoWrite(PassiveWriteOf("b", 20)), DoInvalidate("a", 5),
                        DoWrite(PassiveWriteOf("a", 6))];
            Log(ONE_ENTRY, TWO_KEYS, ops) ==
            [Wrote("a", Passive, 10), Wrote("b", Passive, 20), Voided("a", 5), Wrote("a", Passive, 6)]
  {
    hide WriteTo, Invalidate, Wf, ViewOf;
    var o, c := ONE_ENTRY, TWO_KEYS;
    var wa, wb := DoWrite(PassiveWriteOf("a", 10)), DoWrite(PassiveWriteOf("b", 20));
    var late := [DoInvalidate("a", 5), DoWrite(PassiveWriteOf("a", 6))];
    SecondEvictsFirst();
    var c1 := WriteTo(o, c, PassiveWriteOf("a", 10)).0;
    var c2 := WriteTo(o, c1, PassiveWriteOf("b", 20)).0;
    EarlyInvalidationReopens(o, c2, "a", 5, PassiveWriteOf("a", 6));
    RunPrepend(Shadow(o), c1, wb, late);
    RunPrepend(Shadow(o), c, wa, [wb] + late);
    assert Stamps(o, c, wa) == [Wrote("a", Passive, 10)] && Stamps(o, c1, wb) == [Wrote("b", Passive, 20)];
    assert [wa] + ([wb] + late) == [wa, wb, late[0], late[1]];
  }

  lemma EmptyIsWf(o: Options)
    ensures Wf(o, TWO_KEYS)
  {
  }
}
