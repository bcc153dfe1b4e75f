/**
 * One uninterrupted compaction pass: wherever the cursor stands when it starts, and although
 * entries go while it walks, the pass visits every resident key and leaves nothing overdue.
 */
module Compaction {
  import opened Protocol
  import opened ShadowCache
  import opened ShadowInvariants

  /** The rest of a pass; `clock` gives the time at which each round runs. */
  function Rounds(o: Options, c: Cache, remaining: int, clock: nat -> int, round: nat): Cache
    decreases remaining
  {
    var batch := NextBatch(o, c);
    if remaining <= 0 then c
    else if batch == [] then AdvanceCursor(o, c)
    else Rounds(o, CompactKeys(o, AdvanceCursor(o, c), batch, clock(round)), remaining - |batch|, clock, round + 1)
  }

  /** As many keys as the list holds at the start. */
  function Pass(o: Options, c: Cache, clock: nat -> int): Cache {
    Rounds(o, c, |c.compactor|, clock, 0)
  }

  // ---- the order of the walk ----

  /** The list as the compactor will walk it: from the cursor to the end, then from the front. */
  function Rotation(c: Cache): seq<Key> {
    Rotated(c.compactor, c.cursor)
  }

  function Rotated<T(==)>(s: seq<T>, cursor: Option<T>): seq<T> {
    FromIsSuffix(s, cursor);
    var rest := From(s, cursor);
    rest + s[..|s| - |rest|]
  }

  ghost predicate CursorOk(c: Cache) {
    InList(c.compactor, c.cursor)
  }

  /** A list without repetitions, and a cursor on it or nowhere. */
  ghost predicate InList<T>(s: seq<T>, cursor: Option<T>) {
    Distinct(s) && (cursor.Some? ==> cursor.value in s)
  }

  lemma {:induction false} FromSplit<T>(before: seq<T>, after: seq<T>, k: T)
    requires k !in before && after != [] && after[0] == k
    ensures From(before + after, Some(k)) == after
  {
    if before == [] {
      assert before + after == after;
    } else {
      FromSplit(before[1..], after, k);
      assert (before + after)[1..] == before[1..] + after;
    }
  }

  lemma {:induction false} FromFinds<T>(s: seq<T>, k: T)
    requires k in s
    ensures var rest := From(s, Some(k));
            0 < |rest| <= |s| && rest[0] == k && forall i :: 0 <= i < |s| - |rest| ==> s[i] != k
  {
    if s[0] != k {
      FromFinds(s[1..], k);
      assert forall i :: 0 < i < |s| ==> s[i] == s[1..][i - 1];
    }
  }

  /** Before the cursor, and from it on. */
  lemma FromStarts<T>(s: seq<T>, k: T)
    requires k in s
    ensures var rest := From(s, Some(k));
            0 < |rest| <= |s| && rest[0] == k && s == s[..|s| - |rest|] + rest && k !in s[..|s| - |rest|]
  {
    hide From;
    FromFinds(s, k);
    FromIsSuffix(s, Some(k));
  }

  /** Swapping the two halves of a list. */
  lemma Swapped<T>(a: seq<T>, b: seq<T>)
    requires Distinct(a + b)
    ensures Distinct(b + a)
  {
    forall i, j | 0 <= i < j < |b + a| ensures (b + a)[i] != (b + a)[j] {
      var i' := if i < |b| then i + |a| else i - |b|;
      var j' := if j < |b| then j + |a| else j - |b|;
      assert (b + a)[i] == (a + b)[i'] && (b + a)[j] == (a + b)[j'];
      if i' < j' {
        assert (a + b)[i'] != (a + b)[j'];
      } else {
        assert (a + b)[j'] != (a + b)[i'];
      }
    }
  }

  lemma RotatedIs<T>(s: seq<T>, cursor: Option<T>)
    requires InList(s, cursor)
    ensures |Rotated(s, cursor)| == |s| && Distinct(Rotated(s, cursor))
    ensures forall k :: k in Rotated(s, cursor) <==> k in s
    ensures s != [] ==> From(s, cursor) != []
  {
    hide Distinct;
    FromIsSuffix(s, cursor);
    var rest := From(s, cursor);
    var before := s[..|s| - |rest|];
    assert s == before + rest;
    if cursor.Some? {
      FromStarts(s, cursor.value);
    }
    Swapped(before, rest);
  }

  lemma RotationIs(c: Cache)
    requires CursorOk(c)
    ensures |Rotation(c)| == |c.compactor| && Distinct(Rotation(c))
    ensures forall k :: k in Rotation(c) <==> k in c.compactor
    ensures c.compactor != [] ==> From(c.compactor, c.cursor) != []
  {
    hide Rotated, From, Distinct;
    RotatedIs(c.compactor, c.cursor);
  }

  /** Nothing in the first part of a list occurs in the rest. */
  lemma Apart<T>(a: seq<T>, b: seq<T>)
    requires Distinct(a + b)
    ensures forall k :: k in a ==> k !in b
  {
    forall i, j | 0 <= i < |a| && 0 <= j < |b| ensures a[i] != b[j] {
      assert (a + b)[i] == a[i] && (a + b)[|a| + j] == b[j];
    }
  }

  lemma RotatedOf<T>(s: seq<T>, cursor: Option<T>, before: seq<T>, rest: seq<T>)
    requires From(s, cursor) == rest && s == before + rest
    ensures Rotated(s, cursor) == rest + before
  {
    hide From;
    assert s[..|before|] == before;
    assert |s| - |rest| == |before|;
  }

  lemma Regroup<T>(before: seq<T>, rest: seq<T>, b: nat)
    requires b <= |rest|
    ensures (rest + before)[..b] == rest[..b]
    ensures (rest + before)[b..] + (rest + before)[..b] == rest[b..] + (before + rest[..b])
    ensures before + rest == (before + rest[..b]) + rest[b..]
  {
    assert (rest + before)[b..] == rest[b..] + before;
    assert rest == rest[..b] + rest[b..];
  }

  /** Advancing takes the batch from the front of the walk to its end. */
  lemma AdvanceRotates(o: Options, c: Cache)
    requires CursorOk(c)
    ensures var m := |NextBatch(o, c)|;
            && m <= |Rotation(c)| && NextBatch(o, c) == Rotation(c)[..m]
            && Rotation(AdvanceCursor(o, c)) == Rotation(c)[m..] + Rotation(c)[..m]
            && CursorOk(AdvanceCursor(o, c))
  {
    hide InList, From, Rotated;
    MovesOn(c.compactor, c.cursor, |NextBatch(o, c)|);
  }

  /** Moving the cursor past the next `b` elements. */
  lemma MovesOn<T>(s: seq<T>, cursor: Option<T>, b: nat)
    requires InList(s, cursor) && b <= |From(s, cursor)|
    ensures var rest := From(s, cursor);
            var moved := if b < |rest| then Some(rest[b]) else None;
            && b <= |Rotated(s, cursor)| && rest[..b] == Rotated(s, cursor)[..b]
            && Rotated(s, moved) == Rotated(s, cursor)[b..] + Rotated(s, cursor)[..b]
            && InList(s, moved)
  {
    hide Distinct, From, Rotated;
    FromIsSuffix(s, cursor);
    var rest := From(s, cursor);
    var before := s[..|s| - |rest|];
    assert s == before + rest;
    Regroup(before, rest, b);
    RotatedOf(s, cursor, before, rest);
    if b < |rest| {
      Apart(before + rest[..b], rest[b..]);
      assert rest[b..][0] == rest[b] && rest[b] in rest[b..];
      FromSplit(before + rest[..b], rest[b..], rest[b]);
      RotatedOf(s, Some(rest[b]), before + rest[..b], rest[b..]);
    } else {
      FromNone(s);
      assert rest[b..] == [] && rest[..b] == rest && [] + s == s;
      RotatedOf(s, None, [], s);
    }
  }

  lemma FromNone<T>(s: seq<T>)
    ensures From(s, None) == s
  {
  }

  lemma {:induction false} WithoutConcat<T>(a: seq<T>, b: seq<T>, k: T)
    ensures Without(a + b, k) == Without(a, k) + Without(b, k)
  {
    if a == [] {
      assert a + b == b;
    } else {
      assert (a + b)[1..] == a[1..] + b;
      WithoutConcat(a[1..], b, k);
    }
  }

  /** Removing an element that is not next leaves the walk as it was without it. */
  lemma RemoveRotates<T>(s: seq<T>, cursor: Option<T>, k: T)
    requires InList(s, cursor) && cursor != Some(k)
    ensures Rotated(Without(s, k), cursor) == Without(Rotated(s, cursor), k)
  {
    hide Distinct, From, Without, Rotated;
    FromIsSuffix(s, cursor);
    var rest := From(s, cursor);
    var before := s[..|s| - |rest|];
    assert s == before + rest;
    RotatedOf(s, cursor, before, rest);
    WithoutConcat(before, rest, k);
    WithoutConcat(rest, before, k);
    if cursor.Some? {
      FromStarts(s, cursor.value);
      WithoutIs(before, k);
      FirstStays(rest, k);
      FromSplit(Without(before, k), Without(rest, k), cursor.value);
    } else {
      FromNone(s);
      FromNone(Without(s, k));
      assert before == [];
      WithoutNone(k);
    }
    RotatedOf(Without(s, k), cursor, Without(before, k), Without(rest, k));
  }

  lemma FirstStays<T>(s: seq<T>, k: T)
    requires s != [] && s[0] != k
    ensures Without(s, k) != [] && Without(s, k)[0] == s[0]
  {
  }

  lemma WithoutNone<T>(k: T)
    ensures Without([], k) == []
  {
  }

  lemma RemoveKeepsAhead(c: Cache, k: Key, ahead: seq<Key>)
    requires CursorOk(c) && k in c.entries && ahead != [] && ahead <= Rotation(c) && k !in ahead
    ensures ahead <= Rotation(RemoveEntry(c, k))
  {
    hide From, Without, Rotated, InList;
    AheadStays(c.compactor, c.cursor, k, ahead);
  }

  lemma AheadStays<T>(s: seq<T>, cursor: Option<T>, k: T, ahead: seq<T>)
    requires InList(s, cursor) && ahead != [] && ahead <= Rotated(s, cursor) && k !in ahead
    ensures cursor != Some(k) && ahead <= Rotated(Without(s, k), cursor)
  {
    hide Distinct, Without;
    FromIsSuffix(s, cursor);
    if cursor.Some? {
      FromStarts(s, cursor.value);
      assert ahead[0] == Rotated(s, cursor)[0] == cursor.value;
    }
    RemoveRotates(s, cursor, k);
    var tail := Rotated(s, cursor)[|ahead|..];
    assert Rotated(s, cursor) == ahead + tail;
    WithoutConcat(ahead, tail, k);
    WithoutAbsent(ahead, k);
  }

  // ---- what a visit does ----

  /** What compaction looks at in an entry. */
  function Fate(c: Cache, k: Key): Option<(EntryState, Option<int>)> {
    if k in c.entries then Some((c.entries[k].state, c.entries[k].invalidatedAt)) else None
  }

  predicate Overdue(fate: Option<(EntryState, Option<int>)>, state: EntryState, window: int, now: int) {
    fate.Some? && fate.value.0 == state && fate.value.1.Some? && now - fate.value.1.value >= window
  }

  /** The fate of a visited entry. */
  function Visited(o: Options, fate: Option<(EntryState, Option<int>)>, now: int): Option<(EntryState, Option<int>)> {
    if Overdue(fate, Invalidated, o.retainWindow, now) then Some((Tombstone, fate.value.1))
    else if Overdue(fate, Tombstone, o.hardLifespan, now) then None
    else fate
  }

  lemma SyncFate(o: Options, c: Cache, k: Key, j: Key)
    ensures Fate(EnsureKeyState(SyncPin(o, c, k), k), j) == Fate(c, j)
  {
    hide CurrentPin, Without;
  }

  lemma SyncedFate(o: Options, c: Cache, k: Key, now: int, j: Key)
    requires k in c.entries && k in c.keys
    ensures Fate(CompactSynced(o, c, k, now), j) == if j == k then Visited(o, Fate(c, j), now) else Fate(c, j)
  {
    hide Without, Next, StoreSnapshot;
  }

  lemma CompactKeyFate(o: Options, c: Cache, k: Key, now: int, j: Key)
    ensures Fate(CompactKey(o, c, k, now), j) == if j == k then Visited(o, Fate(c, j), now) else Fate(c, j)
  {
    hide SyncPin, CompactSynced;
    if k in c.entries {
      SyncKeepsResidents(o, c, k);
      SyncFate(o, c, k, j);
      SyncedFate(o, EnsureKeyState(SyncPin(o, c, k), k), k, now, j);
    }
  }

  lemma {:induction false} BatchFate(o: Options, c: Cache, batch: seq<Key>, now: int, j: Key)
    requires Distinct(batch)
    ensures Fate(CompactKeys(o, c, batch, now), j) == if j in batch then Visited(o, Fate(c, j), now) else Fate(c, j)
  {
    hide CompactKey, Fate, Visited;
    if batch != [] {
      var n := |batch| - 1;
      assert batch == batch[..n] + [batch[n]];
      BatchFate(o, c, batch[..n], now, j);
      CompactKeyFate(o, CompactKeys(o, c, batch[..n], now), batch[n], now, j);
    }
  }

  // ---- the walk under removals ----

  lemma SameWalk(c: Cache, d: Cache)
    requires c.compactor == d.compactor && c.cursor == d.cursor
    ensures Rotation(c) == Rotation(d)
  {
  }

  lemma SyncedKeepsAhead(o: Options, c: Cache, k: Key, now: int, ahead: seq<Key>)
    requires CursorOk(c) && k in c.entries && k in c.keys && ahead != [] && ahead <= Rotation(c) && k !in ahead
    ensures ahead <= Rotation(CompactSynced(o, c, k, now))
  {
    hide RemoveEntry, Rotation;
    var d := AdvanceGeneration(c, k);
    SameWalk(c, d);
    RemoveKeepsAhead(d, k, ahead);
    SameWalk(c, Bury(c, k));
  }

  lemma CompactKeyKeepsAhead(o: Options, c: Cache, k: Key, now: int, ahead: seq<Key>)
    requires CursorOk(c) && ahead != [] && ahead <= Rotation(c) && k !in ahead
    ensures ahead <= Rotation(CompactKey(o, c, k, now))
  {
    hide Rotation, CompactSynced, CurrentPin, Without;
    if k in c.entries {
      var d := EnsureKeyState(SyncPin(o, c, k), k);
      SyncKeepsResidents(o, c, k);
      SameWalk(c, d);
      SyncedKeepsAhead(o, d, k, now, ahead);
    }
  }

  lemma {:induction false} BatchKeepsAhead(o: Options, c: Cache, batch: seq<Key>, now: int, ahead: seq<Key>)
    requires Wf(o, c) && ahead != [] && ahead <= Rotation(c) && forall k :: k in batch ==> k !in ahead
    ensures ahead <= Rotation(CompactKeys(o, c, batch, now))
  {
    hide Rotation, CompactKey, Wf;
    if batch != [] {
      var n := |batch| - 1;
      var d := CompactKeys(o, c, batch[..n], now);
      BatchKeepsAhead(o, c, batch[..n], now, ahead);
      CompactKeysKeeps(o, c, batch[..n], now);
      WfCursor(o, d);
      assert batch[n] in batch;
      CompactKeyKeepsAhead(o, d, batch[n], now, ahead);
    }
  }

  lemma WfCursor(o: Options, c: Cache)
    requires Wf(o, c)
    ensures CursorOk(c) && (forall k :: k in c.compactor <==> k in c.entries)
  {
  }

  // ---- the pass ----

  /** Not yet visited since the pass began at `c0`. */
  predicate Untouched(c0: Cache, c: Cache, k: Key) {
    Fate(c, k) == Fate(c0, k)
  }

  /** Done with: gone, or not overdue, and no tombstone that was overdue when the pass began. */
  predicate Settled(o: Options, c0: Cache, c: Cache, k: Key, start: int) {
    Fate(c, k).Some? ==>
      && Fate(c0, k).Some?
      && !Overdue(Fate(c, k), Invalidated, o.retainWindow, start)
      && !Overdue(Fate(c0, k), Tombstone, o.hardLifespan, start)
  }

  lemma VisitSettles(o: Options, c0: Cache, c: Cache, d: Cache, k: Key, now: int, start: int)
    requires Fate(d, k) == Visited(o, Fate(c, k), now) && start <= now
    requires Settled(o, c0, c, k, start) || Untouched(c0, c, k)
    ensures Settled(o, c0, d, k, start)
  {
  }

  /** In the middle of a pass: what is not settled is still ahead. */
  ghost predicate Walking(o: Options, c0: Cache, c: Cache, remaining: int, start: int) {
    && Wf(o, c)
    && (remaining > 0 ==> remaining <= |Rotation(c)|)
    && (forall k :: Settled(o, c0, c, k, start)
                    || (Untouched(c0, c, k) && 0 < remaining <= |Rotation(c)| && k in Rotation(c)[..remaining]))
  }

  lemma RoundSettles(o: Options, c0: Cache, c: Cache, remaining: int, now: int, start: int, k: Key)
    requires ValidOptions(o) && Walking(o, c0, c, remaining, start) && remaining > 0 && start <= now
    ensures var batch := NextBatch(o, c);
            var d := CompactKeys(o, AdvanceCursor(o, c), batch, now);
            && batch != []
            && (k in batch ==> Settled(o, c0, d, k, start))
            && (k !in batch ==> Fate(d, k) == Fate(c, k))
  {
    hide Wf, Fate, Settled, Rotation, CompactKeys, Visited;
    WfCursor(o, c);
    RotationIs(c);
    AdvanceRotates(o, c);
    var batch := NextBatch(o, c);
    var a := AdvanceCursor(o, c);
    assert Distinct(batch);
    BatchFate(o, a, batch, now, k);
    AdvanceFate(o, c, k);
    if k in batch {
      VisitSettles(o, c0, c, CompactKeys(o, a, batch, now), k, now, start);
    }
  }

  lemma AdvanceFate(o: Options, c: Cache, k: Key)
    ensures Fate(AdvanceCursor(o, c), k) == Fate(c, k)
  {
  }

  /** The keys still ahead after a round are those that were, less the batch. */
  lemma RoundAhead(o: Options, c: Cache, remaining: int, now: int)
    requires ValidOptions(o) && Wf(o, c) && 0 < remaining <= |Rotation(c)|
    ensures var batch := NextBatch(o, c);
            var d := CompactKeys(o, AdvanceCursor(o, c), batch, now);
            && Wf(o, d)
            && (|batch| < remaining ==> |batch| <= |Rotation(c)| && Rotation(c)[|batch|..remaining] <= Rotation(d))
            && (forall k :: k in Rotation(c)[..remaining] && k !in batch ==>
                              |batch| < remaining && k in Rotation(c)[|batch|..remaining])
  {
    hide Wf, Rotation, CompactKeys, AdvanceCursor, NextBatch;
    WfCursor(o, c);
    RotationIs(c);
    AdvanceRotates(o, c);
    AdvanceCursorKeeps(o, c);
    var rot := Rotation(c);
    var batch := NextBatch(o, c);
    var m := |batch|;
    var a := AdvanceCursor(o, c);
    CompactKeysKeeps(o, a, batch, now);
    if m < remaining {
      var ahead := rot[m..remaining];
      assert ahead <= rot[m..] + rot[..m];
      assert rot[..m] + rot[m..] == rot;
      Apart(rot[..m], rot[m..]);
      assert forall k :: k in ahead ==> k in rot[m..];
      BatchKeepsAhead(o, a, batch, now, ahead);
      assert rot[..remaining] == batch + ahead;
    } else {
      assert rot[..remaining] == batch[..remaining];
    }
  }

  lemma RoundWalks(o: Options, c0: Cache, c: Cache, remaining: int, now: int, start: int)
    requires ValidOptions(o) && Walking(o, c0, c, remaining, start) && remaining > 0 && start <= now
    ensures var batch := NextBatch(o, c);
            batch != [] && Walking(o, c0, CompactKeys(o, AdvanceCursor(o, c), batch, now), remaining - |batch|, start)
  {
    hide Wf, Rotation, CompactKeys, AdvanceCursor, NextBatch, Settled, Untouched;
    var batch := NextBatch(o, c);
    var d := CompactKeys(o, AdvanceCursor(o, c), batch, now);
    RoundAhead(o, c, remaining, now);
    RoundSettles(o, c0, c, remaining, now, start, "");
    forall k ensures Settled(o, c0, d, k, start)
                     || (Untouched(c0, d, k) && 0 < remaining - |batch| <= |Rotation(d)|
                         && k in Rotation(d)[..remaining - |batch|])
    {
      RoundSettles(o, c0, c, remaining, now, start, k);
      if k !in batch {
        SameFate(o, c0, c, d, k, start);
        if !Settled(o, c0, c, k, start) {
          var ahead := Rotation(c)[|batch|..remaining];
          assert ahead == Rotation(d)[..|ahead|];
        }
      }
    }
  }

  lemma SameFate(o: Options, c0: Cache, c: Cache, d: Cache, k: Key, start: int)
    requires Fate(d, k) == Fate(c, k)
    ensures Settled(o, c0, d, k, start) <==> Settled(o, c0, c, k, start)
    ensures Untouched(c0, d, k) <==> Untouched(c0, c, k)
  {
  }

  lemma {:induction false} RoundsSettle(o: Options, c0: Cache, c: Cache, remaining: int, clock: nat -> int, round: nat, start: int)
    requires ValidOptions(o) && Walking(o, c0, c, remaining, start) && forall i: nat :: start <= clock(i)
    ensures var d := Rounds(o, c, remaining, clock, round);
            Wf(o, d) && forall k :: Settled(o, c0, d, k, start)
    decreases remaining
  {
    hide Wf, Rotation, CompactKeys, AdvanceCursor, NextBatch, Settled, Untouched;
    if remaining > 0 {
      var batch := NextBatch(o, c);
      RoundWalks(o, c0, c, remaining, clock(round), start);
      RoundsSettle(o, c0, CompactKeys(o, AdvanceCursor(o, c), batch, clock(round)), remaining - |batch|, clock, round + 1, start);
    }
  }

  /**
   * A pass leaves no entry that was invalidated longer ago than the retain window and no tombstone
   * that was past the hard lifespan when the pass began, and it adds no entry.
   */
  lemma PassLeavesNothingOverdue(o: Options, c: Cache, clock: nat -> int, start: int)
    requires ValidOptions(o) && Wf(o, c) && forall i: nat :: start <= clock(i)
    ensures var d := Pass(o, c, clock);
            && Wf(o, d)
            && forall k :: k in d.entries ==>
                             && k in c.entries
                             && !Aged(d.entries[k], Invalidated, o.retainWindow, start)
                             && !Aged(c.entries[k], Tombstone, o.hardLifespan, start)
  {
    hide Wf, Rotation, Rounds;
    WfCursor(o, c);
    RotationIs(c);
    assert Rotation(c)[..|c.compactor|] == Rotation(c);
    RoundsSettle(o, c, c, |c.compactor|, clock, 0, start);
    var d := Pass(o, c, clock);
    forall k | k in d.entries
      ensures k in c.entries && !Aged(d.entries[k], Invalidated, o.retainWindow, start)
              && !Aged(c.entries[k], Tombstone, o.hardLifespan, start)
    {
      assert Settled(o, c, d, k, start);
    }
  }

  lemma {:induction false} RoundsKeepPresent(o: Options, c: Cache, remaining: int, clock: nat -> int, round: nat, k: Key)
    requires ValidOptions(o) && Wf(o, c) && Fate(c, k).Some? && Fate(c, k).value.0 == Present
    ensures Fate(Rounds(o, c, remaining, clock, round), k) == Fate(c, k)
    decreases remaining
  {
    hide Wf, Rotation, CompactKeys, AdvanceCursor, NextBatch, Fate;
    AdvanceFate(o, c, k);
    var batch := NextBatch(o, c);
    if remaining > 0 && batch != [] {
      var a := AdvanceCursor(o, c);
      WfCursor(o, c);
      RotationIs(c);
      AdvanceRotates(o, c);
      assert Distinct(batch);
      BatchFate(o, a, batch, clock(round), k);
      AdvanceCursorKeeps(o, c);
      CompactKeysKeeps(o, a, batch, clock(round));
      RoundsKeepPresent(o, CompactKeys(o, a, batch, clock(round)), remaining - |batch|, clock, round + 1, k);
    }
  }

  /** A pass never removes an entry that holds a value nobody invalidated. */
  lemma PassKeepsPresent(o: Options, c: Cache, clock: nat -> int, k: Key)
    requires ValidOptions(o) && Wf(o, c) && k in c.entries && c.entries[k].state == Present
    ensures k in Pass(o, c, clock).entries && Pass(o, c, clock).entries[k].state == Present
  {
    hide Wf, Rounds;
    RoundsKeepPresent(o, c, |c.compactor|, clock, 0, k);
  }
}
