/**
 * The order of a key's accepted writes by themselves. Invalidations may be stamped in any order
 * among themselves; writes go back only behind an invalidation that is stamped before the latest
 * write and is the first one since that write.
 */
module WriteOrder {
  import opened Protocol
  import opened ShadowCache
  import opened ShadowInvariants
  import opened ShadowViews
  import opened ShadowAdmission
  import opened ShadowOrder

  /** The latest stamp of an accepted write of a key. */
  function LatestWrite(log: seq<Stamp>, k: Key): Option<int> {
    if log == [] then
      None
    else
      var n := |log| - 1;
      if log[n].key == k && log[n].Wrote? then Later(LatestWrite(log[..n], k), log[n].at) else LatestWrite(log[..n], k)
  }

  ghost predicate WritesInOrder(log: seq<Stamp>, k: Key) {
    forall i, j :: 0 <= i < j < |log| && log[i].key == k == log[j].key && log[i].Wrote? && log[j].Wrote? ==>
                     log[i].at <= log[j].at
  }

  /** An invalidation before the latest write, when none has come since that write. */
  predicate Early(v: View, latest: Option<int>, at: int) {
    v.invalidatedAt.None? && latest.Some? && at < latest.value
  }

  /** What the checks see is not before the latest write. */
  predicate Secure(v: View, latest: Option<int>) {
    latest.Some? ==>
      match v.invalidatedAt
      case Some(voided) => latest.value <= voided
      case None =>
        && v.highWater.Some? && latest.value <= v.highWater.value
        && (v.core.Some? ==> v.core.value.observedAt.Some? && latest.value <= v.core.value.observedAt.value)
  }

  lemma {:induction false} LatestWriteBounds(log: seq<Stamp>, k: Key)
    ensures forall i :: 0 <= i < |log| && log[i].key == k && log[i].Wrote? ==>
                          LatestWrite(log, k).Some? && log[i].at <= LatestWrite(log, k).value
  {
    if log != [] {
      var n := |log| - 1;
      LatestWriteBounds(log[..n], k);
      assert forall i :: 0 <= i < n ==> log[i] == log[..n][i];
    }
  }

  lemma LatestWriteAppend(log: seq<Stamp>, s: Stamp, k: Key)
    ensures LatestWrite(log + [s], k) ==
            if s.key == k && s.Wrote? then Later(LatestWrite(log, k), s.at) else LatestWrite(log, k)
  {
    assert (log + [s])[..|log|] == log;
  }

  /** Where the key is secure, the rules admit nothing before its latest write. */
  lemma SecureAdmits(v: View, latest: Option<int>, source: Source, at: int)
    requires Secure(v, latest) && Admissible(v, source, at)
    ensures latest.Some? ==> latest.value <= at
  {
  }

  lemma WriteSecure(o: Options, c: Cache, w: Write, latest: Option<int>, k: Key)
    requires Secure(ViewOf(c, k), latest)
    ensures var r := WriteTo(o, c, w);
            if r.1.Accepted? && w.key == k then
              (latest.Some? ==> latest.value <= w.at) && Secure(ViewOf(r.0, k), Later(latest, w.at))
            else
              Secure(ViewOf(r.0, k), latest)
  {
    hide WriteTo, ViewOf, Admissible;
    WriteViews(o, c, w, k);
    if WriteTo(o, c, w).1.Accepted? && w.key == k {
      SecureAdmits(ViewOf(c, k), latest, w.source, w.at);
    }
  }

  lemma VoidSecure(o: Options, c: Cache, key: Key, at: int, latest: Option<int>, k: Key)
    requires Secure(ViewOf(c, k), latest) && (key == k ==> !Early(ViewOf(c, k), latest, at))
    ensures Secure(ViewOf(Invalidate(o, c, key, at), k), latest)
  {
    hide Invalidate, ViewOf;
    InvalidateViews(o, c, key, at, k);
  }

  lemma OtherSecure(o: Options, c: Cache, op: Op, latest: Option<int>, k: Key)
    requires Secure(ViewOf(c, k), latest) && !op.DoWrite? && !op.DoInvalidate?
    ensures Secure(ViewOf(Apply(o, c, op), k), latest)
  {
    hide Apply, ViewOf;
    OtherViews(o, c, op, k);
  }

  lemma AppendInWriteOrder(log: seq<Stamp>, s: Stamp, k: Key)
    requires WritesInOrder(log, k)
    requires s.key == k && s.Wrote? && LatestWrite(log, k).Some? ==> LatestWrite(log, k).value <= s.at
    ensures WritesInOrder(log + [s], k)
  {
    LatestWriteBounds(log, k);
  }

  /** The key is secure and its writes are in order. */
  ghost predicate Steady(c: Cache, log: seq<Stamp>, k: Key) {
    Secure(ViewOf(c, k), LatestWrite(log, k)) && WritesInOrder(log, k)
  }

  lemma StepSteady(o: Options, c: Cache, op: Op, log: seq<Stamp>, k: Key)
    requires Steady(c, log, k)
    requires op.DoInvalidate? && op.key == k ==> !Early(ViewOf(c, k), LatestWrite(log, k), op.at)
    ensures Steady(Apply(o, c, op), log + Stamps(o, c, op), k)
  {
    hide WriteTo, Invalidate, ViewOf, Secure, WritesInOrder, LatestWrite;
    var latest := LatestWrite(log, k);
    if op.DoWrite? {
      WriteSecure(o, c, op.w, latest, k);
    } else if op.DoInvalidate? {
      VoidSecure(o, c, op.key, op.at, latest, k);
    } else {
      OtherSecure(o, c, op, latest, k);
    }
    if Stamps(o, c, op) == [] {
      assert log + Stamps(o, c, op) == log;
    } else {
      var s := Stamps(o, c, op)[0];
      assert Stamps(o, c, op) == [s];
      LatestWriteAppend(log, s, k);
      AppendInWriteOrder(log, s, k);
    }
  }

  /** No invalidation of `k` in the run is early where it comes. */
  ghost predicate NeverEarly(o: Options, c: Cache, ops: seq<Op>, k: Key) {
    forall i :: 0 <= i < |ops| && ops[i].DoInvalidate? && ops[i].key == k ==>
                  !Early(ViewOf(After(o, c, ops[..i]), k), LatestWrite(Log(o, c, ops[..i]), k), ops[i].at)
  }

  lemma NeverEarlyPrefix(o: Options, c: Cache, ops: seq<Op>, k: Key)
    requires ops != [] && NeverEarly(o, c, ops, k)
    ensures NeverEarly(o, c, ops[..|ops| - 1], k)
  {
    hide Early, ViewOf, LatestWrite, After, Log;
    var n := |ops| - 1;
    forall i | 0 <= i < n && ops[..n][i].DoInvalidate? && ops[..n][i].key == k
      ensures !Early(ViewOf(After(o, c, ops[..n][..i]), k), LatestWrite(Log(o, c, ops[..n][..i]), k), ops[..n][i].at)
    {
      assert ops[..n][..i] == ops[..i] && ops[..n][i] == ops[i];
    }
  }

  /** Over every run without an early invalidation of the key its accepted writes never go back. */
  lemma {:induction false} WritesStayInOrder(o: Options, c: Cache, ops: seq<Op>, k: Key)
    requires c.entries == map[] && c.keys == map[] && NeverEarly(o, c, ops, k)
    ensures Steady(After(o, c, ops), Log(o, c, ops), k)
  {
    if ops != [] {
      hide Steady, Apply, Stamps, Early, ViewOf, LatestWrite;
      var n := |ops| - 1;
      NeverEarlyPrefix(o, c, ops, k);
      WritesStayInOrder(o, c, ops[..n], k);
      StepSteady(o, After(o, c, ops[..n]), ops[n], Log(o, c, ops[..n]), k);
    }
  }

  // ---- the condition is exact ----

  /** Writes of `k` are allowed, and the key has an entry or will get one. */
  predicate Open(o: Options, c: Cache, k: Key) {
    && k in c.catalog && !c.catalog[k].debug && !c.degraded && ActiveSources(c, k) != {}
    && c.catalog[k].ttl.Some? && c.catalog[k].ttl.value > 0
    && DesiredPin(Some(c.catalog[k]), ActiveSources(c, k)) != WriteConfirmPin
    && (k in c.entries || HasRoom(o, c))
  }

  /** A confirmed read that began after the invalidation and is stamped like it. */
  function LateConfirmation(c: Cache, k: Key, at: int): Write {
    Write(k, ActiveConfirmed, true, [], at, Generation(c, k))
  }

  lemma EarlyVoidReopens(o: Options, c: Cache, k: Key, at: int, latest: Option<int>)
    requires Wf(o, c) && ValidOptions(o) && Open(o, c, k) && Early(ViewOf(c, k), latest, at)
    ensures var d := Invalidate(o, c, k, at); WriteTo(o, d, LateConfirmation(d, k, at)).1.Accepted?
  {
    hide Wf, Invalidate, WriteTo, ViewOf, CanAdmitWriteConfirm, HasRoom;
    var d := Invalidate(o, c, k, at);
    InvalidateKeeps(o, c, k, at);
    InvalidatePolicy(o, c, k, at);
    InvalidateViews(o, c, k, at, k);
    InvalidationEntersExactly(o, c, k, at);
    AcceptedExactly(o, d, LateConfirmation(d, k, at));
  }

  /**
   * For a key whose writes are in order so far: after an invalidation a write from before the latest
   * one can be accepted if and only if the invalidation is early. It does not matter whether the key
   * has an entry.
   */
  lemma ReopensExactly(o: Options, c: Cache, k: Key, at: int, log: seq<Stamp>)
    requires Wf(o, c) && ValidOptions(o) && Open(o, c, k) && Steady(c, log, k) && LatestWrite(log, k).Some?
    ensures (exists w: Write :: w.key == k && w.at < LatestWrite(log, k).value && WriteTo(o, Invalidate(o, c, k, at), w).1.Accepted?)
            <==> Early(ViewOf(c, k), LatestWrite(log, k), at)
  {
    hide Wf, Invalidate, WriteTo, ViewOf, Secure, LatestWrite, WritesInOrder, Open;
    var latest := LatestWrite(log, k);
    var d := Invalidate(o, c, k, at);
    if Early(ViewOf(c, k), latest, at) {
      EarlyVoidReopens(o, c, k, at, latest);
      assert LateConfirmation(d, k, at).key == k;
    } else {
      VoidSecure(o, c, k, at, latest, k);
      forall w: Write | w.key == k && WriteTo(o, d, w).1.Accepted? ensures latest.value <= w.at {
        WriteSecure(o, d, w, latest, k);
      }
    }
  }
}
