/**
 * The two freshness tests of the shadow cache, the one under the lock and the lock-free one the
 * read scheduler uses, and exactly when they agree.
 */
module ShadowEligibility {
  import opened Protocol
  import opened Runs
  import opened ShadowCache
  import opened ShadowInvariants
  import opened ShadowViews

  /** The read scheduler's test on a key's snapshot. */
  predicate SnapshotFresh(c: Cache, k: Key, maxAge: int, now: int) {
    && SnapshotEligible(c, k, now) && maxAge > 0
    && SnapshotOf(c, k).observedAt.Some? && 0 <= now - SnapshotOf(c, k).observedAt.value <= maxAge
  }

  /** A present entry was observed, and expires later than that. */
  predicate Dated(v: View) {
    v.core.Some? && v.core.value.state == Present ==>
      && v.core.value.observedAt.Some? && v.core.value.expiresAt.Some?
      && v.core.value.observedAt.value < v.core.value.expiresAt.value
  }

  /** A present entry's lifetime is that of the descriptor it carries. */
  predicate LivesByDescriptor(v: View) {
    v.core.Some? && v.core.value.state == Present && v.core.value.observedAt.Some? && v.core.value.expiresAt.Some? ==>
      && v.core.value.descriptor.Some?
      && v.core.value.descriptor.value.ttl == Some(v.core.value.expiresAt.value - v.core.value.observedAt.value)
  }

  /** Same verdict for every age limit at every instant. */
  ghost predicate TestsAgree(c: Cache, k: Key)
    requires k in c.entries
  {
    forall maxAge, now :: maxAge > 0 ==>
                            (LookupEligible(c, c.entries[k], maxAge, now) <==> SnapshotFresh(c, k, maxAge, now))
  }

  lemma SameVerdict(c: Cache, k: Key, maxAge: int, now: int)
    requires k in c.entries && IndexOk(c, k) && Dated(ViewOf(c, k)) && LivesByDescriptor(ViewOf(c, k)) && maxAge > 0
    ensures LookupEligible(c, c.entries[k], maxAge, now) <==> SnapshotFresh(c, k, maxAge, now)
  {
  }

  /** An age at which the two lifetimes differ. */
  lemma OtherVerdict(c: Cache, k: Key) returns (maxAge: int, now: int)
    requires k in c.entries && IndexOk(c, k) && Dated(ViewOf(c, k)) && !LivesByDescriptor(ViewOf(c, k)) && !c.degraded
    ensures maxAge > 0 && LookupEligible(c, c.entries[k], maxAge, now) != SnapshotFresh(c, k, maxAge, now)
  {
    var e := c.entries[k];
    var life := e.expiresAt.value - e.observedAt.value;
    maxAge := life + 1;
    var shorter := e.descriptor.Some? && e.descriptor.value.ttl.Some? && 0 < e.descriptor.value.ttl.value < life;
    now := e.observedAt.value + if shorter then life else life + 1;
  }

  /**
   * While shadowing is on, the tests agree at every age and instant exactly when the entry still
   * carries the lifetime it was written with.
   */
  lemma TestsAgreeExactly(c: Cache, k: Key)
    requires k in c.entries && IndexOk(c, k) && Dated(ViewOf(c, k)) && !c.degraded
    ensures TestsAgree(c, k) <==> LivesByDescriptor(ViewOf(c, k))
  {
    if LivesByDescriptor(ViewOf(c, k)) {
      forall maxAge, now | maxAge > 0
        ensures LookupEligible(c, c.entries[k], maxAge, now) <==> SnapshotFresh(c, k, maxAge, now)
      {
        SameVerdict(c, k, maxAge, now);
      }
    } else {
      var maxAge, now := OtherVerdict(c, k);
    }
  }

  // ---- runs ----

  lemma StepDated(o: Options, c: Cache, op: Op, k: Key)
    requires Dated(ViewOf(c, k))
    ensures Dated(ViewOf(Apply(o, c, op), k))
    ensures LivesByDescriptor(ViewOf(c, k)) && !(op.DoReconfigure? && op.upgraded == Some(k)) ==>
              LivesByDescriptor(ViewOf(Apply(o, c, op), k))
  {
    hide ViewOf, WriteTo, Invalidate, Admissible;
    if op.DoWrite? {
      WriteViews(o, c, op.w, k);
    } else if op.DoInvalidate? {
      InvalidateViews(o, c, op.key, op.at, k);
    } else {
      OtherViews(o, c, op, k);
    }
  }

  /** No descriptor of `k` is upgraded in the run. */
  predicate NeverUpgraded(ops: seq<Op>, k: Key) {
    forall i :: 0 <= i < |ops| ==> !(ops[i].DoReconfigure? && ops[i].upgraded == Some(k))
  }

  lemma {:induction false} RunDated(o: Options, c: Cache, ops: seq<Op>, k: Key)
    requires Dated(ViewOf(c, k))
    ensures Dated(ViewOf(After(o, c, ops), k))
    ensures LivesByDescriptor(ViewOf(c, k)) && NeverUpgraded(ops, k) ==> LivesByDescriptor(ViewOf(After(o, c, ops), k))
  {
    hide Apply, ViewOf, Dated, LivesByDescriptor;
    if ops != [] {
      var n := |ops| - 1;
      RunDated(o, c, ops[..n], k);
      StepDated(o, After(o, c, ops[..n]), ops[n], k);
      assert NeverUpgraded(ops, k) ==> NeverUpgraded(ops[..n], k) && !(ops[n].DoReconfigure? && ops[n].upgraded == Some(k));
    }
  }

  /**
   * After any run in which a key's descriptor is not upgraded after the key's last accepted write,
   * the locked test and the lock-free test give the same answer at every age limit and instant.
   */
  lemma TestsAgreeSinceWrite(o: Options, c: Cache, before: seq<Op>, w: Write, after: seq<Op>)
    requires ValidOptions(o) && Wf(o, c) && (forall k :: Dated(ViewOf(c, k)))
    requires WriteTo(o, After(o, c, before), w).1.Accepted? && NeverUpgraded(after, w.key)
    ensures var d := After(o, c, before + [DoWrite(w)] + after); w.key in d.entries ==> TestsAgree(d, w.key)
  {
    hide Wf, Apply, WriteTo, ViewOf, Dated, LivesByDescriptor, LookupEligible, SnapshotFresh;
    var c1 := After(o, c, before);
    var c2 := After(o, c, before + [DoWrite(w)]);
    var d := After(o, c, before + [DoWrite(w)] + after);
    RunAppend(Shadow(o), c, before, DoWrite(w));
    RunConcat(Shadow(o), c, before + [DoWrite(w)], after);
    RunKeeps(o, c, before + [DoWrite(w)] + after);
    At(o, d, w.key);
    RunDated(o, c, before, w.key);
    StepDated(o, c1, DoWrite(w), w.key);
    WriteLives(o, c1, w);
    RunDated(o, c2, after, w.key);
    if w.key in d.entries {
      forall maxAge, now | maxAge > 0
        ensures LookupEligible(d, d.entries[w.key], maxAge, now) <==> SnapshotFresh(d, w.key, maxAge, now)
      {
        SameVerdict(d, w.key, maxAge, now);
      }
    }
  }

  lemma WriteLives(o: Options, c: Cache, w: Write)
    requires WriteTo(o, c, w).1.Accepted?
    ensures LivesByDescriptor(ViewOf(Apply(o, c, DoWrite(w)), w.key))
  {
    hide ViewOf, WriteTo, Admissible;
    WriteViews(o, c, w, w.key);
  }
}
