/** The identity of a transaction as the deduplicator hashes it, and its byte encoding. */
module Identity {
  import opened Protocol
  import opened WireLog

  /** Class, addresses, response class, outcome and the two frames; the names are byte strings. */
  datatype Identity = Identity(
    class_: seq<Byte>, source: Byte, target: Byte, responseClass: seq<Byte>, outcome: seq<Byte>,
    request: seq<Byte>, response: seq<Byte>)

  /** A name behind its length in one byte, which wraps. */
  function Named(name: seq<Byte>): seq<Byte> {
    [|name| % 256] + name
  }

  /** A payload behind its length in two bytes, big endian, which wraps. */
  function Prefixed(payload: seq<Byte>): seq<Byte> {
    [|payload| / 256 % 256, |payload| % 256] + payload
  }

  /** The bytes that are hashed. */
  function Preimage(id: Identity): seq<Byte> {
    Named(id.class_) + [id.source, id.target] + Named(id.responseClass) + Named(id.outcome)
    + Prefixed(id.request) + Prefixed(id.response)
  }

  predicate Short(id: Identity) {
    |id.class_| < 256 && |id.responseClass| < 256 && |id.outcome| < 256 && |id.request| < 65536 && |id.response| < 65536
  }

  /** A first field that says how long it is can be split off. */
  lemma NamedSplits(a: seq<Byte>, x: seq<Byte>, b: seq<Byte>, y: seq<Byte>)
    requires |a| < 256 && |b| < 256 && Named(a) + x == Named(b) + y
    ensures a == b && x == y
  {
    var s, t := Named(a) + x, Named(b) + y;
    assert s[0] == |a| && t[0] == |b|;
    assert s[1..|a| + 1] == a && t[1..|b| + 1] == b;
    assert s[|a| + 1..] == x && t[|b| + 1..] == y;
  }

  lemma PrefixedSplits(a: seq<Byte>, x: seq<Byte>, b: seq<Byte>, y: seq<Byte>)
    requires |a| < 65536 && |b| < 65536 && Prefixed(a) + x == Prefixed(b) + y
    ensures a == b && x == y
  {
    var s, t := Prefixed(a) + x, Prefixed(b) + y;
    assert s[0] == |a| / 256 && t[0] == |b| / 256;
    assert s[1] == |a| % 256 && t[1] == |b| % 256;
    assert |a| == |a| / 256 * 256 + |a| % 256 && |b| == |b| / 256 * 256 + |b| % 256;
    assert s[2..|a| + 2] == a && t[2..|b| + 2] == b;
    assert s[|a| + 2..] == x && t[|b| + 2..] == y;
  }

  /** Two identities with the same bytes are the same identity. */
  lemma PreimageInjective(a: Identity, b: Identity)
    requires Short(a) && Short(b) && Preimage(a) == Preimage(b)
    ensures a == b
  {
    hide Named, Prefixed;
    var a4, b4 := Prefixed(a.response) + [], Prefixed(b.response) + [];
    var a3, b3 := Prefixed(a.request) + a4, Prefixed(b.request) + b4;
    var a2, b2 := Named(a.outcome) + a3, Named(b.outcome) + b3;
    var a1, b1 := Named(a.responseClass) + a2, Named(b.responseClass) + b2;
    var a0, b0 := [a.source, a.target] + a1, [b.source, b.target] + b1;
    assert Preimage(a) == Named(a.class_) + a0 && Preimage(b) == Named(b.class_) + b0;
    NamedSplits(a.class_, a0, b.class_, b0);
    assert a0[0] == b0[0] && a0[1] == b0[1] && a0[2..] == a1 && b0[2..] == b1;
    NamedSplits(a.responseClass, a1[|Named(a.responseClass)|..], b.responseClass, b1[|Named(b.responseClass)|..]);
    NamedSplits(a.outcome, a3, b.outcome, b3);
    PrefixedSplits(a.request, a4, b.request, b4);
    PrefixedSplits(a.response, [], b.response, []);
  }

  function Zeros(n: nat): seq<Byte> {
    seq(n, i => 0)
  }

  /** The bound on payloads is needed: at 65536 bytes the two-byte length wraps and payloads can trade places. */
  lemma LongPayloadsCollide(id: Identity)
    ensures var a := id.(request := Zeros(65536), response := []);
            var b := id.(request := [], response := Zeros(65536));
            a != b && Preimage(a) == Preimage(b)
  {
    var z := Zeros(65536);
    var a, b := id.(request := z, response := []), id.(request := [], response := z);
    assert |a.request| != |b.request|;
    assert Prefixed(z) == [0, 0] + z && Prefixed([]) == [0, 0];
    assert Prefixed(z) + Prefixed([]) == Prefixed([]) + Prefixed(z);
    var head := Named(id.class_) + [id.source, id.target] + Named(id.responseClass) + Named(id.outcome);
    assert Preimage(a) == head + (Prefixed(z) + Prefixed([]));
    assert Preimage(b) == head + (Prefixed([]) + Prefixed(z));
  }

  /** The bytes of a frame that may be missing. */
  function FrameBytes(lib: Library, f: Option<Frame>): seq<Byte> {
    if f.Some? then CanonicalFrameBytes(lib, f.value) else []
  }

  lemma FrameBytesInjective(lib: Library, f: Option<Frame>, g: Option<Frame>)
    requires f.Some? ==> |f.value.data| <= 255
    requires g.Some? ==> |g.value.data| <= 255
    requires FrameBytes(lib, f) == FrameBytes(lib, g)
    ensures f == g
  {
    if f.Some? {
      CanonicalRoundTrip(lib, f.value);
    }
    if g.Some? {
      CanonicalRoundTrip(lib, g.value);
    }
  }

  /**
   * With a digest that tells pre-images apart, exchanges with and without a response have the same
   * digest only if they are the same frames in the same roles; frames have at most 255 data bytes.
   */
  lemma SameDigestSameFrames(lib: Library, digest: seq<Byte> -> seq<Byte>, a: Identity, b: Identity,
                             f: Frame, g: Option<Frame>, f': Frame, g': Option<Frame>)
    requires forall x, y :: digest(x) == digest(y) ==> x == y
    requires |a.class_| < 256 && |a.responseClass| < 256 && |a.outcome| < 256
    requires |b.class_| < 256 && |b.responseClass| < 256 && |b.outcome| < 256
    requires |f.data| <= 255 && |f'.data| <= 255
    requires (g.Some? ==> |g.value.data| <= 255) && (g'.Some? ==> |g'.value.data| <= 255)
    requires a.request == CanonicalFrameBytes(lib, f) && a.response == FrameBytes(lib, g)
    requires b.request == CanonicalFrameBytes(lib, f') && b.response == FrameBytes(lib, g')
    requires digest(Preimage(a)) == digest(Preimage(b))
    ensures a == b && f == f' && g == g'
  {
    hide Preimage;
    PreimageInjective(a, b);
    FrameBytesInjective(lib, Some(f), Some(f'));
    FrameBytesInjective(lib, g, g');
  }
}
