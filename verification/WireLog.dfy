/** Frames as byte sequences: the parser, the canonical encoding and the wire-log frame decoder. */
module WireLog {
  import opened Protocol
  import opened Runs

  /** Accepts exactly the byte sequences made of a header, LEN data bytes and a matching checksum. */
  function ParseFrame(lib: Library, raw: seq<Byte>): Option<Frame> {
    if |raw| < 6 || |raw| != 6 + raw[4] as int || lib.crc(raw[..|raw| - 1]) != raw[|raw| - 1] then
      None
    else
      Some(Frame(raw[0], raw[1], raw[2], raw[3], raw[5..5 + raw[4] as int]))
  }

  /** Header and data, before the checksum; the LEN byte keeps only the low eight bits. */
  function FrameBody(frame: Frame): seq<Byte> {
    [frame.source, frame.target, frame.primary, frame.secondary, |frame.data| % 256] + frame.data
  }

  function CanonicalFrameBytes(lib: Library, frame: Frame): seq<Byte> {
    FrameBody(frame) + [lib.crc(FrameBody(frame))]
  }

  /** The parser that reads a fingerprint back; it does not look at the checksum. */
  function RequestFrameFromFingerprint(raw: seq<Byte>): Option<Frame> {
    if |raw| < 6 || |raw| != 6 + raw[4] as int then
      None
    else
      Some(Frame(raw[0], raw[1], raw[2], raw[3], raw[5..5 + raw[4] as int]))
  }

  /** Both parsers invert the canonical encoding exactly when the data fits the LEN byte. */
  lemma CanonicalRoundTrip(lib: Library, frame: Frame)
    ensures ParseFrame(lib, CanonicalFrameBytes(lib, frame)) == Some(frame) <==> |frame.data| <= 255
    ensures RequestFrameFromFingerprint(CanonicalFrameBytes(lib, frame)) == Some(frame) <==> |frame.data| <= 255
    ensures |frame.data| > 255 ==> ParseFrame(lib, CanonicalFrameBytes(lib, frame)).None?
  {
    var body := FrameBody(frame);
    var raw := CanonicalFrameBytes(lib, frame);
    assert raw[..|raw| - 1] == body;
    if |frame.data| <= 255 {
      assert raw[5..5 + raw[4] as int] == frame.data;
    }
  }

  /** Nothing else is accepted: a parsed sequence is the canonical encoding of its frame. */
  lemma ParseIsCanonical(lib: Library, raw: seq<Byte>)
    requires ParseFrame(lib, raw).Some?
    ensures raw == CanonicalFrameBytes(lib, ParseFrame(lib, raw).value)
    ensures |ParseFrame(lib, raw).value.data| == raw[4]
  {
    var frame := ParseFrame(lib, raw).value;
    assert raw[..|raw| - 1] == FrameBody(frame);
  }

  /** Byte stuffing: the two reserved bytes become two-byte sequences. */
  function EscapeByte(b: Byte): (w: seq<Byte>)
    ensures 1 <= |w| <= 2 && SYN !in w
  {
    if b == ESC then [ESC, 0x00] else if b == SYN then [ESC, 0x01] else [b]
  }

  function Escape(bytes: seq<Byte>): (w: seq<Byte>)
    ensures SYN !in w
  {
    if bytes == [] then [] else EscapeByte(bytes[0]) + Escape(bytes[1..])
  }

  datatype DecoderState = DecoderState(escape: bool, buffer: seq<Byte>)

  /** One raw byte through the wire-log decoder: the next state and the frame it completes, if any. */
  function DecoderStep(lib: Library, s: DecoderState, symbol: Byte): (DecoderState, Option<Frame>) {
    if s.escape then
      (DecoderState(false, if symbol == 0x00 then s.buffer + [ESC] else if symbol == 0x01 then s.buffer + [SYN] else []), None)
    else if symbol == ESC then
      (s.(escape := true), None)
    else if symbol == SYN then
      (DecoderState(false, []), if s.buffer == [] then None else ParseFrame(lib, s.buffer))
    else
      (s.(buffer := s.buffer + [symbol]), None)
  }

  function Decoder(lib: Library): Machine<DecoderState, Byte, Frame> {
    Machine((s, b) => DecoderStep(lib, s, b).0,
            (s, b) => var f := DecoderStep(lib, s, b).1; if f.Some? then [f.value] else [])
  }

  /** The decoder that annotates the wire log with whole frames. */
  class FrameDecoder {
    var escape: bool
    var buffer: seq<Byte>

    function State(): DecoderState
      reads this
    {
      DecoderState(escape, buffer)
    }

    constructor ()
      ensures State() == DecoderState(false, [])
    {
      escape, buffer := false, [];
    }

    method Push(lib: Library, symbol: Byte) returns (frame: Option<Frame>)
      modifies this
      ensures State() == DecoderStep(lib, old(State()), symbol).0
      ensures frame == DecoderStep(lib, old(State()), symbol).1
    {
      frame := None;
      if escape {
        escape := false;
        match symbol {
          case 0x00 => buffer := buffer + [ESC];
          case 0x01 => buffer := buffer + [SYN];
          case _ => buffer := [];
        }
        return;
      }
      if symbol == ESC {
        escape := true;
      } else if symbol == SYN {
        if |buffer| == 0 {
          return;
        }
        frame := ParseFrame(lib, buffer);
        buffer := [];
      } else {
        buffer := buffer + [symbol];
      }
    }

    method Reset()
      modifies this
      ensures State() == DecoderState(false, [])
    {
      escape, buffer := false, [];
    }
  }

  lemma DecodesOne(lib: Library, buffer: seq<Byte>, b: Byte)
    ensures StateAfter(Decoder(lib), DecoderState(false, buffer), EscapeByte(b)) == DecoderState(false, buffer + [b])
    ensures Output(Decoder(lib), DecoderState(false, buffer), EscapeByte(b)) == []
  {
    var m := Decoder(lib);
    var s := DecoderState(false, buffer);
    var w := EscapeByte(b);
    RunAppend(m, s, [], w[0]);
    assert [] + [w[0]] == [w[0]];
    if |w| == 2 {
      RunAppend(m, s, [w[0]], w[1]);
      assert [w[0]] + [w[1]] == w;
    }
  }

  /** Stuffed bytes only fill the buffer, with the bytes they stand for. */
  lemma {:induction false} DecodesEscaped(lib: Library, buffer: seq<Byte>, bytes: seq<Byte>)
    ensures StateAfter(Decoder(lib), DecoderState(false, buffer), Escape(bytes)) == DecoderState(false, buffer + bytes)
    ensures Output(Decoder(lib), DecoderState(false, buffer), Escape(bytes)) == []
    decreases |bytes|
  {
    if bytes == [] {
      assert buffer + bytes == buffer;
    } else {
      DecodesEscaped(lib, buffer + [bytes[0]], bytes[1..]);
      assert buffer + bytes == (buffer + [bytes[0]]) + bytes[1..];
      DecodesOne(lib, buffer, bytes[0]);
      RunConcat(Decoder(lib), DecoderState(false, buffer), EscapeByte(bytes[0]), Escape(bytes[1..]));
    }
  }

  /**
   * From any state, even in the middle of an escape sequence, one SYN is enough: the next
   * stuffed frame closed by a SYN is reported once, as it was sent.
   */
  lemma DecoderRoundTrip(lib: Library, s: DecoderState, frame: Frame)
    requires |frame.data| <= 255
    ensures var s0 := DecoderStep(lib, s, SYN).0;
            var wire := Escape(CanonicalFrameBytes(lib, frame)) + [SYN];
            StateAfter(Decoder(lib), s0, wire) == DecoderState(false, []) && Output(Decoder(lib), s0, wire) == [frame]
  {
    hide ParseFrame, Escape, StateAfter, Output;
    var raw := CanonicalFrameBytes(lib, frame);
    assert raw != [];
    DecodesEscaped(lib, [], raw);
    assert [] + raw == raw;
    RunAppend(Decoder(lib), DecoderState(false, []), Escape(raw), SYN);
    CanonicalRoundTrip(lib, frame);
  }

  // ---- nothing else is reported ----

  lemma {:induction false} EscapeAppend(bytes: seq<Byte>, b: Byte)
    ensures Escape(bytes + [b]) == Escape(bytes) + EscapeByte(b)
  {
    if bytes == [] {
      assert bytes + [b] == [b] && [b][1..] == [];
    } else {
      assert (bytes + [b])[1..] == bytes[1..] + [b];
      EscapeAppend(bytes[1..], b);
    }
  }

  /** The raw bytes read into the buffer so far, and the first half of an escape sequence. */
  function Unread(s: DecoderState): seq<Byte> {
    Escape(s.buffer) + if s.escape then [ESC] else []
  }

  /** Where collecting starts over: at the beginning, after a SYN, or after a broken escape sequence. */
  predicate Boundary(w: seq<Byte>, k: nat) {
    k <= |w| && (|| k == 0 || w[k - 1] == SYN
                 || (k >= 2 && w[k - 2] == ESC && w[k - 1] != 0x00 && w[k - 1] != 0x01))
  }

  lemma StepReads(lib: Library, s: DecoderState, b: Byte)
    requires !(s.escape && b != 0x00 && b != 0x01) && !(!s.escape && b == SYN)
    ensures Unread(DecoderStep(lib, s, b).0) == Unread(s) + [b] && DecoderStep(lib, s, b).1.None?
  {
    EscapeAppend(s.buffer, ESC);
    EscapeAppend(s.buffer, SYN);
    EscapeAppend(s.buffer, b);
    assert Escape(s.buffer) + [ESC] + [b] == Escape(s.buffer) + [ESC, b];
  }

  /** The buffer always holds exactly what the raw bytes since the last boundary stand for. */
  lemma {:induction false} BufferIsSuffix(lib: Library, w: seq<Byte>) returns (k: nat)
    ensures Boundary(w, k) && w[k..] == Unread(StateAfter(Decoder(lib), DecoderState(false, []), w))
  {
    hide Unread, DecoderStep;
    var s0 := DecoderState(false, []);
    if w == [] {
      k := 0;
      NothingUnread();
    } else {
      var n := |w| - 1;
      var s := StateAfter(Decoder(lib), s0, w[..n]);
      k := BufferIsSuffix(lib, w[..n]);
      if (s.escape && w[n] != 0x00 && w[n] != 0x01) || (!s.escape && w[n] == SYN) {
        LastIsEscape(w[..n], k, s);
        StepClears(lib, s, w[n]);
        k := |w|;
      } else {
        StepReads(lib, s, w[n]);
        assert w[k..] == w[..n][k..] + [w[n]];
      }
    }
  }

  lemma NothingUnread()
    ensures Unread(DecoderState(false, [])) == []
  {
  }

  lemma StepClears(lib: Library, s: DecoderState, b: Byte)
    requires (s.escape && b != 0x00 && b != 0x01) || (!s.escape && b == SYN)
    ensures Unread(DecoderStep(lib, s, b).0) == []
  {
  }

  lemma LastIsEscape(w: seq<Byte>, k: nat, s: DecoderState)
    requires k <= |w| && w[k..] == Unread(s)
    ensures s.escape ==> w != [] && w[|w| - 1] == ESC
  {
    if s.escape {
      assert w[k..][|w| - k - 1] == ESC;
    }
  }

  /** A frame is reported only at a SYN, and the raw bytes since the last boundary are exactly its stuffed encoding. */
  lemma ReportedFrameIsOnWire(lib: Library, w: seq<Byte>, b: Byte, f: Frame) returns (k: nat)
    requires DecoderStep(lib, StateAfter(Decoder(lib), DecoderState(false, []), w), b).1 == Some(f)
    ensures b == SYN && Boundary(w, k) && w[k..] == Escape(CanonicalFrameBytes(lib, f))
  {
    hide Escape;
    k := BufferIsSuffix(lib, w);
    var s := StateAfter(Decoder(lib), DecoderState(false, []), w);
    ParseIsCanonical(lib, s.buffer);
    assert Escape(s.buffer) + [] == Escape(s.buffer);
  }
}
