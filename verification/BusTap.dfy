/** The passive bus tap: raw wire bytes in, tap events out. */
module BusTap {
  import opened Protocol
  import opened WireLog
  import opened Runs

  /** What the transport hands to the tap. */
  datatype StreamEvent =
    | WireByte(b: Byte, wasEscaped: bool, at: int)
    | StreamReset(at: int)
    | StreamTimeout(at: int)
    | OtherStreamEvent

  /** What the tap hands to the reconstructor. */
  datatype TapEvent =
    | Connected(at: int)
    | Disconnected(at: int)
    | Symbol(b: Byte, wasEscaped: bool, at: int)
    | Reset(at: int)
    | DecodeFault(at: int)
    | ReadTimeout(at: int)

  datatype Decoded = Pending | Decoded(b: Byte, wasEscaped: bool) | Invalid

  /** One raw byte through the escape decoder: the next escape flag and the outcome. */
  function DecodeStep(escape: bool, raw: Byte): (bool, Decoded) {
    if escape then
      (false, if raw == 0x00 then Decoded(ESC, true) else if raw == 0x01 then Decoded(SYN, true) else Invalid)
    else if raw == ESC then
      (true, Pending)
    else
      (false, Decoded(raw, false))
  }

  class EscapeDecoder {
    var escape: bool

    constructor ()
      ensures !escape
    {
      escape := false;
    }

    method Push(raw: Byte) returns (decoded: Decoded)
      modifies this
      ensures (escape, decoded) == DecodeStep(old(escape), raw)
    {
      if escape {
        escape := false;
        match raw {
          case 0x00 => return Decoded(ESC, true);
          case 0x01 => return Decoded(SYN, true);
          case _ => return Invalid;
        }
      }
      if raw == ESC {
        escape := true;
        return Pending;
      }
      return Decoded(raw, false);
    }

    method Reset()
      modifies this
      ensures !escape
    {
      escape := false;
    }
  }

  /** The tap events one stream event causes, with the next escape flag. */
  function TapStep(decodes: bool, escape: bool, e: StreamEvent): (bool, seq<TapEvent>) {
    match e
    case StreamTimeout(at) => (escape, [ReadTimeout(at)])
    case StreamReset(at) =>
      if decodes && escape then (false, [DecodeFault(at), Reset(at)]) else (escape, [Reset(at)])
    case OtherStreamEvent => (escape, [])
    case WireByte(b, wasEscaped, at) =>
      if !decodes then
        (escape, [Symbol(b, wasEscaped, at)])
      else
        var (next, decoded) := DecodeStep(escape, b);
        (next, match decoded
               case Pending => []
               case Invalid => [DecodeFault(at)]
               case Decoded(symbol, was) => [Symbol(symbol, was, at)])
  }

  /** The read loop as a machine over the escape flag. */
  function TapMachine(decodes: bool): Machine<bool, StreamEvent, TapEvent> {
    Machine((escape, e) => TapStep(decodes, escape, e).0, (escape, e) => TapStep(decodes, escape, e).1)
  }

  /** The body of the read loop: decode one stream event and emit what it stands for. */
  method Observe(decodes: bool, decoder: EscapeDecoder, e: StreamEvent) returns (out: seq<TapEvent>)
    modifies decoder
    ensures decoder.escape == TapStep(decodes, old(decoder.escape), e).0
    ensures out == TapStep(decodes, old(decoder.escape), e).1
  {
    out := [];
    match e {
      case StreamTimeout(at) =>
        out := [ReadTimeout(at)];
      case StreamReset(at) =>
        if decodes && decoder.escape {
          out := [DecodeFault(at)];
          decoder.Reset();
        }
        out := out + [TapEvent.Reset(at)];
      case OtherStreamEvent =>
      case WireByte(b, wasEscaped, at) =>
        var symbol, was := b, wasEscaped;
        if decodes {
          var decoded := decoder.Push(b);
          match decoded {
            case Invalid =>
              return [DecodeFault(at)];
            case Pending =>
              return;
            case Decoded(d, w) =>
              symbol, was := d, w;
          }
        }
        out := [Symbol(symbol, was, at)];
    }
  }

  /** The read loop; a transport failure after `events` cuts a pending escape sequence short. */
  method ReadLoop(decodes: bool, events: seq<StreamEvent>, failure: Option<int>) returns (out: seq<TapEvent>)
    ensures var all := Output(TapMachine(decodes), false, events);
            out == if failure.Some? && StateAfter(TapMachine(decodes), false, events) then all + [DecodeFault(failure.value)] else all
  {
    var decoder := new EscapeDecoder();
    out := [];
    for i := 0 to |events|
      invariant decoder.escape == StateAfter(TapMachine(decodes), false, events[..i])
      invariant out == Output(TapMachine(decodes), false, events[..i])
    {
      assert events[..i + 1] == events[..i] + [events[i]];
      RunAppend(TapMachine(decodes), false, events[..i], events[i]);
      var more := Observe(decodes, decoder, events[i]);
      out := out + more;
    }
    assert events[..|events|] == events;
    if failure.Some? && decoder.escape {
      out := out + [DecodeFault(failure.value)];
      decoder.Reset();
    }
  }

  /** The stream `w` carries exactly `bytes` on the raw wire, at any times. */
  ghost predicate Carries(w: seq<StreamEvent>, bytes: seq<Byte>) {
    |w| == |bytes| && forall i :: 0 <= i < |w| ==> w[i].WireByte? && w[i].b == bytes[i]
  }

  /** The byte a logical symbol leaves with, and whether it had to be escaped. */
  ghost predicate SymbolsOf(out: seq<TapEvent>, bytes: seq<Byte>) {
    |out| == |bytes| &&
    forall i :: 0 <= i < |out| ==>
      out[i].Symbol? && out[i].b == bytes[i] && out[i].wasEscaped == (bytes[i] == SYN || bytes[i] == ESC)
  }

  /** Unstuffing inverts stuffing, and marks exactly the reserved bytes as escaped. */
  lemma {:induction false} TapDecodesEscaped(w: seq<StreamEvent>, bytes: seq<Byte>)
    requires Carries(w, Escape(bytes))
    ensures !StateAfter(TapMachine(true), false, w)
    ensures SymbolsOf(Output(TapMachine(true), false, w), bytes)
    decreases |bytes|
  {
    if bytes == [] {
      assert w == [];
    } else {
      hide StateAfter, Output, EscapeByte, SymbolsOf, Carries;
      var n := |EscapeByte(bytes[0])|;
      CarriesParts(w, EscapeByte(bytes[0]), Escape(bytes[1..]));
      RunConcat(TapMachine(true), false, w[..n], w[n..]);
      TapDecodesOne(w[..n], bytes[0]);
      TapDecodesEscaped(w[n..], bytes[1..]);
      SymbolsConcat(Output(TapMachine(true), false, w[..n]), [bytes[0]], Output(TapMachine(true), false, w[n..]), bytes[1..]);
      assert [bytes[0]] + bytes[1..] == bytes;
    }
  }

  lemma CarriesParts(w: seq<StreamEvent>, a: seq<Byte>, b: seq<Byte>)
    requires Carries(w, a + b)
    ensures Carries(w[..|a|], a) && Carries(w[|a|..], b) && w == w[..|a|] + w[|a|..]
  {
  }

  lemma SymbolsConcat(out: seq<TapEvent>, bytes: seq<Byte>, out': seq<TapEvent>, bytes': seq<Byte>)
    requires SymbolsOf(out, bytes) && SymbolsOf(out', bytes')
    ensures SymbolsOf(out + out', bytes + bytes')
  {
  }

  lemma TapDecodesOne(w: seq<StreamEvent>, b: Byte)
    requires Carries(w, EscapeByte(b))
    ensures !StateAfter(TapMachine(true), false, w)
    ensures SymbolsOf(Output(TapMachine(true), false, w), [b])
  {
    hide StateAfter, Output;
    TapOne(false, w[0]);
    if |w| == 2 {
      assert w == [w[0]] + [w[1]];
      RunAppend(TapMachine(true), false, [w[0]], w[1]);
    } else {
      assert w == [w[0]];
    }
  }

  lemma TapOne(escape: bool, e: StreamEvent)
    ensures StateAfter(TapMachine(true), escape, [e]) == TapStep(true, escape, e).0
    ensures Output(TapMachine(true), escape, [e]) == TapStep(true, escape, e).1
  {
    hide TapStep;
    assert [e][..0] == [];
  }
}
