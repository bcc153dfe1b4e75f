/** Bytes, frames and addresses of the eBUS, as the passive path sees them. */
module Protocol {

  datatype Option<+T> = None | Some(value: T)

  type Byte = b: int | 0 <= b < 256

  const SYN: Byte := 0xAA
  const ESC: Byte := 0xA9
  const ACK: Byte := 0x00
  const NACK: Byte := 0xFF
  const BROADCAST: Byte := 0xFE

  /** The largest LEN byte a request or a response may carry. */
  const MAX_DATA_LEN := 16

  datatype Frame = Frame(source: Byte, target: Byte, primary: Byte, secondary: Byte, data: seq<Byte>)

  /** The zero value of a frame. */
  const NO_FRAME := Frame(0, 0, 0, 0, [])

  datatype FrameType = UnknownType | InitiatorInitiator | InitiatorTarget | Broadcast

  /**
   * What the passive path takes from the protocol library: the checksum, the table of
   * addresses that may start a frame, and the frame type of a target address.
   * Every result holds for all of them.
   */
  datatype Library = Library(crc: seq<Byte> -> Byte, isSource: Byte -> bool, frameType: Byte -> FrameType)

  predicate IsInitiatorNibble(n: int) {
    n == 0x0 || n == 0x1 || n == 0x3 || n == 0x7 || n == 0xF
  }

  predicate IsInitiatorAddr(b: Byte) {
    IsInitiatorNibble(b % 16) && IsInitiatorNibble(b / 16 % 16)
  }

  predicate IsValidTargetAddr(b: Byte) {
    b != SYN && b != ESC && b != BROADCAST && !IsInitiatorAddr(b)
  }

  /** The address test applied to the second byte of a request. */
  predicate AcceptsTarget(zz: Byte) {
    && !(zz == SYN || zz == ESC)
    && !(zz != BROADCAST && !IsInitiatorAddr(zz) && !IsValidTargetAddr(zz))
  }

  /** The second half of the address test never fires: only the two reserved bytes are refused. */
  lemma OnlyReservedTargetsRefused(zz: Byte)
    ensures AcceptsTarget(zz) <==> zz != SYN && zz != ESC
  {
  }
}
