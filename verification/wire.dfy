// The byte-level protocol shared by the phone app and the yogurt-maker
// firmware: the service and characteristic identifiers, the one-byte status
// payload and the four-byte little-endian millisecond payload.
module Wire {

  /** One octet of a characteristic value. */
  type Byte = x: int | 0 <= x < 0x100

  /** The status byte, read as the eight bits of `std::bitset<8>` or of the app's `UInt8` option set. */
  type StatusBits = bv8

  /** An unsigned 32-bit integer (`uint32_t` in the firmware, `UInt32` in the app). */
  type Word = x: nat | x < 0x1_0000_0000

  /** A 128-bit Bluetooth identifier, as the number its textual form spells in hexadecimal. */
  type Uuid = x: nat | x < 0x1_0000_0000_0000_0000_0000_0000_0000_0000

  datatype Option<T> = None | Some(value: T)

  const SERVICE_UUID: Uuid := 0x864ca7a0_268c_4224_96d3_1982825571f0
  const STATUS_UUID: Uuid := 0x864ca7a1_268c_4224_96d3_1982825571f0
  const COOK_TIME_UUID: Uuid := 0x864ca7a2_268c_4224_96d3_1982825571f0
  const INCUBATION_TIME_UUID: Uuid := 0x864ca7a3_268c_4224_96d3_1982825571f0
  const TEMPS_UUID: Uuid := 0x864ca7a4_268c_4224_96d3_1982825571f0
  const CHARTS_UUID: Uuid := 0x864ca7a5_268c_4224_96d3_1982825571f0

  // ---------------------------------------------------------------- status

  /** The status byte carried by a payload: its first byte, or 0 when it is empty. */
  function DecodeStatus(payload: seq<Byte>): (r: StatusBits)
    ensures |payload| == 0 ==> r == 0
    ensures |payload| > 0 ==> r as int == payload[0]
  {
    if |payload| == 0 then 0 else payload[0] as StatusBits
  }

  /** The firmware's status notification: exactly one byte, which the app decodes back. */
  function EncodeStatus(status: StatusBits): (payload: seq<Byte>)
    ensures |payload| == 1
    ensures DecodeStatus(payload) == status
  {
    [status as Byte]
  }

  /** Every one-byte status payload decodes to bits that encode back to the same byte. */
  lemma StatusByteRoundTrip(b: Byte)
    ensures EncodeStatus(DecodeStatus([b])) == [b]
  {
  }

  // ---------------------------------------------------------------- time

  /** The value of four little-endian base-256 digits. */
  function Join(b0: Byte, b1: Byte, b2: Byte, b3: Byte): (w: nat)
    ensures w < 0x1_0000_0000
  {
    b0 + 0x100 * (b1 + 0x100 * (b2 + 0x100 * b3))
  }

  /**
   * Reads a `UInt32` from the start of a payload, as a load from the raw
   * bytes on a little-endian host does; None where the payload is shorter
   * than four bytes (the load would run past the end of the buffer).
   */
  function LoadWord(payload: seq<Byte>): (r: Option<Word>)
    ensures r.Some? <==> |payload| >= 4
  {
    if |payload| < 4 then None
    else Some(Join(payload[0], payload[1], payload[2], payload[3]))
  }

  /** The four bytes of a millisecond count as the firmware sends them, least significant first. */
  function EncodeTime(ms: Word): (payload: seq<Byte>)
    ensures |payload| == 4
    ensures LoadWord(payload) == Some(ms)
  {
    JoinSplit(ms);
    [ms % 0x100, ms / 0x100 % 0x100, ms / 0x1_0000 % 0x100, ms / 0x100_0000]
  }

  /** Loading a word and re-encoding it gives back exactly the four bytes that were read. */
  lemma LoadWordInverse(payload: seq<Byte>)
    requires |payload| >= 4
    ensures EncodeTime(LoadWord(payload).value) == payload[..4]
  {
    JoinDigits(payload[0], payload[1], payload[2], payload[3]);
  }

  lemma JoinSplit(w: Word)
    ensures Join(w % 0x100, w / 0x100 % 0x100, w / 0x1_0000 % 0x100, w / 0x100_0000) == w
  {
  }

  lemma JoinDigits(b0: Byte, b1: Byte, b2: Byte, b3: Byte)
    ensures var w := Join(b0, b1, b2, b3);
      && w % 0x100 == b0 && w / 0x100 % 0x100 == b1
      && w / 0x1_0000 % 0x100 == b2 && w / 0x100_0000 == b3
  {
  }
}
