/**
 * The four `struct` format strings the telemetry program uses. `unpack`
 * demands a buffer of exactly the format's size and `pack("<I", n)` demands
 * 0 <= n < 2^32; either failure is Python's `struct.error`, here a `Failure`.
 */
module StructFormat {
  import opened Wrappers
  import opened LittleEndian

  datatype StructError =
    | BufferSize(required: nat, actual: nat)   // "unpack requires a buffer of N bytes"
    | ArgumentOutOfRange(value: int)           // "'I' format requires 0 <= number <= 4294967295"

  const MOVEMENT_SIZE: nat := 24   // "<ffffff"
  const BATTERY_SIZE: nat := 2     // "<h"
  const SOUND_SIZE: nat := 4       // "<f"
  const RATE_SIZE: nat := 4        // "<I"

  /** struct.unpack("<ffffff", p): six float32 fields, kept as their raw words. */
  function UnpackSixFloats(p: seq<byte>): (r: Result<seq<Word32>, StructError>)
    ensures r.Success? <==> |p| == MOVEMENT_SIZE
    ensures r.Failure? ==> r.error == BufferSize(MOVEMENT_SIZE, |p|)
    ensures r.Success? ==> |r.value| == 6
    ensures r.Success? ==> forall i :: 0 <= i < 6 ==> r.value[i] == Word32FromLE(p[4 * i .. 4 * i + 4])
  {
    if |p| != MOVEMENT_SIZE then Failure(BufferSize(MOVEMENT_SIZE, |p|))
    else Success(Words(p))
  }

  /** struct.unpack("<h", p)[0]: one signed 16-bit integer. */
  function UnpackInt16(p: seq<byte>): (r: Result<int, StructError>)
    ensures r.Success? <==> |p| == BATTERY_SIZE
    ensures r.Failure? ==> r.error == BufferSize(BATTERY_SIZE, |p|)
    ensures r.Success? ==> -0x8000 <= r.value < 0x8000 && Int16ToLE(r.value) == p
  {
    if |p| != BATTERY_SIZE then Failure(BufferSize(BATTERY_SIZE, |p|))
    else
      Int16BytesRoundTrip(p);
      Success(Int16FromLE(p))
  }

  /** struct.unpack("<f", p)[0]: one float32 field, kept as its raw word. */
  function UnpackFloat(p: seq<byte>): (r: Result<Word32, StructError>)
    ensures r.Success? <==> |p| == SOUND_SIZE
    ensures r.Failure? ==> r.error == BufferSize(SOUND_SIZE, |p|)
    ensures r.Success? ==> Word32ToLE(r.value) == p
  {
    if |p| != SOUND_SIZE then Failure(BufferSize(SOUND_SIZE, |p|))
    else
      Word32BytesRoundTrip(p);
      Success(Word32FromLE(p))
  }

  /** An IEEE-754 binary32 NaN: exponent bits all ones and a non-zero fraction. */
  predicate IsNaN32(w: Word32)
  {
    (w / 0x80_0000) % 0x100 == 0xFF && w % 0x80_0000 != 0
  }

  /** The quiet NaN 0x7FC00000 and the signalling NaN 0x7F800001 are NaNs; infinity, 1.0f and -0.0f are not. */
  lemma NaN32Examples()
    ensures IsNaN32(0x7FC0_0000) && IsNaN32(0xFFC0_0000) && IsNaN32(0x7F80_0001)
    ensures !IsNaN32(0x7F80_0000) && !IsNaN32(0xFF80_0000) && !IsNaN32(0x3F80_0000) && !IsNaN32(0x8000_0000)
  {
  }

  /** struct.pack("<I", n): an unsigned 32-bit integer as 4 little-endian bytes. */
  function PackUInt32(n: int): (r: Result<seq<byte>, StructError>)
    ensures r.Success? <==> 0 <= n < TWO_32
    ensures r.Failure? ==> r.error == ArgumentOutOfRange(n)
    ensures r.Success? ==> |r.value| == RATE_SIZE && Word32FromLE(r.value) == n
  {
    if 0 <= n < TWO_32 then
      Word32RoundTrip(n);
      Success(Word32ToLE(n))
    else Failure(ArgumentOutOfRange(n))
  }

  /** Re-packing the six decoded words reproduces the movement payload exactly. */
  lemma SixFloatsRoundTrip(p: seq<byte>)
    requires |p| == MOVEMENT_SIZE
    ensures UnpackSixFloats(p).Success? && PackWords(UnpackSixFloats(p).value) == p
  {
    PackWordsOfWords(p);
  }

  /** Every six words are the decoding of exactly one 24-byte payload. */
  lemma SixFloatsFromWords(ws: seq<Word32>)
    requires |ws| == 6
    ensures UnpackSixFloats(PackWords(ws)) == Success(ws)
  {
    WordsOfPackWords(ws);
  }

  /** The worked example: bytes of 1.0f .. 6.0f decode to their IEEE-754 bit patterns in order. */
  lemma MovementExample(p: seq<byte>)
    requires p == [0, 0, 128, 63, 0, 0, 0, 64, 0, 0, 64, 64, 0, 0, 128, 64, 0, 0, 160, 64, 0, 0, 192, 64]
    ensures UnpackSixFloats(p).Success?
    ensures UnpackSixFloats(p).value[0] == 0x3F80_0000   // 1.0f
    ensures UnpackSixFloats(p).value[1] == 0x4000_0000   // 2.0f
    ensures UnpackSixFloats(p).value[2] == 0x4040_0000   // 3.0f
    ensures UnpackSixFloats(p).value[3] == 0x4080_0000   // 4.0f
    ensures UnpackSixFloats(p).value[4] == 0x40A0_0000   // 5.0f
    ensures UnpackSixFloats(p).value[5] == 0x40C0_0000   // 6.0f
  {
    WordAt(p, 0);
    WordAt(p, 1);
    WordAt(p, 2);
    WordAt(p, 3);
    WordAt(p, 4);
    WordAt(p, 5);
  }

  /** Word `i` of a movement payload, in terms of the payload's own bytes. */
  lemma WordAt(p: seq<byte>, i: nat)
    requires |p| == MOVEMENT_SIZE && i < 6
    ensures UnpackSixFloats(p).value[i]
         == p[4 * i] as int + 0x100 * p[4 * i + 1] as int + 0x1_0000 * p[4 * i + 2] as int + 0x100_0000 * p[4 * i + 3] as int
  {
  }

  /** A word whose little-endian bytes are `b` is written back as `b`. */
  lemma WordBytes(w: Word32, b: seq<byte>)
    requires |b| == 4 && Word32FromLE(b) == w
    ensures Word32ToLE(w) == b
  {
    Word32BytesRoundTrip(b);
  }

  lemma BatteryExample()
    ensures UnpackInt16([0xF4, 0x01]) == Success(500)
    ensures UnpackInt16([0xFF, 0xFF]) == Success(-1)
    ensures UnpackInt16([0x00, 0x80]) == Success(-0x8000)
    ensures UnpackInt16([0xF4, 0x01, 0x00]) == Failure(BufferSize(2, 3))
  {
  }

  /** 2500 ms is 0x09C4; the bytes B8 0B 00 00 are 0x0BB8, that is 3000 ms. */
  lemma RateExample()
    ensures PackUInt32(2500) == Success([0xC4, 0x09, 0x00, 0x00])
    ensures PackUInt32(3000) == Success([0xB8, 0x0B, 0x00, 0x00])
    ensures PackUInt32(-1).Failure? && PackUInt32(TWO_32).Failure?
  {
    WordBytes(2500, [0xC4, 0x09, 0x00, 0x00]);
    WordBytes(3000, [0xB8, 0x0B, 0x00, 0x00]);
  }
}
