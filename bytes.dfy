/**
 * Splitting a non-negative C `int` into the bytes a big-endian 16-bit
 * field stores.  A byte is built from its value by counting up from 0,
 * so that its value is read back by induction on bit-vector increments
 * rather than through an integer-to-bit-vector conversion.
 */
module Bytes {

  /** The byte whose unsigned value is `x`. */
  function ByteOf(x: int): bv8
    requires 0 <= x < 256
  {
    if x == 0 then 0 else ByteOf(x - 1) + 1
  }

  /** `v & 0xFF`, for non-negative `v`. */
  function LowByte(v: int): (b: bv8)
    requires 0 <= v
    ensures b as int == v % 256
  {
    ByteValue(v % 256);
    ByteOf(v % 256)
  }

  /** `(v >> 8) & 0xFF`, for non-negative `v`. */
  function HighByte(v: int): (b: bv8)
    requires 0 <= v
    ensures b as int == (v / 256) % 256
  {
    ByteValue((v / 256) % 256);
    ByteOf((v / 256) % 256)
  }

  /** Splitting a 16-bit value into `(v >> 8) & 0xFF` and `v & 0xFF` loses nothing. */
  lemma SplitBytes(v: int)
    requires 0 <= v < 65536
    ensures (HighByte(v) as nat) * 256 + (LowByte(v) as nat) == v
  {
    var hi := v / 256;
    var lo := v % 256;
    assert hi * 256 + lo == v && 0 <= hi < 256;
    assert hi % 256 == hi;
  }

  /** The byte built from a value below 256 has that value. */
  lemma {:induction false} ByteValue(x: int)
    requires 0 <= x < 256
    ensures ByteOf(x) as int == x
  {
    if x > 0 {
      ByteValue(x - 1);
      Increment(ByteOf(x - 1));
    }
  }

  /** Adding one to a byte below 255 does not wrap. */
  lemma Increment(b: bv8)
    requires b as int < 255
    ensures (b + 1) as int == b as int + 1
  {
  }
}
