/** The packing of a symbol range `[start, end)` into the single 64-bit value
    that the index's ordered map stores under each key: `start` in the high 32
    bits, `end` in the low 32 bits. */
module RangeCodec {

  const TWO_POW_32: nat := 0x1_0000_0000
  const U32_MAX: nat := 0xFFFF_FFFF
  const USIZE_MAX: nat := 0xFFFF_FFFF_FFFF_FFFF

  /** A machine-word sized index (`usize` on a 64-bit target). */
  type Usize = n: nat | n <= USIZE_MAX

  /** An unsigned 64-bit map value. */
  type U64 = n: nat | n <= USIZE_MAX

  /** `((start as u64) << 32) | end as u64`, under the debug assertions that
      both halves fit in 32 bits: the shift then cannot overflow (it is a
      multiplication by 2^32) and the low 32 bits it leaves are zero, so the
      bitwise or is an addition. */
  function RangeToMapValue(start: Usize, end: Usize): (value: U64)
    requires start <= U32_MAX && end <= U32_MAX
    ensures value / TWO_POW_32 == start && value % TWO_POW_32 == end
  {
    start * TWO_POW_32 + end
  }

  /** `end` is the value truncated to its low 32 bits (`value as u32`), `start`
      the value shifted right by 32. */
  function MapValueToRange(value: U64): (r: (Usize, Usize))
    ensures r.0 <= U32_MAX && r.1 <= U32_MAX
  {
    (value / TWO_POW_32, value % TWO_POW_32)
  }

  /** Decoding undoes encoding for every pair the debug assertions admit. */
  lemma RangeRoundTrip(start: Usize, end: Usize)
    requires start <= U32_MAX && end <= U32_MAX
    ensures MapValueToRange(RangeToMapValue(start, end)) == (start, end)
  {
  }

  /** Every stored value is the encoding of the range it decodes to, so two
      values that decode to the same range are equal. */
  lemma MapValueRoundTrip(value: U64)
    ensures RangeToMapValue(MapValueToRange(value).0, MapValueToRange(value).1) == value
  {
  }
}
