// Byte-level transforms behind the NAU7802 register helpers of fftNau.c.
//
// Every helper in the C file reads one 8-bit register, edits a bit or a
// three-bit field, and writes the byte back.  This module holds the edits as
// pure functions on a byte; the read-modify-write itself lives in the
// Device module.  The target is a Raspberry Pi, where C `char` is unsigned,
// so register values and the `char` arguments are bytes 0..255.

module Registers {
  import opened Powers

  /** The byte `1 << k` with only bit k set, for k < 8, written out. */
  function Bit(k: nat): (m: bv8)
    requires k < 8
  {
    if k == 0 then 0x01 else if k == 1 then 0x02 else if k == 2 then 0x04 else if k == 3 then 0x08
    else if k == 4 then 0x10 else if k == 5 then 0x20 else if k == 6 then 0x40 else 0x80
  }

  /** The table is the C shift `1 << k`. */
  lemma BitIsShift(k: nat)
    requires k < 8
    ensures Bit(k) == (1 as bv8) << k
  {
  }

  /** Bit k (0 = least significant) of a byte. */
  predicate BitOf(v: bv8, k: nat)
    requires k < 8
  {
    v & Bit(k) != 0
  }

  /** The `width`-bit field starting at bit `lo`, as a small number. */
  function FieldOf(v: bv8, lo: nat, width: nat): bv8
    requires lo + width <= 8
  {
    (v >> lo) & (((1 as bv9) << width) - 1) as bv8
  }

  /** Two bytes that agree on every bit are equal. */
  lemma BitsDetermineByte(v: bv8, w: bv8)
    requires forall k :: 0 <= k < 8 ==> BitOf(v, k) == BitOf(w, k)
    ensures v == w
  {
    assert BitOf(v, 0) == BitOf(w, 0) && BitOf(v, 1) == BitOf(w, 1);
    assert BitOf(v, 2) == BitOf(w, 2) && BitOf(v, 3) == BitOf(w, 3);
    assert BitOf(v, 4) == BitOf(w, 4) && BitOf(v, 5) == BitOf(w, 5);
    assert BitOf(v, 6) == BitOf(w, 6) && BitOf(v, 7) == BitOf(w, 7);
  }

  /**
   * The mask `1 << bitNumber` of the C helpers once it is stored in a
   * `char`: the int shift is defined for bit numbers up to 30, and the
   * conversion to an 8-bit `char` keeps only bits 0-7, so any bit number
   * from 8 up leaves no bit in the mask.
   */
  function Mask(b: nat): bv8
    requires b < 31
  {
    if b < 8 then Bit(b) else 0
  }

  /**
   * The mask is C's `1 << bitNumber`, computed as an `int`, truncated to
   * the `char` it is combined with: 2^b modulo 256.
   */
  lemma MaskIsTruncatedShift(b: nat)
    requires b < 31
    ensures Mask(b) as int == Pow2(b) % 0x100
  {
    Pow2Values();
    if b >= 8 {
      Pow2Add(8, b - 8);
      assert Pow2(b) == 0x100 * Pow2(b - 8);
    }
  }

  /** `value |= (0x01 << bitNumber)` in setBit. */
  function SetBitByte(v: bv8, b: nat): (r: bv8)
    requires b < 31
    ensures b < 8 ==> BitOf(r, b)
    ensures forall k :: 0 <= k < 8 && k != b ==> BitOf(r, k) == BitOf(v, k)
    ensures 8 <= b ==> r == v
  {
    v | Mask(b)
  }

  /** `value &= ~(1 << bitNumber)` in clearBit. */
  function ClearBitByte(v: bv8, b: nat): (r: bv8)
    requires b < 31
    ensures b < 8 ==> !BitOf(r, b)
    ensures forall k :: 0 <= k < 8 && k != b ==> BitOf(r, k) == BitOf(v, k)
    ensures 8 <= b ==> r == v
  {
    v & !Mask(b)
  }

  /** getBit: `value &= (1 << bitNumber)`, then 1 when what is left is positive. */
  function GetBitOf(v: bv8, b: nat): (r: int)
    requires b < 31
    ensures r == 0 || r == 1
    ensures r == 1 <==> b < 8 && BitOf(v, b)
  {
    if v & Mask(b) > 0 then 1 else 0
  }

  /** `if (code > 7) code = 7`: the range guard of setLDO, setGain and setSampleRate. */
  function Clamp3(code: bv8): (c: bv8)
    ensures c <= 7
    ensures c == code || (code > 7 && c == 7)
  {
    if code > 7 then 7 else code
  }

  /** setLDO's edit of register 0x01: the LDO voltage code goes into bits 3-5. */
  function LdoByte(v: bv8, code: bv8): (r: bv8)
    ensures FieldOf(r, 3, 3) == Clamp3(code)
    ensures forall k :: 0 <= k < 8 && !(3 <= k < 6) ==> BitOf(r, k) == BitOf(v, k)
  {
    (v & 0xC7) | (Clamp3(code) << 3)
  }

  /** setGain's edit of register 0x01: the gain code goes into bits 0-2. */
  function GainByte(v: bv8, code: bv8): (r: bv8)
    ensures FieldOf(r, 0, 3) == Clamp3(code)
    ensures forall k :: 3 <= k < 8 ==> BitOf(r, k) == BitOf(v, k)
  {
    (v & 0xF8) | Clamp3(code)
  }

  /** setSampleRate's edit of register 0x02: the conversion-rate code goes into bits 4-6. */
  function RateByte(v: bv8, code: bv8): (r: bv8)
    ensures FieldOf(r, 4, 3) == Clamp3(code)
    ensures forall k :: 0 <= k < 8 && !(4 <= k < 7) ==> BitOf(r, k) == BitOf(v, k)
  {
    (v & 0x8F) | (Clamp3(code) << 4)
  }

  // ---------------------------------------------------------------------
  // Properties relating the edits to each other.

  /** Setting or clearing a bit twice is the same as doing it once. */
  lemma BitEditsIdempotent(v: bv8, b: nat)
    requires b < 31
    ensures SetBitByte(SetBitByte(v, b), b) == SetBitByte(v, b)
    ensures ClearBitByte(ClearBitByte(v, b), b) == ClearBitByte(v, b)
  {
  }

  /** Clearing a set bit restores a byte whose bit was clear, and conversely. */
  lemma {:induction false} SetClearInverse(v: bv8, b: nat)
    requires b < 8
    ensures !BitOf(v, b) ==> ClearBitByte(SetBitByte(v, b), b) == v
    ensures BitOf(v, b) ==> SetBitByte(ClearBitByte(v, b), b) == v
  {
    if !BitOf(v, b) {
      var w := ClearBitByte(SetBitByte(v, b), b);
      forall k | 0 <= k < 8 ensures BitOf(w, k) == BitOf(v, k) {}
      BitsDetermineByte(w, v);
    } else {
      var w := SetBitByte(ClearBitByte(v, b), b);
      forall k | 0 <= k < 8 ensures BitOf(w, k) == BitOf(v, k) {}
      BitsDetermineByte(w, v);
    }
  }

  /** getBit reads back what setBit and clearBit wrote. */
  lemma GetAfterEdit(v: bv8, b: nat)
    requires b < 8
    ensures GetBitOf(SetBitByte(v, b), b) == 1
    ensures GetBitOf(ClearBitByte(v, b), b) == 0
  {
  }

  /** Writing back the value a field already holds changes nothing. */
  lemma FieldRewriteIsIdentity(v: bv8)
    ensures GainByte(v, FieldOf(v, 0, 3)) == v
    ensures LdoByte(v, FieldOf(v, 3, 3)) == v
    ensures RateByte(v, FieldOf(v, 4, 3)) == v
  {
  }

  /** Of two writes to the same field, the second one wins. */
  lemma FieldLastWriteWins(v: bv8, c1: bv8, c2: bv8)
    ensures GainByte(GainByte(v, c1), c2) == GainByte(v, c2)
    ensures LdoByte(LdoByte(v, c1), c2) == LdoByte(v, c2)
    ensures RateByte(RateByte(v, c1), c2) == RateByte(v, c2)
  {
    GainLastWriteWins(v, c1, c2);
    LdoLastWriteWins(v, c1, c2);
    RateLastWriteWins(v, c1, c2);
  }

  lemma GainLastWriteWins(v: bv8, c1: bv8, c2: bv8)
    ensures GainByte(GainByte(v, c1), c2) == GainByte(v, c2)
  {
  }

  lemma LdoLastWriteWins(v: bv8, c1: bv8, c2: bv8)
    ensures LdoByte(LdoByte(v, c1), c2) == LdoByte(v, c2)
  {
  }

  lemma RateLastWriteWins(v: bv8, c1: bv8, c2: bv8)
    ensures RateByte(RateByte(v, c1), c2) == RateByte(v, c2)
  {
  }

  /** The gain and LDO fields share register 0x01 without disturbing each other. */
  lemma GainAndLdoIndependent(v: bv8, gain: bv8, ldo: bv8)
    ensures FieldOf(GainByte(LdoByte(v, ldo), gain), 3, 3) == Clamp3(ldo)
    ensures FieldOf(LdoByte(GainByte(v, gain), ldo), 0, 3) == Clamp3(gain)
    ensures GainByte(LdoByte(v, ldo), gain) == LdoByte(GainByte(v, gain), ldo)
  {
  }

  /** A gain code of 10 reads back as 7, the largest code. */
  lemma GainTenReadsSeven(v: bv8)
    ensures FieldOf(GainByte(v, 10), 0, 3) == 7
  {
  }
}
