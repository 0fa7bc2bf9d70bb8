// The 24-bit sample codec of readNau (fftNau.c): three conversion-result
// bytes are packed MSB first into a 32-bit `unsigned long`, shifted left by
// eight so that the sample's sign bit lands on bit 31, reinterpreted as a
// signed 32-bit `long` and shifted back right by eight, which on the gcc
// target is an arithmetic shift.  On the Raspberry Pi `long` is 32 bits
// wide; the container is modelled at that width, on integers, with C's
// unsigned shift and bitwise OR written out.

module Sample {
  import opened Powers

  /** A byte as read from a register (C `unsigned char`). */
  type Byte = x: int | 0 <= x < 0x100

  /** The three result registers 0x12 (MSB), 0x13 and 0x14 (LSB) of one conversion. */
  datatype Bytes24 = Bytes24(msb: Byte, mid: Byte, lsb: Byte)

  const Two23: int := 0x80_0000
  const Two24: int := 0x100_0000
  const Two32: int := 0x1_0000_0000

  /** The bytes read as an unsigned 24-bit number, MSB first. */
  function Unsigned(b: Bytes24): (u: int)
    ensures 0 <= u < Two24
  {
    b.msb * 0x1_0000 + b.mid * 0x100 + b.lsb
  }

  /** A 24-bit two's-complement reading: the reference meaning of a sample. */
  function TwosComplement24(u: int): int
    requires 0 <= u < Two24
  {
    if u < Two23 then u else u - Two24
  }

  /** Bitwise OR of two naturals, bit by bit from the least significant end. */
  function Or(a: nat, b: nat): (r: nat)
    ensures a <= r && b <= r && r <= a + b
    decreases a + b
  {
    if a == 0 then b
    else if b == 0 then a
    else 2 * Or(a / 2, b / 2) + (if a % 2 == 1 || b % 2 == 1 then 1 else 0)
  }

  /** OR-ing a value below 2^k into a multiple of 2^k adds it: the bits do not overlap. */
  lemma {:induction false} OrDisjoint(x: nat, y: nat, k: nat)
    requires y < Pow2(k)
    ensures Or(x * Pow2(k), y) == x * Pow2(k) + y
  {
    if k == 0 || x == 0 || y == 0 {
    } else {
      var p := Pow2(k - 1);
      assert x * Pow2(k) == 2 * (x * p);
      assert (x * Pow2(k)) / 2 == x * p && (x * Pow2(k)) % 2 == 0;
      OrDisjoint(x, y / 2, k - 1);
    }
  }

  /** `x << k` on a 32-bit `unsigned long`: C defines it as multiplication modulo 2^32. */
  function ShiftLeft32(x: nat, k: nat): (r: nat)
    ensures r < Two32
  {
    (x * Pow2(k)) % Two32
  }

  /**
   * `valueRaw`: `(unsigned long)temp1 << 16`, then `|= (unsigned long)temp2 << 8`,
   * then `|= (unsigned long)temp3`.
   */
  function Assemble(b: Bytes24): (raw: nat)
    ensures raw == Unsigned(b)
  {
    ShiftedBytes(b);
    UpperBytes(b);
    LowerByte(b);
    Or(Or(ShiftLeft32(b.msb, 16), ShiftLeft32(b.mid, 8)), b.lsb)
  }

  /** Neither byte shift of Assemble wraps around. */
  lemma ShiftedBytes(b: Bytes24)
    ensures ShiftLeft32(b.msb, 16) == b.msb * 0x1_0000 && ShiftLeft32(b.mid, 8) == b.mid * 0x100
  {
    Pow2Values();
  }

  /** OR-ing the shifted middle byte under the shifted top byte adds them. */
  lemma UpperBytes(b: Bytes24)
    ensures Or(b.msb * 0x1_0000, b.mid * 0x100) == b.msb * 0x1_0000 + b.mid * 0x100
  {
    Pow2Values();
    OrDisjoint(b.msb, b.mid * 0x100, 16);
  }

  /** OR-ing the low byte under the upper two adds it too. */
  lemma LowerByte(b: Bytes24)
    ensures Or(b.msb * 0x1_0000 + b.mid * 0x100, b.lsb) == Unsigned(b)
  {
    Pow2Values();
    var top := b.msb * 0x100 + b.mid;
    assert top * Pow2(8) == b.msb * 0x1_0000 + b.mid * 0x100;
    OrDisjoint(top, b.lsb, 8);
  }

  lemma ShiftLeftNoWrap(x: nat, k: nat)
    requires x * Pow2(k) < Two32
    ensures ShiftLeft32(x, k) == x * Pow2(k)
  {
  }

  /** Conversion of a 32-bit unsigned value to a signed 32-bit `long` (two's complement). */
  function ToSigned32(x: int): (v: int)
    requires 0 <= x < Two32
    ensures -0x8000_0000 <= v < 0x8000_0000
  {
    if x < 0x8000_0000 then x else x - Two32
  }

  /**
   * `((long)(raw << 8)) >> 8` for a 24-bit `raw`.  An arithmetic right
   * shift of a signed value rounds towards minus infinity, which is what
   * Dafny's division by a positive constant does.
   */
  function ShiftBack(raw: nat): (v: int)
    requires raw < Two24
    ensures v == TwosComplement24(raw)
  {
    Pow2Values();
    ShiftLeftNoWrap(raw, 8);
    var shifted := ShiftLeft32(raw, 8);
    assert shifted == raw * 0x100;
    assert raw >= Two23 ==> ToSigned32(shifted) == (raw - Two24) * 0x100;
    ToSigned32(shifted) / 0x100
  }

  /** `valueFinal`: the sample recovered from its three bytes. */
  function SignExtend(b: Bytes24): (v: int)
    ensures v == TwosComplement24(Unsigned(b))
    ensures -Two23 <= v < Two23
  {
    ShiftBack(Assemble(b))
  }

  /** Base-256 digits of a 24-bit number recombine to it. */
  lemma Digits(u: int)
    requires 0 <= u < Two24
    ensures 0 <= u / 0x1_0000 < 0x100
    ensures (u / 0x1_0000) * 0x1_0000 + ((u / 0x100) % 0x100) * 0x100 + u % 0x100 == u
  {
    var q := u / 0x100;
    assert u == q * 0x100 + u % 0x100;
    assert q == (q / 0x100) * 0x100 + q % 0x100;
    assert q / 0x100 == u / 0x1_0000;
  }

  /** A number written with three base-256 digits has those digits. */
  lemma DigitsOf(hi: int, mid: int, lo: int)
    requires 0 <= hi < 0x100 && 0 <= mid < 0x100 && 0 <= lo < 0x100
    ensures var u := hi * 0x1_0000 + mid * 0x100 + lo;
      u / 0x1_0000 == hi && (u / 0x100) % 0x100 == mid && u % 0x100 == lo
  {
    var u := hi * 0x1_0000 + mid * 0x100 + lo;
    assert u == (hi * 0x100 + mid) * 0x100 + lo;
    assert u / 0x100 == hi * 0x100 + mid;
  }

  /** How the converter writes a signed 24-bit value into its three result registers. */
  function Encode(v: int): (b: Bytes24)
    requires -Two23 <= v < Two23
    ensures Unsigned(b) == v % Two24
  {
    var u := v % Two24;
    Digits(u);
    Bytes24(u / 0x1_0000, (u / 0x100) % 0x100, u % 0x100)
  }

  // ---------------------------------------------------------------------
  // The codec round trips.

  /** Reading a value's 24-bit pattern as two's complement gives the value back. */
  lemma TwosComplementOfPattern(v: int)
    requires -Two23 <= v < Two23
    ensures TwosComplement24(v % Two24) == v
  {
    if v < 0 {
      assert v % Two24 == v + Two24;
    }
  }

  /** Every value the converter can produce is recovered exactly. */
  lemma DecodeEncode(v: int)
    requires -Two23 <= v < Two23
    ensures SignExtend(Encode(v)) == v
  {
    TwosComplementOfPattern(v);
  }

  /** A 24-bit two's-complement value taken modulo 2^24 is its bit pattern. */
  lemma TwosComplementMod(u: int)
    requires 0 <= u < Two24
    ensures TwosComplement24(u) % Two24 == u
  {
    if u >= Two23 {
      assert TwosComplement24(u) + Two24 == u;
    }
  }

  /** Every byte triple is the encoding of the value it decodes to. */
  lemma EncodeDecode(b: Bytes24)
    ensures Encode(SignExtend(b)) == b
  {
    var u := Unsigned(b);
    TwosComplementMod(u);
    DigitsOf(b.msb, b.mid, b.lsb);
    assert Encode(TwosComplement24(u)) == b;
  }

  /** The values the sign extension yields for the extreme byte patterns. */
  lemma SignExtendExamples()
    ensures SignExtend(Bytes24(0xFF, 0xFF, 0xFF)) == -1
    ensures SignExtend(Bytes24(0x80, 0x00, 0x00)) == -8388608
    ensures SignExtend(Bytes24(0x7F, 0xFF, 0xFF)) == 8388607
    ensures SignExtend(Bytes24(0x00, 0x00, 0x00)) == 0
  {
  }
}
