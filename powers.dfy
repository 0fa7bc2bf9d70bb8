// Powers of two, shared by the bit-level models of the C shifts and by the
// FFT's recursion depth.

module Powers {

  /** 2^k. */
  function Pow2(k: nat): (p: nat)
    ensures p >= 1
  {
    if k == 0 then 1 else 2 * Pow2(k - 1)
  }

  /** The powers of two the byte shifts of fftNau.c use. */
  lemma Pow2Values()
    ensures Pow2(1) == 2 && Pow2(2) == 4 && Pow2(3) == 8 && Pow2(4) == 16
    ensures Pow2(5) == 32 && Pow2(6) == 64 && Pow2(7) == 128
    ensures Pow2(8) == 0x100 && Pow2(16) == 0x1_0000
  {
    assert Pow2(4) == 16;
    assert Pow2(7) == 128 by {
      assert Pow2(6) == 2 * Pow2(5);
    }
    assert Pow2(8) == 16 * 16 by {
      assert Pow2(8) == 16 * Pow2(4);
    }
    assert Pow2(16) == Pow2(8) * Pow2(8) by {
      assert Pow2(12) == 16 * Pow2(8);
      assert Pow2(16) == 16 * Pow2(12);
    }
  }

  /** 2^(a+b) = 2^a * 2^b. */
  lemma {:induction false} Pow2Add(a: nat, b: nat)
    ensures Pow2(a + b) == Pow2(a) * Pow2(b)
    decreases b
  {
    if b > 0 {
      Pow2Add(a, b - 1);
      assert Pow2(a + b) == 2 * Pow2(a + (b - 1));
      assert Pow2(a) * Pow2(b) == 2 * (Pow2(a) * Pow2(b - 1));
    }
  }
}
