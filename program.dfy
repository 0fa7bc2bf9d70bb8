// main of fftNau.c: clear a 4096-entry buffer, let readNau fill it with
// 3200 samples, transform it in place, and scan the bins around the centre
// bin.  The prompt for the frequency and its conversion to a bin are float
// I/O, so the centre bin is an input.

module Program {
  import opened Device
  import opened Fft
  import opened PeakScan

  /**
   * main's `cplx buf[fftSize]`, which starts out with whatever `junk` the
   * stack holds, with every entry set to 0 by its first loop.
   */
  method ZeroBuffer<T>(zero: T, junk: T) returns (buf: array<T>)
    ensures fresh(buf)
    ensures buf[..] == seq(FftSize, j => zero)
  {
    buf := new T[FftSize](j => junk);
    var i := 0;
    while i < FftSize
      modifies buf
      invariant 0 <= i <= FftSize
      invariant forall k :: 0 <= k < i ==> buf[k] == zero
    {
      buf[i] := zero;
      i := i + 1;
    }
  }

  /** The transform of the buffer readNau leaves when it starts from zeros. */
  ghost function Spectrum<T>(ar: Arith<T>, zero: T, hw: Hardware, centre: (seq<int>, int) -> T): (s: seq<T>)
    ensures |s| == FftSize
  {
    CaptureFitsBuffer();
    Transform(ar, Filled(seq(FftSize, j => zero), RunRecords, hw, centre), FftSize, 1)
  }

  /**
   * The pipeline of main, from the chip's register file to the printed
   * bins.  The spectrum is the transform of the zero buffer as readNau
   * leaves it, and the printed bins are the scan of that spectrum.
   */
  method Run<T>(dev: Nau7802, ar: Arith<T>, zero: T, junk: T, hw: Hardware, centre: (seq<int>, int) -> T,
                bin: int, loud: T -> bool)
      returns (printed: seq<int>, ghost spectrum: seq<T>)
    requires 999 <= bin <= 3095
    modifies dev
    ensures dev.regs == Configured(old(dev.regs))
    ensures spectrum == Spectrum(ar, zero, hw, centre)
    ensures printed == Printed(spectrum, Bins(bin, PrintSize), loud)
  {
    var buf := ZeroBuffer(zero, junk);
    var powerError, calibrationFailed, readErrors;
    ghost var writes;
    powerError, calibrationFailed, readErrors, writes := dev.ReadNau(buf, RunRecords, hw, centre);
    assert buf[..FftSize] == buf[..];
    CaptureFitsBuffer();
    ghost var levels := FftInPlace(ar, buf, FftSize);
    spectrum := buf[..];
    assert spectrum == buf[..FftSize];
    InBoundsIff(bin, PrintSize, FftSize);
    ghost var visited;
    printed, visited := Scan(buf, bin, PrintSize, loud);
  }
}
