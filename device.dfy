// The NAU7802 driver of fftNau.c: the register helpers as read-modify-write
// methods on the chip's register file, readNau's power-up, configuration
// and acquisition sequence, and main's pipeline up to the FFT.
//
// The register file holds what the program has written over I2C.  The
// status bits the chip sets and clears on its own (power-up ready,
// calibration running, conversion ready) and the conversion results are
// not in it: they come from a Hardware record of observation streams.

module Device {
  import opened Registers
  import opened Sample
  import opened Polling
  import opened Indices
  import Fft

  /** `runRecords`: the number of samples main asks readNau for. */
  const RunRecords: int := 3200
  /** `fftSize`: the length of main's sample buffer and of the FFT. */
  const FftSize: int := 4096
  /** readNau's `sampleRate` (Hz) times `startAverageTime` (s): the bias window. */
  const SamplesToAverage: int := 1 * 320

  // Register addresses of the NAU7802 used by the program.
  const PuCtrl: Addr := 0x00
  const Ctrl1: Addr := 0x01
  const Ctrl2: Addr := 0x02
  const AdcReg: Addr := 0x15
  const PgaPwr: Addr := 0x1C

  /** A register address: a C `char`, unsigned on the target. */
  type Addr = a: int | 0 <= a < 0x100

  /** The 256 byte registers, indexed by address. */
  type RegisterFile = s: seq<bv8> | |s| == 0x100 witness seq(0x100, a => 0)

  // ---------------------------------------------------------------------
  // The register edits on the whole register file.

  function SetBitIn(r: RegisterFile, addr: Addr, b: nat): (r': RegisterFile)
    requires b < 31
    ensures b < 8 ==> BitOf(r'[addr], b)
    ensures forall k :: 0 <= k < 8 && k != b ==> BitOf(r'[addr], k) == BitOf(r[addr], k)
    ensures forall a: Addr :: a != addr ==> r'[a] == r[a]
  {
    r[addr := SetBitByte(r[addr], b)]
  }

  function ClearBitIn(r: RegisterFile, addr: Addr, b: nat): (r': RegisterFile)
    requires b < 31
    ensures b < 8 ==> !BitOf(r'[addr], b)
    ensures forall k :: 0 <= k < 8 && k != b ==> BitOf(r'[addr], k) == BitOf(r[addr], k)
    ensures forall a: Addr :: a != addr ==> r'[a] == r[a]
  {
    r[addr := ClearBitByte(r[addr], b)]
  }

  /** setLDO: the LDO code into bits 3-5 of CTRL1, then the internal-LDO enable bit 7 of PU_CTRL. */
  function SetLdoIn(r: RegisterFile, code: bv8): (r': RegisterFile)
    ensures FieldOf(r'[Ctrl1], 3, 3) == Clamp3(code)
    ensures forall k :: 0 <= k < 8 && !(3 <= k < 6) ==> BitOf(r'[Ctrl1], k) == BitOf(r[Ctrl1], k)
    ensures BitOf(r'[PuCtrl], 7)
    ensures forall k :: 0 <= k < 7 ==> BitOf(r'[PuCtrl], k) == BitOf(r[PuCtrl], k)
    ensures forall a: Addr :: a != Ctrl1 && a != PuCtrl ==> r'[a] == r[a]
  {
    SetBitIn(r[Ctrl1 := LdoByte(r[Ctrl1], code)], PuCtrl, 7)
  }

  function SetGainIn(r: RegisterFile, code: bv8): (r': RegisterFile)
    ensures FieldOf(r'[Ctrl1], 0, 3) == Clamp3(code)
    ensures forall k :: 3 <= k < 8 ==> BitOf(r'[Ctrl1], k) == BitOf(r[Ctrl1], k)
    ensures forall a: Addr :: a != Ctrl1 ==> r'[a] == r[a]
  {
    r[Ctrl1 := GainByte(r[Ctrl1], code)]
  }

  function SetSampleRateIn(r: RegisterFile, code: bv8): (r': RegisterFile)
    ensures FieldOf(r'[Ctrl2], 4, 3) == Clamp3(code)
    ensures forall k :: 0 <= k < 8 && !(4 <= k < 7) ==> BitOf(r'[Ctrl2], k) == BitOf(r[Ctrl2], k)
    ensures forall a: Addr :: a != Ctrl2 ==> r'[a] == r[a]
  {
    r[Ctrl2 := RateByte(r[Ctrl2], code)]
  }

  /**
   * The register file after readNau's set-up: reset pulse, power-up of the
   * digital and analog sections, LDO 3.3 V, gain 128, 320 samples/s,
   * CLK_CHP off, the chan-2 decoupling capacitor, the calibration start bit
   * and, to set up the first read, bit 5 (CR) of PU_CTRL, in the order
   * readNau writes them.
   */
  function Configured(r: RegisterFile): (c: RegisterFile)
    ensures forall a: Addr :: a !in {PuCtrl, Ctrl1, Ctrl2, AdcReg, PgaPwr} ==> c[a] == r[a]
  {
    var r1 := SetBitIn(SetBitIn(ClearBitIn(SetBitIn(r, PuCtrl, 0), PuCtrl, 0), PuCtrl, 1), PuCtrl, 2);
    var r2 := SetSampleRateIn(SetGainIn(SetLdoIn(r1, 4), 7), 7);
    var r3 := SetBitIn(r2[AdcReg := 0x30], PgaPwr, 7);
    SetBitIn(SetBitIn(r3, Ctrl2, 2), PuCtrl, 5)
  }

  /** The byte each register touched by the set-up ends up holding. */
  lemma ConfiguredBytes(r: RegisterFile)
    ensures Configured(r)[PuCtrl] ==
      SetBitByte(SetBitByte(SetBitByte(SetBitByte(ClearBitByte(SetBitByte(r[PuCtrl], 0), 0), 1), 2), 7), 5)
    ensures Configured(r)[Ctrl1] == GainByte(LdoByte(r[Ctrl1], 4), 7)
    ensures Configured(r)[Ctrl2] == SetBitByte(RateByte(r[Ctrl2], 7), 2)
    ensures Configured(r)[AdcReg] == 0x30 && Configured(r)[PgaPwr] == SetBitByte(r[PgaPwr], 7)
  {
  }

  /**
   * What the set-up leaves in the chip: out of reset, both sections
   * powered, the internal LDO on and bit 5 (CR) set, gain code 7 (x128),
   * LDO code 4 (3.3 V), rate code 7 (320 samples/s), calibration started,
   * CLK_CHP off and the decoupling capacitor on.  The bits the program
   * does not write (PUR, CS and OSCS of PU_CTRL, bits 6-7 of CTRL1, bits
   * 0, 1, 3 and 7 of CTRL2, bits 0-6 of PGA_PWR) keep their values.
   */
  lemma ConfiguredRegisters(r: RegisterFile)
    ensures var c := Configured(r);
      && !BitOf(c[PuCtrl], 0) && BitOf(c[PuCtrl], 1) && BitOf(c[PuCtrl], 2)
      && BitOf(c[PuCtrl], 5) && BitOf(c[PuCtrl], 7)
      && FieldOf(c[Ctrl1], 0, 3) == 7 && FieldOf(c[Ctrl1], 3, 3) == 4
      && FieldOf(c[Ctrl2], 4, 3) == 7 && BitOf(c[Ctrl2], 2)
      && c[AdcReg] == 0x30 && BitOf(c[PgaPwr], 7)
      && BitOf(c[PuCtrl], 3) == BitOf(r[PuCtrl], 3) && BitOf(c[PuCtrl], 4) == BitOf(r[PuCtrl], 4)
      && BitOf(c[PuCtrl], 6) == BitOf(r[PuCtrl], 6)
      && BitOf(c[Ctrl1], 6) == BitOf(r[Ctrl1], 6) && BitOf(c[Ctrl1], 7) == BitOf(r[Ctrl1], 7)
      && (forall k :: 0 <= k < 8 && k != 2 && !(4 <= k < 7) ==> BitOf(c[Ctrl2], k) == BitOf(r[Ctrl2], k))
      && (forall k :: 0 <= k < 7 ==> BitOf(c[PgaPwr], k) == BitOf(r[PgaPwr], k))
  {
    ConfiguredBytes(r);
    PowerControlBits(r[PuCtrl]);
    Control1Bits(r[Ctrl1]);
    Control2Bits(r[Ctrl2]);
  }

  /** PU_CTRL after the reset pulse and setting PUD, PUA, AVDDS and CR (bit 5); PUR, CS and OSCS are kept. */
  lemma PowerControlBits(p: bv8)
    ensures var c := SetBitByte(SetBitByte(SetBitByte(SetBitByte(ClearBitByte(SetBitByte(p, 0), 0), 1), 2), 7), 5);
      && !BitOf(c, 0) && BitOf(c, 1) && BitOf(c, 2) && BitOf(c, 5) && BitOf(c, 7)
      && BitOf(c, 3) == BitOf(p, 3) && BitOf(c, 4) == BitOf(p, 4) && BitOf(c, 6) == BitOf(p, 6)
  {
  }

  /** CTRL1 after setLDO(4) and setGain(7). */
  lemma Control1Bits(v: bv8)
    ensures var c := GainByte(LdoByte(v, 4), 7);
      && FieldOf(c, 0, 3) == 7 && FieldOf(c, 3, 3) == 4
      && BitOf(c, 6) == BitOf(v, 6) && BitOf(c, 7) == BitOf(v, 7)
  {
  }

  /** CTRL2 after setSampleRate(7) and the calibration start bit; bits 0, 1, 3 and 7 are kept. */
  lemma Control2Bits(v: bv8)
    ensures var c := SetBitByte(RateByte(v, 7), 2);
      && FieldOf(c, 4, 3) == 7 && BitOf(c, 2)
      && (forall k :: 0 <= k < 8 && k != 2 && !(4 <= k < 7) ==> BitOf(c, k) == BitOf(v, k))
  {
  }

  // ---------------------------------------------------------------------
  // The chip.

  /** What the chip does on its own during one run of readNau. */
  datatype Hardware = Hardware(
    powerUp: Status,               // PU_CTRL bit 3 (power-up ready) at each poll of the power-up wait
    calibrating: Status,           // CTRL2 bit 2 (calibration running) at each poll of calibrateAFE
    dataReady: nat -> Status,      // PU_CTRL bit 5 (CR, cycle ready) at each poll of sample i's wait
    conversion: nat -> Bytes24)    // registers 0x12-0x14 as read for sample i

  /** The NAU7802 register file, as the program reads and writes it over I2C. */
  class Nau7802 {
    var regs: RegisterFile

    constructor (init: RegisterFile)
      ensures regs == init
    {
      regs := init;
    }

    /** `wiringPiI2CWriteReg8`. */
    method WriteReg(addr: Addr, value: bv8)
      modifies this
      ensures regs == old(regs)[addr := value]
    {
      regs := regs[addr := value];
    }

    method SetBit(addr: Addr, bitNumber: nat)
      requires bitNumber < 31
      modifies this
      ensures regs == SetBitIn(old(regs), addr, bitNumber)
    {
      var value := regs[addr];
      value := SetBitByte(value, bitNumber);
      WriteReg(addr, value);
    }

    method ClearBit(addr: Addr, bitNumber: nat)
      requires bitNumber < 31
      modifies this
      ensures regs == ClearBitIn(old(regs), addr, bitNumber)
    {
      var value := regs[addr];
      value := ClearBitByte(value, bitNumber);
      WriteReg(addr, value);
    }

    /**
     * getBit: 1 exactly when the bit is set in the register.  readNau and
     * calibrateAFE only ever poll bits the chip drives itself, which come
     * from the Hardware streams, so nothing in the model calls it.
     */
    method GetBit(addr: Addr, bitNumber: nat) returns (r: int)
      requires bitNumber < 31
      ensures r == 0 || r == 1
      ensures r == 1 <==> bitNumber < 8 && BitOf(regs[addr], bitNumber)
    {
      var value := regs[addr];
      r := GetBitOf(value, bitNumber);
    }

    method SetLDO(ldoValue: bv8)
      modifies this
      ensures regs == SetLdoIn(old(regs), ldoValue)
    {
      var code := Clamp3(ldoValue);
      var value := regs[Ctrl1];
      value := (value & 0xC7) | (code << 3);
      WriteReg(Ctrl1, value);
      SetBit(PuCtrl, 7);
    }

    method SetGain(gainValue: bv8)
      modifies this
      ensures regs == SetGainIn(old(regs), gainValue)
    {
      var code := Clamp3(gainValue);
      var value := regs[Ctrl1];
      value := (value & 0xF8) | code;
      WriteReg(Ctrl1, value);
    }

    method SetSampleRate(rate: bv8)
      modifies this
      ensures regs == SetSampleRateIn(old(regs), rate)
    {
      var code := Clamp3(rate);
      var value := regs[Ctrl2];
      value := (value & 0x8F) | (code << 4);
      WriteReg(Ctrl2, value);
    }

    /**
     * calibrateAFE: set the calibration start bit, then wait for the chip
     * to clear it; the result is the number of delays, or 1 on timeout.
     */
    method CalibrateAFE(calibrating: Status) returns (count: int)
      modifies this
      ensures regs == SetBitIn(old(regs), Ctrl2, 2)
      ensures count == CalibrationCount(calibrating)
    {
      SetBit(Ctrl2, 2);
      ghost var polls;
      count, polls := CalibrationWait(calibrating);
    }

    /**
     * readNau up to the sampling loop: reset pulse, power-up of the digital
     * and analog sections and the wait for the power-up ready bit, then the
     * configuration, the calibration, and setting bit 5 (CR) of PU_CTRL to
     * set up the first read.  It returns the counter
     * the power-up wait leaves, which the first data-ready wait goes on from.
     */
    method Setup(hw: Hardware) returns (counter: int, powerError: bool, calibrationFailed: bool)
      modifies this
      ensures regs == Configured(old(regs))
      ensures counter == BitWait(hw.powerUp, 0, PowerUpLimit).counter
      ensures powerError == BitWait(hw.powerUp, 0, PowerUpLimit).timedOut
      ensures calibrationFailed == (CalibrationCount(hw.calibrating) == 1)
    {
      SetBit(PuCtrl, 0);
      ClearBit(PuCtrl, 0);
      SetBit(PuCtrl, 1);
      SetBit(PuCtrl, 2);
      ghost var polls;
      counter, powerError, polls := WaitForBit(hw.powerUp, 0, PowerUpLimit);
      SetLDO(4);
      SetGain(7);
      SetSampleRate(7);
      WriteReg(AdcReg, 0x30);
      SetBit(PgaPwr, 7);
      var count := CalibrateAFE(hw.calibrating);
      calibrationFailed := count == 1;
      SetBit(PuCtrl, 5);
    }

    /**
     * readNau(buf, samples): bring the chip up, calibrate it, and take
     * `samples` conversions.  Sample i below SamplesToAverage only feeds
     * the bias estimate; every later sample i is stored in buf[i] as
     * `centre(window, v)`, a function of the bias window's sample values
     * and of its own value v.
     */
    method ReadNau<T>(buf: array<T>, samples: int, hw: Hardware, centre: (seq<int>, int) -> T)
        returns (powerError: bool, calibrationFailed: bool, readErrors: seq<bool>, ghost writes: seq<int>)
      requires samples <= buf.Length
      modifies this, buf
      ensures regs == Configured(old(regs))
      ensures powerError == BitWait(hw.powerUp, 0, PowerUpLimit).timedOut
      ensures calibrationFailed == (CalibrationCount(hw.calibrating) == 1)
      ensures |readErrors| == Count(samples)
      ensures forall i :: 0 <= i < |readErrors| ==> readErrors[i] == ReadTimedOut(hw, i)
      ensures writes == Ascending(SamplesToAverage, samples)
      ensures buf[..] == Filled(old(buf[..]), samples, hw, centre)
    {
      var counter;
      counter, powerError, calibrationFailed := Setup(hw);
      readErrors, writes := Acquire(buf, samples, hw, centre, counter);
    }
  }

  /**
   * readNau's sampling loop: wait for each conversion, sign-extend it, and
   * either add it to the bias window or store its centred value.  The
   * counter is not reset before the loop, so the first wait goes on from
   * `counter0`; it is reset after every sample.
   */
  method Acquire<T>(buf: array<T>, samples: int, hw: Hardware, centre: (seq<int>, int) -> T, counter0: int)
      returns (readErrors: seq<bool>, ghost writes: seq<int>)
    requires samples <= buf.Length
    requires counter0 == BitWait(hw.powerUp, 0, PowerUpLimit).counter
    modifies buf
    ensures |readErrors| == Count(samples)
    ensures forall i :: 0 <= i < |readErrors| ==> readErrors[i] == ReadTimedOut(hw, i)
    ensures writes == Ascending(SamplesToAverage, samples)
    ensures buf[..] == Filled(old(buf[..]), samples, hw, centre)
  {
    var counter := counter0;
    var window: seq<int> := [];
    readErrors := [];
    writes := [];
    var i := 0;
    while i < samples
      invariant 0 <= i && (i <= samples || i == 0)
      invariant counter == (if i == 0 then counter0 else 0)
      invariant |readErrors| == i && forall j :: 0 <= j < i ==> readErrors[j] == ReadTimedOut(hw, j)
      invariant window == Window(hw, if i < SamplesToAverage then i else SamplesToAverage)
      invariant writes == Ascending(SamplesToAverage, i)
      invariant buf[..] == Filled(old(buf[..]), i, hw, centre)
    {
      var timedOut;
      ghost var polls;
      counter, timedOut, polls := WaitForBit(hw.dataReady(i), counter, DataReadyLimit);
      TimeoutsStep(readErrors, hw, i, timedOut);
      readErrors := readErrors + [timedOut];
      var valueFinal := SignExtend(hw.conversion(i));
      counter := 0;
      if i < SamplesToAverage {
        WindowStep(hw, i);
        window := window + [valueFinal];
        FilledBelowWindow(old(buf[..]), i, hw, centre);
      } else {
        buf[i] := centre(window, valueFinal);
        FilledStep(old(buf[..]), i, hw, centre);
        writes := writes + [i];
      }
      i := i + 1;
    }
    if samples < 0 {
      FilledNone(old(buf[..]), samples, hw, centre);
      FilledNone(old(buf[..]), 0, hw, centre);
    }
  }

  // ---------------------------------------------------------------------
  // What readNau computes, as functions of its inputs.

  /** The number of iterations of `for (i = 0; i < samples; i++)`. */
  function Count(samples: int): nat
  {
    if samples < 0 then 0 else samples
  }

  /** The sign-extended value of conversion i. */
  function Value(hw: Hardware, i: nat): int
  {
    SignExtend(hw.conversion(i))
  }

  /** The values of the first m conversions, which make up the bias estimate. */
  function Window(hw: Hardware, m: nat): seq<int>
  {
    seq(m, j requires 0 <= j < m => Value(hw, j))
  }

  /**
   * Whether the data-ready wait of sample i times out: the first wait goes
   * on from the counter the power-up wait left, every later one from 0.
   */
  function ReadTimedOut(hw: Hardware, i: nat): (r: bool)
    ensures i > 0 ==> (r <==> forall j :: 0 <= j < DataReadyLimit + 2 ==> !hw.dataReady(i)(j))
    ensures i == 0 ==> (r <==> forall j :: 0 <= j < DataReadyLimit + 2 - BitWait(hw.powerUp, 0, PowerUpLimit).counter ==>
                                 !hw.dataReady(0)(j))
  {
    var counter0 := if i == 0 then BitWait(hw.powerUp, 0, PowerUpLimit).counter else 0;
    PowerUpWaitBound(hw.powerUp);
    DataReadyWaitBound(hw.dataReady(i), counter0);
    BitWait(hw.dataReady(i), counter0, DataReadyLimit).timedOut
  }

  /** The buffer once the first m samples of readNau have been taken. */
  function Filled<T>(b: seq<T>, m: int, hw: Hardware, centre: (seq<int>, int) -> T): (r: seq<T>)
    ensures |r| == |b|
  {
    seq(|b|, j requires 0 <= j < |b| =>
      if SamplesToAverage <= j < m then centre(Window(hw, SamplesToAverage), Value(hw, j)) else b[j])
  }

  /** The bias window after m samples is a prefix of every later one: values are appended, never rewritten. */
  lemma WindowPrefix(hw: Hardware, m: nat, m': nat)
    requires m <= m'
    ensures Window(hw, m) == Window(hw, m')[..m]
  {
  }

  /** One more wait outcome extends the record of timeouts by one entry. */
  lemma TimeoutsStep(errors: seq<bool>, hw: Hardware, i: nat, timedOut: bool)
    requires |errors| == i && forall j :: 0 <= j < i ==> errors[j] == ReadTimedOut(hw, j)
    requires timedOut == ReadTimedOut(hw, i)
    ensures var e := errors + [timedOut];
      |e| == i + 1 && forall j :: 0 <= j < i + 1 ==> e[j] == ReadTimedOut(hw, j)
  {
  }

  /** The bias window grows by the value of the sample just taken. */
  lemma WindowStep(hw: Hardware, i: nat)
    ensures Window(hw, i + 1) == Window(hw, i) + [Value(hw, i)]
  {
  }

  /** A sample of the bias window leaves the buffer as it was. */
  lemma FilledBelowWindow<T>(b: seq<T>, i: int, hw: Hardware, centre: (seq<int>, int) -> T)
    requires i < SamplesToAverage
    ensures Filled(b, i + 1, hw, centre) == Filled(b, i, hw, centre)
  {
  }

  /** A later sample i adds exactly the write of buf[i]. */
  lemma FilledStep<T>(b: seq<T>, i: int, hw: Hardware, centre: (seq<int>, int) -> T)
    requires SamplesToAverage <= i < |b|
    ensures Filled(b, i + 1, hw, centre) ==
      Filled(b, i, hw, centre)[i := centre(Window(hw, SamplesToAverage), Value(hw, i))]
  {
  }

  /** No sample taken, no index written. */
  lemma FilledNone<T>(b: seq<T>, m: int, hw: Hardware, centre: (seq<int>, int) -> T)
    requires m <= 0
    ensures Filled(b, m, hw, centre) == b
  {
  }

  // ---------------------------------------------------------------------
  // Properties of readNau.

  /**
   * The fill pattern: indices below SamplesToAverage and from `samples`
   * on keep what they held; every index in between holds the centred
   * value of its own sample.
   */
  lemma FillPattern<T>(b: seq<T>, samples: int, hw: Hardware, centre: (seq<int>, int) -> T, j: int)
    requires 0 <= j < |b|
    ensures j < SamplesToAverage || samples <= j ==> Filled(b, samples, hw, centre)[j] == b[j]
    ensures SamplesToAverage <= j < samples ==>
      Filled(b, samples, hw, centre)[j] == centre(Window(hw, SamplesToAverage), Value(hw, j))
  {
  }

  /** The written indices are distinct, ascending, and exactly those in [SamplesToAverage, samples). */
  lemma WritesOnceAscending(samples: int)
    ensures var w := Ascending(SamplesToAverage, samples);
      && (forall a, c :: 0 <= a < c < |w| ==> w[a] < w[c])
      && (forall j :: j in w <==> SamplesToAverage <= j < samples)
  {
    AscendingDistinct(SamplesToAverage, samples);
  }

  /** main's capture fits its buffer, and leaves a tail of zeros for the FFT. */
  lemma CaptureFitsBuffer()
    ensures SamplesToAverage < RunRecords <= FftSize && Fft.IsPow2(FftSize as nat)
  {
    assert Fft.IsPow2(4096) by {
      assert Fft.IsPow2(1) && Fft.IsPow2(2) && Fft.IsPow2(4) && Fft.IsPow2(8) && Fft.IsPow2(16);
      assert Fft.IsPow2(32) && Fft.IsPow2(64) && Fft.IsPow2(128) && Fft.IsPow2(256);
      assert Fft.IsPow2(512) && Fft.IsPow2(1024) && Fft.IsPow2(2048);
    }
  }

  /** The data-ready wait of every sample after the first gives up after at most 10002 polls. */
  lemma LaterReadsBounded(hw: Hardware, i: nat)
    requires i > 0
    ensures BitWait(hw.dataReady(i), 0, DataReadyLimit).polls <= DataReadyLimit + 2
    ensures ReadTimedOut(hw, i) <==> forall j :: 0 <= j < DataReadyLimit + 2 ==> !hw.dataReady(i)(j)
  {
    DataReadyWaitBound(hw.dataReady(i), 0);
  }

  /**
   * The first sample's wait goes on from the power-up wait's counter, so
   * it has 10002 - c polls for a leftover counter c (at most 102).
   */
  lemma FirstReadBudget(hw: Hardware)
    ensures var c := BitWait(hw.powerUp, 0, PowerUpLimit).counter;
      && 0 <= c <= PowerUpLimit + 2
      && BitWait(hw.dataReady(0), c, DataReadyLimit).polls <= DataReadyLimit + 2 - c
      && (ReadTimedOut(hw, 0) <==> forall j :: 0 <= j < DataReadyLimit + 2 - c ==> !hw.dataReady(0)(j))
  {
    PowerUpWaitBound(hw.powerUp);
    var c := BitWait(hw.powerUp, 0, PowerUpLimit).counter;
    DataReadyWaitBound(hw.dataReady(0), c);
  }
}
