# fftNau: a Dafny model of a NAU7802 capture-and-FFT program

`fftNau.c` runs on a Raspberry Pi. It drives a NAU7802 24-bit load-cell ADC over I2C and works in four stages:

1. It resets the chip, powers it up, configures it (LDO 3.3 V, gain 128, 320 samples/s) and calibrates it.
2. It reads 3200 conversions. The first 320 only feed a bias estimate. Each later sample `i` goes into `buf[i]` of a 4096-entry buffer with the bias removed.
3. It runs a recursive radix-2 FFT over the buffer in place.
4. It prints the bins around the frequency the user asked for whose magnitude passes a threshold.

This project models that program's control and data skeleton:

- the read-modify-write register helpers;
- the bounded busy-wait loops;
- the 24-bit sign extension;
- the buffer fill pattern;
- the index structure of the FFT;
- the peak scan window.

It also proves properties of each.

Modules, one per file:

- `Registers` (`registers.dfy`): the byte edits behind `setBit`, `clearBit`, `getBit`, `setLDO`, `setGain` and `setSampleRate`, as pure functions on `bv8`.
- `Device` (`device.dfy`): the chip's register file as class `Nau7802`. The helpers are methods that update it. `readNau`'s set-up sequence is `Setup`, its sampling loop is `Acquire`, and `ReadNau` is the two together. What the buffer holds afterwards is the function `Filled`.
- `Polling` (`polling.dfy`): `calibrateAFE`'s loop and the shared shape of `readNau`'s two waits (`if (bit == 1) break; if (counter++ > limit) break;`). The chip's status bits come in as observation streams.
- `Sample` (`sample.dfy`): the three result bytes packed into a 32-bit `unsigned long`, shifted left by 8, read as a signed 32-bit `long` and shifted back. Proved equal to 24-bit two's complement, with round trips against an encoder.
- `Fft` (`fft.dfy`): `fft` and `_fft` on two arrays. The C pointer offsets (`out + step`) are explicit, and the complex operations are abstract. The result is proved to equal a recursive Cooley-Tukey definition, `Transform`.
- `PeakScan` (`scan.dfy`): main's scan over `printSize` bins around a centre bin.
- `Indices` (`indices.dfy`): runs of consecutive indices, used for the sampling loop's writes and the scan's visits.
- `Program` (`program.dfy`): main's pipeline. It zero-fills the buffer, runs `readNau`, then `fft`, then the scan.

Conventions of the target:

- C `char` is unsigned on the Raspberry Pi, so every register value and `char` argument is a byte 0..255.
- `long` is 32 bits wide.
- `>>` on a negative `long` is an arithmetic shift.

## Model

| member | source | states |
|---|---|---|
| Registers.BitIsShift | fftNau.c:32 | the table of single-bit masks is the shift `1 << k` |
| Registers.MaskIsTruncatedShift | fftNau.c:32-46 | the mask the bit helpers use is C's `1 << bitNumber` on an `int` truncated to a `char`: 2^b modulo 256, for every bit number below 31 |
| Registers.SetBitByte | fftNau.c:29-34 | bit b is set and every other bit is kept; a bit number from 8 up leaves the byte unchanged, because the mask truncates to 0 in a `char` |
| Registers.ClearBitByte | fftNau.c:36-41 | bit b is cleared and every other bit is kept; bit numbers from 8 up change nothing |
| Registers.GetBitOf | fftNau.c:43-51 | the result is 0 or 1, and 1 exactly when b < 8 and bit b of the byte is set |
| Registers.Clamp3 | fftNau.c:55-56 | a code above 7 becomes 7, any other code is kept |
| Registers.LdoByte | fftNau.c:53-60 | bits 3-5 hold the clamped LDO code; every other bit is kept |
| Registers.GainByte | fftNau.c:64-72 | bits 0-2 hold the clamped gain code; bits 3-7 are kept |
| Registers.RateByte | fftNau.c:74-82 | bits 4-6 hold the clamped rate code; every other bit is kept |
| Registers.BitEditsIdempotent | fftNau.c:29-41 | setting or clearing the same bit twice equals doing it once |
| Registers.SetClearInverse | fftNau.c:29-41 | clearing a freshly set bit restores a byte where it was clear, and conversely |
| Registers.GetAfterEdit | fftNau.c:29-51 | getBit reads 1 after setBit and 0 after clearBit of the same bit |
| Registers.FieldRewriteIsIdentity | fftNau.c:53-82 | writing a field's current value back leaves the byte unchanged, for the gain, LDO and rate fields |
| Registers.FieldLastWriteWins | fftNau.c:53-82 | of two writes to the same field, only the second matters |
| Registers.GainAndLdoIndependent | fftNau.c:53-72 | the gain and LDO edits of register 0x01 commute, and neither disturbs the other's field |
| Registers.GainTenReadsSeven | fftNau.c:66-67 | an out-of-range gain code is stored as 7 |
| Device.SetBitIn | fftNau.c:29-34 | setBit on the register file: only the addressed register changes, in bit b only |
| Device.ClearBitIn | fftNau.c:36-41 | clearBit on the register file: only the addressed register changes, in bit b only |
| Device.SetLdoIn | fftNau.c:53-62 | setLDO writes only the LDO field of 0x01 and the LDO-enable bit 7 of 0x00; all other registers are kept |
| Device.SetGainIn | fftNau.c:64-72 | setGain writes only the gain field of 0x01 |
| Device.SetSampleRateIn | fftNau.c:74-82 | setSampleRate writes only the rate field of 0x02 |
| Device.Configured | fftNau.c:121-178 | the set-up sequence writes no register other than 0x00, 0x01, 0x02, 0x15 and 0x1C |
| Device.ConfiguredBytes | fftNau.c:121-178 | the byte each touched register holds after the set-up, as the composition of the edits in program order |
| Device.ConfiguredRegisters | fftNau.c:121-178 | after set-up: out of reset, both sections powered, LDO enabled and bit 5 (CR) set, gain 7, LDO 4, rate 7 and calibration bit set, 0x15 = 0x30, decoupling capacitor on; every bit the program does not write keeps its value (PUR, CS and OSCS of PU_CTRL, bits 6-7 of CTRL1, bits 0, 1, 3 and 7 of CTRL2, bits 0-6 of PGA_PWR) |
| Device.PowerControlBits | fftNau.c:122-178 | PU_CTRL after the reset pulse, PUD, PUA, AVDDS and bit 5 (CR, set at line 178 to set up the first read): RR clear, bits 1, 2, 5 and 7 set, PUR, CS and OSCS (bits 3, 4 and 6) kept |
| Device.Control1Bits | fftNau.c:148-151 | CTRL1 after setLDO(4) and setGain(7) holds gain 7 and LDO 4 and keeps bits 6-7 |
| Device.Control2Bits | fftNau.c:154-165 | CTRL2 after setSampleRate(7) and the calibration start holds rate 7 and bit 2, and keeps bits 0, 1, 3 and 7 |
| Device.Nau7802.WriteReg | fftNau.c:33 | a register write replaces exactly that register |
| Device.Nau7802.SetBit | fftNau.c:29-34 | the new register file is SetBitIn of the old one |
| Device.Nau7802.ClearBit | fftNau.c:36-41 | the new register file is ClearBitIn of the old one |
| Device.Nau7802.GetBit | fftNau.c:43-51 | returns 0 or 1, and 1 exactly when the bit is set in the register |
| Device.Nau7802.SetLDO | fftNau.c:53-62 | the new register file is SetLdoIn of the old one |
| Device.Nau7802.SetGain | fftNau.c:64-72 | the new register file is SetGainIn of the old one |
| Device.Nau7802.SetSampleRate | fftNau.c:74-82 | the new register file is SetSampleRateIn of the old one |
| Device.Nau7802.CalibrateAFE | fftNau.c:84-98 | sets CTRL2 bit 2, then returns calibrateAFE's count for the chip's calibration stream |
| Device.Nau7802.Setup | fftNau.c:121-178 | leaves the register file Configured; returns the counter the power-up wait leaves, whether it timed out, and whether calibrateAFE returned 1 |
| Device.Nau7802.ReadNau | fftNau.c:101-233 | set-up and sampling: the registers end Configured, one timeout flag per sample, the buffer ends as Filled, and the writes hit indices 320 .. samples-1 in order |
| Device.Acquire | fftNau.c:185-229 | the sampling loop: the first wait continues from the power-up counter and later ones start from 0; the timeout flag of each sample; the buffer after it is Filled of the buffer before |
| Device.Filled | fftNau.c:215-227 | the buffer after the first m samples has its old length; FillPattern gives its entries |
| Device.ReadTimedOut | fftNau.c:187-196 | the wait of sample i > 0 times out exactly when the ready bit reads 0 at all 10002 polls; the first sample's wait continues from the power-up counter c and times out exactly when the bit reads 0 at all 10002 - c polls |
| Device.WindowPrefix | fftNau.c:215-218 | the bias window after m samples is a prefix of the window after any later m': sample values are appended in order and never rewritten |
| Device.FillPattern | fftNau.c:215-227 | indices below 320 and from `samples` up keep their old contents; every index in between holds its own sample with the bias removed |
| Device.WritesOnceAscending | fftNau.c:185-227 | the written indices are distinct, ascending, and exactly 320 .. samples-1 |
| Device.CaptureFitsBuffer | fftNau.c:19-20 | 320 < 3200 <= 4096, and 4096 is a power of two, as the FFT needs |
| Device.LaterReadsBounded | fftNau.c:187-196 | every wait after the first polls at most 10002 times, and times out exactly when the bit stays 0 for all 10002 polls |
| Device.FirstReadBudget | fftNau.c:133-196 | the first data-ready wait starts from the power-up wait's counter c (0 <= c <= 102), so it has only 10002 - c polls |
| Polling.FirstMatch | fftNau.c:88-96 | the first poll in range that shows the wanted value; none before it does |
| Polling.CalibrationCount | fftNau.c:84-98 | the count is in 0..10000; if calibration finishes it is the poll where the bit cleared, with the bit set at every earlier poll; on timeout it is 1 |
| Polling.CalibrationPolls | fftNau.c:88-96 | the bit is read k + 1 times when it is first seen clear at poll k, and 10001 times on timeout |
| Polling.CalibrationWait | fftNau.c:87-97 | the loop returns CalibrationCount and reads the bit CalibrationPolls times |
| Polling.CalibrationOneIsAmbiguous | fftNau.c:94-97 | a calibration done after one delay and one that never finishes both return 1 |
| Polling.BitWait | fftNau.c:133-144 | the poll count is bounded by the timeout; the bit reads 0 before the last poll; on success the bit reads 1 at the last poll; on timeout the counter ends at limit + 2, or one past its start when that was already above the limit |
| Polling.WaitForBit | fftNau.c:133-144 | the loop's polls, final counter and timeout are those of BitWait |
| Polling.PowerUpWaitBound | fftNau.c:133-144 | the power-up wait makes at most 102 polls and leaves the counter at most 102; it times out exactly when none of the first 102 polls sees the bit |
| Polling.DataReadyWaitBound | fftNau.c:187-196 | a data-ready wait starting from counter c polls at most 10002 - c times, and succeeds exactly when one of those polls sees the bit |
| Sample.OrDisjoint | fftNau.c:202-203 | OR-ing a value below 2^k into a multiple of 2^k adds it |
| Sample.Or | fftNau.c:202-203 | C bitwise OR on naturals: the result is at least each operand and at most their sum |
| Sample.ShiftLeft32 | fftNau.c:201-202 | `<<` on a 32-bit `unsigned long` yields a value below 2^32 |
| Sample.ToSigned32 | fftNau.c:210 | the conversion of the shifted pattern to a 32-bit `long` lands in [-2^31, 2^31) |
| Sample.Assemble | fftNau.c:201-203 | `valueRaw` is the unsigned 24-bit value of the bytes |
| Sample.ShiftedBytes | fftNau.c:201-202 | neither byte shift wraps around |
| Sample.ShiftBack | fftNau.c:210-212 | shifting left by 8, reading as signed and shifting back gives the 24-bit two's-complement value |
| Sample.SignExtend | fftNau.c:198-212 | `valueFinal` is the 24-bit two's-complement value of the three bytes, in [-2^23, 2^23) |
| Sample.Encode | fftNau.c:198-200 | the converter's bytes for a value are the value taken modulo 2^24 |
| Sample.DecodeEncode | fftNau.c:198-212 | every 24-bit signed value is recovered from its bytes |
| Sample.EncodeDecode | fftNau.c:198-212 | every byte triple is the encoding of the value it decodes to |
| Sample.SignExtendExamples | fftNau.c:205-212 | FF FF FF reads -1, 80 00 00 reads -8388608, 7F FF FF reads 8388607 and 00 00 00 reads 0 |
| Indices.Ascending | fftNau.c:185 | the run lo .. hi-1: its length, and entry k is lo + k |
| Indices.AscendingDistinct | fftNau.c:185 | the run is strictly increasing and holds exactly the integers of [lo, hi) |
| Fft.Log2Inverse | fftNau.c:235-247 | the recursion depth Log2(n) of a power of two n satisfies 2^Log2(n) = n |
| Fft.EvensOddsInterleave | fftNau.c:238-239 | the subsequences the two recursive calls transform, at `out` and `out + step`, interleave back to x: x[k] is Evens(x)[k/2] for even k and Odds(x)[k/2] for odd k |
| Fft.Transform | fftNau.c:235-247 | the reference `_fft` is proved against: the transform of x has as many entries as x |
| Fft.CombineSpec | fftNau.c:241-245 | one combine step of two h-entry half transforms yields 2h entries |
| Fft.CombineEntries | fftNau.c:242-244 | entries k and k + h of the combine step are e[k] + t and e[k] - t with t the twiddled o[k] for loop index i = 2*step*k, the two values the loop body stores |
| Fft.WriteIndices | fftNau.c:243-244 | loop index i = 2*step*k writes elements k and h+k of buf's class |
| Fft.ReadIndices | fftNau.c:242-243 | loop index i reads element k of each of out's two subclasses, and the next index stays within n |
| Fft.HalvesBounds | fftNau.c:243-244 | elements k < h and h + k of a class of 2h elements fall in the lower and upper halves of [0, n) |
| Fft.LoopStoresInHalves | fftNau.c:241-245 | with i = 2*step*k < n: 0 <= i/2 < n/2 <= (i+n)/2 < n, so both stores are in range and distinct |
| Fft.InClassMod | fftNau.c:239 | an index lies in the class (off, step) exactly when it is below n and congruent to off modulo step |
| Fft.ClassesNest | fftNau.c:238-239 | both subclasses of stride 2*step lie within the class of stride step |
| Fft.SubclassesDisjoint | fftNau.c:238-239 | the two subclasses of a class share no index |
| Fft.HoldsSplit | fftNau.c:238-239 | a class holding x splits into subclasses holding its even and odd entries |
| Fft.SiblingKept | fftNau.c:238-239 | the recursive call on one subclass leaves the other subclass alone |
| Fft.ButterflyStep | fftNau.c:242-244 | one loop body writes exactly entries k and h+k of the combined transform, at elements k and h+k of buf's class |
| Fft.PartialProgress | fftNau.c:241-245 | after k iterations, elements [0, k) and [h, h+k) of the class hold those of the result, and nothing outside the class has changed |
| Fft.CombineLoop | fftNau.c:241-245 | the loop fills buf's class with the butterflies of the two half transforms in out, and writes nothing else |
| Fft.FftStep | fftNau.c:235-247 | `_fft` fills buf's class with Transform of what it held, leaves both arrays unchanged outside the class, and recurses Log2 levels deep |
| Fft.FftInPlace | fftNau.c:249-255 | `fft` leaves Transform of the first n entries of buf there and keeps the rest; it recurses Log2(n) levels deep |
| PeakScan.Bins | fftNau.c:279 | the visited bins number 2*(printSize/2), from centre - printSize/2 + 1 to centre + printSize/2 |
| PeakScan.Printed | fftNau.c:279-285 | the printed bins are visited bins that pass the test, every visited bin that passes is printed, and there are no more of them than bins |
| PeakScan.Scan | fftNau.c:279-285 | the loop visits exactly Bins and prints exactly Printed of them |
| PeakScan.VisitsWindow | fftNau.c:279 | an even printSize visits exactly printSize bins, each once, ascending, covering centre - printSize/2 + 1 .. centre + printSize/2 |
| PeakScan.InBoundsIff | fftNau.c:279-282 | every read `buf[i]` is in bounds exactly when centre >= printSize/2 - 1 and centre + printSize/2 < size |
| PeakScan.PrintedAscending | fftNau.c:279-285 | the printed bins come out in ascending order |
| PeakScan.MainScan | fftNau.c:265-285 | with printSize 2000 and 4096 bins, reads are in bounds exactly for centre bins 999 to 3095, and then exactly the passing bins of centre-999 .. centre+1000 are printed, in ascending order |
| Program.ZeroBuffer | fftNau.c:269-272 | from a buffer of arbitrary initial contents, the loop leaves a fresh 4096-entry buffer of zeros |
| Program.Run | fftNau.c:257-286 | main's pipeline: the chip ends Configured, the spectrum is Transform of the zero buffer as readNau fills it, and the printed bins are Printed of the scan window over that spectrum |

## Left out

- I2C transport: `wiringPiI2CSetup`, `wiringPiI2CReadReg8` and `wiringPiI2CWriteReg8` become reads and writes of the register file. The `fd == -1` error path (a message only) is not modelled.
- `delay`, `time` and `perror`/`printf`/`scanf`: timing and console I/O. Waits count polls rather than time. Error messages appear as boolean results: `powerError`, `calibrationFailed`, `readErrors`.
- The `temp` file that `readNau` creates with `fopen`/`fclose`: file I/O.
- Registers the chip changes on its own: the power-up-ready (PUR), calibration and cycle-ready (CR) bits, and the conversion results at 0x12-0x14. They come from a `Hardware` record of observation streams and are not stored in the register file. The CAL_ERR bit is never read by the program and is not modelled.
- Floating point:
  - The bias mean `startAverage` and the `+ .5` in `readNau` are an abstract function `centre(window, value)` of the 320-sample window and the sample.
  - The complex arithmetic of the FFT (`+`, `-`, `cexp(-I*PI*i/n) * x`) is an abstract `Arith` (add, sub, twiddle).
  - main's conversion of the typed frequency to a centre bin, the bin frequency `temp1` and the magnitude `temp2` are out. The centre bin is an integer input and "magnitude above 90" is an abstract predicate `loud`.
- Numerical correctness of the FFT (the discrete Fourier transform identity): the model proves `_fft` computes the Cooley-Tukey recursion `Transform`. It says nothing about complex floating-point accuracy.
- The `fft` scratch array: `out` has the length of `buf` rather than `n`. This makes no difference for main's call, where both are 4096.
- Device.Nau7802.SetBit: requires a bit number below 31. In C, `1 << bitNumber` on a 32-bit `int` is undefined from 31 up. The same restriction applies to ClearBit, GetBit, SetBitByte, ClearBitByte and GetBitOf.
- `readNau` is declared `void` but ends with `return 0;`. No caller uses the value, so the model returns only the flags.
- The reset pulse at fftNau.c:122-124: on the chip, setting RR returns every register to its power-on default. The model treats RR as a plain bit that is set and cleared. So the "kept" bits in ConfiguredRegisters and PowerControlBits are those of the register file the model starts from, not the chip's reset values, which are not modelled.
- The comment at fftNau.c:162 says calibrateAFE "returns 0 if CAL_ERR bit is 0". The code returns the number of delays before the bit cleared, or 1 on timeout, and never reads CAL_ERR. The model follows the code.
- PeakScan.Scan: requires every visited bin to lie inside the buffer. The C loop reads `buf[i]` without a check, and an out-of-range read is undefined behaviour. InBoundsIff states exactly when the requirement holds.
- Program.Run: requires the centre bin to be 999..3095. That is exactly when main's scan stays inside its 4096-entry buffer (MainScan); outside that range the C program reads out of bounds.
