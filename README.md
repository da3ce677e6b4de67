# MT006 bit-banged JTAG engine, modelled in Dafny

The MT006 debug probe drives JTAG by toggling GPIO lines. Its engine has four
parts:

- a control block, `jtag_control`: the idle cycle count, the WAIT retry limit,
  the delay tick, and pointers to a pair of shift routines and a busy-wait
  routine;
- four shift routines: `jtag_rw_quick`/`jtag_rw_slow` for flat shifts, and
  `jtag_rw_dr_quick`/`jtag_rw_dr_slow` for the head/bulk/tail split used by DR
  scans. Each clocks TMS/TDI bits out of byte buffers, LSB first, and collects
  the TDO samples into a third buffer;
- three transactions built on them: `vsfhal_jtag_raw` (a flat shift),
  `vsfhal_jtag_ir` (load an instruction register behind and ahead of bypassed
  TAPs) and `vsfhal_jtag_dr` (one CMSIS-DAP DPACC/APACC transfer through the
  JTAG-DP, retried while the target answers WAIT);
- `vsfhal_jtag_config`, which picks the routine pair and the delay routine
  from the requested TCK rate.

The model is split into modules that follow that structure:

| module | file | what it holds |
|---|---|---|
| `Bits` | bits.dfy | bytes as bits, the packing of a bit sequence into a little-endian byte buffer and back, and the TDO accumulator |
| `Wire` | wire.dfy | the cycles a shift drives (`Drive`), the TDO samples the target answers with (`Sampled`), and the buffer a shift writes (`ShiftTdo`) |
| `Tap` | tap.dfy | the IEEE Std 1149.1 TAP state machine, which gives the patterns their meaning |
| `Scans` | scan.dfy | the 64-bit TMS/TDI scratch words built by `vsfhal_jtag_ir` and `vsfhal_jtag_dr`, what they do to the TAP, and the head/bulk/tail split |
| `Ack` | ack.dfy | the acknowledge decoding, the result word and the WAIT retry policy |
| `Speed` | speed.dfy | the choice of speed tier |
| `Jtag` | jtag.dfy | the control block as a class `JtagControl`, the shift loops as methods with loop invariants, and the transactions |

The hardware is abstracted in three ways:

- The TMS/TDI/TCK output registers become fields of `JtagControl`.
- Every rising TCK edge appends the driven (TMS, TDI) pair to a ghost `trace`.
- The level on TDO is `target(trace)`, for an arbitrary function `target` that
  stands for whatever is connected to the cable.

The shift routines are proved against `Drive` and `ShiftTdo`:

- a shift of n bits appends exactly the n cycles of the buffers' bits, LSB
  first, to the trace;
- it writes the packed TDO samples into the first ceil(n/8) bytes of tdo,
  right-aligned in the last byte;
- it leaves the rest of tdo as it was.

`vsfhal_jtag_ir` is proved to take the TAP from Run-Test/Idle through
Shift-IR back to Run-Test/Idle, shifting ir_before BYPASS ones, the low
lr_length bits of ir and ir_after BYPASS ones.

For `vsfhal_jtag_dr`, the model proves the following:

- each attempt clocks the same cycles;
- the number of attempts is what the WAIT retry policy prescribes for the
  target's answers;
- the returned code is the swapped value of `buf_tdo` bits dr_before+3..+5
  after the last attempt (`DecodeAck`);
- the data word is `buf_tdo` bits dr_before+6..+37 after the last attempt,
  written little-endian (`ResultBytes`, `PutLe32`). Bit i of `buf_tdo` is a
  TDO sample only for i below the 8 + bits_tail cycles an attempt clocks
  (`AttemptTdoBits`); see below.

Behaviour of the code as written, which the model keeps:

- `jtag_rw_dr_*` clocks the head byte and then `bits_tail` bits. Because the
  SPI bulk transfer is compiled out, those bits are taken from the bytes
  right after the head.
- A DR attempt therefore clocks only 8 + bits_tail = 11 + idle +
  (29 + dr_before + dr_after) % 8 cycles of the 40 + dr_before + dr_after +
  idle-cycle pattern (`DrSplitCovers`, `DrClocked`).
- The bulk is always at least 3 bytes, so this is always at least 24 cycles
  short of the full pattern.
- When those cycles stop before the Exit1-DR cycle, the TAP is left in
  Shift-DR and the access is never updated (`DrClockedPrefix`). With idle = 0
  this is always so (`DrClockedPrefixNoIdle`).
- Above the clocked cycles, the rest of the last written byte of `buf_tdo` is
  zero and the bytes after it keep the uninitialised scratch value
  (`AttemptTdo`, `AttemptTdoBits`). The data word therefore holds TDO samples
  only in its bits below the clocked count. The acknowledge is made of
  samples only when dr_before + 6 cycles are clocked. For example, with
  dr_before = 11 and dr_after = idle = 0 only 11 cycles are clocked. The code
  is then built from two zero bits and one stale bit, so it is 0 or 4, never
  WAIT, and the retry loop never retries.
- The model follows the code as written; it does not model a working bulk
  transfer.

## Model

| member | source | states |
|---|---|---|
| Speed.SelectTier | vsf/vsf_private/hal/driver/MIC/MT006/jtag.c:132-152 | the chosen tier uses the quick routines exactly when it has no delay routine, its threshold is reached by kHz, and it is the fastest tier whose threshold kHz reaches |
| Speed.TierBands | vsf/vsf_private/hal/driver/MIC/MT006/jtag.c:132-152 | the five bands: >= 3000 quick/no delay, [1500,3000), [750,1500), [375,750) and < 375 slow with the matching delay routine, each as an if-and-only-if |
| Speed.TierMonotone | vsf/vsf_private/hal/driver/MIC/MT006/jtag.c:132-152 | a faster request never gets a slower tier |
| Speed.DelayTick | vsf/vsf_private/hal/driver/MIC/MT006/jtag.c:130 | delay_tick fits the 16-bit field it is stored in |
| Speed.DelayTickQuotient | vsf/vsf_private/hal/driver/MIC/MT006/jtag.c:130 | for the q with q * kHz * 2000 <= bus clock < (q + 1) * kHz * 2000, delay_tick is q mod 2^16, and q itself when q fits in 16 bits |
| Ack.Field3 | vsf/vsf_private/hal/driver/MIC/MT006/jtag.c:259 | `(word >> pos) & 0x7` is a value below 8 whose bits 0..2 are word[pos..pos+3] |
| Ack.AckSwap | vsf/vsf_private/hal/driver/MIC/MT006/jtag.c:260 | the swap exchanges bits 0 and 1, keeps bit 2, and keeps a 3-bit value below 8 |
| Ack.AckSwapInvolution | vsf/vsf_private/hal/driver/MIC/MT006/jtag.c:260 | swapping a 3-bit acknowledge twice gives it back |
| Ack.AckSwapCodes | vsf/vsf_private/hal/driver/MIC/MT006/jtag.c:15-16 | the JTAG-DP WAIT (0b001) and OK/FAULT (0b010) codes become DAP_TRANSFER_WAIT and DAP_TRANSFER_OK; 0b100 keeps its value |
| Ack.DecodeAck | vsf/vsf_private/hal/driver/MIC/MT006/jtag.c:259-260 | the three answer bits are TDO bits dr_before+4, +3 and +5 in that order, so the response is WAIT exactly when TDO bits dr_before+3..+5 read 1,0,0 and OK exactly when they read 0,1,0 |
| Ack.ResultBytes | vsf/vsf_private/hal/driver/MIC/MT006/jtag.c:265-266 | four bytes whose bit i is TDO bit dr_before+6+i: `buf_tdo >> (dr_before + 6)` stored little-endian |
| Ack.ScanCount | vsf/vsf_private/hal/driver/MIC/MT006/jtag.c:256-263 | the do-while makes between 1 and retry_limit + 1 scans, all but the last answered WAIT, and the last is not WAIT unless the limit is reached |
| Ack.ScanCountUnique | vsf/vsf_private/hal/driver/MIC/MT006/jtag.c:256-263 | any count with those properties is the count the loop makes |
| Ack.AlwaysWait | vsf/vsf_private/hal/driver/MIC/MT006/jtag.c:263 | a target that always answers WAIT gets retry_limit + 1 scans, and the last answer, the one the call returns, is WAIT |
| Ack.FirstAnswerTaken | vsf/vsf_private/hal/driver/MIC/MT006/jtag.c:261-262 | a first answer other than WAIT ends the loop after one scan |
| Ack.NoRetry | vsf/vsf_private/hal/driver/MIC/MT006/jtag.c:263 | with retry_limit 0 there is exactly one scan |
| Bits.BitsDetermine | vsf/vsf_private/hal/driver/MIC/MT006/jtag.c:301 | two bytes with the same eight bits are equal |
| Bits.LowBit | vsf/vsf_private/hal/driver/MIC/MT006/jtag.c:281 | `b & 0x1` tests bit 0 |
| Bits.ShrBit | vsf/vsf_private/hal/driver/MIC/MT006/jtag.c:331 | bit k of `b >> j` is bit k + j of b, or 0 once it leaves the byte |
| Bits.ShiftInBit | vsf/vsf_private/hal/driver/MIC/MT006/jtag.c:294-299 | after `>>= 1` and OR-ing the sample into bit 7, bits 0..6 are the old bits 1..7 and bit 7 is the sample |
| Bits.ByteOfBits | vsf/vsf_private/hal/driver/MIC/MT006/jtag.c:301 | bit k of the byte built from up to eight samples is sample k, 0 beyond them |
| Bits.AccumulateStep | vsf/vsf_private/hal/driver/MIC/MT006/jtag.c:294-299 | one pass of `tdo_last >>= 1; tdo_last \|= sample` keeps the accumulator invariant: the samples so far in the top bits, oldest lowest, the initial value's surviving bits below |
| Bits.AccumulateSnoc | vsf/vsf_private/hal/driver/MIC/MT006/jtag.c:294-299 | the accumulator over one more sample is one more pass |
| Bits.AccumulateBits | vsf/vsf_private/hal/driver/MIC/MT006/jtag.c:279-300 | after any number of passes up to 8 the accumulator invariant holds |
| Bits.AccumulateFull | vsf/vsf_private/hal/driver/MIC/MT006/jtag.c:301 | after eight passes `tdo_last` is the byte of the eight samples, first in bit 0, whatever it held before |
| Bits.AccumulatePartial | vsf/vsf_private/hal/driver/MIC/MT006/jtag.c:331 | a cleared accumulator after n < 8 passes, shifted down by 8 - n, is the byte of the n samples |
| Bits.ShrTimesShr | vsf/vsf_private/hal/driver/MIC/MT006/jtag.c:292-293 | j single right shifts are one shift by j |
| Bits.ShrTimesLow | vsf/vsf_private/hal/driver/MIC/MT006/jtag.c:281-288 | after j passes, `tms_last & 0x1` is bit j of the byte loaded |
| Bits.BitAtCons | vsf/vsf_private/hal/driver/MIC/MT006/jtag.c:209 | bit i of a buffer is a bit of byte 0 for i < 8 and of the rest after |
| Bits.PackBits | vsf/vsf_private/hal/driver/MIC/MT006/jtag.c:163 | bit i of the packed buffer is bit i of the sequence, and the bits above the last are 0 |
| Bits.UnpackBits | vsf/vsf_private/hal/driver/MIC/MT006/jtag.c:259 | element i of the unpacked buffer is bit i of the buffer |
| Bits.PackUnique | vsf/vsf_private/hal/driver/MIC/MT006/jtag.c:163 | a buffer of the right length with the right bits is the packed buffer |
| Bits.UnpackPrefix | vsf/vsf_private/hal/driver/MIC/MT006/jtag.c:259 | the bits of the first m bytes are the first 8m bits |
| Bits.PackUnpack | vsf/vsf_private/hal/driver/MIC/MT006/jtag.c:163 | packing the bits read from a buffer gives the buffer back |
| Bits.UnpackPack | vsf/vsf_private/hal/driver/MIC/MT006/jtag.c:163 | reading back whole bytes packed from bits gives the bits back |
| Bits.PackAppendByte | vsf/vsf_private/hal/driver/MIC/MT006/jtag.c:301 | appending up to one byte of samples to whole bytes appends one stored byte |
| Bits.Pack | vsf/vsf_private/hal/driver/MIC/MT006/jtag.c:163 | a bit sequence occupies ceil(n/8) bytes |
| Bits.OrAt | vsf/vsf_private/hal/driver/MIC/MT006/jtag.c:174 | `word \|= field << pos` keeps the word's width |
| Bits.Low32 | vsf/vsf_private/hal/driver/MIC/MT006/jtag.c:180 | `x & ((1 << n) - 1)` has n bits |
| Tap.RunAppend | vsf/vsf_private/hal/driver/MIC/MT006/jtag.c:209 | clocking p then q is clocking p + q: the states compose and the shifted bits concatenate |
| Tap.HoldShift | vsf/vsf_private/hal/driver/MIC/MT006/jtag.c:184-192 | in Shift-IR/Shift-DR, cycles with TMS low keep the state and shift every TDI bit |
| Tap.HoldIdle | vsf/vsf_private/hal/driver/MIC/MT006/jtag.c:245 | in Run-Test/Idle, cycles with TMS low stay and shift nothing |
| Tap.ShiftPhase | vsf/vsf_private/hal/driver/MIC/MT006/jtag.c:184-200 | a shift phase with TMS high only on its last cycle shifts all TDI bits and ends in Exit1 |
| Tap.EnterShiftIr | vsf/vsf_private/hal/driver/MIC/MT006/jtag.c:168-170 | TMS 1,1,0,0 from Run-Test/Idle reaches Shift-IR and shifts nothing |
| Tap.EnterShiftDr | vsf/vsf_private/hal/driver/MIC/MT006/jtag.c:224-226 | TMS 1,0,0 from Run-Test/Idle reaches Shift-DR and shifts nothing |
| Wire.Drive | vsf/vsf_private/hal/driver/MIC/MT006/jtag.c:274-332 | a shift of n bits drives n cycles |
| Wire.BytePins | vsf/vsf_private/hal/driver/MIC/MT006/jtag.c:279-300 | n passes over one byte drive n cycles |
| Wire.DriveByte | vsf/vsf_private/hal/driver/MIC/MT006/jtag.c:274-302 | the cycles of 8p + n bits are those of the first p bytes followed by n bits of byte p |
| Wire.Sampled | vsf/vsf_private/hal/driver/MIC/MT006/jtag.c:299 | one TDO sample per cycle since `from` |
| Wire.SampledSnoc | vsf/vsf_private/hal/driver/MIC/MT006/jtag.c:296-299 | one more cycle adds the level read after its rising edge |
| Wire.BytePinsStep | vsf/vsf_private/hal/driver/MIC/MT006/jtag.c:279-300 | pass j over a byte drives bit j of the TMS and TDI bytes |
| Wire.SampledAppend | vsf/vsf_private/hal/driver/MIC/MT006/jtag.c:274-302 | the samples of t + u are those of t followed by those of u |
| Wire.ShiftByteStep | vsf/vsf_private/hal/driver/MIC/MT006/jtag.c:274-302 | after byte p the trace is the first 8p + n cycles and the packed samples grow by that byte's samples |
| Wire.ShiftStore | vsf/vsf_private/hal/driver/MIC/MT006/jtag.c:301 | storing the byte's samples at index p gives the packed samples so far followed by the untouched rest |
| Wire.DriveFirstByte | vsf/vsf_private/hal/driver/MIC/MT006/jtag.c:403-429 | the first eight cycles are the head byte's |
| Wire.ShiftTdoBits | vsf/vsf_private/hal/driver/MIC/MT006/jtag.c:270-333 | the tdo a shift of n bits writes has ceil(n/8) bytes, bit i is the TDO level after cycle i, and the bits above n are 0 |
| Wire.TdiOf | vsf/vsf_private/hal/driver/MIC/MT006/jtag.c:281-284 | one TDI level per cycle |
| Wire.DriveTdi | vsf/vsf_private/hal/driver/MIC/MT006/jtag.c:281-284 | the TDI levels of a shift are the first n bits of the tdi buffer |
| Wire.SampledEcho | vsf/vsf_private/hal/driver/MIC/MT006/jtag.c:299 | on a loop-back cable each sample is the TDI of its cycle |
| Wire.LoopBackSampled | vsf/vsf_private/hal/driver/MIC/MT006/jtag.c:270-333 | on a loop-back cable a shift samples exactly the first n bits of tdi |
| Wire.LoopBackShift | vsf/vsf_private/hal/driver/MIC/MT006/jtag.c:270-333 | on a loop-back cable a shift writes tdi's bits back into tdo, and for whole bytes tdo equals tdi's first n/8 bytes |
| Wire.RepeatFront | vsf/vsf_private/hal/driver/MIC/MT006/jtag.c:256-263 | k attempts are one attempt followed by k - 1 |
| Wire.RepeatLength | vsf/vsf_private/hal/driver/MIC/MT006/jtag.c:256-263 | k attempts of c clock k \|c\| cycles |
| Scans.Scan.Clocks | vsf/vsf_private/hal/driver/MIC/MT006/jtag.c:209 | a scan of bitlen bits is bitlen cycles |
| Scans.ScanBytes | vsf/vsf_private/hal/driver/MIC/MT006/jtag.c:209 | the scratch words stored as 8 little-endian bytes drive the scan's first n cycles |
| Scans.IrScan | vsf/vsf_private/hal/driver/MIC/MT006/jtag.c:160-207 | the IR pattern fits the 64-bit words and is ir_before + lr_length + ir_after + 6 cycles long |
| Scans.IrScanTms | vsf/vsf_private/hal/driver/MIC/MT006/jtag.c:169-203 | TMS is high exactly on cycles 0, 1, the last shifted bit and the one after |
| Scans.IrScanTdi | vsf/vsf_private/hal/driver/MIC/MT006/jtag.c:165-207 | TDI is 0 for 4 cycles, ir_before ones, the low lr_length bits of ir, ir_after ones, 0 on Update-IR and 1 on the final idle cycle, 0 above |
| Scans.IrScanTdiAfter | vsf/vsf_private/hal/driver/MIC/MT006/jtag.c:185-195 | the same layout when TAPs follow this one, where the top instruction bit is not the last shifted |
| Scans.IrShapeWalk | vsf/vsf_private/hal/driver/MIC/MT006/jtag.c:168-207 | any pattern of that shape takes the TAP from Run-Test/Idle through Shift-IR, shifting the wanted bits, back to Run-Test/Idle |
| Scans.IrShiftFront | vsf/vsf_private/hal/driver/MIC/MT006/jtag.c:168-200 | the cycles up to the last shifted bit end in Exit1-IR having shifted the wanted bits |
| Scans.IrUpdateBack | vsf/vsf_private/hal/driver/MIC/MT006/jtag.c:202-207 | from Exit1-IR, TMS 1, 0 goes through Update-IR to Run-Test/Idle and shifts nothing |
| Scans.IrScanWalk | vsf/vsf_private/hal/driver/MIC/MT006/jtag.c:160-210 | an IR scan from Run-Test/Idle shifts ir_before ones, the instruction and ir_after ones, and ends in Run-Test/Idle |
| Scans.IrScanExample | vsf/vsf_private/hal/driver/MIC/MT006/jtag.c:160-210 | a 4-bit instruction 0b1010 alone in the chain: its TMS/TDI layout bit by bit |
| Scans.DrScan | vsf/vsf_private/hal/driver/MIC/MT006/jtag.c:221-247 | the DR pattern fits the 64-bit words and is 40 + dr_before + dr_after + idle cycles long |
| Scans.RequestField | vsf/vsf_private/hal/driver/MIC/MT006/jtag.c:232-236 | `(request >> 1) & 0x7` is RnW, A2, A3 in that order, and the read test is bit 1 |
| Scans.DrScanTms | vsf/vsf_private/hal/driver/MIC/MT006/jtag.c:225-244 | TMS is high exactly on cycle 0, the last shifted bit and the one after |
| Scans.DrScanTdi | vsf/vsf_private/hal/driver/MIC/MT006/jtag.c:222-246 | TDI carries RnW, A2, A3 after dr_before zero bypass bits, then the write value (zeros for a read), 1 on the final idle cycle, 0 everywhere else |
| Scans.DrShapeWalk | vsf/vsf_private/hal/driver/MIC/MT006/jtag.c:224-247 | any pattern of that shape takes the TAP through Shift-DR, shifting the wanted bits, and through Update-DR back to Run-Test/Idle |
| Scans.DrShiftFront | vsf/vsf_private/hal/driver/MIC/MT006/jtag.c:224-240 | the cycles up to the last shifted bit end in Exit1-DR having shifted the wanted bits |
| Scans.DrUpdateBack | vsf/vsf_private/hal/driver/MIC/MT006/jtag.c:243-247 | from Exit1-DR, TMS 1 then lows go through Update-DR to Run-Test/Idle and shift nothing |
| Scans.DrScanWalk | vsf/vsf_private/hal/driver/MIC/MT006/jtag.c:216-247 | a full DR scan from Run-Test/Idle shifts the bypass zeros, RnW/A2/A3, the data field and more zeros, and ends in Run-Test/Idle |
| Scans.DrSplitCovers | vsf/vsf_private/hal/driver/MIC/MT006/jtag.c:239-249 | head byte, dma_bytes bytes and bits_tail bits partition the scan; dma_bytes >= 3; the split shift clocks 11 + idle + (29 + dr_before + dr_after) % 8 cycles |
| Scans.DrClockedPrefix | vsf/vsf_private/hal/driver/MIC/MT006/jtag.c:399-502 | when the clocked cycles stop before Exit1-DR, the TAP is left in Shift-DR |
| Scans.DrClockedPrefixNoIdle | vsf/vsf_private/hal/driver/MIC/MT006/jtag.c:239-249 | with idle 0 the clocked cycles always stop before Exit1-DR |
| Jtag.DrClocked | vsf/vsf_private/hal/driver/MIC/MT006/jtag.c:258 | one DR attempt clocks the first 11 + idle + (29 + dr_before + dr_after) % 8 cycles of the DR pattern |
| Jtag.DrPatternBytes | vsf/vsf_private/hal/driver/MIC/MT006/jtag.c:221-249 | the packed DR words drive exactly those cycles over their head byte and tail |
| Jtag.AttemptTdo | vsf/vsf_private/hal/driver/MIC/MT006/jtag.c:258 | an attempt leaves the bytes of buf_tdo it does not reach as they were |
| Jtag.AttemptTdoBits | vsf/vsf_private/hal/driver/MIC/MT006/jtag.c:258 | bit i of buf_tdo after an attempt is the TDO level after its cycle i, and the bits above the last sample in its byte are 0 |
| Jtag.RetryTdo | vsf/vsf_private/hal/driver/MIC/MT006/jtag.c:256-263 | every attempt leaves the unreached bytes as they were before the first |
| Jtag.RetryTdoAfter | vsf/vsf_private/hal/driver/MIC/MT006/jtag.c:256-263 | attempt k is an attempt after k earlier attempts' cycles |
| Jtag.AttemptStep | vsf/vsf_private/hal/driver/MIC/MT006/jtag.c:258-260 | one shift of the DR buffers, as attempt k, leaves buf_tdo as attempt k does and decodes to attempt k's answer |
| Jtag.AttemptAckDecoded | vsf/vsf_private/hal/driver/MIC/MT006/jtag.c:259-260 | attempt k's answer is decoded from buf_tdo after attempt k |
| Jtag.AttemptScanCount | vsf/vsf_private/hal/driver/MIC/MT006/jtag.c:256-263 | the attempts the loop makes are the count the retry policy prescribes for the target's answers |
| Jtag.ClockStep | vsf/vsf_private/hal/driver/MIC/MT006/jtag.c:281-299 | one pass drives bit j of both bytes, shifts the working bytes once more and takes the new sample into the accumulator |
| Jtag.ClockPins | vsf/vsf_private/hal/driver/MIC/MT006/jtag.c:281-289 | the pins driven on pass j are bit j of the TMS and TDI bytes |
| Jtag.CollectedSamples | vsf/vsf_private/hal/driver/MIC/MT006/jtag.c:294-299 | that accumulator holds the TDO samples of those cycles |
| Jtag.Align | vsf/vsf_private/hal/driver/MIC/MT006/jtag.c:331 | `tdo_last >> bits` is the byte of the partial samples, first in bit 0 |
| Jtag.Load | vsf/vsf_private/hal/driver/MIC/MT006/jtag.c:209 | a fresh eight-byte buffer holding the word |
| Jtag.DrPattern | vsf/vsf_private/hal/driver/MIC/MT006/jtag.c:221-249 | the DR buffers and the split: dma_bytes and bits_tail as the code computes them, and the head and tail drive DrClocked |
| Jtag.IrPattern | vsf/vsf_private/hal/driver/MIC/MT006/jtag.c:162-207 | the IR buffers drive exactly the IR scan's cycles, and bitlen is ir_before + lr_length + ir_after + 6 |
| Jtag.IrTraceWalk | vsf/vsf_private/hal/driver/MIC/MT006/jtag.c:209 | after the IR cycles the TAP is back in Run-Test/Idle with the instruction and bypass bits shifted |
| Jtag.PutLe32 | vsf/vsf_private/hal/driver/MIC/MT006/jtag.c:266 | `put_unaligned_le32` writes the four bytes and leaves the rest of data |
| Jtag.JtagControl.Init | vsf/vsf_private/hal/driver/MIC/MT006/jtag.c:49-60 | the lines driven high, the control block cleared, no routine chosen |
| Jtag.JtagControl.Config | vsf/vsf_private/hal/driver/MIC/MT006/jtag.c:123-153 | idle, retry_limit, delay_tick and the tier as SelectTier chooses, and the control block stays consistent |
| Jtag.JtagControl.FallingEdge | vsf/vsf_private/hal/driver/MIC/MT006/jtag.c:281-289 | TDI and TMS take the bit, TCK goes low |
| Jtag.JtagControl.RisingEdge | vsf/vsf_private/hal/driver/MIC/MT006/jtag.c:296-299 | TCK high clocks the driven pins into the target, and TDO is read after the edge |
| Jtag.JtagControl.HalfPeriodDelay | vsf/vsf_private/hal/driver/MIC/MT006/jtag.c:354-355 | the delay routine is called only when one is set |
| Jtag.JtagControl.ClockBit | vsf/vsf_private/hal/driver/MIC/MT006/jtag.c:345-363 | one pass: drives bit 0 of both working bytes, shifts all three right, ORs TDO into bit 7, and calls the delay twice when throttled |
| Jtag.JtagControl.ClockPass | vsf/vsf_private/hal/driver/MIC/MT006/jtag.c:279-300 | one pass of the byte loop extends the byte's drive and its collected samples by one cycle |
| Jtag.JtagControl.ClockByte | vsf/vsf_private/hal/driver/MIC/MT006/jtag.c:276-301 | eight passes drive the byte's bits LSB first, and `tdo_last` ends as the byte of their samples whatever it held before |
| Jtag.JtagControl.ClockTail | vsf/vsf_private/hal/driver/MIC/MT006/jtag.c:305-331 | bitlen < 8 passes drive the low bits, and the stored byte is their samples right-aligned with zeros above |
| Jtag.JtagControl.ClockLastByte | vsf/vsf_private/hal/driver/MIC/MT006/jtag.c:304-332 | a partial byte of 1..7 bits is clocked after the whole bytes and its samples stored at the next index |
| Jtag.JtagControl.ShiftByte | vsf/vsf_private/hal/driver/MIC/MT006/jtag.c:274-302 | byte p is clocked after bytes 0..p-1 and its samples become byte p of tdo |
| Jtag.JtagControl.ShiftBytes | vsf/vsf_private/hal/driver/MIC/MT006/jtag.c:274-302 | the whole-byte loop stops with fewer than 8 bits left, having clocked and stored every byte before |
| Jtag.JtagControl.ShiftPartial | vsf/vsf_private/hal/driver/MIC/MT006/jtag.c:304-332 | the last rest < 8 bits are clocked and their samples stored in one more byte, none when rest is 0 |
| Jtag.JtagControl.ShiftLoop | vsf/vsf_private/hal/driver/MIC/MT006/jtag.c:274-332 | bitlen cycles from byte start, with the packed samples written and the rest of tdo untouched |
| Jtag.JtagControl.RwQuick | vsf/vsf_private/hal/driver/MIC/MT006/jtag.c:270-333 | the trace gains exactly the bitlen cycles of the buffers, tdo holds their packed samples and is otherwise unchanged, no delay call |
| Jtag.JtagControl.RwSlow | vsf/vsf_private/hal/driver/MIC/MT006/jtag.c:334-397 | the same shift with two delay calls per cycle when a delay routine is set |
| Jtag.JtagControl.Rw | vsf/vsf_private/hal/driver/MIC/MT006/jtag.c:209 | a call through `jtag_rw` is the flat shift of the configured tier, with two delay calls per cycle exactly when the slow tier is configured, and the configuration stays consistent |
| Jtag.JtagControl.RwDrQuick | vsf/vsf_private/hal/driver/MIC/MT006/jtag.c:399-502 | the head byte and then bitlen_tail bits from the following bytes: 8 + bitlen_tail cycles, tdo written over 1 + ceil(bitlen_tail/8) bytes |
| Jtag.JtagControl.RwDrSlow | vsf/vsf_private/hal/driver/MIC/MT006/jtag.c:503-606 | the same split shift with two delay calls per cycle |
| Jtag.JtagControl.DrAttempt | vsf/vsf_private/hal/driver/MIC/MT006/jtag.c:258-260 | attempt k clocks the DR cycles once more, leaves buf_tdo as RetryTdo of k, returns attempt k's answer, keeps the configuration consistent and waits twice per cycle exactly when the slow tier is configured |
| Jtag.JtagControl.DrRetry | vsf/vsf_private/hal/driver/MIC/MT006/jtag.c:256-263 | the loop makes ScanCount attempts, the trace is that many repetitions, the answer and buf_tdo are the last attempt's, and the configuration stays consistent |
| Jtag.JtagControl.Raw | vsf/vsf_private/hal/driver/MIC/MT006/jtag.c:155-158 | a flat shift through the throttled routine whatever the tier, keeping the configuration consistent |
| Jtag.JtagControl.Ir | vsf/vsf_private/hal/driver/MIC/MT006/jtag.c:160-210 | the IR cycles are clocked through the configured routine, loading the instruction and BYPASS and returning to Run-Test/Idle, with delay calls exactly when the slow tier is configured |
| Jtag.JtagControl.Dr | vsf/vsf_private/hal/driver/MIC/MT006/jtag.c:216-268 | the retry policy's number of attempts of DrClocked, the last answer returned, the 32 bits after its acknowledge stored little-endian in data when data is given, and delay calls exactly when the slow tier is configured |

## Left out

- `vsfhal_jtag_fini`, `vsfhal_jtag_io_reconfig` and the GPIO set-up of `vsfhal_jtag_init` (jtag.c:49-90) configure pins; the model keeps only the three output levels and clears the control block.
- The GPIO register macros (jtag.c:19-25) are abstracted as the line fields, the trace and the `target` function.
- The busy-wait delay routines (jtag.c:92-121) are modelled by counting their calls in `waits`. Their timing is not modelled, and neither is the `delay_tick` argument, which they ignore.
- `vsfhal_clk_info_get` is a foreign call; its bus clock is the parameter apbHz of Config.
- The timestamp capture and `vsfhal_timestamp_get` (jtag.c:251-254, 608-613) read a hardware timer and are not modelled.
- The SPI bulk transfer (jtag.c:432-441, 536-545) is compiled out and is modelled by its absence. bytelen_dma is accepted and unused, as in the code.
- The routine pointers `jtag_rw`, `jtag_rw_dr` and `jtag_delay` are modelled as the Engine and Delay values they point to.
- Jtag.JtagControl.Ir: requires ir_before + lr_length + ir_after + 6 <= 64 and 1 <= lr_length <= 32. Longer patterns overflow the 64-bit scratch words, and `lr_length--` underflows at 0. Both are outside what the code can represent.
- Jtag.JtagControl.Dr: requires dr_before + dr_after + idle + 40 <= 64, the 64-bit scratch word bound.
- Jtag.JtagControl.Ir and Jtag.JtagControl.Dr: require a prior Config. Before it the routine pointers are NULL and the call would jump to address 0.
- Jtag.JtagControl.Config: requires kHz > 0, because the code divides by kHz * 2000.
- The uninitialised `buf_tdo` of `vsfhal_jtag_dr` is the parameter tdoStale. The uninitialised `tdo_last` is an arbitrary value; it is shifted out before it is stored.
- The shift methods require the TDO buffer not to alias the TMS or TDI buffer; every caller in the code passes distinct buffers.
- The shift routines' `uint32_t` bit counts are unbounded naturals. Lengths above 2^32 - 1 cannot be passed in the code.
- Concurrency: none. The global control block is accessed by one caller at a time.
