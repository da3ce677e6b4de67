/** The bit-banged JTAG engine of the MT006 probe: the control block
    `jtag_control`, the shift routines that clock TMS/TDI out and TDO in, and
    the IR and DR transactions built on them.
 */
module Jtag {
  import opened Bits
  import opened Wire
  import opened Tap
  import opened Scans
  import opened Ack
  import opened Speed

  /** The cycles one attempt of a DR transaction clocks: the shift routine
      clocks the head byte, skips the bulk, and clocks `bits_tail` more cycles
      from the byte after the head, so it drives the first 8 + bits_tail cycles
      of the pattern. */
  function DrClocked(request: bv32, dr: bv32, drBefore: nat, drAfter: nat, idle: nat): (c: seq<Pins>)
    requires drBefore + drAfter + idle + 40 <= 64
    ensures |c| == 11 + idle + (29 + drBefore + drAfter) % 8
    ensures c == DrScan(request, dr, drBefore, drAfter, idle).Clocks()[..|c|]
  {
    DrSplitCovers(drBefore, drAfter, idle);
    DrScan(request, dr, drBefore, drAfter, idle).Clocks()[..8 + DrSplit(drBefore, drAfter, idle).1]
  }

  /** The packed DR pattern drives, over its head byte and tail, exactly the
      cycles the split shift clocks. */
  lemma DrPatternBytes(request: bv32, dr: bv32, drBefore: nat, drAfter: nat, idle: nat)
    requires drBefore + drAfter + idle + 40 <= 64
    ensures var s := DrScan(request, dr, drBefore, drAfter, idle);
      |Pack(s.tms)| == 8 && |Pack(s.tdi)| == 8 && 8 + DrSplit(drBefore, drAfter, idle).1 <= 64 &&
      Drive(Pack(s.tms), Pack(s.tdi), 8 + DrSplit(drBefore, drAfter, idle).1) == DrClocked(request, dr, drBefore, drAfter, idle)
  {
    var scan := DrScan(request, dr, drBefore, drAfter, idle);
    var n := 8 + DrSplit(drBefore, drAfter, idle).1;
    assert n <= scan.bitlen by {
      DrSplitCovers(drBefore, drAfter, idle);
    }
    ScanBytes(scan, n);
  }

  /** `buf_tdo` after an attempt that clocks c after history h: the packed
      TDO samples in the bytes the shift wrote, and the bytes it did not
      reach as they were (`stale`). */
  function AttemptTdo(target: Target, h: seq<Pins>, c: seq<Pins>, stale: seq<bv8>): (r: seq<bv8>)
    requires |stale| == 8 && |c| <= 64
    ensures |r| == 8
    ensures r[Ceil8(|c|)..] == stale[Ceil8(|c|)..]
  {
    Pack(Sampled(target, h + c, |h|)) + stale[Ceil8(|c|)..]
  }

  /** Bit i of `buf_tdo` after an attempt is the TDO sampled on cycle i of the
      attempt, and the bits above the last sample in its byte are 0. */
  lemma AttemptTdoBits(target: Target, h: seq<Pins>, c: seq<Pins>, stale: seq<bv8>)
    requires |stale| == 8 && |c| <= 64
    ensures forall i :: 0 <= i < |c| ==> BitAt(AttemptTdo(target, h, c, stale), i) == target(h + c[..i + 1])
    ensures forall i :: |c| <= i < 8 * Ceil8(|c|) ==> !BitAt(AttemptTdo(target, h, c, stale), i)
  {
    var s := Sampled(target, h + c, |h|);
    var p := Pack(s);
    var r := AttemptTdo(target, h, c, stale);
    PackBits(s);
    forall i | 0 <= i < 8 * Ceil8(|c|)
      ensures BitAt(r, i) == BitAt(p, i)
    {
      assert r[i / 8] == p[i / 8];
    }
    forall i | 0 <= i < |c|
      ensures s[i] == target(h + c[..i + 1])
    {
      assert (h + c)[..|h| + i + 1] == h + c[..i + 1];
    }
  }

  /** `buf_tdo` after attempt k (counting from 0) of a DR transaction that
      started after history h: attempt k after h is attempt k - 1 after the
      cycles of the first attempt. */
  function RetryTdo(target: Target, h: seq<Pins>, c: seq<Pins>, stale: seq<bv8>, k: nat): (r: seq<bv8>)
    requires |stale| == 8 && |c| <= 64
    ensures |r| == 8
    ensures r[Ceil8(|c|)..] == stale[Ceil8(|c|)..]
    decreases k
  {
    if k == 0 then AttemptTdo(target, h, c, stale) else RetryTdo(target, h + c, c, stale, k - 1)
  }

  /** Attempt k is an attempt after k earlier attempts' cycles. */
  lemma {:induction false} RetryTdoAfter(target: Target, h: seq<Pins>, c: seq<Pins>, stale: seq<bv8>, k: nat)
    requires |stale| == 8 && |c| <= 64
    ensures RetryTdo(target, h, c, stale, k) == AttemptTdo(target, h + Repeat(c, k), c, stale)
    decreases k
  {
    if k > 0 {
      RetryTdoAfter(target, h + c, c, stale, k - 1);
      RepeatFront(c, k);
      assert (h + c) + Repeat(c, k - 1) == h + Repeat(c, k);
    } else {
      assert h + Repeat(c, k) == h;
    }
  }

  /** One attempt of a split shift, read as attempt k of a retry run: the
      TDO buffer it leaves is `RetryTdo` of k, and its answer `AttemptAck`. */
  lemma AttemptStep(target: Target, h: seq<Pins>, c: seq<Pins>, stale: seq<bv8>, drBefore: nat, k: nat,
                    tms: seq<bv8>, tdi: seq<bv8>, bitsTail: nat, before: seq<bv8>, after: seq<bv8>)
    requires |stale| == 8 && |before| == 8 && drBefore + 6 <= 64
    requires 8 + bitsTail <= 64 && 8 + bitsTail <= 8 * |tms| && 8 + bitsTail <= 8 * |tdi|
    requires c == Drive(tms, tdi, 8 + bitsTail)
    requires before[Ceil8(|c|)..] == stale[Ceil8(|c|)..]
    requires after == ShiftTdo(target, h + Repeat(c, k), tms, tdi, 8 + bitsTail) + before[1 + Ceil8(bitsTail)..]
    ensures (h + Repeat(c, k)) + c == h + Repeat(c, k + 1)
    ensures after == RetryTdo(target, h, c, stale, k)
    ensures DecodeAck(Unpack(after), drBefore) == AttemptAck(target, h, c, stale, drBefore, k)
  {
    assert Ceil8(8 + bitsTail) == 1 + Ceil8(bitsTail);
    RetryTdoAfter(target, h, c, stale, k);
    AttemptAckDecoded(target, h, c, stale, drBefore, k);
  }

  /** The response code of attempt k (counting from 0) of a DR transaction
      that started after history h. */
  function AttemptAck(target: Target, h: seq<Pins>, c: seq<Pins>, stale: seq<bv8>, drBefore: nat, k: nat): bv8
    requires |stale| == 8 && |c| <= 64 && drBefore + 6 <= 64
    decreases k
  {
    if k == 0 then DecodeAck(Unpack(AttemptTdo(target, h, c, stale)), drBefore)
    else AttemptAck(target, h + c, c, stale, drBefore, k - 1)
  }

  /** The response code of attempt k is decoded from `buf_tdo` after it. */
  lemma {:induction false} AttemptAckDecoded(target: Target, h: seq<Pins>, c: seq<Pins>, stale: seq<bv8>, drBefore: nat, k: nat)
    requires |stale| == 8 && |c| <= 64 && drBefore + 6 <= 64
    ensures AttemptAck(target, h, c, stale, drBefore, k) == DecodeAck(Unpack(RetryTdo(target, h, c, stale, k)), drBefore)
    decreases k
  {
    if k > 0 {
      AttemptAckDecoded(target, h + c, c, stale, drBefore, k - 1);
    }
  }

  /** The response codes of all attempts, as a sequence indexed by attempt. */
  function AttemptAcks(target: Target, h: seq<Pins>, c: seq<Pins>, stale: seq<bv8>, drBefore: nat): nat -> bv8
    requires |stale| == 8 && |c| <= 64 && drBefore + 6 <= 64
  {
    (k: nat) => AttemptAck(target, h, c, stale, drBefore, k)
  }

  /** A run of n attempts answering WAIT followed by one more is a run of
      n + 1. */
  lemma WaitRun(target: Target, h: seq<Pins>, c: seq<Pins>, stale: seq<bv8>, drBefore: nat, n: nat)
    requires |stale| == 8 && |c| <= 64 && drBefore + 6 <= 64
    requires forall j :: 0 <= j < n ==> AttemptAck(target, h, c, stale, drBefore, j) == DAP_TRANSFER_WAIT
    requires AttemptAck(target, h, c, stale, drBefore, n) == DAP_TRANSFER_WAIT
    ensures forall j :: 0 <= j < n + 1 ==> AttemptAck(target, h, c, stale, drBefore, j) == DAP_TRANSFER_WAIT
  {
  }

  /** A DR transaction whose first r - 1 attempts answer WAIT and whose last
      one does not, unless the limit is reached, makes the number of scans the
      retry policy prescribes. */
  lemma {:induction false} AttemptScanCount(target: Target, h: seq<Pins>, c: seq<Pins>, stale: seq<bv8>,
                                            drBefore: nat, limit: nat, r: nat)
    requires |stale| == 8 && |c| <= 64 && drBefore + 6 <= 64
    requires 1 <= r <= limit + 1
    requires forall j :: 0 <= j < r - 1 ==> AttemptAck(target, h, c, stale, drBefore, j) == DAP_TRANSFER_WAIT
    requires AttemptAck(target, h, c, stale, drBefore, r - 1) != DAP_TRANSFER_WAIT || r == limit + 1
    ensures ScanCount(AttemptAcks(target, h, c, stale, drBefore), limit, 0) == r
  {
    var acks := AttemptAcks(target, h, c, stale, drBefore);
    assert forall j :: 0 <= j < r - 1 ==> acks(j) == AttemptAck(target, h, c, stale, drBefore, j);
    ScanCountUnique(acks, limit, r);
  }

  /** One pass of the do-while body, read against the byte being shifted:
      cycle j drives bit j of each byte, and the accumulator takes the new
      sample in at the top. */
  lemma ClockStep(target: Target, h: seq<Pins>, tmsByte: bv8, tdiByte: bv8, init: bv8, j: nat, jNext: nat,
                  before: seq<Pins>, after: seq<Pins>, tmsNext: bv8, tdiNext: bv8, accNext: bv8)
    requires j < 8 && jNext == j + 1
    requires before == h + BytePins(tmsByte, tdiByte, j)
    requires after == before + [Pins(ShrTimes(tmsByte, j) & 1 == 1, ShrTimes(tdiByte, j) & 1 == 1)]
    requires tmsNext == ShrTimes(tmsByte, j) >> 1 && tdiNext == ShrTimes(tdiByte, j) >> 1
    requires accNext == (Collected(target, init, before, |h|) >> 1) | (if target(after) then 0x80 else 0)
    ensures after == h + BytePins(tmsByte, tdiByte, jNext)
    ensures tmsNext == ShrTimes(tmsByte, jNext) && tdiNext == ShrTimes(tdiByte, jNext)
    ensures accNext == Collected(target, init, after, |h|)
  {
    ClockPins(h, tmsByte, tdiByte, j, jNext, before, after);
    ShrTimesNext(tmsByte, j, jNext, tmsNext);
    ShrTimesNext(tdiByte, j, jNext, tdiNext);
    ClockSample(target, h, init, before, after, accNext);
  }

  /** Cycle j of a byte drives bit j of each byte, which is the low bit of
      the byte after j shifts. */
  lemma ClockPins(h: seq<Pins>, tmsByte: bv8, tdiByte: bv8, j: nat, jNext: nat, before: seq<Pins>, after: seq<Pins>)
    requires j < 8 && jNext == j + 1
    requires before == h + BytePins(tmsByte, tdiByte, j)
    requires after == before + [Pins(ShrTimes(tmsByte, j) & 1 == 1, ShrTimes(tdiByte, j) & 1 == 1)]
    ensures after == h + BytePins(tmsByte, tdiByte, jNext)
  {
    ShrTimesLow(tmsByte, j);
    ShrTimesLow(tdiByte, j);
    var p := Pins(BitOf(tmsByte, j), BitOf(tdiByte, j));
    assert BytePins(tmsByte, tdiByte, j + 1) == BytePins(tmsByte, tdiByte, j) + [p];
  }

  /** `tdo_last` after the cycles of trace t from position `from` on have
      been clocked, starting from init: each sample enters at the top. */
  function Collected(target: Target, init: bv8, t: seq<Pins>, from: nat): bv8
    requires from <= |t|
    decreases |t|
  {
    if |t| == from then init else (Collected(target, init, t[..|t| - 1], from) >> 1) | (if target(t) then 0x80 else 0)
  }

  /** The collected byte is the accumulator fed with the samples in order. */
  lemma {:induction false} CollectedSamples(target: Target, init: bv8, t: seq<Pins>, from: nat)
    requires from <= |t|
    ensures Collected(target, init, t, from) == Accumulate(init, Sampled(target, t, from))
    decreases |t|
  {
    if |t| > from {
      var low := t[..|t| - 1];
      CollectedSamples(target, init, low, from);
      assert t == low + [t[|t| - 1]];
      SampledSnoc(target, low, from, t[|t| - 1]);
      AccumulateSnoc(init, Sampled(target, low, from), target(t));
    } else {
      assert Sampled(target, t, from) == [];
    }
  }

  /** The sample of one more cycle enters the accumulator at the top. */
  lemma ClockSample(target: Target, h: seq<Pins>, init: bv8, before: seq<Pins>, after: seq<Pins>, accNext: bv8)
    requires |h| <= |before| && |after| == |before| + 1 && after[..|before|] == before
    requires accNext == (Collected(target, init, before, |h|) >> 1) | (if target(after) then 0x80 else 0)
    ensures accNext == Collected(target, init, after, |h|)
  {
  }

  /** `tdo_last >> bits`: a partial byte collected from the top of a cleared
      accumulator, moved down to bit 0. */
  function Align(acc: bv8, bits: nat, ghost s: seq<bool>): (r: bv8)
    requires bits <= 8 && |s| == 8 - bits && acc == Accumulate(0, s)
    ensures r == ByteOf(s)
  {
    AccumulatePartial(s);
    acc >> bits
  }

  /** A fresh eight-byte scratch buffer holding `word`. */
  method Load(word: seq<bv8>) returns (buf: array<bv8>)
    requires |word| == 8
    ensures fresh(buf) && buf[..] == word
  {
    buf := new bv8[8](i requires 0 <= i < 8 => word[i]);
  }

  /** The scratch words of a DR scan stored in eight-byte buffers, and the
      split of the scan into head byte, bulk bytes and tail bits: shifting
      the head and the tail from the buffers drives `DrClocked`. */
  method DrPattern(request: bv32, dr: bv32, drBefore: nat, drAfter: nat, idle: nat)
    returns (bufTms: array<bv8>, bufTdi: array<bv8>, dmaBytes: nat, bitsTail: nat)
    requires drBefore + drAfter + idle + 40 <= 64
    ensures fresh(bufTms) && fresh(bufTdi) && bufTms.Length == 8 && bufTdi.Length == 8
    ensures (dmaBytes, bitsTail) == DrSplit(drBefore, drAfter, idle) && 8 + bitsTail <= 64
    ensures Drive(bufTms[..], bufTdi[..], 8 + bitsTail) == DrClocked(request, dr, drBefore, drAfter, idle)
  {
    var scan := DrScan(request, dr, drBefore, drAfter, idle);
    DrPatternBytes(request, dr, drBefore, drAfter, idle);
    dmaBytes, bitsTail := DrSplit(drBefore, drAfter, idle).0, DrSplit(drBefore, drAfter, idle).1;
    bufTms := Load(Pack(scan.tms));
    bufTdi := Load(Pack(scan.tdi));
  }

  /** The TDO buffer after the head byte of a split shift: that byte, then
      the rest as it was; the tail then starts at byte 1. */
  lemma AfterHead(buf: seq<bv8>, head: seq<bv8>, orig: seq<bv8>, m: nat)
    requires |head| == 1 && 1 + m <= |orig| && buf == head + orig[1..]
    ensures buf[..1] == head && buf[1 + m..] == orig[1 + m..]
  {
  }

  /** The buffers `vsfhal_jtag_ir` fills before it shifts: the IR scan
      pattern's TMS and TDI words, stored little-endian, and its length. */
  method IrPattern(ir: bv32, lrLength: nat, irBefore: nat, irAfter: nat)
    returns (bufTms: array<bv8>, bufTdi: array<bv8>, bitlen: nat)
    requires 1 <= lrLength <= 32 && irBefore + lrLength + irAfter + 6 <= 64
    ensures fresh(bufTms) && fresh(bufTdi) && bufTms.Length == 8 && bufTdi.Length == 8
    ensures bitlen == irBefore + lrLength + irAfter + 6
    ensures Drive(bufTms[..], bufTdi[..], bitlen) == IrScan(ir, lrLength, irBefore, irAfter).Clocks()
  {
    var scan := IrScan(ir, lrLength, irBefore, irAfter);
    ScanBytes(scan, scan.bitlen);
    assert scan.Clocks()[..scan.bitlen] == scan.Clocks();
    bitlen := scan.bitlen;
    bufTms := Load(Pack(scan.tms));
    bufTdi := Load(Pack(scan.tdi));
  }

  /** The IR scan clocked after history h, read from where it starts. */
  lemma IrTraceWalk(h: seq<Pins>, t: seq<Pins>, ir: bv32, lrLength: nat, irBefore: nat, irAfter: nat)
    requires 1 <= lrLength <= 32 && irBefore + lrLength + irAfter + 6 <= 64
    requires t == h + IrScan(ir, lrLength, irBefore, irAfter).Clocks()
    ensures Run(RunTestIdle, t[|h|..]) == RunTestIdle
    ensures Shifted(RunTestIdle, t[|h|..]) == Ones(irBefore) + Low32(ir, lrLength) + Ones(irAfter)
  {
    assert t[|h|..] == IrScan(ir, lrLength, irBefore, irAfter).Clocks();
    IrScanWalk(ir, lrLength, irBefore, irAfter);
  }

  /** `put_unaligned_le32`: the four bytes of a word into the first four
      bytes of data. */
  method PutLe32(word: seq<bv8>, data: array<bv8>)
    requires |word| == 4 && data.Length >= 4
    modifies data
    ensures data[..] == word + old(data[..])[4..]
  {
    data[0], data[1], data[2], data[3] := word[0], word[1], word[2], word[3];
  }

  /** The control block and the lines of one JTAG port. */
  class JtagControl {
    var idle: nat
    var retryLimit: nat
    var delayTick: nat
    /** `jtag_rw` and `jtag_rw_dr`, always set together; None while NULL. */
    var engine: Option<Engine>
    /** `jtag_delay`; NoDelay while NULL. */
    var delay: Delay

    /** The output levels of TMS, TDI and TCK. */
    var tmsLine: bool
    var tdiLine: bool
    var tckLine: bool
    /** Every (TMS, TDI) pair clocked into the target so far. */
    var trace: seq<Pins>
    /** The number of calls of the delay routine so far. */
    var waits: nat
    /** What is on the other end of the cable. */
    const target: Target

    /** The fields fit their C types, and the routine pair and the delay
        routine are chosen together: the unthrottled pair has no delay. */
    ghost predicate Valid()
      reads this
    {
      idle < 0x100 && retryLimit < 0x1_0000 && delayTick < 0x1_0000 &&
      (engine == None ==> delay == NoDelay) &&
      (engine.Some? ==> (engine.value == Quick <==> delay == NoDelay))
    }

    /** `vsfhal_jtag_init`: TMS, TDI and TCK driven high, the control block
        cleared. */
    constructor Init(target: Target)
      ensures Valid()
      ensures this.target == target && trace == [] && waits == 0
      ensures tmsLine && tdiLine && tckLine
      ensures idle == 0 && retryLimit == 0 && delayTick == 0 && engine == None && delay == NoDelay
    {
      this.target := target;
      tmsLine, tdiLine, tckLine := true, true, true;
      idle, retryLimit, delayTick := 0, 0, 0;
      engine, delay := None, NoDelay;
      trace, waits := [], 0;
    }

    /** `vsfhal_jtag_config`: stores idle and retry count, derives the delay
        tick from the bus clock apbHz, and picks the tier for kHz. */
    method Config(kHz: nat, retry: nat, idle: nat, apbHz: nat)
      requires 0 < kHz < 0x1_0000 && retry < 0x1_0000 && idle < 0x100
      modifies this`idle, this`retryLimit, this`delayTick, this`engine, this`delay
      ensures Valid()
      ensures this.idle == idle && retryLimit == retry && delayTick == DelayTick(apbHz, kHz)
      ensures engine == Some(SelectTier(kHz).engine) && delay == SelectTier(kHz).delay
    {
      this.idle := idle;
      retryLimit := retry;
      delayTick := DelayTick(apbHz, kHz);
      var tier := SelectTier(kHz);
      engine, delay := Some(tier.engine), tier.delay;
    }

    // ------------------------------------------------------ one TCK cycle

    /** TDI and TMS set to the next bit, then TCK low. */
    method FallingEdge(tms: bool, tdi: bool)
      modifies this`tmsLine, this`tdiLine, this`tckLine
      ensures tmsLine == tms && tdiLine == tdi && !tckLine
    {
      tdiLine := tdi;
      tmsLine := tms;
      tckLine := false;
    }

    /** TCK high: the target takes the cycle; TDO is read after the edge. */
    method RisingEdge() returns (tdo: bool)
      modifies this`tckLine, this`trace
      ensures tckLine && trace == old(trace) + [Pins(tmsLine, tdiLine)]
      ensures tdo == target(trace)
    {
      tckLine := true;
      trace := trace + [Pins(tmsLine, tdiLine)];
      tdo := target(trace);
    }

    /** A call of the delay routine, if there is one. */
    method HalfPeriodDelay()
      modifies this`waits
      ensures waits == old(waits) + (if delay == NoDelay then 0 else 1)
    {
      if delay != NoDelay {
        waits := waits + 1;
      }
    }

    // ------------------------------------------------------ shift loops

    /** One pass of the do-while body: drive bit 0 of `tms_last` and
        `tdi_last`, TCK low, shift the three working bytes right, TCK high,
        and OR the TDO level into bit 7 of `tdo_last`. */
    method ClockBit(tmsLast: bv8, tdiLast: bv8, tdoLast: bv8, throttled: bool)
      returns (tmsNext: bv8, tdiNext: bv8, tdoNext: bv8)
      modifies this`tmsLine, this`tdiLine, this`tckLine, this`trace, this`waits
      ensures trace == old(trace) + [Pins(tmsLast & 1 == 1, tdiLast & 1 == 1)]
      ensures tmsNext == tmsLast >> 1 && tdiNext == tdiLast >> 1
      ensures tdoNext == (tdoLast >> 1) | (if target(trace) then 0x80 else 0)
      ensures waits == old(waits) + (if throttled && delay != NoDelay then 2 else 0)
    {
      FallingEdge(tmsLast & 1 == 1, tdiLast & 1 == 1);
      if throttled {
        HalfPeriodDelay();
      }
      tmsNext := tmsLast >> 1;
      tdiNext := tdiLast >> 1;
      tdoNext := tdoLast >> 1;
      var tdo := RisingEdge();
      if throttled {
        HalfPeriodDelay();
      }
      tdoNext := tdoNext | (if tdo then 0x80 else 0);
    }

    /** Pass j of the do-while loop over the byte pair tmsByte/tdiByte, read
        against the loop's invariant: the cycles since history h are the
        byte pair's bits 0..j-1, the working bytes have been shifted j times,
        and `tdo_last` has taken in every sample since h. */
    method ClockPass(tmsByte: bv8, tdiByte: bv8, init: bv8, j: nat, jNext: nat,
                     tmsLast: bv8, tdiLast: bv8, tdoLast: bv8, throttled: bool, ghost h: seq<Pins>)
      returns (tmsNext: bv8, tdiNext: bv8, tdoNext: bv8)
      requires j < 8 && jNext == j + 1
      requires trace == h + BytePins(tmsByte, tdiByte, j)
      requires tmsLast == ShrTimes(tmsByte, j) && tdiLast == ShrTimes(tdiByte, j)
      requires tdoLast == Collected(target, init, trace, |h|)
      modifies this`tmsLine, this`tdiLine, this`tckLine, this`trace, this`waits
      ensures trace == h + BytePins(tmsByte, tdiByte, jNext)
      ensures tmsNext == ShrTimes(tmsByte, jNext) && tdiNext == ShrTimes(tdiByte, jNext)
      ensures tdoNext == Collected(target, init, trace, |h|)
      ensures waits == old(waits) + (if throttled && delay != NoDelay then 2 else 0)
    {
      ghost var before := trace;
      tmsNext, tdiNext, tdoNext := ClockBit(tmsLast, tdiLast, tdoLast, throttled);
      ClockStep(target, h, tmsByte, tdiByte, init, j, jNext, before, trace, tmsNext, tdiNext, tdoNext);
    }

    /** The do-while loop over one whole byte: clocks bits 0..7 of tmsByte and
        tdiByte and returns `tdo_last`, which then holds the eight TDO samples,
        the first in bit 0, whatever it held before. The throttled routines
        call the delay routine after each edge, the quick ones never. */
    method ClockByte(tmsByte: bv8, tdiByte: bv8, tdoLast0: bv8, throttled: bool) returns (tdoLast: bv8)
      modifies this`tmsLine, this`tdiLine, this`tckLine, this`trace, this`waits
      ensures trace == old(trace) + BytePins(tmsByte, tdiByte, 8)
      ensures tdoLast == ByteOf(Sampled(target, trace, |old(trace)|))
      ensures waits == old(waits) + (if throttled && delay != NoDelay then 16 else 0)
    {
      var bits: nat := 8;
      var tmsLast, tdiLast := tmsByte, tdiByte;
      tdoLast := tdoLast0;
      while bits > 0
        invariant bits <= 8
        invariant trace == old(trace) + BytePins(tmsByte, tdiByte, 8 - bits)
        invariant tmsLast == ShrTimes(tmsByte, 8 - bits) && tdiLast == ShrTimes(tdiByte, 8 - bits)
        invariant tdoLast == Collected(target, tdoLast0, trace, |old(trace)|)
        invariant waits == old(waits) + (if throttled && delay != NoDelay then 2 * (8 - bits) else 0)
      {
        tmsLast, tdiLast, tdoLast := ClockPass(tmsByte, tdiByte, tdoLast0, 8 - bits, 9 - bits,
                                               tmsLast, tdiLast, tdoLast, throttled, old(trace));
        bits := bits - 1;
      }
      CollectedSamples(target, tdoLast0, trace, |old(trace)|);
      AccumulateFull(tdoLast0, Sampled(target, trace, |old(trace)|));
    }

    /** The do-while loop over the last, partial byte: clocks bits
        0..bitlen-1, collects the samples from the top of `tdo_last` (cleared
        first) and shifts them down by `8 - bitlen` into place. */
    method ClockTail(tmsByte: bv8, tdiByte: bv8, bitlen: nat, throttled: bool) returns (tdoByte: bv8)
      requires 0 < bitlen < 8
      modifies this`tmsLine, this`tdiLine, this`tckLine, this`trace, this`waits
      ensures trace == old(trace) + BytePins(tmsByte, tdiByte, bitlen)
      ensures tdoByte == ByteOf(Sampled(target, trace, |old(trace)|))
      ensures waits == old(waits) + (if throttled && delay != NoDelay then 2 * bitlen else 0)
    {
      var bits: nat := 8 - bitlen;
      var tmsLast, tdiLast := tmsByte, tdiByte;
      var tdoLast: bv8 := 0;
      var rest := bitlen;
      while rest > 0
        invariant rest <= bitlen
        invariant trace == old(trace) + BytePins(tmsByte, tdiByte, bitlen - rest)
        invariant tmsLast == ShrTimes(tmsByte, bitlen - rest) && tdiLast == ShrTimes(tdiByte, bitlen - rest)
        invariant tdoLast == Collected(target, 0, trace, |old(trace)|)
        invariant waits == old(waits) + (if throttled && delay != NoDelay then 2 * (bitlen - rest) else 0)
      {
        tmsLast, tdiLast, tdoLast := ClockPass(tmsByte, tdiByte, 0, bitlen - rest, bitlen - rest + 1,
                                               tmsLast, tdiLast, tdoLast, throttled, old(trace));
        rest := rest - 1;
      }
      CollectedSamples(target, 0, trace, |old(trace)|);
      tdoByte := Align(tdoLast, bits, Sampled(target, trace, |old(trace)|));
    }

    /** One whole byte of a shift routine (`tms_last = *tms++`, the do-while
        loop, `*tdo++ = tdo_last`): byte p of tms and tdi is clocked after
        bytes 0..p-1, and its samples become byte p of tdo. */
    method ShiftByte(p: nat, tms: array<bv8>, tdi: array<bv8>, tdo: array<bv8>,
                     tdoLast0: bv8, throttled: bool, ghost h0: seq<Pins>, ghost orig: seq<bv8>)
      returns (tdoLast: bv8)
      requires p < tms.Length && p < tdi.Length && p < tdo.Length && p < |orig|
      requires tdo != tms && tdo != tdi
      requires trace == h0 + Drive(tms[..], tdi[..], 8 * p)
      requires tdo[..] == Pack(Sampled(target, trace, |h0|)) + orig[p..]
      modifies this`tmsLine, this`tdiLine, this`tckLine, this`trace, this`waits, tdo
      ensures trace == h0 + Drive(tms[..], tdi[..], 8 * p + 8)
      ensures tdo[..] == Pack(Sampled(target, trace, |h0|)) + orig[p + 1..]
      ensures waits == old(waits) + (if throttled && delay != NoDelay then 16 else 0)
    {
      ghost var mid := trace;
      tdoLast := ClockByte(tms[p], tdi[p], tdoLast0, throttled);
      ShiftStore(target, h0, mid, trace, tms[..], tdi[..], p, 8, tdo[..], orig);
      tdo[p] := tdoLast;
    }

    /** The `while (bitlen >= 8)` loop of the shift routines, entered at byte
        `start` of each buffer with the first `start` bytes already shifted
        since history h0: shifts whole bytes until fewer than 8 bits are left,
        and returns where it stopped and how many bits are left. */
    method ShiftBytes(start: nat, bitlen: nat, tms: array<bv8>, tdi: array<bv8>, tdo: array<bv8>,
                      tdoLast0: bv8, throttled: bool, ghost h0: seq<Pins>, ghost orig: seq<bv8>)
      returns (p: nat, rest: nat)
      requires 8 * start + bitlen < 8 * tms.Length + 8 && 8 * start + bitlen < 8 * tdi.Length + 8
      requires 8 * start + bitlen < 8 * tdo.Length + 8 && 8 * start + bitlen < 8 * |orig| + 8
      requires tdo != tms && tdo != tdi
      requires trace == h0 + Drive(tms[..], tdi[..], 8 * start)
      requires tdo[..] == Pack(Sampled(target, trace, |h0|)) + orig[start..]
      modifies this`tmsLine, this`tdiLine, this`tckLine, this`trace, this`waits, tdo
      ensures 8 * p + rest == 8 * start + bitlen && rest < 8
      ensures trace == h0 + Drive(tms[..], tdi[..], 8 * p)
      ensures p <= |orig| && tdo[..] == Pack(Sampled(target, trace, |h0|)) + orig[p..]
      ensures waits == old(waits) + (if throttled && delay != NoDelay then 16 * (p - start) else 0)
    {
      rest := bitlen;
      p := start;
      var tdoLast := tdoLast0;
      while rest >= 8
        invariant 8 * p + rest == 8 * start + bitlen && start <= p
        invariant trace == h0 + Drive(tms[..], tdi[..], 8 * p)
        invariant p <= |orig| && tdo[..] == Pack(Sampled(target, trace, |h0|)) + orig[p..]
        invariant waits == old(waits) + (if throttled && delay != NoDelay then 16 * (p - start) else 0)
      {
        rest := rest - 8;
        tdoLast := ShiftByte(p, tms, tdi, tdo, tdoLast, throttled, h0, orig);
        p := p + 1;
      }
    }

    /** The last, partial byte of a shift: rest cycles of byte p, whose
        samples are stored at index p. */
    method ClockLastByte(p: nat, rest: nat, tms: array<bv8>, tdi: array<bv8>, tdo: array<bv8>,
                         throttled: bool, ghost h0: seq<Pins>, ghost orig: seq<bv8>)
      requires 1 <= rest < 8
      requires p < tms.Length && p < tdi.Length && p < tdo.Length
      requires tdo != tms && tdo != tdi
      requires trace == h0 + Drive(tms[..], tdi[..], 8 * p)
      requires p < |orig| && tdo[..] == Pack(Sampled(target, trace, |h0|)) + orig[p..]
      modifies this`tmsLine, this`tdiLine, this`tckLine, this`trace, this`waits, tdo
      ensures trace == h0 + Drive(tms[..], tdi[..], 8 * p + rest)
      ensures tdo[..] == Pack(Sampled(target, trace, |h0|)) + orig[p + 1..]
      ensures waits == old(waits) + (if throttled && delay != NoDelay then 2 * rest else 0)
    {
      ghost var mid := trace;
      ghost var buf := tdo[..];
      var tdoByte := ClockTail(tms[p], tdi[p], rest, throttled);
      ShiftStore(target, h0, mid, trace, tms[..], tdi[..], p, rest, buf, orig);
      tdo[p] := tdoByte;
      assert tdo[..] == buf[p := tdoByte];
    }

    /** The `if (bitlen)` block of the shift routines: the last rest < 8 bits
        from byte p, their samples stored right-aligned in byte p of tdo. */
    method ShiftPartial(p: nat, rest: nat, tms: array<bv8>, tdi: array<bv8>, tdo: array<bv8>,
                        throttled: bool, ghost h0: seq<Pins>, ghost orig: seq<bv8>)
      requires rest < 8
      requires p + Ceil8(rest) <= tms.Length && p + Ceil8(rest) <= tdi.Length && p + Ceil8(rest) <= tdo.Length
      requires tdo != tms && tdo != tdi
      requires trace == h0 + Drive(tms[..], tdi[..], 8 * p)
      requires p + Ceil8(rest) <= |orig| && tdo[..] == Pack(Sampled(target, trace, |h0|)) + orig[p..]
      modifies this`tmsLine, this`tdiLine, this`tckLine, this`trace, this`waits, tdo
      ensures trace == h0 + Drive(tms[..], tdi[..], 8 * p + rest)
      ensures tdo[..] == Pack(Sampled(target, trace, |h0|)) + orig[p + Ceil8(rest)..]
      ensures waits == old(waits) + (if throttled && delay != NoDelay then 2 * rest else 0)
    {
      if rest > 0 {
        assert Ceil8(rest) == 1;
        ClockLastByte(p, rest, tms, tdi, tdo, throttled, h0, orig);
      } else {
        assert Ceil8(rest) == 0;
      }
    }

    /** The loops all four shift routines share, entered at byte `start`:
        bitlen more cycles, the samples of each byte stored as it completes. */
    method ShiftLoop(start: nat, bitlen: nat, tms: array<bv8>, tdi: array<bv8>, tdo: array<bv8>,
                     tdoLast0: bv8, throttled: bool, ghost h0: seq<Pins>)
      requires start + Ceil8(bitlen) <= tms.Length && start + Ceil8(bitlen) <= tdi.Length
      requires start + Ceil8(bitlen) <= tdo.Length
      requires tdo != tms && tdo != tdi
      requires trace == h0 + Drive(tms[..], tdi[..], 8 * start)
      requires tdo[..start] == Pack(Sampled(target, trace, |h0|))
      modifies this`tmsLine, this`tdiLine, this`tckLine, this`trace, this`waits, tdo
      ensures trace == h0 + Drive(tms[..], tdi[..], 8 * start + bitlen)
      ensures tdo[..] == Pack(Sampled(target, trace, |h0|)) + old(tdo[..])[start + Ceil8(bitlen)..]
      ensures waits == old(waits) + (if throttled && delay != NoDelay then 2 * bitlen else 0)
    {
      assert tdo[..] == tdo[..start] + old(tdo[..])[start..];
      var p, rest := ShiftBytes(start, bitlen, tms, tdi, tdo, tdoLast0, throttled, h0, old(tdo[..]));
      assert p + Ceil8(rest) == start + Ceil8(bitlen);
      ShiftPartial(p, rest, tms, tdi, tdo, throttled, h0, old(tdo[..]));
    }

    /** `jtag_rw_quick`: shifts bitlen bits of tms and tdi, LSB first, and
        stores the TDO samples into tdo with no delay calls. */
    method RwQuick(bitlen: nat, tms: array<bv8>, tdi: array<bv8>, tdo: array<bv8>)
      requires Ceil8(bitlen) <= tms.Length && Ceil8(bitlen) <= tdi.Length && Ceil8(bitlen) <= tdo.Length
      requires tdo != tms && tdo != tdi
      modifies this`tmsLine, this`tdiLine, this`tckLine, this`trace, this`waits, tdo
      ensures trace == old(trace) + Drive(tms[..], tdi[..], bitlen)
      ensures tdo[..] == ShiftTdo(target, old(trace), tms[..], tdi[..], bitlen) + old(tdo[..])[Ceil8(bitlen)..]
      ensures waits == old(waits)
    {
      var tdoLast: bv8 := *;  // uninitialised: every bit is shifted out before the first store
      assert Drive(tms[..], tdi[..], 0) == [];
      ShiftLoop(0, bitlen, tms, tdi, tdo, tdoLast, false, trace);
    }

    /** `jtag_rw_slow`: the same shift, with a delay call after each edge. */
    method RwSlow(bitlen: nat, tms: array<bv8>, tdi: array<bv8>, tdo: array<bv8>)
      requires Ceil8(bitlen) <= tms.Length && Ceil8(bitlen) <= tdi.Length && Ceil8(bitlen) <= tdo.Length
      requires tdo != tms && tdo != tdi
      modifies this`tmsLine, this`tdiLine, this`tckLine, this`trace, this`waits, tdo
      ensures trace == old(trace) + Drive(tms[..], tdi[..], bitlen)
      ensures tdo[..] == ShiftTdo(target, old(trace), tms[..], tdi[..], bitlen) + old(tdo[..])[Ceil8(bitlen)..]
      ensures waits == old(waits) + (if delay != NoDelay then 2 * bitlen else 0)
    {
      var tdoLast: bv8 := *;  // uninitialised: every bit is shifted out before the first store
      assert Drive(tms[..], tdi[..], 0) == [];
      ShiftLoop(0, bitlen, tms, tdi, tdo, tdoLast, true, trace);
    }

    /** `jtag_rw_dr_quick`: the head byte, then — the bulk transfer of
        bytelen_dma bytes being compiled out — the tail loops on the bytes
        right after the head, so 8 + bitlen_tail cycles in all. */
    method RwDrQuick(bytelenDma: nat, bitlenTail: nat, tms: array<bv8>, tdi: array<bv8>, tdo: array<bv8>)
      requires 1 + Ceil8(bitlenTail) <= tms.Length && 1 + Ceil8(bitlenTail) <= tdi.Length
      requires 1 + Ceil8(bitlenTail) <= tdo.Length
      requires tdo != tms && tdo != tdi
      modifies this`tmsLine, this`tdiLine, this`tckLine, this`trace, this`waits, tdo
      ensures trace == old(trace) + Drive(tms[..], tdi[..], 8 + bitlenTail)
      ensures tdo[..] == ShiftTdo(target, old(trace), tms[..], tdi[..], 8 + bitlenTail)
                         + old(tdo[..])[1 + Ceil8(bitlenTail)..]
      ensures waits == old(waits)
    {
      ghost var h0, orig := trace, tdo[..];
      // head
      var tdoLast: bv8 := *;  // uninitialised: every bit is shifted out before the store
      assert Drive(tms[..], tdi[..], 0) == [] && orig == [] + orig[0..];
      tdoLast := ShiftByte(0, tms, tdi, tdo, tdoLast, false, h0, orig);
      AfterHead(tdo[..], Pack(Sampled(target, trace, |h0|)), orig, Ceil8(bitlenTail));
      // the bulk transfer of bytelen_dma bytes is compiled out
      ShiftLoop(1, bitlenTail, tms, tdi, tdo, tdoLast, false, h0);
    }

    /** `jtag_rw_dr_slow`: the same split shift, with a delay call after each edge. */
    method RwDrSlow(bytelenDma: nat, bitlenTail: nat, tms: array<bv8>, tdi: array<bv8>, tdo: array<bv8>)
      requires 1 + Ceil8(bitlenTail) <= tms.Length && 1 + Ceil8(bitlenTail) <= tdi.Length
      requires 1 + Ceil8(bitlenTail) <= tdo.Length
      requires tdo != tms && tdo != tdi
      modifies this`tmsLine, this`tdiLine, this`tckLine, this`trace, this`waits, tdo
      ensures trace == old(trace) + Drive(tms[..], tdi[..], 8 + bitlenTail)
      ensures tdo[..] == ShiftTdo(target, old(trace), tms[..], tdi[..], 8 + bitlenTail)
                         + old(tdo[..])[1 + Ceil8(bitlenTail)..]
      ensures waits == old(waits) + (if delay != NoDelay then 2 * (8 + bitlenTail) else 0)
    {
      ghost var h0, orig := trace, tdo[..];
      // head
      var tdoLast: bv8 := *;  // uninitialised: every bit is shifted out before the store
      assert Drive(tms[..], tdi[..], 0) == [] && orig == [] + orig[0..];
      tdoLast := ShiftByte(0, tms, tdi, tdo, tdoLast, true, h0, orig);
      AfterHead(tdo[..], Pack(Sampled(target, trace, |h0|)), orig, Ceil8(bitlenTail));
      // the bulk transfer of bytelen_dma bytes is compiled out
      ShiftLoop(1, bitlenTail, tms, tdi, tdo, tdoLast, true, h0);
    }

    /** One attempt of a DR transaction: a call through `jtag_rw_dr` on the
        eight-byte scratch buffers, then the acknowledge read from `buf_tdo`.
        After k attempts since history h0, attempt k clocks c once more,
        leaves `buf_tdo` as `AttemptTdo` describes (the bytes no shift reaches
        keep their stale content) and answers `AttemptAck` of k. */
    method DrAttempt(dmaBytes: nat, bitsTail: nat, drBefore: nat,
                     bufTms: array<bv8>, bufTdi: array<bv8>, bufTdo: array<bv8>,
                     ghost c: seq<Pins>, ghost stale: seq<bv8>, ghost h0: seq<Pins>, ghost k: nat)
      returns (ack: bv8)
      requires engine.Some? && Valid()
      requires bufTms.Length == 8 && bufTdi.Length == 8 && bufTdo.Length == 8 && |stale| == 8
      requires 8 + bitsTail <= 64 && drBefore + 6 <= 64
      requires bufTdo != bufTms && bufTdo != bufTdi
      requires c == Drive(bufTms[..], bufTdi[..], 8 + bitsTail)
      requires bufTdo[..][Ceil8(|c|)..] == stale[Ceil8(|c|)..]
      requires trace == h0 + Repeat(c, k)
      modifies this`tmsLine, this`tdiLine, this`tckLine, this`trace, this`waits, bufTdo
      ensures trace == h0 + Repeat(c, k + 1)
      ensures bufTdo[..] == RetryTdo(target, h0, c, stale, k)
      ensures ack == AttemptAck(target, h0, c, stale, drBefore, k)
      ensures Valid()
      ensures waits == old(waits) + (if engine == Some(Slow) then 2 * |c| else 0)
    {
      ghost var before := bufTdo[..];
      if engine.value == Quick {
        RwDrQuick(dmaBytes, bitsTail, bufTms, bufTdi, bufTdo);
      } else {
        RwDrSlow(dmaBytes, bitsTail, bufTms, bufTdi, bufTdo);
      }
      AttemptStep(target, h0, c, stale, drBefore, k, bufTms[..], bufTdi[..], bitsTail, before, bufTdo[..]);
      ack := DecodeAck(Unpack(bufTdo[..]), drBefore);
    }

    /** The retry loop of `vsfhal_jtag_dr`: attempts are repeated while the
        answer is WAIT and retries are left, retry_limit retries at most.
        `stale` is the content of `buf_tdo` before the first attempt. */
    method DrRetry(dmaBytes: nat, bitsTail: nat, drBefore: nat,
                   bufTms: array<bv8>, bufTdi: array<bv8>, bufTdo: array<bv8>,
                   ghost c: seq<Pins>, ghost stale: seq<bv8>)
      returns (ack: bv8, ghost scans: nat)
      requires engine.Some? && Valid()
      requires bufTms.Length == 8 && bufTdi.Length == 8 && bufTdo.Length == 8
      requires 8 + bitsTail <= 64 && drBefore + 6 <= 64
      requires bufTdo != bufTms && bufTdo != bufTdi
      requires c == Drive(bufTms[..], bufTdi[..], 8 + bitsTail)
      requires bufTdo[..] == stale
      modifies this`tmsLine, this`tdiLine, this`tckLine, this`trace, this`waits, bufTdo
      ensures scans == ScanCount(AttemptAcks(target, old(trace), c, stale, drBefore), retryLimit, 0)
      ensures trace == old(trace) + Repeat(c, scans)
      ensures ack == AttemptAck(target, old(trace), c, stale, drBefore, scans - 1)
      ensures bufTdo[..] == RetryTdo(target, old(trace), c, stale, scans - 1)
      ensures Valid()
      ensures waits == old(waits) + (if engine == Some(Slow) then 2 * (|trace| - |old(trace)|) else 0)
    {
      ghost var h0 := trace;
      var retry: nat := 0;
      ack := DrAttempt(dmaBytes, bitsTail, drBefore, bufTms, bufTdi, bufTdo, c, stale, h0, 0);
      // the do-while loop: leave on an answer other than WAIT, or once
      // retry_limit retries are spent
      while ack == DAP_TRANSFER_WAIT && retry < retryLimit
        invariant retry <= retryLimit
        invariant trace == h0 + Repeat(c, retry + 1)
        invariant bufTdo[..] == RetryTdo(target, h0, c, stale, retry)
        invariant forall j :: 0 <= j < retry ==> AttemptAck(target, h0, c, stale, drBefore, j) == DAP_TRANSFER_WAIT
        invariant ack == AttemptAck(target, h0, c, stale, drBefore, retry)
        invariant waits == old(waits) + (if engine == Some(Slow) then 2 * (|trace| - |h0|) else 0)
        modifies this`tmsLine, this`tdiLine, this`tckLine, this`trace, this`waits, bufTdo
        decreases retryLimit - retry
      {
        WaitRun(target, h0, c, stale, drBefore, retry);
        retry := retry + 1;
        ack := DrAttempt(dmaBytes, bitsTail, drBefore, bufTms, bufTdi, bufTdo, c, stale, h0, retry);
      }
      scans := retry + 1;
      AttemptScanCount(target, h0, c, stale, drBefore, retryLimit, scans);
    }

    /** A call through `jtag_rw`: the flat shift of the configured tier,
        throttled exactly when the tier is the slow one. */
    method Rw(bitlen: nat, tms: array<bv8>, tdi: array<bv8>, tdo: array<bv8>)
      requires engine.Some? && Valid()
      requires Ceil8(bitlen) <= tms.Length && Ceil8(bitlen) <= tdi.Length && Ceil8(bitlen) <= tdo.Length
      requires tdo != tms && tdo != tdi
      modifies this`tmsLine, this`tdiLine, this`tckLine, this`trace, this`waits, tdo
      ensures trace == old(trace) + Drive(tms[..], tdi[..], bitlen)
      ensures tdo[..] == ShiftTdo(target, old(trace), tms[..], tdi[..], bitlen) + old(tdo[..])[Ceil8(bitlen)..]
      ensures Valid()
      ensures waits == old(waits) + (if engine == Some(Slow) then 2 * bitlen else 0)
    {
      if engine.value == Quick {
        RwQuick(bitlen, tms, tdi, tdo);
      } else {
        RwSlow(bitlen, tms, tdi, tdo);
      }
    }

    // ------------------------------------------------------ transactions

    /** `vsfhal_jtag_raw`: a flat shift, always through the throttled routine. */
    method Raw(bitlen: nat, tms: array<bv8>, tdi: array<bv8>, tdo: array<bv8>)
      requires Ceil8(bitlen) <= tms.Length && Ceil8(bitlen) <= tdi.Length && Ceil8(bitlen) <= tdo.Length
      requires tdo != tms && tdo != tdi
      requires Valid()
      modifies this`tmsLine, this`tdiLine, this`tckLine, this`trace, this`waits, tdo
      ensures Valid()
      ensures trace == old(trace) + Drive(tms[..], tdi[..], bitlen)
      ensures tdo[..] == ShiftTdo(target, old(trace), tms[..], tdi[..], bitlen) + old(tdo[..])[Ceil8(bitlen)..]
      ensures waits == old(waits) + (if delay != NoDelay then 2 * bitlen else 0)
    {
      RwSlow(bitlen, tms, tdi, tdo);
    }

    /** `vsfhal_jtag_ir`: clocks the IR scan pattern through the configured
        routine. From Run-Test/Idle that loads the instruction into this TAP,
        BYPASS into the others, and ends in Run-Test/Idle. */
    method Ir(ir: bv32, lrLength: nat, irBefore: nat, irAfter: nat)
      requires engine.Some? && Valid()
      requires 1 <= lrLength <= 32 && irBefore + lrLength + irAfter + 6 <= 64
      modifies this`tmsLine, this`tdiLine, this`tckLine, this`trace, this`waits
      ensures trace == old(trace) + IrScan(ir, lrLength, irBefore, irAfter).Clocks()
      ensures Run(RunTestIdle, trace[|old(trace)|..]) == RunTestIdle
      ensures Shifted(RunTestIdle, trace[|old(trace)|..]) == Ones(irBefore) + Low32(ir, lrLength) + Ones(irAfter)
      ensures Valid()
      ensures waits == old(waits) +
        (if engine == Some(Slow) then 2 * (irBefore + lrLength + irAfter + 6) else 0)
    {
      var bufTms, bufTdi, bitlen := IrPattern(ir, lrLength, irBefore, irAfter);
      var bufTdo := new bv8[8];
      Rw(bitlen, bufTms, bufTdi, bufTdo);
      IrTraceWalk(old(trace), trace, ir, lrLength, irBefore, irAfter);
    }

    /** `vsfhal_jtag_dr`: one CMSIS-DAP transfer through the JTAG-DP. Each
        attempt clocks `DrClocked` from the same buffers; an answer of WAIT is
        retried until retry_limit retries are spent. The last answer is
        returned and, when data is given, the 32 TDO bits after the
        acknowledge are stored in it, least significant byte first.
        `tdoStale` is the uninitialised content of `buf_tdo`, which survives
        in the bytes no attempt writes. */
    method Dr(request: bv32, dr: bv32, drBefore: nat, drAfter: nat, data: array?<bv8>, tdoStale: seq<bv8>)
      returns (ack: bv8, ghost scans: nat)
      requires engine.Some? && Valid()
      requires drBefore + drAfter + idle + 40 <= 64
      requires |tdoStale| == 8
      requires data != null ==> data.Length >= 4
      modifies this`tmsLine, this`tdiLine, this`tckLine, this`trace, this`waits, data
      ensures var c := DrClocked(request, dr, drBefore, drAfter, idle);
        var h0 := old(trace);
        scans == ScanCount(AttemptAcks(target, h0, c, tdoStale, drBefore), retryLimit, 0) &&
        trace == h0 + Repeat(c, scans) &&
        ack == AttemptAck(target, h0, c, tdoStale, drBefore, scans - 1) &&
        (data != null ==>
           data[..] == ResultBytes(Unpack(RetryTdo(target, h0, c, tdoStale, scans - 1)), drBefore)
                       + old(data[..])[4..])
      ensures Valid()
      ensures waits == old(waits) + (if engine == Some(Slow) then 2 * (|trace| - |old(trace)|) else 0)
    {
      var bufTms, bufTdi, dmaBytes, bitsTail := DrPattern(request, dr, drBefore, drAfter, idle);
      ghost var c := DrClocked(request, dr, drBefore, drAfter, idle);
      var bufTdo := Load(tdoStale);
      ack, scans := DrRetry(dmaBytes, bitsTail, drBefore, bufTms, bufTdi, bufTdo, c, tdoStale);
      if data != null {
        PutLe32(ResultBytes(Unpack(bufTdo[..]), drBefore), data);
      }
    }
  }
}
