/** The IR and DR scan encoders: the TMS/TDI patterns `vsfhal_jtag_ir` and
    `vsfhal_jtag_dr` build in their 64-bit scratch words before clocking them.
 */
module Scans {
  import opened Bits
  import opened Wire
  import opened Tap

  /** A scan pattern: the TMS and TDI scratch words (64 bits each, bit i is
      driven on cycle i) and the number of cycles to clock. */
  datatype Scan = Scan(tms: seq<bool>, tdi: seq<bool>, bitlen: nat)
  {
    predicate Valid()
    {
      |tms| == 64 && |tdi| == 64 && bitlen <= 64
    }

    /** The cycles of the pattern. */
    function Clocks(): (r: seq<Pins>)
      requires Valid()
      ensures |r| == bitlen
    {
      seq(bitlen, i requires 0 <= i < bitlen => Pins(tms[i], tdi[i]))
    }
  }

  /** The scratch words stored little-endian are the buffers the shift routines
      read: shifting n of their bits drives the first n cycles of the pattern. */
  lemma ScanBytes(s: Scan, n: nat)
    requires s.Valid() && n <= s.bitlen
    ensures |Pack(s.tms)| == 8 && |Pack(s.tdi)| == 8
    ensures Drive(Pack(s.tms), Pack(s.tdi), n) == s.Clocks()[..n]
  {
    PackBits(s.tms);
    PackBits(s.tdi);
  }

  // ---------------------------------------------------------------- IR scan

  /** `vsfhal_jtag_ir(ir, lr_length, ir_before, ir_after)`: load the low
      lr_length bits of ir into this TAP's instruction register, with
      ir_before and ir_after TAPs in BYPASS ahead of and behind it. */
  function IrScan(ir: bv32, lrLength: nat, irBefore: nat, irAfter: nat): (s: Scan)
    requires 1 <= lrLength <= 32 && irBefore + lrLength + irAfter + 6 <= 64
    ensures s.Valid()
    ensures s.bitlen == irBefore + lrLength + irAfter + 6
  {
    var l := lrLength - 1;
    // Select-DR-Scan, Select-IR-Scan, Capture-IR, Shift-IR
    var tms0 := OrAt(Zeros(64), 0, [true, true]);
    var len0 := 4;
    // bypass before the instruction
    var tdi1 := if irBefore != 0 then OrAt(Zeros(64), len0, Ones(irBefore)) else Zeros(64);
    var len1 := len0 + irBefore;
    // all but the top bit of the instruction
    var tdi2 := if l != 0 then OrAt(tdi1, len1, Low32(ir, l)) else tdi1;
    var len2 := len1 + l;
    var top := Bit32(ir, l);
    // the top bit, the bypass after it, and the move to Exit1-IR
    var (tms3, tdi3, len3) :=
      if irAfter != 0 then
        var tdiTop := OrAt(tdi2, len2, [top]);
        var after := irAfter - 1;
        var tdiAfter := if after != 0 then OrAt(tdiTop, len2 + 1, Ones(after)) else tdiTop;
        var lenExit := len2 + 1 + after;
        (OrAt(tms0, lenExit, [true]), OrAt(tdiAfter, lenExit, [true]), lenExit + 1)
      else
        (OrAt(tms0, len2, [true]), OrAt(tdi2, len2, [top]), len2 + 1);
    // Update-IR
    var tms4 := OrAt(tms3, len3, [true]);
    var len4 := len3 + 1;
    // Run-Test/Idle, TDI held high
    var tdi5 := OrAt(tdi3, len4, [true]);
    Scan(tms4, tdi5, len4 + 1)
  }

  /** TMS of an IR scan is high exactly on cycles 0 and 1 (to Select-IR-Scan),
      on the last shifted bit (to Exit1-IR) and on the cycle after it (to
      Update-IR). */
  lemma IrScanTms(ir: bv32, lrLength: nat, irBefore: nat, irAfter: nat, i: nat)
    requires 1 <= lrLength <= 32 && irBefore + lrLength + irAfter + 6 <= 64
    requires i < 64
    ensures var n := irBefore + lrLength + irAfter;
      IrScan(ir, lrLength, irBefore, irAfter).tms[i] == (i == 0 || i == 1 || i == 3 + n || i == 4 + n)
  {
  }

  /** TDI of an IR scan: 0 on the four cycles to Shift-IR, then ir_before ones,
      the low lr_length bits of ir LSB first, ir_after ones, 0 on Update-IR,
      1 on the final Run-Test/Idle cycle, and 0 above. */
  lemma IrScanTdi(ir: bv32, lrLength: nat, irBefore: nat, irAfter: nat, i: nat)
    requires 1 <= lrLength <= 32 && irBefore + lrLength + irAfter + 6 <= 64
    requires i < 64
    ensures var n := irBefore + lrLength + irAfter;
      IrScan(ir, lrLength, irBefore, irAfter).tdi[i] ==
        if i < 4 then false
        else if i < 4 + irBefore then true
        else if i < 4 + irBefore + lrLength then Bit32(ir, i - 4 - irBefore)
        else if i < 4 + n then true
        else i == 5 + n
  {
    if irAfter != 0 {
      IrScanTdiAfter(ir, lrLength, irBefore, irAfter, i);
    }
  }

  /** IrScanTdi when TAPs follow this one: the top instruction bit is not the
      last one shifted. */
  lemma IrScanTdiAfter(ir: bv32, lrLength: nat, irBefore: nat, irAfter: nat, i: nat)
    requires 1 <= lrLength <= 32 && irBefore + lrLength + irAfter + 6 <= 64
    requires i < 64 && irAfter != 0
    ensures var n := irBefore + lrLength + irAfter;
      IrScan(ir, lrLength, irBefore, irAfter).tdi[i] ==
        if i < 4 then false
        else if i < 4 + irBefore then true
        else if i < 4 + irBefore + lrLength then Bit32(ir, i - 4 - irBefore)
        else if i < 4 + n then true
        else i == 5 + n
  {
  }

  /** Any pattern laid out as an IR scan of n shifted bits `want` walks the TAP
      from Run-Test/Idle through Shift-IR, shifting `want`, back to Run-Test/Idle. */
  lemma IrShapeWalk(c: seq<Pins>, want: seq<bool>)
    requires |want| >= 1 && |c| == |want| + 6
    requires forall i :: 0 <= i < |c| ==>
      c[i].tms == (i == 0 || i == 1 || i == 3 + |want| || i == 4 + |want|)
    requires forall i :: 0 <= i < |c| ==>
      c[i].tdi == if i < 4 then false else if i < 4 + |want| then want[i - 4] else i == 5 + |want|
    ensures Run(RunTestIdle, c) == RunTestIdle
    ensures Shifted(RunTestIdle, c) == want
  {
    var n := |want|;
    var front, back := c[..4 + n], c[4 + n..];
    assert c == front + back;
    IrShiftFront(front, want);
    IrUpdateBack(back);
    RunAppend(RunTestIdle, front, back);
  }

  /** The first part of an IR scan: TMS 1, 1, 0, 0 to Shift-IR, then the
      shifted bits with TMS high on the last, which ends in Exit1-IR. */
  lemma IrShiftFront(front: seq<Pins>, want: seq<bool>)
    requires |want| >= 1 && |front| == |want| + 4
    requires forall i :: 0 <= i < |front| ==> front[i].tms == (i == 0 || i == 1 || i == 3 + |want|)
    requires forall i :: 4 <= i < |front| ==> front[i].tdi == want[i - 4]
    ensures Run(RunTestIdle, front) == Exit1Ir
    ensures Shifted(RunTestIdle, front) == want
  {
    var n := |want|;
    var head, mid := front[..4], front[4..];
    assert front == head + mid;
    EnterShiftIr(head);
    ShiftPhase(ShiftIr, mid);
    RunAppend(RunTestIdle, head, mid);
    forall j | 0 <= j < n
      ensures TdiOf(mid)[j] == want[j]
    {
      assert mid[j] == front[4 + j];
    }
  }

  /** The end of an IR scan: TMS 1 to Update-IR, TMS 0 to Run-Test/Idle;
      nothing is shifted. */
  lemma IrUpdateBack(back: seq<Pins>)
    requires |back| == 2 && back[0].tms && !back[1].tms
    ensures Run(Exit1Ir, back) == RunTestIdle
    ensures Shifted(Exit1Ir, back) == []
  {
    var last := back[1..];
    assert last[0] == back[1] && last[1..] == [];
    assert Run(Exit1Ir, back) == Run(UpdateIr, last) == Run(RunTestIdle, []);
    assert Shifted(Exit1Ir, back) == Shifted(UpdateIr, last) == Shifted(RunTestIdle, []);
  }

  /** What an IR scan does to the TAP: starting in Run-Test/Idle it passes
      through Shift-IR, shifts exactly ir_before bypass ones, the instruction
      and ir_after bypass ones, and returns to Run-Test/Idle. */
  lemma IrScanWalk(ir: bv32, lrLength: nat, irBefore: nat, irAfter: nat)
    requires 1 <= lrLength <= 32 && irBefore + lrLength + irAfter + 6 <= 64
    ensures var c := IrScan(ir, lrLength, irBefore, irAfter).Clocks();
      Run(RunTestIdle, c) == RunTestIdle &&
      Shifted(RunTestIdle, c) == Ones(irBefore) + Low32(ir, lrLength) + Ones(irAfter)
  {
    var s := IrScan(ir, lrLength, irBefore, irAfter);
    var n := irBefore + lrLength + irAfter;
    var c := s.Clocks();
    var want := Ones(irBefore) + Low32(ir, lrLength) + Ones(irAfter);
    forall i | 0 <= i < |c|
      ensures c[i].tms == (i == 0 || i == 1 || i == 3 + n || i == 4 + n)
      ensures c[i].tdi == if i < 4 then false else if i < 4 + n then want[i - 4] else i == 5 + n
    {
      IrScanTms(ir, lrLength, irBefore, irAfter, i);
      IrScanTdi(ir, lrLength, irBefore, irAfter, i);
    }
    IrShapeWalk(c, want);
  }

  /** The example of a 4-bit instruction 0b1010 with no other TAPs in the
      chain: the instruction goes out as 0, 1, 0, 1 (LSB first) on cycles 4..7,
      and TMS rises on cycle 7, together with the instruction's top bit. */
  lemma IrScanExample()
    ensures var s := IrScan(0xA, 4, 0, 0);
      s.bitlen == 10 &&
      s.tdi[4..8] == [false, true, false, true] &&
      (forall i :: 4 <= i < 8 ==> (s.tms[i] <==> i == 7)) &&
      Shifted(RunTestIdle, s.Clocks()) == [false, true, false, true]
  {
    var s := IrScan(0xA, 4, 0, 0);
    assert Bit32(0xA, 0) == false && Bit32(0xA, 1) == true;
    assert Bit32(0xA, 2) == false && Bit32(0xA, 3) == true;
    forall i | 4 <= i < 8
      ensures (s.tms[i] <==> i == 7) && s.tdi[i] == Bit32(0xA, i - 4)
    {
      IrScanTms(0xA, 4, 0, 0, i);
      IrScanTdi(0xA, 4, 0, 0, i);
    }
    IrScanWalk(0xA, 4, 0, 0);
    assert Low32(0xA, 4) == [false, true, false, true];
  }

  // ---------------------------------------------------------------- DR scan

  /** The read/write bit of a CMSIS-DAP transfer request (DAP_TRANSFER_RnW). */
  const DAP_TRANSFER_RnW: bv32 := 2

  predicate IsRead(request: bv32)
  {
    request & DAP_TRANSFER_RnW != 0
  }

  /** `vsfhal_jtag_dr(request, dr, dr_before, dr_after, ...)`: one DPACC/APACC
      access through the 35-bit register, with dr_before and dr_after TAPs in
      BYPASS around this one and `idle` extra Run-Test/Idle cycles. */
  function DrScan(request: bv32, dr: bv32, drBefore: nat, drAfter: nat, idle: nat): (s: Scan)
    requires drBefore + drAfter + idle + 40 <= 64
    ensures s.Valid()
    ensures s.bitlen == 40 + drBefore + drAfter + idle
  {
    // Select-DR-Scan, Capture-DR, Shift-DR
    var tms0 := OrAt(Zeros(64), 0, [true]);
    // bypass before: zeros
    var len0 := 3 + drBefore;
    // RnW, A2, A3: request bits 1..3
    var tdi1 := OrAt(Zeros(64), len0, Low32(request >> 1, 3));
    var len1 := len0 + 3;
    // the data word for a write, zeros for a read
    var tdi2 := if !IsRead(request) then OrAt(tdi1, len1, Low32(dr, 32)) else tdi1;
    var len2 := len1 + 31 + drAfter;
    // Exit1-DR on the last bit shifted
    var tms2 := OrAt(tms0, len2, [true]);
    var len3 := len2 + 1;
    // Update-DR, then the idle cycles
    var tms3 := OrAt(tms2, len3, [true]);
    var len4 := len3 + 1 + idle;
    // one more Run-Test/Idle cycle, TDI held high
    var tdi4 := OrAt(tdi2, len4, [true]);
    Scan(tms3, tdi4, len4 + 1)
  }

  /** The request bits 1..3 (RnW, A2, A3) as shifted, in that order. */
  function RequestBits(request: bv32): seq<bool>
  {
    [Bit32(request, 1), Bit32(request, 2), Bit32(request, 3)]
  }

  lemma RequestField(request: bv32)
    ensures Low32(request >> 1, 3) == RequestBits(request)
    ensures IsRead(request) == Bit32(request, 1)
  {
  }

  /** The data field of a DR scan: the write value LSB first, or 32 zeros for a read. */
  function DataBits(request: bv32, dr: bv32): seq<bool>
  {
    if IsRead(request) then Zeros(32) else Low32(dr, 32)
  }

  /** TMS of a DR scan is high exactly on cycle 0 (to Select-DR-Scan), on the
      last shifted bit (to Exit1-DR) and on the cycle after it (to Update-DR). */
  lemma DrScanTms(request: bv32, dr: bv32, drBefore: nat, drAfter: nat, idle: nat, i: nat)
    requires drBefore + drAfter + idle + 40 <= 64
    requires i < 64
    ensures DrScan(request, dr, drBefore, drAfter, idle).tms[i] ==
      (i == 0 || i == 37 + drBefore + drAfter || i == 38 + drBefore + drAfter)
  {
  }

  /** TDI of a DR scan: request bits 1..3 on cycles 3+dr_before..5+dr_before,
      the data field on the next 32, 1 on the final cycle, 0 everywhere else
      (including the bypass bits). */
  lemma DrScanTdi(request: bv32, dr: bv32, drBefore: nat, drAfter: nat, idle: nat, i: nat)
    requires drBefore + drAfter + idle + 40 <= 64
    requires i < 64
    ensures DrScan(request, dr, drBefore, drAfter, idle).tdi[i] ==
      if 3 + drBefore <= i < 6 + drBefore then RequestBits(request)[i - 3 - drBefore]
      else if 6 + drBefore <= i < 38 + drBefore then DataBits(request, dr)[i - 6 - drBefore]
      else i == 39 + drBefore + drAfter + idle
  {
    RequestField(request);
  }

  /** Any pattern laid out as a DR scan of the shifted bits `want` followed by
      `idle` idle cycles walks the TAP from Run-Test/Idle through Shift-DR,
      shifting `want`, and through Update-DR back to Run-Test/Idle. */
  lemma DrShapeWalk(c: seq<Pins>, want: seq<bool>, idle: nat)
    requires |want| >= 1 && |c| == |want| + 5 + idle
    requires forall i :: 0 <= i < |c| ==>
      c[i].tms == (i == 0 || i == 2 + |want| || i == 3 + |want|)
    requires forall i :: 0 <= i < |c| ==>
      c[i].tdi == if i < 3 then false else if i < 3 + |want| then want[i - 3] else i == 4 + |want| + idle
    ensures Run(RunTestIdle, c) == RunTestIdle
    ensures Shifted(RunTestIdle, c) == want
  {
    var w := |want|;
    var front, back := c[..3 + w], c[3 + w..];
    assert c == front + back;
    DrShiftFront(front, want);
    DrUpdateBack(back);
    RunAppend(RunTestIdle, front, back);
  }

  /** The first part of a DR scan: TMS 1, 0, 0 to Shift-DR, then the shifted
      bits with TMS high on the last, which ends in Exit1-DR. */
  lemma DrShiftFront(front: seq<Pins>, want: seq<bool>)
    requires |want| >= 1 && |front| == |want| + 3
    requires forall i :: 0 <= i < |front| ==> front[i].tms == (i == 0 || i == 2 + |want|)
    requires forall i :: 3 <= i < |front| ==> front[i].tdi == want[i - 3]
    ensures Run(RunTestIdle, front) == Exit1Dr
    ensures Shifted(RunTestIdle, front) == want
  {
    var w := |want|;
    var head, mid := front[..3], front[3..];
    assert front == head + mid;
    EnterShiftDr(head);
    ShiftPhase(ShiftDr, mid);
    RunAppend(RunTestIdle, head, mid);
    forall j | 0 <= j < w
      ensures TdiOf(mid)[j] == want[j]
    {
      assert mid[j] == front[3 + j];
    }
  }

  /** The rest of a DR scan: TMS 1 to Update-DR, then TMS 0 to Run-Test/Idle
      and for as long as it lasts; nothing is shifted. */
  lemma DrUpdateBack(back: seq<Pins>)
    requires |back| >= 2 && back[0].tms
    requires forall i :: 1 <= i < |back| ==> !back[i].tms
    ensures Run(Exit1Dr, back) == RunTestIdle
    ensures Shifted(Exit1Dr, back) == []
  {
    var hold := back[2..];
    assert back[1..][1..] == hold;
    HoldIdle(hold);
  }

  /** What a DR scan does to the TAP: starting in Run-Test/Idle it shifts
      dr_before bypass zeros, RnW, A2, A3, the data field and dr_after bypass
      zeros through Shift-DR, updates, and ends in Run-Test/Idle. */
  lemma DrScanWalk(request: bv32, dr: bv32, drBefore: nat, drAfter: nat, idle: nat)
    requires drBefore + drAfter + idle + 40 <= 64
    ensures var c := DrScan(request, dr, drBefore, drAfter, idle).Clocks();
      Run(RunTestIdle, c) == RunTestIdle &&
      Shifted(RunTestIdle, c) == Zeros(drBefore) + RequestBits(request) + DataBits(request, dr) + Zeros(drAfter)
  {
    var s := DrScan(request, dr, drBefore, drAfter, idle);
    var c := s.Clocks();
    var want := Zeros(drBefore) + RequestBits(request) + DataBits(request, dr) + Zeros(drAfter);
    var w := |want|;
    forall i | 0 <= i < |c|
      ensures c[i].tms == (i == 0 || i == 2 + w || i == 3 + w)
      ensures c[i].tdi == if i < 3 then false else if i < 3 + w then want[i - 3] else i == 4 + w + idle
    {
      DrScanTms(request, dr, drBefore, drAfter, idle, i);
      DrScanTdi(request, dr, drBefore, drAfter, idle, i);
    }
    DrShapeWalk(c, want, idle);
  }

  // ------------------------------------------- the head/bulk/tail partition

  /** `dma_bytes` and `bits_tail` as `vsfhal_jtag_dr` computes them: the bulk
      byte count from the length before Exit1-DR, the tail as what is left of
      the whole scan after the head byte and the bulk bytes. */
  function DrSplit(drBefore: nat, drAfter: nat, idle: nat): (r: (nat, nat))
  {
    var dmaBytes := (37 + drBefore + drAfter - 8) / 8;
    var bitlen := 40 + drBefore + drAfter + idle;
    (dmaBytes, bitlen - 8 - dmaBytes * 8)
  }

  /** The head byte, the bulk bytes and the tail partition the DR scan exactly;
      the bulk is never empty (at least 3 bytes), so a split shift that skips
      the bulk clocks 11 + idle + (29 + dr_before + dr_after) % 8 cycles, at
      least 24 fewer than the scan has. */
  lemma DrSplitCovers(drBefore: nat, drAfter: nat, idle: nat)
    requires drBefore + drAfter + idle + 40 <= 64
    ensures var (dmaBytes, bitsTail) := DrSplit(drBefore, drAfter, idle);
      8 + 8 * dmaBytes + bitsTail == 40 + drBefore + drAfter + idle &&
      dmaBytes >= 3 &&
      8 + bitsTail == 11 + idle + (29 + drBefore + drAfter) % 8 &&
      8 + bitsTail <= 16 + drBefore + drAfter + idle
  {
  }

  /** The cycles the split shift actually clocks for a DR scan (its head byte
      and its tail, read from the start of the pattern) never move the TAP past
      Shift-DR when they stop before the Exit1-DR cycle: the access is then
      never updated. With no idle cycles this is always the case. */
  lemma DrClockedPrefix(request: bv32, dr: bv32, drBefore: nat, drAfter: nat, idle: nat)
    requires drBefore + drAfter + idle + 40 <= 64
    requires 8 + DrSplit(drBefore, drAfter, idle).1 <= 37 + drBefore + drAfter
    ensures var m := 8 + DrSplit(drBefore, drAfter, idle).1;
      Run(RunTestIdle, DrScan(request, dr, drBefore, drAfter, idle).Clocks()[..m]) == ShiftDr
  {
    var s := DrScan(request, dr, drBefore, drAfter, idle);
    var m := 8 + DrSplit(drBefore, drAfter, idle).1;
    var c := s.Clocks()[..m];
    forall i | 0 <= i < m
      ensures c[i].tms == (i == 0)
    {
      DrScanTms(request, dr, drBefore, drAfter, idle, i);
    }
    var head, mid := c[..3], c[3..];
    assert c == head + mid;
    EnterShiftDr(head);
    HoldShift(ShiftDr, mid);
    RunAppend(RunTestIdle, head, mid);
  }

  lemma DrClockedPrefixNoIdle(drBefore: nat, drAfter: nat)
    requires drBefore + drAfter + 40 <= 64
    ensures 8 + DrSplit(drBefore, drAfter, 0).1 <= 37 + drBefore + drAfter
  {
    DrSplitCovers(drBefore, drAfter, 0);
  }
}
