/** The TAP controller state machine of IEEE Std 1149.1 (clause 6), used to
    give the scan patterns their meaning: which TDI bits a scan shifts into the
    instruction or data register chain, and in which state it leaves the TAP.
 */
module Tap {
  import opened Bits
  import opened Wire

  datatype State =
    | TestLogicReset | RunTestIdle
    | SelectDrScan | CaptureDr | ShiftDr | Exit1Dr | PauseDr | Exit2Dr | UpdateDr
    | SelectIrScan | CaptureIr | ShiftIr | Exit1Ir | PauseIr | Exit2Ir | UpdateIr

  /** The state after one rising TCK edge with TMS at the given level. */
  function Next(s: State, tms: bool): State
  {
    match s
    case TestLogicReset => if tms then TestLogicReset else RunTestIdle
    case RunTestIdle => if tms then SelectDrScan else RunTestIdle
    case SelectDrScan => if tms then SelectIrScan else CaptureDr
    case CaptureDr => if tms then Exit1Dr else ShiftDr
    case ShiftDr => if tms then Exit1Dr else ShiftDr
    case Exit1Dr => if tms then UpdateDr else PauseDr
    case PauseDr => if tms then Exit2Dr else PauseDr
    case Exit2Dr => if tms then UpdateDr else ShiftDr
    case UpdateDr => if tms then SelectDrScan else RunTestIdle
    case SelectIrScan => if tms then TestLogicReset else CaptureIr
    case CaptureIr => if tms then Exit1Ir else ShiftIr
    case ShiftIr => if tms then Exit1Ir else ShiftIr
    case Exit1Ir => if tms then UpdateIr else PauseIr
    case PauseIr => if tms then Exit2Ir else PauseIr
    case Exit2Ir => if tms then UpdateIr else ShiftIr
    case UpdateIr => if tms then SelectDrScan else RunTestIdle
  }

  /** The state reached after clocking every cycle of pins from s. */
  function Run(s: State, pins: seq<Pins>): State
    decreases |pins|
  {
    if pins == [] then s else Run(Next(s, pins[0].tms), pins[1..])
  }

  /** The TDI bits that enter the selected register: those of the cycles clocked
      while the TAP is in Shift-DR or Shift-IR, in order. */
  function Shifted(s: State, pins: seq<Pins>): seq<bool>
    decreases |pins|
  {
    if pins == [] then [] else
    (if s == ShiftDr || s == ShiftIr then [pins[0].tdi] else []) + Shifted(Next(s, pins[0].tms), pins[1..])
  }

  /** Clocking p and then q is clocking p + q. */
  lemma {:induction false} RunAppend(s: State, p: seq<Pins>, q: seq<Pins>)
    ensures Run(s, p + q) == Run(Run(s, p), q)
    ensures Shifted(s, p + q) == Shifted(s, p) + Shifted(Run(s, p), q)
    decreases |p|
  {
    if p != [] {
      assert (p + q)[0] == p[0] && (p + q)[1..] == p[1..] + q;
      RunAppend(Next(s, p[0].tms), p[1..], q);
    } else {
      assert p + q == q;
    }
  }

  /** In a shift state, cycles with TMS low keep shifting: every TDI bit enters
      the register and the state stays. */
  lemma {:induction false} HoldShift(s: State, pins: seq<Pins>)
    requires s == ShiftDr || s == ShiftIr
    requires forall i :: 0 <= i < |pins| ==> !pins[i].tms
    ensures Run(s, pins) == s
    ensures Shifted(s, pins) == TdiOf(pins)
    decreases |pins|
  {
    if pins != [] {
      HoldShift(s, pins[1..]);
      assert TdiOf(pins) == [pins[0].tdi] + TdiOf(pins[1..]);
    }
  }

  /** In Run-Test/Idle, cycles with TMS low stay there and shift nothing. */
  lemma {:induction false} HoldIdle(pins: seq<Pins>)
    requires forall i :: 0 <= i < |pins| ==> !pins[i].tms
    ensures Run(RunTestIdle, pins) == RunTestIdle
    ensures Shifted(RunTestIdle, pins) == []
    decreases |pins|
  {
    if pins != [] {
      HoldIdle(pins[1..]);
    }
  }

  /** A shift phase: from a shift state, |pins| cycles with TMS high only on
      the last one shift every TDI bit and end in the matching Exit1 state. */
  lemma ShiftPhase(s: State, pins: seq<Pins>)
    requires s == ShiftDr || s == ShiftIr
    requires |pins| > 0 && pins[|pins| - 1].tms
    requires forall i :: 0 <= i < |pins| - 1 ==> !pins[i].tms
    ensures Run(s, pins) == if s == ShiftDr then Exit1Dr else Exit1Ir
    ensures Shifted(s, pins) == TdiOf(pins)
  {
    var body, last := pins[..|pins| - 1], pins[|pins| - 1..];
    assert pins == body + last;
    HoldShift(s, body);
    RunAppend(s, body, last);
    assert TdiOf(pins) == TdiOf(body) + [pins[|pins| - 1].tdi];
  }

  /** From Run-Test/Idle, TMS 1, 1, 0, 0 reaches Shift-IR and shifts nothing. */
  lemma EnterShiftIr(pins: seq<Pins>)
    requires |pins| == 4
    requires pins[0].tms && pins[1].tms && !pins[2].tms && !pins[3].tms
    ensures Run(RunTestIdle, pins) == ShiftIr
    ensures Shifted(RunTestIdle, pins) == []
  {
    var p1, p2, p3 := pins[1..], pins[2..], pins[3..];
    assert p1[0] == pins[1] && p1[1..] == p2;
    assert p2[0] == pins[2] && p2[1..] == p3;
    assert p3[0] == pins[3] && p3[1..] == [];
    assert Run(RunTestIdle, pins) == Run(SelectDrScan, p1) == Run(SelectIrScan, p2) == Run(CaptureIr, p3) == Run(ShiftIr, p3[1..]);
    assert Shifted(RunTestIdle, pins) == [] + Shifted(SelectDrScan, p1) == Shifted(SelectDrScan, p1);
    assert Shifted(SelectDrScan, p1) == [] + Shifted(SelectIrScan, p2) == Shifted(SelectIrScan, p2);
    assert Shifted(SelectIrScan, p2) == [] + Shifted(CaptureIr, p3) == Shifted(CaptureIr, p3);
    assert Shifted(CaptureIr, p3) == [] + Shifted(ShiftIr, p3[1..]) == Shifted(ShiftIr, []) == [];
  }

  /** From Run-Test/Idle, TMS 1, 0, 0 reaches Shift-DR and shifts nothing. */
  lemma EnterShiftDr(pins: seq<Pins>)
    requires |pins| == 3
    requires pins[0].tms && !pins[1].tms && !pins[2].tms
    ensures Run(RunTestIdle, pins) == ShiftDr
    ensures Shifted(RunTestIdle, pins) == []
  {
    var p1, p2 := pins[1..], pins[2..];
    assert p1[0] == pins[1] && p1[1..] == p2;
    assert p2[0] == pins[2] && p2[1..] == [];
    assert Run(RunTestIdle, pins) == Run(SelectDrScan, p1) == Run(CaptureDr, p2) == Run(ShiftDr, p2[1..]);
    assert Shifted(RunTestIdle, pins) == [] + Shifted(SelectDrScan, p1) == Shifted(SelectDrScan, p1);
    assert Shifted(SelectDrScan, p1) == [] + Shifted(CaptureDr, p2) == Shifted(CaptureDr, p2);
    assert Shifted(CaptureDr, p2) == [] + Shifted(ShiftDr, p2[1..]) == Shifted(ShiftDr, []) == [];
  }
}
