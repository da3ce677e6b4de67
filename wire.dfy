/** The JTAG lines as the model sees them.

    Each TCK cycle drives one (TMS, TDI) pair and samples TDO after the rising
    edge.  The target on the other end of the cable is an oracle: the TDO level
    it presents is a function of every (TMS, TDI) pair clocked so far.  This
    covers a real TAP chain (whose TDO is determined by its state machine and
    shift registers, both functions of that history), a loop-back cable, or a
    debug port that answers WAIT to every request.
 */
module Wire {
  import opened Bits

  /** The levels of TMS and TDI during one TCK cycle. */
  datatype Pins = Pins(tms: bool, tdi: bool)

  /** The TDO level the target presents at a rising TCK edge, given every
      (TMS, TDI) pair clocked so far, the current cycle's last. */
  type Target = seq<Pins> -> bool

  /** The n cycles that shifting the buffers tms and tdi drives: on cycle i,
      TMS and TDI carry bit i % 8 of byte i / 8. */
  function Drive(tms: seq<bv8>, tdi: seq<bv8>, n: nat): (r: seq<Pins>)
    requires n <= 8 * |tms| && n <= 8 * |tdi|
    ensures |r| == n
  {
    seq(n, i requires 0 <= i < n => Pins(BitAt(tms, i), BitAt(tdi, i)))
  }

  /** The first n cycles driven from one byte of each buffer. */
  function BytePins(tmsByte: bv8, tdiByte: bv8, n: nat): (r: seq<Pins>)
    requires n <= 8
    ensures |r| == n
  {
    seq(n, k requires 0 <= k < n => Pins(BitOf(tmsByte, k), BitOf(tdiByte, k)))
  }

  /** Shifting byte p after bytes 0..p-1 continues the drive where it stopped. */
  lemma DriveByte(tms: seq<bv8>, tdi: seq<bv8>, p: nat, n: nat)
    requires p < |tms| && p < |tdi| && n <= 8
    ensures Drive(tms, tdi, 8 * p + n) == Drive(tms, tdi, 8 * p) + BytePins(tms[p], tdi[p], n)
  {
    var a := Drive(tms, tdi, 8 * p + n);
    var b := Drive(tms, tdi, 8 * p) + BytePins(tms[p], tdi[p], n);
    forall i | 0 <= i < 8 * p + n
      ensures a[i] == b[i]
    {
      if i >= 8 * p {
        assert i / 8 == p && i % 8 == i - 8 * p;
      }
    }
  }

  /** The TDO samples of the cycles of trace t from position `from` on: the
      sample of cycle j is what the target shows once cycles 0..j are clocked. */
  function Sampled(target: Target, t: seq<Pins>, from: nat): (r: seq<bool>)
    requires from <= |t|
    ensures |r| == |t| - from
  {
    seq(|t| - from, i requires 0 <= i < |t| - from => target(t[..from + i + 1]))
  }

  /** Clocking one more cycle adds one sample. */
  lemma SampledSnoc(target: Target, t: seq<Pins>, from: nat, p: Pins)
    requires from <= |t|
    ensures Sampled(target, t + [p], from) == Sampled(target, t, from) + [target(t + [p])]
  {
    var a := Sampled(target, t + [p], from);
    var b := Sampled(target, t, from) + [target(t + [p])];
    forall i | 0 <= i < |a|
      ensures a[i] == b[i]
    {
      if i < |t| - from {
        assert (t + [p])[..from + i + 1] == t[..from + i + 1];
      } else {
        assert (t + [p])[..from + i + 1] == t + [p];
      }
    }
  }

  /** Clocking bit j of a byte pair after bits 0..j-1 of it: the trace grows by
      that cycle and the samples by its TDO level. */
  lemma BytePinsStep(target: Target, h: seq<Pins>, tmsByte: bv8, tdiByte: bv8, j: nat, t: seq<Pins>)
    requires j < 8 && t == h + BytePins(tmsByte, tdiByte, j)
    ensures var p := Pins(BitOf(tmsByte, j), BitOf(tdiByte, j));
      t + [p] == h + BytePins(tmsByte, tdiByte, j + 1) &&
      Sampled(target, t + [p], |h|) == Sampled(target, t, |h|) + [target(t + [p])]
  {
    var p := Pins(BitOf(tmsByte, j), BitOf(tdiByte, j));
    assert BytePins(tmsByte, tdiByte, j + 1) == BytePins(tmsByte, tdiByte, j) + [p];
    SampledSnoc(target, t, |h|, p);
  }

  /** The samples of a trace split where the trace was extended. */
  lemma SampledAppend(target: Target, t: seq<Pins>, u: seq<Pins>, from: nat)
    requires from <= |t|
    ensures Sampled(target, t + u, from) == Sampled(target, t, from) + Sampled(target, t + u, |t|)
  {
    var a := Sampled(target, t + u, from);
    var b := Sampled(target, t, from) + Sampled(target, t + u, |t|);
    forall i | 0 <= i < |a|
      ensures a[i] == b[i]
    {
      if i < |t| - from {
        assert (t + u)[..from + i + 1] == t[..from + i + 1];
      }
    }
  }

  /** One byte (or the last partial byte) of a shift: after bytes 0..p-1 have
      been clocked since h, clocking n bits of byte p extends the drive to
      8p + n cycles and the packed samples by one byte. */
  lemma ShiftByteStep(target: Target, h: seq<Pins>, mid: seq<Pins>, t: seq<Pins>,
                      tms: seq<bv8>, tdi: seq<bv8>, p: nat, n: nat)
    requires p < |tms| && p < |tdi| && 1 <= n <= 8
    requires mid == h + Drive(tms, tdi, 8 * p)
    requires t == mid + BytePins(tms[p], tdi[p], n)
    ensures t == h + Drive(tms, tdi, 8 * p + n)
    ensures |Pack(Sampled(target, mid, |h|))| == p
    ensures Pack(Sampled(target, t, |h|)) ==
      Pack(Sampled(target, mid, |h|)) + [ByteOf(Sampled(target, t, |mid|))]
  {
    DriveByte(tms, tdi, p, n);
    SampledAppend(target, mid, BytePins(tms[p], tdi[p], n), |h|);
    PackAppendByte(Sampled(target, mid, |h|), Sampled(target, t, |mid|));
  }

  /** ShiftByteStep with the store of the new byte: the TDO buffer, holding
      the packed samples of bytes 0..p-1 ahead of its original content,
      gets the samples of byte p at index p. */
  lemma ShiftStore(target: Target, h: seq<Pins>, mid: seq<Pins>, t: seq<Pins>,
                   tms: seq<bv8>, tdi: seq<bv8>, p: nat, n: nat, buf: seq<bv8>, orig: seq<bv8>)
    requires p < |tms| && p < |tdi| && p < |orig| && 1 <= n <= 8
    requires mid == h + Drive(tms, tdi, 8 * p)
    requires t == mid + BytePins(tms[p], tdi[p], n)
    requires buf == Pack(Sampled(target, mid, |h|)) + orig[p..]
    ensures t == h + Drive(tms, tdi, 8 * p + n)
    ensures p < |buf| &&
      buf[p := ByteOf(Sampled(target, t, |mid|))] == Pack(Sampled(target, t, |h|)) + orig[p + 1..]
  {
    ShiftByteStep(target, h, mid, t, tms, tdi, p, n);
    StoreNext(Pack(Sampled(target, mid, |h|)), orig, p, ByteOf(Sampled(target, t, |mid|)));
  }

  /** The first byte of a shift drives the first byte of each buffer. */
  lemma DriveFirstByte(tms: seq<bv8>, tdi: seq<bv8>)
    requires 1 <= |tms| && 1 <= |tdi|
    ensures Drive(tms, tdi, 8) == BytePins(tms[0], tdi[0], 8)
  {
    DriveByte(tms, tdi, 0, 8);
  }

  /** The TDO bytes a flat shift of n bits from buffers tms and tdi writes,
      after history h has been clocked. */
  function ShiftTdo(target: Target, h: seq<Pins>, tms: seq<bv8>, tdi: seq<bv8>, n: nat): seq<bv8>
    requires n <= 8 * |tms| && n <= 8 * |tdi|
  {
    Pack(Sampled(target, h + Drive(tms, tdi, n), |h|))
  }

  /** What a flat shift means on the wire: ceil(n/8) TDO bytes; bit i of them
      (bit i % 8 of byte i / 8) is the TDO sampled on cycle i, the cycle that
      drove bit i of tms and tdi; the bits above the last sample are 0. */
  lemma ShiftTdoBits(target: Target, h: seq<Pins>, tms: seq<bv8>, tdi: seq<bv8>, n: nat)
    requires n <= 8 * |tms| && n <= 8 * |tdi|
    ensures |ShiftTdo(target, h, tms, tdi, n)| == Ceil8(n)
    ensures forall i :: 0 <= i < n ==>
      BitAt(ShiftTdo(target, h, tms, tdi, n), i) == target(h + Drive(tms, tdi, i + 1))
    ensures forall i :: n <= i < 8 * Ceil8(n) ==> !BitAt(ShiftTdo(target, h, tms, tdi, n), i)
  {
    var d := Drive(tms, tdi, n);
    var s := Sampled(target, h + d, |h|);
    PackBits(s);
    forall i | 0 <= i < n
      ensures s[i] == target(h + Drive(tms, tdi, i + 1))
    {
      assert d[..i + 1] == Drive(tms, tdi, i + 1);
      assert (h + d)[..|h| + i + 1] == h + Drive(tms, tdi, i + 1);
    }
  }

  /** A target whose TDO echoes the TDI level of the cycle being clocked. */
  ghost predicate LoopBack(target: Target)
  {
    forall t: seq<Pins> :: |t| > 0 ==> target(t) == t[|t| - 1].tdi
  }

  /** The TDI levels of a run of cycles. */
  function TdiOf(pins: seq<Pins>): (r: seq<bool>)
    ensures |r| == |pins|
  {
    seq(|pins|, i requires 0 <= i < |pins| => pins[i].tdi)
  }

  /** The TDI levels a flat shift drives are the bits of its TDI buffer. */
  lemma {:induction false} DriveTdi(tms: seq<bv8>, tdi: seq<bv8>, n: nat)
    requires n <= 8 * |tms| && n <= 8 * |tdi|
    ensures TdiOf(Drive(tms, tdi, n)) == Unpack(tdi)[..n]
  {
    var u := Unpack(tdi)[..n];
    UnpackBits(tdi);
    forall i | 0 <= i < n
      ensures TdiOf(Drive(tms, tdi, n))[i] == u[i]
    {
    }
  }

  /** Over a loop-back cable the samples are the TDI levels of their cycles. */
  lemma {:induction false} SampledEcho(target: Target, t: seq<Pins>, from: nat)
    requires LoopBack(target) && from <= |t|
    ensures Sampled(target, t, from) == TdiOf(t[from..])
  {
    forall i | 0 <= i < |t| - from
      ensures Sampled(target, t, from)[i] == t[from + i].tdi
    {
      var prefix := t[..from + i + 1];
      assert prefix[|prefix| - 1] == t[from + i];
    }
  }

  /** Over a loop-back cable the TDO samples of a flat shift are its TDI bits. */
  lemma {:induction false} LoopBackSampled(target: Target, h: seq<Pins>, tms: seq<bv8>, tdi: seq<bv8>, n: nat)
    requires LoopBack(target)
    requires n <= 8 * |tms| && n <= 8 * |tdi|
    ensures Sampled(target, h + Drive(tms, tdi, n), |h|) == Unpack(tdi)[..n]
  {
    var t := h + Drive(tms, tdi, n);
    SampledEcho(target, t, |h|);
    DriveTdi(tms, tdi, n);
    assert t[|h|..] == Drive(tms, tdi, n);
  }

  /** Over a loop-back cable a flat shift returns its TDI buffer: exactly when
      n is a whole number of bytes, and otherwise with the bits of the last
      byte from bit n % 8 up cleared. */
  lemma {:induction false} LoopBackShift(target: Target, h: seq<Pins>, tms: seq<bv8>, tdi: seq<bv8>, n: nat)
    requires LoopBack(target)
    requires n <= 8 * |tms| && n <= 8 * |tdi|
    ensures ShiftTdo(target, h, tms, tdi, n) == Pack(Unpack(tdi)[..n])
    ensures n % 8 == 0 ==> ShiftTdo(target, h, tms, tdi, n) == tdi[..n / 8]
  {
    LoopBackSampled(target, h, tms, tdi, n);
    if n % 8 == 0 {
      UnpackPrefix(tdi, n / 8);
      PackUnpack(tdi[..n / 8]);
    }
  }

  /** k copies of a scan, back to back: the cycles of k retries. */
  function Repeat(scan: seq<Pins>, k: nat): seq<Pins>
  {
    if k == 0 then [] else Repeat(scan, k - 1) + scan
  }

  /** The first of k copies comes first. */
  lemma {:induction false} RepeatFront(scan: seq<Pins>, k: nat)
    requires k > 0
    ensures Repeat(scan, k) == scan + Repeat(scan, k - 1)
  {
    if k > 1 {
      RepeatFront(scan, k - 1);
    }
  }

  /** k retries clock k times the cycles of one scan. */
  lemma {:induction false} RepeatLength(scan: seq<Pins>, k: nat)
    ensures |Repeat(scan, k)| == k * |scan|
  {
    if k > 0 {
      RepeatLength(scan, k - 1);
    }
  }
}
