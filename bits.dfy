/** Bit-level views of the byte buffers the JTAG engine shifts.

    The engine transmits LSB-first: bit 0 of byte 0 goes out on the first TCK
    cycle, bit 7 of byte 0 on the eighth, bit 0 of byte 1 on the ninth.  The
    64-bit scratch words of the IR and DR scans are modelled as sequences of 64
    booleans (bit i of the word is element i); their memory image is the byte
    buffer `Pack(word)`, which is the little-endian layout of a `uint64_t`.
 */
module Bits {

  /** The mask of bit k of a byte (a table, so that no proof shifts by a symbolic amount). */
  function Mask(k: nat): bv8
    requires k < 8
  {
    match k
    case 0 => 0x01
    case 1 => 0x02
    case 2 => 0x04
    case 3 => 0x08
    case 4 => 0x10
    case 5 => 0x20
    case 6 => 0x40
    case _ => 0x80
  }

  /** Bit k of byte b; bit 0 is the least significant. */
  predicate BitOf(b: bv8, k: nat)
    requires k < 8
  {
    b & Mask(k) != 0
  }

  /** Two bytes with the same eight bits are the same byte. */
  lemma BitsDetermine(a: bv8, b: bv8)
    requires forall k :: 0 <= k < 8 ==> BitOf(a, k) == BitOf(b, k)
    ensures a == b
  {
    assert BitOf(a, 0) == BitOf(b, 0) && BitOf(a, 1) == BitOf(b, 1);
    assert BitOf(a, 2) == BitOf(b, 2) && BitOf(a, 3) == BitOf(b, 3);
    assert BitOf(a, 4) == BitOf(b, 4) && BitOf(a, 5) == BitOf(b, 5);
    assert BitOf(a, 6) == BitOf(b, 6) && BitOf(a, 7) == BitOf(b, 7);
  }

  /** `b & 0x1` tests bit 0. */
  lemma LowBit(b: bv8)
    ensures (b & 1 == 1) == BitOf(b, 0)
  {
  }

  /** Bit k of `b >> j` is bit k + j of b, or 0 once k + j leaves the byte. */
  lemma ShrBit(b: bv8, j: nat, k: nat)
    requires j <= 8 && k < 8
    ensures BitOf(b >> j, k) == (k + j < 8 && BitOf(b, k + j))
  {
    if j == 0 {
    } else if j == 1 {
    } else if j == 2 {
    } else if j == 3 {
    } else if j == 4 {
    } else if j == 5 {
    } else if j == 6 {
    } else if j == 7 {
    } else {
    }
  }

  /** Shifting right j times by one is shifting right by j. */
  lemma ShrStep(b: bv8, j: nat)
    requires j < 8
    ensures (b >> j) >> 1 == b >> (j + 1)
  {
    if j == 0 {
    } else if j == 1 {
    } else if j == 2 {
    } else if j == 3 {
    } else if j == 4 {
    } else if j == 5 {
    } else if j == 6 {
    } else {
    }
  }

  /** One step of the TDO accumulator: shift right and put the new sample in bit 7. */
  lemma ShiftInBit(t: bv8, x: bool, k: nat)
    requires k < 8
    ensures BitOf((t >> 1) | (if x then 0x80 else 0), k) == if k < 7 then BitOf(t, k + 1) else x
  {
    ShrBit(t, 1, k);
  }

  lemma OrMaskBit(b: bv8, m: nat, x: bool, k: nat)
    requires m < 8 && k < 8
    ensures BitOf(b | (if x then Mask(m) else 0), k) == (BitOf(b, k) || (x && k == m))
  {
  }

  /** The byte whose low |s| bits are s, LSB first, and whose other bits are 0. */
  function ByteOf(s: seq<bool>): bv8
    requires |s| <= 8
  {
    if s == [] then 0 else ByteOf(s[..|s| - 1]) | (if s[|s| - 1] then Mask(|s| - 1) else 0)
  }

  /** Bit k of `ByteOf(s)` is s[k], and 0 beyond s. */
  lemma {:induction false} ByteOfBits(s: seq<bool>)
    requires |s| <= 8
    ensures forall k :: 0 <= k < 8 ==> BitOf(ByteOf(s), k) == (k < |s| && s[k])
    decreases |s|
  {
    if s != [] {
      var low := s[..|s| - 1];
      ByteOfBits(low);
      forall k | 0 <= k < 8
        ensures BitOf(ByteOf(s), k) == (k < |s| && s[k])
      {
        OrMaskBit(ByteOf(low), |s| - 1, s[|s| - 1], k);
        if k < |s| - 1 {
          assert low[k] == s[k];
        }
      }
    }
  }

  // ---- the TDO accumulator `tdo_last` ----

  /** After 8 - bits samples s have been shifted in from the top, the
      accumulator holds them in its top 8 - bits bits, oldest lowest, and the
      rest of its initial value init below them. */
  ghost predicate Accumulated(acc: bv8, init: bv8, bits: nat, s: seq<bool>)
    requires bits <= 8 && |s| == 8 - bits
  {
    forall k :: 0 <= k < 8 ==> BitOf(acc, k) == if k < bits then BitOf(init, k + 8 - bits) else s[k - bits]
  }

  /** One step of the accumulator: `acc >>= 1; acc |= sample ? 0x80 : 0x00`. */
  lemma AccumulateStep(acc: bv8, init: bv8, bits: nat, s: seq<bool>, x: bool)
    requires 0 < bits <= 8 && |s| == 8 - bits
    requires Accumulated(acc, init, bits, s)
    ensures Accumulated((acc >> 1) | (if x then 0x80 else 0), init, bits - 1, s + [x])
  {
    var next := (acc >> 1) | (if x then 0x80 else 0);
    forall k | 0 <= k < 8
      ensures BitOf(next, k) == if k < bits - 1 then BitOf(init, k + 8 - (bits - 1)) else (s + [x])[k - (bits - 1)]
    {
      ShiftInBit(acc, x, k);
    }
  }

  /** `tdo_last` after the samples s have been shifted in from the top, one
      per cycle, starting from init. */
  function Accumulate(init: bv8, s: seq<bool>): bv8
    decreases |s|
  {
    if s == [] then init else (Accumulate(init, s[..|s| - 1]) >> 1) | (if s[|s| - 1] then 0x80 else 0)
  }

  lemma AccumulateSnoc(init: bv8, s: seq<bool>, x: bool)
    ensures Accumulate(init, s + [x]) == (Accumulate(init, s) >> 1) | (if x then 0x80 else 0)
  {
    assert (s + [x])[..|s|] == s;
  }

  /** What the accumulator holds: its samples in the top bits, oldest lowest,
      and what is left of its initial value below them. */
  lemma {:induction false} AccumulateBits(init: bv8, s: seq<bool>)
    requires |s| <= 8
    ensures Accumulated(Accumulate(init, s), init, 8 - |s|, s)
    decreases |s|
  {
    if s != [] {
      var low := s[..|s| - 1];
      AccumulateBits(init, low);
      AccumulateStep(Accumulate(init, low), init, 8 - |low|, low, s[|s| - 1]);
      assert low + [s[|s| - 1]] == s;
    }
  }

  /** After eight samples nothing of the initial value is left. */
  lemma AccumulateFull(init: bv8, s: seq<bool>)
    requires |s| == 8
    ensures Accumulate(init, s) == ByteOf(s)
  {
    AccumulateBits(init, s);
    ByteOfBits(s);
    BitsDetermine(Accumulate(init, s), ByteOf(s));
  }

  /** A partial byte collected into a cleared accumulator and shifted down by
      the number of missing samples is the byte of its samples. */
  lemma AccumulatePartial(s: seq<bool>)
    requires |s| <= 8
    ensures Accumulate(0, s) >> (8 - |s|) == ByteOf(s)
  {
    var acc, bits := Accumulate(0, s), 8 - |s|;
    AccumulateBits(0, s);
    ByteOfBits(s);
    var low := acc >> bits;
    forall k | 0 <= k < 8
      ensures BitOf(low, k) == BitOf(ByteOf(s), k)
    {
      ShrBit(acc, bits, k);
      if k < |s| {
        assert BitOf(acc, k + bits) == s[k];
      }
    }
    BitsDetermine(low, ByteOf(s));
  }

  /** `tms_last` after j passes of `tms_last >>= 1` over the byte b. */
  function ShrTimes(b: bv8, j: nat): bv8
    decreases j
  {
    if j == 0 then b else ShrTimes(b, j - 1) >> 1
  }

  /** One more `>>= 1` is one more pass. */
  lemma ShrTimesNext(b: bv8, j: nat, jNext: nat, next: bv8)
    requires jNext == j + 1 && next == ShrTimes(b, j) >> 1
    ensures next == ShrTimes(b, jNext)
  {
  }

  /** j single shifts are one shift by j. */
  lemma {:induction false} ShrTimesShr(b: bv8, j: nat)
    requires j <= 8
    ensures ShrTimes(b, j) == b >> j
    decreases j
  {
    if j > 0 {
      ShrTimesShr(b, j - 1);
      ShrStep(b, j - 1);
    }
  }

  /** `tms_last & 0x1` after j shifts of the byte b is bit j of b. */
  lemma ShrTimesLow(b: bv8, j: nat)
    requires j < 8
    ensures (ShrTimes(b, j) & 1 == 1) == BitOf(b, j)
  {
    ShrTimesShr(b, j);
    LowBit(b >> j);
    ShrBit(b, j, 0);
  }

  /** Number of bytes that hold n bits. */
  function Ceil8(n: nat): nat
  {
    (n + 7) / 8
  }

  /** Bit i of a byte buffer, in wire order. */
  predicate BitAt(buf: seq<bv8>, i: nat)
    requires i < 8 * |buf|
  {
    BitOf(buf[i / 8], i % 8)
  }

  lemma BitAtCons(b: bv8, rest: seq<bv8>, i: nat)
    requires i < 8 + 8 * |rest|
    ensures BitAt([b] + rest, i) == if i < 8 then BitOf(b, i) else BitAt(rest, i - 8)
  {
    if i >= 8 {
      assert (i - 8) / 8 == i / 8 - 1 && (i - 8) % 8 == i % 8;
    }
  }

  /** The buffer that carries `bits` in wire order: ceil(|bits|/8) bytes, the
      bits of a partial last byte right-aligned and the bits above them 0. */
  function Pack(bits: seq<bool>): (r: seq<bv8>)
    ensures |r| == Ceil8(|bits|)
    decreases |bits|
  {
    if bits == [] then [] else
    var n := if |bits| < 8 then |bits| else 8;
    [ByteOf(bits[..n])] + Pack(bits[n..])
  }

  /** Bit i of `Pack(bits)` is bits[i], and the bits above the last are 0. */
  lemma {:induction false} PackBits(bits: seq<bool>)
    ensures forall i :: 0 <= i < |bits| ==> BitAt(Pack(bits), i) == bits[i]
    ensures forall i :: |bits| <= i < 8 * |Pack(bits)| ==> !BitAt(Pack(bits), i)
    decreases |bits|
  {
    if bits != [] {
      var n := if |bits| < 8 then |bits| else 8;
      var rest := bits[n..];
      PackBits(rest);
      ByteOfBits(bits[..n]);
      var r := Pack(bits);
      assert r == [ByteOf(bits[..n])] + Pack(rest);
      forall i | 0 <= i < 8 * |r|
        ensures BitAt(r, i) == (i < |bits| && bits[i])
      {
        BitAtCons(ByteOf(bits[..n]), Pack(rest), i);
        if i < n {
          assert bits[..n][i] == bits[i];
        } else if i >= 8 && i - 8 < |rest| {
          assert rest[i - 8] == bits[i];
        }
      }
    }
  }

  /** The eight bits of a byte, bit 0 first. */
  function ByteBits(b: bv8): (r: seq<bool>)
    ensures |r| == 8
  {
    [BitOf(b, 0), BitOf(b, 1), BitOf(b, 2), BitOf(b, 3), BitOf(b, 4), BitOf(b, 5), BitOf(b, 6), BitOf(b, 7)]
  }

  /** The bits of a byte buffer in wire order, byte by byte. */
  function Unpack(buf: seq<bv8>): (bits: seq<bool>)
    ensures |bits| == 8 * |buf|
  {
    if buf == [] then [] else ByteBits(buf[0]) + Unpack(buf[1..])
  }

  /** Element i of the unpacked buffer is bit i of the buffer. */
  lemma {:induction false} UnpackBits(buf: seq<bv8>)
    ensures forall i :: 0 <= i < 8 * |buf| ==> Unpack(buf)[i] == BitAt(buf, i)
  {
    if buf != [] {
      UnpackBits(buf[1..]);
      var head, rest := ByteBits(buf[0]), Unpack(buf[1..]);
      assert Unpack(buf) == head + rest;
      assert buf == [buf[0]] + buf[1..];
      forall i | 0 <= i < 8 * |buf|
        ensures Unpack(buf)[i] == BitAt(buf, i)
      {
        BitAtCons(buf[0], buf[1..], i);
        if i < 8 {
          assert Unpack(buf)[i] == head[i];
        } else {
          assert Unpack(buf)[i] == rest[i - 8];
        }
      }
    }
  }

  /** A buffer is determined by its bits: any buffer of the right length that
      carries `bits` and zeros above them is `Pack(bits)`. */
  lemma PackUnique(bits: seq<bool>, r: seq<bv8>)
    requires |r| == Ceil8(|bits|)
    requires forall i :: 0 <= i < 8 * |r| ==> BitAt(r, i) == (i < |bits| && bits[i])
    ensures r == Pack(bits)
  {
    var p := Pack(bits);
    PackBits(bits);
    forall j | 0 <= j < |r|
      ensures r[j] == p[j]
    {
      forall k | 0 <= k < 8
        ensures BitOf(r[j], k) == BitOf(p[j], k)
      {
        var i := 8 * j + k;
        assert i / 8 == j && i % 8 == k;
        assert BitAt(r, i) == BitAt(p, i);
      }
      BitsDetermine(r[j], p[j]);
    }
  }

  /** The bits of the first m bytes are the first 8 * m bits. */
  lemma {:induction false} UnpackPrefix(buf: seq<bv8>, m: nat)
    requires m <= |buf|
    ensures Unpack(buf[..m]) == Unpack(buf)[..8 * m]
  {
    if m > 0 {
      assert buf[..m][0] == buf[0] && buf[..m][1..] == buf[1..][..m - 1];
      UnpackPrefix(buf[1..], m - 1);
    }
  }

  /** Reading a buffer's bits back and packing them gives the buffer again. */
  lemma PackUnpack(buf: seq<bv8>)
    ensures Pack(Unpack(buf)) == buf
  {
    UnpackBits(buf);
    PackUnique(Unpack(buf), buf);
  }

  /** Packing whole bytes and reading the bits back gives the bits again. */
  lemma UnpackPack(bits: seq<bool>)
    requires |bits| % 8 == 0
    ensures Unpack(Pack(bits)) == bits
  {
    var u := Unpack(Pack(bits));
    PackBits(bits);
    UnpackBits(Pack(bits));
    assert Ceil8(|bits|) == |bits| / 8;
    assert |u| == |bits|;
    forall i | 0 <= i < |bits|
      ensures u[i] == bits[i]
    {
    }
  }

  /** Appending up to one byte of bits to a whole number of bytes appends one byte. */
  lemma {:induction false} PackAppendByte(s: seq<bool>, t: seq<bool>)
    requires |s| % 8 == 0 && 1 <= |t| <= 8
    ensures Pack(s + t) == Pack(s) + [ByteOf(t)]
    decreases |s|
  {
    if s == [] {
      assert s + t == t && t[..|t|] == t && t[|t|..] == [];
    } else {
      assert (s + t)[..8] == s[..8] && (s + t)[8..] == s[8..] + t;
      PackAppendByte(s[8..], t);
    }
  }

  /** Storing byte b at index p of a buffer whose first p bytes are `done`
      appends b to them. */
  lemma StoreNext(done: seq<bv8>, rest: seq<bv8>, p: nat, b: bv8)
    requires |done| == p && p < |rest|
    ensures (done + rest[p..])[p := b] == (done + [b]) + rest[p + 1..]
  {
  }

  // ---- the 64-bit scratch words, as bit sequences ----

  /** A run of n clear bits (the value 0). */
  function Zeros(n: nat): (r: seq<bool>)
    ensures |r| == n
  {
    seq(n, _ => false)
  }

  /** A run of n set bits (the value `((uint64_t)1 << n) - 1`). */
  function Ones(n: nat): (r: seq<bool>)
    ensures |r| == n
  {
    seq(n, _ => true)
  }

  /** `word | (field << pos)`: the bits of field are OR-ed in from position pos. */
  function OrAt(word: seq<bool>, pos: nat, field: seq<bool>): (r: seq<bool>)
    requires pos + |field| <= |word|
    ensures |r| == |word|
  {
    seq(|word|, i requires 0 <= i < |word| => word[i] || (pos <= i < pos + |field| && field[i - pos]))
  }

  /** Bit k of a 32-bit word. */
  predicate Bit32(x: bv32, k: nat)
    requires k < 32
  {
    (x >> k) & 1 == 1
  }

  /** The low n bits of a 32-bit word, LSB first (`x & ((1 << n) - 1)`). */
  function Low32(x: bv32, n: nat): (r: seq<bool>)
    requires n <= 32
    ensures |r| == n
  {
    seq(n, k requires 0 <= k < n => Bit32(x, k))
  }
}
