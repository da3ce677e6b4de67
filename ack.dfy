/** Decoding the answer of a DR scan: the three-bit acknowledge that the
    JTAG-DP shifts out after the bypass bits, its translation to CMSIS-DAP
    response codes, the data word behind it, and the WAIT retry policy.
 */
module Ack {
  import opened Bits

  /** CMSIS-DAP transfer response codes. */
  const DAP_TRANSFER_OK: bv8 := 1
  const DAP_TRANSFER_WAIT: bv8 := 2

  /** `(word >> pos) & 0x7`: three bits of a scratch word as a number. */
  function Field3(word: seq<bool>, pos: nat): (r: bv8)
    requires pos + 3 <= |word|
    ensures r < 8
    ensures BitOf(r, 0) == word[pos] && BitOf(r, 1) == word[pos + 1] && BitOf(r, 2) == word[pos + 2]
  {
    (if word[pos] then 1 else 0) | (if word[pos + 1] then 2 else 0) | (if word[pos + 2] then 4 else 0)
  }

  /** Exchanges bits 0 and 1 and keeps bit 2: the JTAG-DP acknowledge puts WAIT
      in bit 0 and OK/FAULT in bit 1, CMSIS-DAP the other way round. */
  function AckSwap(ack: bv8): (r: bv8)
    ensures ack < 8 ==> r < 8
    ensures BitOf(r, 0) == BitOf(ack, 1) && BitOf(r, 1) == BitOf(ack, 0) && BitOf(r, 2) == BitOf(ack, 2)
  {
    (ack & 0x4) | ((ack & 0x2) >> 1) | ((ack & 0x1) << 1)
  }

  /** Swapping twice gives back a three-bit acknowledge. */
  lemma AckSwapInvolution(ack: bv8)
    requires ack < 8
    ensures AckSwap(AckSwap(ack)) == ack
  {
  }

  /** The JTAG-DP codes WAIT (0b001) and OK/FAULT (0b010) become the CMSIS-DAP
      codes WAIT and OK; FAULT (0b100) keeps its value. */
  lemma AckSwapCodes()
    ensures AckSwap(1) == DAP_TRANSFER_WAIT
    ensures AckSwap(2) == DAP_TRANSFER_OK
    ensures AckSwap(4) == 4
  {
  }

  /** The response code of a DR scan whose TDO samples are `tdo`, with
      dr_before bypass bits ahead of the acknowledge. */
  function DecodeAck(tdo: seq<bool>, drBefore: nat): (r: bv8)
    requires drBefore + 6 <= |tdo|
    ensures r < 8
    ensures r == DAP_TRANSFER_WAIT <==> tdo[drBefore + 3] && !tdo[drBefore + 4] && !tdo[drBefore + 5]
    ensures r == DAP_TRANSFER_OK <==> !tdo[drBefore + 3] && tdo[drBefore + 4] && !tdo[drBefore + 5]
    ensures BitOf(r, 0) == tdo[drBefore + 4] && BitOf(r, 1) == tdo[drBefore + 3] && BitOf(r, 2) == tdo[drBefore + 5]
  {
    var r := AckSwap(Field3(tdo, drBefore + 3));
    assert r == DAP_TRANSFER_WAIT <==> BitOf(r, 1) && !BitOf(r, 0) && !BitOf(r, 2) by {
      if BitOf(r, 1) && !BitOf(r, 0) && !BitOf(r, 2) {
        BitsDetermine(r, DAP_TRANSFER_WAIT);
      }
    }
    assert r == DAP_TRANSFER_OK <==> BitOf(r, 0) && !BitOf(r, 1) && !BitOf(r, 2) by {
      if BitOf(r, 0) && !BitOf(r, 1) && !BitOf(r, 2) {
        BitsDetermine(r, DAP_TRANSFER_OK);
      }
    }
    r
  }

  /** `buf_tdo >> (dr_before + 6)` stored little-endian as four bytes: the 32
      TDO samples after the acknowledge, the first one in bit 0 of byte 0. */
  function ResultBytes(tdo: seq<bool>, drBefore: nat): (r: seq<bv8>)
    requires drBefore + 38 <= |tdo|
    ensures |r| == 4
    ensures forall i :: 0 <= i < 32 ==> BitAt(r, i) == tdo[drBefore + 6 + i]
  {
    var r := Pack(tdo[drBefore + 6..drBefore + 38]);
    PackBits(tdo[drBefore + 6..drBefore + 38]);
    forall i | 0 <= i < 32
      ensures BitAt(r, i) == tdo[drBefore + 6 + i]
    {
      assert tdo[drBefore + 6..drBefore + 38][i] == tdo[drBefore + 6 + i];
    }
    r
  }

  // ------------------------------------------------------------- retries

  /** The number of scans the retry loop makes, counting from scan k, when scan
      j answers ackAt(j): it stops at the first answer other than WAIT and
      after scan number `limit` (counting from 0) at the latest. */
  function ScanCount(ackAt: nat -> bv8, limit: nat, k: nat): (r: nat)
    requires k <= limit
    ensures k < r <= limit + 1
    ensures forall j :: k <= j < r - 1 ==> ackAt(j) == DAP_TRANSFER_WAIT
    ensures ackAt(r - 1) != DAP_TRANSFER_WAIT || r == limit + 1
    decreases limit - k
  {
    if ackAt(k) != DAP_TRANSFER_WAIT || k == limit then k + 1
    else ScanCount(ackAt, limit, k + 1)
  }

  /** The count is the only one with those properties: a run of r scans that
      are all WAIT but the last, which is not WAIT unless the limit is reached,
      is exactly what the loop does. */
  lemma ScanCountUnique(ackAt: nat -> bv8, limit: nat, r: nat)
    requires 1 <= r <= limit + 1
    requires forall j :: 0 <= j < r - 1 ==> ackAt(j) == DAP_TRANSFER_WAIT
    requires ackAt(r - 1) != DAP_TRANSFER_WAIT || r == limit + 1
    ensures ScanCount(ackAt, limit, 0) == r
  {
  }

  /** A target that always answers WAIT gets retry_limit + 1 scans, and the
      last answer, the one returned, is WAIT. */
  lemma AlwaysWait(ackAt: nat -> bv8, limit: nat)
    requires forall j :: ackAt(j) == DAP_TRANSFER_WAIT
    ensures ScanCount(ackAt, limit, 0) == limit + 1
    ensures ackAt(ScanCount(ackAt, limit, 0) - 1) == DAP_TRANSFER_WAIT
  {
  }

  /** A first answer other than WAIT is taken at once, whatever the limit. */
  lemma FirstAnswerTaken(ackAt: nat -> bv8, limit: nat)
    requires ackAt(0) != DAP_TRANSFER_WAIT
    ensures ScanCount(ackAt, limit, 0) == 1
  {
  }

  /** With a retry limit of 0 there is exactly one scan. */
  lemma NoRetry(ackAt: nat -> bv8)
    ensures ScanCount(ackAt, 0, 0) == 1
  {
  }
}
