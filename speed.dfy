/** Speed-tier selection of `vsfhal_jtag_config`: which pair of shift routines
    and which busy-wait routine a requested TCK rate gets.
 */
module Speed {

  datatype Option<T> = None | Some(value: T)

  /** The pair of shift routines `jtag_rw`/`jtag_rw_dr` point to: the
      unthrottled `jtag_rw_quick`/`jtag_rw_dr_quick`, whose loops contain no
      delay call, or the throttled `jtag_rw_slow`/`jtag_rw_dr_slow`. */
  datatype Engine = Quick | Slow

  /** The busy-wait routine `jtag_delay` points to, named after the TCK band
      it was calibrated for; NoDelay is the NULL pointer. */
  datatype Delay = NoDelay | Delay2000_1500 | Delay1000_750 | Delay500_375 | Delay250_188

  datatype Tier = Tier(engine: Engine, delay: Delay)

  /** The lowest requested rate, in kHz, for which a delay routine is used. */
  function Threshold(d: Delay): nat
  {
    match d
    case NoDelay => 3000
    case Delay2000_1500 => 1500
    case Delay1000_750 => 750
    case Delay500_375 => 375
    case Delay250_188 => 0
  }

  /** The tier chosen for a requested rate of kHz: the fastest tier whose
      threshold the rate reaches, with the unthrottled routines exactly when
      there is no delay routine. */
  function SelectTier(kHz: nat): (t: Tier)
    ensures t.engine == Quick <==> t.delay == NoDelay
    ensures Threshold(t.delay) <= kHz
    ensures forall d :: Threshold(d) <= kHz ==> Threshold(d) <= Threshold(t.delay)
  {
    if kHz >= 3000 then Tier(Quick, NoDelay)
    else if kHz >= 1500 then Tier(Slow, Delay2000_1500)
    else if kHz >= 750 then Tier(Slow, Delay1000_750)
    else if kHz >= 375 then Tier(Slow, Delay500_375)
    else Tier(Slow, Delay250_188)
  }

  /** The selection table, band by band. */
  lemma TierBands(kHz: nat)
    ensures SelectTier(kHz) == Tier(Quick, NoDelay) <==> kHz >= 3000
    ensures SelectTier(kHz) == Tier(Slow, Delay2000_1500) <==> 1500 <= kHz < 3000
    ensures SelectTier(kHz) == Tier(Slow, Delay1000_750) <==> 750 <= kHz < 1500
    ensures SelectTier(kHz) == Tier(Slow, Delay500_375) <==> 375 <= kHz < 750
    ensures SelectTier(kHz) == Tier(Slow, Delay250_188) <==> kHz < 375
  {
  }

  /** A faster request never gets a slower tier. */
  lemma TierMonotone(slower: nat, faster: nat)
    requires slower <= faster
    ensures Threshold(SelectTier(slower).delay) <= Threshold(SelectTier(faster).delay)
  {
  }

  /** `delay_tick`: the bus clock divided by twice the requested rate in Hz
      (one tick count per half TCK cycle), stored in a 16-bit field. */
  function DelayTick(apbHz: nat, kHz: nat): (r: nat)
    requires kHz > 0
    ensures r < 0x1_0000
  {
    (apbHz / (kHz * 2000)) % 0x1_0000
  }

  /** The tick is the number of whole half periods, kHz * 2000 bus cycles
      each, in apbHz bus cycles, wrapped to 16 bits: for the q with
      q half periods fitting and q + 1 not, delay_tick is q mod 2^16. */
  lemma DelayTickQuotient(apbHz: nat, kHz: nat, q: nat)
    requires kHz > 0
    requires q * (kHz * 2000) <= apbHz < (q + 1) * (kHz * 2000)
    ensures DelayTick(apbHz, kHz) == q % 0x1_0000
    ensures q < 0x1_0000 ==> DelayTick(apbHz, kHz) == q
  {
    DivUnique(apbHz, kHz * 2000, q);
  }

  /** Integer division is the unique q with q * d <= n < (q + 1) * d. */
  lemma DivUnique(n: nat, d: nat, q: nat)
    requires d > 0 && q * d <= n < (q + 1) * d
    ensures n / d == q
  {
    var a := n / d;
    assert n == a * d + n % d;
    if a < q {
      MulMono(a + 1, q, d);
      assert false;
    } else if a > q {
      MulMono(q + 1, a, d);
      assert false;
    }
  }

  lemma MulMono(x: nat, y: nat, d: nat)
    requires x <= y
    ensures x * d <= y * d
  {
  }
}
