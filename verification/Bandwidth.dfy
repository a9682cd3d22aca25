/** Upstream bandwidth provisioning of CreateSched (agent/src/core_api_handler.cc). */
module Bandwidth {

  const XGS_BANDWIDTH_GRANULARITY := 16000
  const GPON_BANDWIDTH_GRANULARITY := 32000

  /** A bandwidth granularity in bytes per second: that of XGS-PON or that of GPON. */
  type Granule = g: int | g == 16000 || g == 32000 witness 16000

  /** A request field: unsigned 32 bits, in kbps. */
  type Kbps = x: int | 0 <= x < 0x1_0000_0000

  datatype AdditionalBw = NoneEligible | NonAssured | BestEffort | OtherEligibility

  datatype AllocType = AllocNone | AllocNsr

  /** The part of the alloc configuration that carries the service levels, in bytes per second. */
  datatype Sla = Sla(fixed: int, guaranteed: int, maximum: int, eligibility: AdditionalBw, allocType: AllocType)

  datatype Verdict = Accepted(sla: Sla) | InvalidParameter

  /** The 32-bit two's complement reading of x. */
  function ToInt32(x: int): (r: int)
    ensures -0x8000_0000 <= r < 0x8000_0000
    ensures -0x8000_0000 <= x < 0x8000_0000 ==> r == x
  {
    var m := x % 0x1_0000_0000;
    if m < 0x8000_0000 then m else m - 0x1_0000_0000
  }

  /** A reading differs from the value read by whole turns of 2^32. */
  lemma ReadingTurns(x: int) returns (k: int)
    ensures ToInt32(x) == x + k * 0x1_0000_0000
  {
    k := if x % 0x1_0000_0000 < 0x8000_0000 then -(x / 0x1_0000_0000) else -(x / 0x1_0000_0000) - 1;
  }

  /** x modulo g; each divisor is written out, so that the arithmetic stays linear. */
  function Mod(x: int, g: Granule): (r: int)
    ensures 0 <= r < g
  {
    if g == 16000 then x % 16000 else x % 32000
  }

  /** C++ remainder: truncates towards zero. */
  function Remainder(x: int, g: Granule): (r: int)
    ensures x >= 0 ==> r == Mod(x, g)
    ensures r < g && -r < g
  {
    if x >= 0 then Mod(x, g) else -Mod(-x, g)
  }

  function Granularity(xgsPon: bool): Granule {
    if xgsPon then XGS_BANDWIDTH_GRANULARITY else GPON_BANDWIDTH_GRANULARITY
  }

  predicate IsMultiple(x: int, g: Granule) {
    Mod(x, g) == 0
  }

  /** What the agent makes of a rate: it subtracts the remainder. */
  function Round(x: int, g: Granule): int {
    x - Remainder(x, g)
  }

  /** y is x rounded down to the granularity. */
  predicate RoundedDown(y: int, x: int, g: Granule) {
    IsMultiple(y, g) && y <= x < y + g
  }

  /** What an accepted request should get: each rate of the request rounded down, and in order. */
  predicate Faithful(sla: Sla, cir: Kbps, pir: Kbps, gir: Kbps, g: Granule) {
    && RoundedDown(sla.fixed, gir * 125, g)
    && RoundedDown(sla.guaranteed, (cir + gir) * 125, g)
    && RoundedDown(sla.maximum, pir * 125, g)
    && 0 <= sla.fixed <= sla.guaranteed <= sla.maximum
    && g <= sla.maximum
  }

  /** No kbps-to-bytes product and no sum of two of them leaves the range of a 32-bit int. */
  predicate Fits(cir: Kbps, pir: Kbps, gir: Kbps) {
    pir * 125 < 0x8000_0000 && (cir + gir) * 125 < 0x8000_0000
  }

  lemma RoundIsRoundedDown(x: int, g: Granule)
    requires 0 <= x
    ensures RoundedDown(Round(x, g), x, g)
    ensures 0 <= Round(x, g)
  {
  }

  lemma MultiplesAreApart(a: int, b: int, g: Granule)
    requires IsMultiple(a, g) && IsMultiple(b, g) && a < b
    ensures a + g <= b
  {
  }

  lemma RoundingIsMonotone(x: int, y: int, a: int, b: int, g: Granule)
    requires RoundedDown(a, x, g) && RoundedDown(b, y, g) && x <= y
    ensures a <= b
  {
    if b < a {
      MultiplesAreApart(b, a, g);
    }
  }

  /** The upstream branch: conversion, rounding, checks and the service levels it configures. */
  method ProvisionUpstream(xgsPon: bool, cir: Kbps, pir: Kbps, gir: Kbps, additionalBw: AdditionalBw) returns (v: Verdict)
    ensures v == Provision(xgsPon, cir, pir, gir, additionalBw)
  {
    var bwGranularity := Granularity(xgsPon);
    var pirBw := ToInt32(pir * 125);
    var cirBw := ToInt32(cir * 125);
    var girBw := ToInt32(gir * 125);
    var guaranteedBw := ToInt32(cirBw + girBw);
    var offsetPirBw := Remainder(pirBw, bwGranularity);
    var offsetGirBw := Remainder(girBw, bwGranularity);
    var offsetGuaranteedBw := Remainder(guaranteedBw, bwGranularity);
    pirBw := pirBw - offsetPirBw;
    girBw := girBw - offsetGirBw;
    guaranteedBw := guaranteedBw - offsetGuaranteedBw;
    if pirBw == 0 {
      return InvalidParameter;
    } else if pirBw < guaranteedBw {
      return InvalidParameter;
    }
    match additionalBw {
      case BestEffort =>
        if pirBw == guaranteedBw {
          return InvalidParameter;
        }
      case NonAssured =>
        if guaranteedBw == 0 {
          return InvalidParameter;
        } else if pirBw == guaranteedBw {
          return InvalidParameter;
        }
      case NoneEligible =>
        if guaranteedBw != pirBw {
          return InvalidParameter;
        }
      case OtherEligibility =>
        return InvalidParameter;
    }
    var allocType := if pirBw == girBw then AllocNone else AllocNsr;
    v := Accepted(Sla(girBw, guaranteedBw, pirBw, additionalBw, allocType));
  }

  /** Whether the three rounded rates suit the requested eligibility for additional bandwidth. */
  predicate Eligible(guaranteed: int, maximum: int, additionalBw: AdditionalBw) {
    && maximum != 0
    && guaranteed <= maximum
    && match additionalBw {
         case BestEffort => guaranteed < maximum
         case NonAssured => guaranteed != 0 && guaranteed < maximum
         case NoneEligible => guaranteed == maximum
         case OtherEligibility => false
       }
  }

  /** The fixed, guaranteed and maximum rate after conversion and rounding. */
  datatype Rates = Rates(fixed: int, guaranteed: int, maximum: int)

  function RatesOf(cir: Kbps, pir: Kbps, gir: Kbps, g: Granule): Rates {
    Rates(Round(ToInt32(gir * 125), g),
          Round(ToInt32(ToInt32(cir * 125) + ToInt32(gir * 125)), g),
          Round(ToInt32(pir * 125), g))
  }

  function Provision(xgsPon: bool, cir: Kbps, pir: Kbps, gir: Kbps, additionalBw: AdditionalBw): Verdict {
    Decide(RatesOf(cir, pir, gir, Granularity(xgsPon)), additionalBw)
  }

  function Decide(r: Rates, additionalBw: AdditionalBw): Verdict {
    if Eligible(r.guaranteed, r.maximum, additionalBw) then
      Accepted(Sla(r.fixed, r.guaranteed, r.maximum, additionalBw, if r.maximum == r.fixed then AllocNone else AllocNsr))
    else InvalidParameter
  }

  lemma AcceptedFits(xgsPon: bool, cir: Kbps, pir: Kbps, gir: Kbps, additionalBw: AdditionalBw)
    requires Provision(xgsPon, cir, pir, gir, additionalBw).Accepted?
    requires Fits(cir, pir, gir)
    ensures Faithful(Provision(xgsPon, cir, pir, gir, additionalBw).sla, cir, pir, gir, Granularity(xgsPon))
  {
    var g := Granularity(xgsPon);
    RatesWithoutOverflow(cir, pir, gir, g);
    var fixed, guaranteed, maximum := Round(gir * 125, g), Round((cir + gir) * 125, g), Round(pir * 125, g);
    RoundIsRoundedDown(gir * 125, g);
    RoundIsRoundedDown((cir + gir) * 125, g);
    RoundIsRoundedDown(pir * 125, g);
    RoundingIsMonotone(gir * 125, (cir + gir) * 125, fixed, guaranteed, g);
    assert IsMultiple(0, g);
    MultiplesAreApart(0, maximum, g);
  }

  /** Without overflow the rates are the requested ones, rounded. */
  lemma RatesWithoutOverflow(cir: Kbps, pir: Kbps, gir: Kbps, g: Granule)
    requires Fits(cir, pir, gir)
    ensures RatesOf(cir, pir, gir, g) == Rates(Round(gir * 125, g), Round((cir + gir) * 125, g), Round(pir * 125, g))
  {
    var c, f, p := cir * 125, gir * 125, pir * 125;
    assert ToInt32(c) == c && ToInt32(f) == f && ToInt32(p) == p;
    assert ToInt32(c + f) == c + f == (cir + gir) * 125;
  }

  /** A 32-bit reading less than g away from the true value is the true value. */
  lemma NearReadingIsExact(x: int, y: int, z: int, g: Granule)
    requires 0 <= x
    requires y == ToInt32(x) && z == Round(y, g)
    requires z <= x < z + g
    ensures x < 0x8000_0000
  {
    var k := ReadingTurns(x);
    assert y - z < g && z - y < g;
  }

  lemma SumReading(c: int, r: int)
    ensures ToInt32(ToInt32(c) + ToInt32(r)) == ToInt32(c + r)
  {
    var i := ReadingTurns(c);
    var j := ReadingTurns(r);
    SameReading(c + r, i + j);
  }

  lemma SameReading(x: int, k: int)
    ensures ToInt32(x + k * 0x1_0000_0000) == ToInt32(x)
  {
    assert (x + k * 0x1_0000_0000) % 0x1_0000_0000 == x % 0x1_0000_0000;
  }

  /**
   * An accepted request is configured faithfully - every rate the requested one rounded down by less than the
   * granularity, with 0 <= fixed <= guaranteed <= maximum and maximum at least one unit - exactly when the 32-bit
   * arithmetic does not overflow.
   */
  lemma AcceptedIsFaithfulIffNoOverflow(xgsPon: bool, cir: Kbps, pir: Kbps, gir: Kbps, additionalBw: AdditionalBw)
    requires Provision(xgsPon, cir, pir, gir, additionalBw).Accepted?
    ensures Faithful(Provision(xgsPon, cir, pir, gir, additionalBw).sla, cir, pir, gir, Granularity(xgsPon))
       <==> Fits(cir, pir, gir)
  {
    var g := Granularity(xgsPon);
    var sla := Provision(xgsPon, cir, pir, gir, additionalBw).sla;
    if Fits(cir, pir, gir) {
      AcceptedFits(xgsPon, cir, pir, gir, additionalBw);
    } else if Faithful(sla, cir, pir, gir, g) {
      SumReading(cir * 125, gir * 125);
      assert cir * 125 + gir * 125 == (cir + gir) * 125;
      NearReadingIsExact(pir * 125, ToInt32(pir * 125), sla.maximum, g);
      NearReadingIsExact((cir + gir) * 125, ToInt32((cir + gir) * 125), sla.guaranteed, g);
    }
  }

  /**
   * Accepted requests that overflow: a committed rate above the maximum, by about 2^32 bytes per second, reads as one
   * below it and passes; 38 Gbps committed under a maximum of 16 Gbps, for instance.
   */
  lemma OverflowIsAccepted(xgsPon: bool, cir: Kbps, pir: Kbps)
    requires pir * 125 < 0x8000_0000
    requires 0x1_0000_0000 <= cir * 125 < 0x1_0000_0000 + pir * 125 - Granularity(xgsPon)
    ensures var v := Provision(xgsPon, cir, pir, 0, BestEffort);
            v.Accepted? && !Faithful(v.sla, cir, pir, 0, Granularity(xgsPon)) && v.sla.guaranteed < cir * 125 - 0x8000_0000
  {
    var g := Granularity(xgsPon);
    var read := cir * 125 - 0x1_0000_0000;
    SameReading(read, 1);
    assert ToInt32(cir * 125) == read;
    RoundIsRoundedDown(read, g);
    RoundIsRoundedDown(pir * 125, g);
    assert RatesOf(cir, pir, 0, g) == Rates(0, Round(read, g), Round(pir * 125, g)) by {
      assert Round(ToInt32(0), g) == 0;
      assert ToInt32(read + 0) == read;
    }
    AcceptedIsFaithfulIffNoOverflow(xgsPon, cir, pir, 0, BestEffort);
  }

  lemma RoundsBelowIff(x: int, y: int, g: Granule)
    requires 0 <= x && 0 <= y
    ensures Round(x, g) < Round(y, g) <==> x < y - Mod(y, g)
    ensures Round(x, g) == Round(y, g) <==> y - Mod(y, g) <= x < y - Mod(y, g) + g
  {
    RoundIsRoundedDown(x, g);
    RoundIsRoundedDown(y, g);
    if Round(x, g) < Round(y, g) {
      MultiplesAreApart(Round(x, g), Round(y, g), g);
    }
    if Round(y, g) < Round(x, g) {
      MultiplesAreApart(Round(y, g), Round(x, g), g);
    }
  }

  /**
   * Which requests that fit are accepted, by the whole units of granularity in the maximum rate. Best effort leaves room
   * above the guaranteed rate, and so does non-assured, which also needs one guaranteed unit; without additional
   * bandwidth the guaranteed rate fills those units and the maximum has at least one. No other eligibility will do.
   */
  lemma AcceptedIff(xgsPon: bool, cir: Kbps, pir: Kbps, gir: Kbps, additionalBw: AdditionalBw)
    requires Fits(cir, pir, gir)
    ensures var g := Granularity(xgsPon);
            var units := pir * 125 - Mod(pir * 125, g);
            var guaranteed := (cir + gir) * 125;
            Provision(xgsPon, cir, pir, gir, additionalBw).Accepted? <==>
              || (additionalBw == BestEffort && guaranteed < units)
              || (additionalBw == NonAssured && g <= guaranteed < units)
              || (additionalBw == NoneEligible && g <= pir * 125 && units <= guaranteed < units + g)
  {
    var g := Granularity(xgsPon);
    RatesWithoutOverflow(cir, pir, gir, g);
    RoundIsRoundedDown((cir + gir) * 125, g);
    RoundsBelowIff((cir + gir) * 125, pir * 125, g);
    RoundsToZeroIff((cir + gir) * 125, g);
    RoundsToZeroIff(pir * 125, g);
  }

  /** What an accepted request is configured with; the rates are left to AcceptedIsFaithfulIffNoOverflow. */
  lemma AcceptedWith(xgsPon: bool, cir: Kbps, pir: Kbps, gir: Kbps, additionalBw: AdditionalBw)
    requires Provision(xgsPon, cir, pir, gir, additionalBw).Accepted?
    ensures var sla := Provision(xgsPon, cir, pir, gir, additionalBw).sla;
            && sla.eligibility == additionalBw != OtherEligibility
            && (sla.allocType == AllocNone <==> sla.maximum == sla.fixed)
            && (sla.guaranteed == sla.maximum <==> additionalBw == NoneEligible)
  {
  }

  /** A request is accepted with alloc type NONE. */
  predicate AcceptedWithNone(xgsPon: bool, cir: Kbps, pir: Kbps, gir: Kbps, additionalBw: AdditionalBw) {
    var v := Provision(xgsPon, cir, pir, gir, additionalBw);
    v.Accepted? && v.sla.allocType == AllocNone
  }

  /**
   * Alloc type NONE is for exactly the requests without additional bandwidth whose maximum, fixed and guaranteed rates
   * round to the same positive multiple of the granularity.
   */
  lemma AllocTypeNoneIff(xgsPon: bool, cir: Kbps, pir: Kbps, gir: Kbps, additionalBw: AdditionalBw)
    requires Fits(cir, pir, gir)
    ensures var g := Granularity(xgsPon);
            AcceptedWithNone(xgsPon, cir, pir, gir, additionalBw) <==>
              && additionalBw == NoneEligible && g <= pir * 125
              && Round(pir * 125, g) == Round(gir * 125, g) == Round((cir + gir) * 125, g)
  {
    var g := Granularity(xgsPon);
    RatesWithoutOverflow(cir, pir, gir, g);
    RoundIsRoundedDown(gir * 125, g);
    RoundIsRoundedDown((cir + gir) * 125, g);
    RoundIsRoundedDown(pir * 125, g);
    var fixed, guaranteed, maximum := Round(gir * 125, g), Round((cir + gir) * 125, g), Round(pir * 125, g);
    RoundingIsMonotone(gir * 125, (cir + gir) * 125, fixed, guaranteed, g);
    RoundsToZeroIff(pir * 125, g);
    DecidesNoneIff(Rates(fixed, guaranteed, maximum), additionalBw);
  }

  lemma RoundsToZeroIff(x: int, g: Granule)
    requires 0 <= x
    ensures Round(x, g) == 0 <==> x < g
  {
  }

  lemma DecidesNoneIff(r: Rates, additionalBw: AdditionalBw)
    requires r.fixed <= r.guaranteed
    ensures var v := Decide(r, additionalBw);
            v.Accepted? && v.sla.allocType == AllocNone <==>
              additionalBw == NoneEligible && r.maximum != 0 && r.maximum == r.fixed == r.guaranteed
  {
  }

  /** Adding c does not change what x rounds to exactly when c fits into what x leaves of its last unit. */
  lemma SumRoundsAlikeIff(x: int, c: int, g: Granule)
    requires 0 <= x && 0 <= c
    ensures Round(x + c, g) == Round(x, g) <==> c < g - Mod(x, g)
  {
    RoundIsRoundedDown(x, g);
    RoundIsRoundedDown(x + c, g);
    RoundingIsMonotone(x, x + c, Round(x, g), Round(x + c, g), g);
    if Round(x, g) < Round(x + c, g) {
      MultiplesAreApart(Round(x, g), Round(x + c, g), g);
    }
  }

  /**
   * Alloc type NONE comes with a committed rate, against the source's comment, exactly when that rate fits into what
   * the fixed rate leaves of its last unit, and the maximum is the fixed rate up to that unit.
   */
  lemma AllocTypeNoneWithCommittedRateIff(xgsPon: bool, cir: Kbps, pir: Kbps, gir: Kbps, additionalBw: AdditionalBw)
    requires Fits(cir, pir, gir)
    ensures var g := Granularity(xgsPon);
            AcceptedWithNone(xgsPon, cir, pir, gir, additionalBw) && cir != 0 <==>
              && additionalBw == NoneEligible && g <= pir * 125
              && Round(pir * 125, g) == Round(gir * 125, g)
              && 0 < cir * 125 < g - Mod(gir * 125, g)
  {
    AllocTypeNoneIff(xgsPon, cir, pir, gir, additionalBw);
    SumRoundsAlikeIff(gir * 125, cir * 125, Granularity(xgsPon));
    assert cir * 125 + gir * 125 == (cir + gir) * 125;
  }

  /** So alloc type NONE only goes with no additional bandwidth and a committed rate below one unit of granularity. */
  lemma AllocTypeNoneMeansFixedOnly(xgsPon: bool, cir: Kbps, pir: Kbps, gir: Kbps, additionalBw: AdditionalBw)
    requires Fits(cir, pir, gir) && AcceptedWithNone(xgsPon, cir, pir, gir, additionalBw)
    ensures additionalBw == NoneEligible && cir * 125 < Granularity(xgsPon)
  {
    AllocTypeNoneWithCommittedRateIff(xgsPon, cir, pir, gir, additionalBw);
    AllocTypeNoneIff(xgsPon, cir, pir, gir, additionalBw);
  }

  /** For instance 128 kbps fixed and maximum, and 1 kbps committed. */
  lemma AllocTypeNoneWithCommittedRate()
    ensures AcceptedWithNone(true, 1, 128, 128, NoneEligible)
  {
    AllocTypeNoneWithCommittedRateIff(true, 1, 128, 128, NoneEligible);
  }
}
