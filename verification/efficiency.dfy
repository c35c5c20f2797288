/**
 * The diminishing-returns classification of a stat value against its
 * (soft, hard) cap pair. The source returns the floats 1.0, 0.5 and 0.1;
 * here they are an enumeration with their value in tenths.
 */
module Efficiency {
  import opened Stats
  import opened Datastore

  datatype Efficiency = Full | Half | Tenth

  /** The multiplier in tenths: 1.0, 0.5 and 0.1. */
  function Tenths(e: Efficiency): nat {
    match e
    case Full => 10
    case Half => 5
    case Tenth => 1
  }

  /** The source's `efficiency >= 0.5` test. */
  predicate AtLeastHalf(e: Efficiency) {
    Tenths(e) >= 5
  }

  /** Efficiency of `value` for `stat`: full below the soft cap, half from
      the soft cap up to the hard cap, a tenth from the hard cap on. */
  function StatEfficiency(stat: Stat, value: int): (e: Efficiency)
    ensures e == Full <==> value < CapsOf(stat).soft
    ensures e == Half <==> CapsOf(stat).soft <= value < CapsOf(stat).hard
    ensures e == Tenth <==> CapsOf(stat).hard <= value
    ensures Tenths(e) > 0
  {
    CapTableOrdered();
    var caps := CapsOf(stat);
    if value < caps.soft then Full
    else if value < caps.hard then Half
    else Tenth
  }

  /** The `>= 0.5` guard admits a value exactly when it is below the hard cap. */
  lemma AtLeastHalfBelowHardCap(stat: Stat, value: int)
    ensures AtLeastHalf(StatEfficiency(stat, value)) <==> value < CapsOf(stat).hard
  {
  }

  /** The `>= 0.1` guard admits every value: efficiency never falls below a tenth. */
  lemma EfficiencyAtLeastTenth(stat: Stat, value: int)
    ensures Tenths(StatEfficiency(stat, value)) >= 1
  {
  }

  /** Efficiency never rises as a stat grows. */
  lemma EfficiencyNonIncreasing(stat: Stat, v: int, w: int)
    requires v <= w
    ensures Tenths(StatEfficiency(stat, w)) <= Tenths(StatEfficiency(stat, v))
  {
  }
}
