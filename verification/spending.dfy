/**
 * The two per-group spending steps of the weighted phase: filling stats up
 * to their soft caps, and spreading points evenly, one per stat per sweep.
 * Each returns the new block and the number of points it spent.
 */
module Spending {
  import opened Stats
  import opened Datastore
  import opened Efficiency

  /** Fills `stats` in order, each up to its soft cap, while the points spent
      so far (`spent`) are below `maxPoints`. */
  function FillFrom(b: StatBlock, stats: seq<Stat>, maxPoints: int, spent: int): (r: (StatBlock, int))
    requires 0 <= spent
    ensures Dominates(r.0, b)
    ensures r.1 - spent == r.0.Sum() - b.Sum()
    ensures spent <= r.1 <= Max(maxPoints, spent)
    ensures forall s: Stat :: r.0.Get(s) > b.Get(s) ==> r.0.Get(s) <= CapsOf(s).soft
    ensures forall s: Stat :: s !in stats ==> r.0.Get(s) == b.Get(s)
    ensures r.1 < maxPoints ==> forall s :: s in stats ==> r.0.Get(s) >= CapsOf(s).soft
    decreases |stats|
  {
    if |stats| == 0 || spent >= maxPoints then (b, spent)
    else
      var s := stats[0];
      var current := b.Get(s);
      var soft := CapsOf(s).soft;
      if current < soft then
        var toSpend := Min(soft - current, maxPoints - spent);
        FillFrom(b.With(s, current + toSpend), stats[1..], maxPoints, spent + toSpend)
      else
        FillFrom(b, stats[1..], maxPoints, spent)
  }

  /** Brings each listed stat up to its soft cap, in list order, spending at
      most `maxPoints`. Returns the block and the points spent. */
  function DistributeToSoftCaps(b: StatBlock, stats: seq<Stat>, maxPoints: int): (r: (StatBlock, int))
    ensures Dominates(r.0, b)
    ensures r.1 == r.0.Sum() - b.Sum()
    ensures 0 <= r.1 <= Max(maxPoints, 0)
    ensures forall s: Stat :: r.0.Get(s) > b.Get(s) ==> r.0.Get(s) <= CapsOf(s).soft
    ensures forall s: Stat :: b.Get(s) >= CapsOf(s).soft ==> r.0.Get(s) == b.Get(s)
    ensures forall s: Stat :: s !in stats ==> r.0.Get(s) == b.Get(s)
    ensures r.1 < maxPoints ==> forall s :: s in stats ==> r.0.Get(s) >= CapsOf(s).soft
    ensures maxPoints <= 0 ==> r == (b, 0)
  {
    var r := FillFrom(b, stats, maxPoints, 0);
    DominatesSameSumIsEqual(r.0, b);
    r
  }

  /** One reverse sweep over positions `i - 1` down to `0`, one point each,
      until `left` points have been granted. The source's test
      `efficiency >= 0.1` always passes (see `EfficiencyAtLeastTenth`), so
      the branch that removes a stat from the sweep never runs and is omitted. */
  function Sweep(b: StatBlock, stats: seq<Stat>, i: nat, left: int): (r: (StatBlock, int))
    requires i <= |stats|
    ensures Dominates(r.0, b)
    ensures r.1 == r.0.Sum() - b.Sum()
    ensures r.1 == Max(0, Min(i, left))
    ensures forall s: Stat :: s !in stats[..i] ==> r.0.Get(s) == b.Get(s)
    decreases i
  {
    if i == 0 || left <= 0 then (b, 0)
    else
      var r1 := Sweep(b.Bump(stats[i - 1]), stats, i - 1, left - 1);
      (r1.0, r1.1 + 1)
  }

  /** Repeats sweeps until `left` points are granted or a sweep grants none. */
  function Rounds(b: StatBlock, stats: seq<Stat>, left: int): (r: (StatBlock, int))
    ensures Dominates(r.0, b)
    ensures r.1 == r.0.Sum() - b.Sum()
    ensures r.1 == (if |stats| == 0 then 0 else Max(0, left))
    ensures forall s: Stat :: s !in stats ==> r.0.Get(s) == b.Get(s)
    decreases if left > 0 then left else 0
  {
    if left <= 0 || |stats| == 0 then (b, 0)
    else
      var r1 := Sweep(b, stats, |stats|, left);
      if r1.1 == 0 then (b, 0)
      else
        var r2 := Rounds(r1.0, stats, left - r1.1);
        (r2.0, r1.1 + r2.1)
  }

  /** Spreads `maxPoints` over `stats` one point per stat per sweep, each
      sweep visiting the list from its last entry to its first. With a
      non-empty list and a non-negative budget it spends exactly the budget. */
  function DistributeEvenly(b: StatBlock, stats: seq<Stat>, maxPoints: int): (r: (StatBlock, int))
    ensures Dominates(r.0, b)
    ensures r.1 == r.0.Sum() - b.Sum()
    ensures |stats| > 0 && maxPoints >= 0 ==> r.1 == maxPoints
    ensures |stats| == 0 || maxPoints <= 0 ==> r == (b, 0)
    ensures forall s: Stat :: s !in stats ==> r.0.Get(s) == b.Get(s)
  {
    var r := Rounds(b, stats, maxPoints);
    DominatesSameSumIsEqual(r.0, b);
    r
  }

  /** The share of position `i` when `m` points are spread over `n` stats by
      reverse sweeps: every position gets `m / n`, and the last `m % n`
      positions get one more. */
  function EvenShare(n: nat, m: nat, i: nat): nat
    requires n > 0
  {
    m / n + (if i >= n - m % n then 1 else 0)
  }

  /** On a list without repeats, one sweep raises exactly the positions
      `i - g .. i - 1` by one, where `g` is the number of points it grants. */
  lemma {:induction false} SweepPositions(b: StatBlock, stats: seq<Stat>, i: nat, left: int)
    requires i <= |stats| && Distinct(stats)
    ensures var r := Sweep(b, stats, i, left).0;
            forall j :: 0 <= j < |stats| ==>
              r.Get(stats[j]) == b.Get(stats[j]) + (if i - Max(0, Min(i, left)) <= j < i then 1 else 0)
    decreases i
  {
    if i > 0 && left > 0 {
      var b1 := b.Bump(stats[i - 1]);
      SweepPositions(b1, stats, i - 1, left - 1);
      forall j | 0 <= j < |stats|
        ensures b1.Get(stats[j]) == b.Get(stats[j]) + (if j == i - 1 then 1 else 0)
      {
        if j != i - 1 {
          assert stats[j] != stats[i - 1];
        }
      }
    }
  }

  /** On a list of `n` stats without repeats, spreading `q * n + rem`
      points (`rem < n`) gives every position `q` points and the last `rem`
      positions one more. */
  lemma {:induction false} RoundsShares(b: StatBlock, stats: seq<Stat>, left: int, q: nat, rem: nat)
    requires |stats| > 0 && Distinct(stats)
    requires rem < |stats| && left == q * |stats| + rem
    ensures var r := Rounds(b, stats, left).0;
            forall j :: 0 <= j < |stats| ==>
              r.Get(stats[j]) == b.Get(stats[j]) + q + (if j >= |stats| - rem then 1 else 0)
    decreases q
  {
    var n := |stats|;
    if left > 0 {
      var r1 := Sweep(b, stats, n, left);
      SweepPositions(b, stats, n, left);
      if q == 0 {
        assert left == rem;
        assert Rounds(r1.0, stats, 0).0 == r1.0;
      } else {
        assert left - n == (q - 1) * n + rem;
        RoundsShares(r1.0, stats, left - n, q - 1, rem);
      }
    }
  }

  /** Even distribution over a list without repeats: each stat's increase is
      its `EvenShare`, increases differ by at most one, and a later-listed
      stat never gets less than an earlier one (the reverse sweep hands the
      odd points to the end of the list). */
  lemma DistributeEvenlyShares(b: StatBlock, stats: seq<Stat>, maxPoints: int)
    requires |stats| > 0 && maxPoints >= 0 && Distinct(stats)
    ensures var r := DistributeEvenly(b, stats, maxPoints).0;
            forall j :: 0 <= j < |stats| ==>
              r.Get(stats[j]) - b.Get(stats[j]) == EvenShare(|stats|, maxPoints, j)
    ensures var r := DistributeEvenly(b, stats, maxPoints).0;
            forall i, j :: 0 <= i <= j < |stats| ==>
              r.Get(stats[i]) - b.Get(stats[i]) <= r.Get(stats[j]) - b.Get(stats[j])
                                                 <= r.Get(stats[i]) - b.Get(stats[i]) + 1
  {
    RoundsShares(b, stats, maxPoints, maxPoints / |stats|, maxPoints % |stats|);
  }

  /** A soft-cap fill of one stat below its soft cap raises it by the
      smaller of its distance to the cap and the budget. */
  lemma FillBelowSoft(b: StatBlock, s: Stat, maxPoints: int)
    requires maxPoints > 0 && b.Get(s) < CapsOf(s).soft
    ensures var k := Min(CapsOf(s).soft - b.Get(s), maxPoints);
            DistributeToSoftCaps(b, [s], maxPoints) == (b.With(s, b.Get(s) + k), k)
  {
    var k := Min(CapsOf(s).soft - b.Get(s), maxPoints);
    assert [s][1..] == [];
    assert FillFrom(b, [s], maxPoints, 0) == FillFrom(b.With(s, b.Get(s) + k), [s][1..], maxPoints, k);
  }

  /** A soft-cap fill of one stat already at or above its soft cap
      changes nothing. */
  lemma FillAtSoft(b: StatBlock, s: Stat, maxPoints: int)
    requires b.Get(s) >= CapsOf(s).soft
    ensures DistributeToSoftCaps(b, [s], maxPoints) == (b, 0)
  {
    var r := DistributeToSoftCaps(b, [s], maxPoints);
    forall t: Stat ensures r.0.Get(t) == b.Get(t) {
      if t != s {
        assert t !in [s];
      }
    }
    BlockExt(r.0, b);
  }

  /** Even distribution over one stat gives it the whole budget. */
  lemma EvenlyOne(b: StatBlock, s: Stat, maxPoints: int)
    requires maxPoints >= 0
    ensures DistributeEvenly(b, [s], maxPoints) == (b.With(s, b.Get(s) + maxPoints), maxPoints)
  {
    var r := DistributeEvenly(b, [s], maxPoints);
    var w := b.With(s, r.0.Get(s));
    forall t: Stat ensures r.0.Get(t) == w.Get(t) {
      if t != s {
        assert t !in [s];
      }
    }
    BlockExt(r.0, w);
  }
}
