/**
 * The allocation driver `distributeStats`: minimum floors, the vital-stat
 * phase, then repeated passes over the weight groups until the budget is
 * used up or a pass spends nothing.
 *
 * The budget is the integer `availablePoints` exactly as the caller passes
 * it. A pass subtracts its running total from `remaining` after every
 * soft-cap fill (Calculation.js:93), so `remaining` can fall faster than
 * points are spent; `Pass` and `Drive` model that as written, and
 * `PassCorrected` / `DriveCorrected` model the evidently intended
 * per-call subtraction.
 */
module Allocation {
  import opened Stats
  import opened Vital
  import opened Spending
  import opened Grouping
  import opened Datastore
  import opened Derived

  /** The stats that have a floor in `minimums`. */
  function Floored(minimums: seq<(Stat, int)>): set<Stat> {
    set k | 0 <= k < |minimums| :: minimums[k].0
  }

  /** Raises each listed stat to its floor, in list order, charging every
      raise against `remaining` (which may go negative). */
  function ApplyMinimums(b: StatBlock, minimums: seq<(Stat, int)>, remaining: int): (r: (StatBlock, int))
    ensures Dominates(r.0, b)
    ensures forall k :: 0 <= k < |minimums| ==> r.0.Get(minimums[k].0) >= minimums[k].1
    ensures forall s: Stat :: s !in Floored(minimums) ==> r.0.Get(s) == b.Get(s)
    ensures r.1 == remaining - (r.0.Sum() - b.Sum())
    decreases |minimums|
  {
    if |minimums| == 0 then (b, remaining)
    else
      var (b1, needed) := FloorStep(b, minimums[0]);
      var r := ApplyMinimums(b1, minimums[1..], remaining - needed);
      MinimumsStep(b, b1, r.0, minimums);
      r
  }

  /** One floor: the stat rises to the minimum when below it. Returns the
      block and the raise. */
  function FloorStep(b: StatBlock, floor: (Stat, int)): (r: (StatBlock, int))
    ensures r.0.Get(floor.0) == Max(b.Get(floor.0), floor.1)
    ensures forall t: Stat :: t != floor.0 ==> r.0.Get(t) == b.Get(t)
    ensures r.1 == r.0.Sum() - b.Sum() >= 0
  {
    var needed := Max(0, floor.1 - b.Get(floor.0));
    (if needed > 0 then b.With(floor.0, b.Get(floor.0) + needed) else b, needed)
  }

  lemma MinimumsStep(b: StatBlock, b1: StatBlock, r: StatBlock, minimums: seq<(Stat, int)>)
    requires |minimums| > 0 && b1 == FloorStep(b, minimums[0]).0
    requires Dominates(r, b1)
    requires forall k :: 0 <= k < |minimums[1..]| ==> r.Get(minimums[1..][k].0) >= minimums[1..][k].1
    requires forall s: Stat :: s !in Floored(minimums[1..]) ==> r.Get(s) == b1.Get(s)
    ensures Dominates(r, b)
    ensures forall k :: 0 <= k < |minimums| ==> r.Get(minimums[k].0) >= minimums[k].1
    ensures forall s: Stat :: s !in Floored(minimums) ==> r.Get(s) == b.Get(s)
  {
    forall k | 0 <= k < |minimums| ensures r.Get(minimums[k].0) >= minimums[k].1 {
      if k > 0 {
        assert minimums[k] == minimums[1..][k - 1];
      }
    }
    forall s: Stat | s !in Floored(minimums) ensures r.Get(s) == b.Get(s) {
      assert s != minimums[0].0;
      forall k | 0 <= k < |minimums[1..]| ensures minimums[1..][k].0 != s {
        assert minimums[1..][k] == minimums[k + 1];
      }
    }
  }

  /** A stat the floors raise ends at one of its listed minimums: the floors
      never add more than some minimum asks for. */
  lemma {:induction false} MinimumsRaiseToListedValue(b: StatBlock, minimums: seq<(Stat, int)>, remaining: int)
    ensures var r := ApplyMinimums(b, minimums, remaining).0;
            forall s: Stat :: r.Get(s) > b.Get(s) ==> (s, r.Get(s)) in minimums
    decreases |minimums|
  {
    if |minimums| > 0 {
      var step := FloorStep(b, minimums[0]);
      var b1 := step.0;
      var rest := ApplyMinimums(b1, minimums[1..], remaining - step.1);
      var r := rest.0;
      assert ApplyMinimums(b, minimums, remaining) == rest;
      MinimumsRaiseToListedValue(b1, minimums[1..], remaining - step.1);
      forall s: Stat | r.Get(s) > b.Get(s) ensures (s, r.Get(s)) in minimums {
        if r.Get(s) > b1.Get(s) {
          TailMember(minimums, (s, r.Get(s)));
        } else {
          assert s == minimums[0].0;
          assert minimums[0] == (s, r.Get(s));
        }
      }
    }
  }

  lemma TailMember<T>(xs: seq<T>, x: T)
    requires |xs| > 0
    ensures x in xs[1..] ==> x in xs
  {
    assert xs == [xs[0]] + xs[1..];
  }

  /** One group of a pass. A group of weight at least 1.0 first gets a
      soft-cap fill, after which `remaining` drops by the pass's running
      total `spent`, not by the fill alone; if that total is positive the
      group's even step is skipped. Otherwise the group gets an even share
      of at most five points per stat. Returns the block, the new
      `remaining` and the new running total. */
  function GroupStep(b: StatBlock, g: WeightGroup, remaining: int, spent: int): (r: (StatBlock, int, int))
    requires spent >= 0 && remaining > 0
    ensures Dominates(r.0, b)
    ensures r.2 - spent == r.0.Sum() - b.Sum()
    ensures r.1 <= remaining - (r.2 - spent)
    ensures r.0.Sum() - b.Sum() <= remaining
    ensures spent == 0 && |g.stats| > 0 ==> r.2 > 0
  {
    var high := g.weight >= 1.0;
    var fill := if high then DistributeToSoftCaps(b, g.stats, remaining) else (b, 0);
    var spent1 := spent + fill.1;
    var rem1 := if high then remaining - spent1 else remaining;
    if high && spent1 > 0 then (fill.0, rem1, spent1)
    else
      var even := DistributeEvenly(fill.0, g.stats, Min(rem1, |g.stats| * 5));
      DominatesTransitive(even.0, fill.0, b);
      (even.0, rem1 - even.1, spent1 + even.1)
  }

  /** One pass of the driver loop over the groups, highest weight first,
      stopping early once `remaining` is no longer positive. Returns the
      block, the new `remaining`, and the pass's running total. */
  function Pass(b: StatBlock, groups: seq<WeightGroup>, remaining: int, spent: int): (r: (StatBlock, int, int))
    requires spent >= 0
    ensures Dominates(r.0, b)
    ensures r.2 - spent == r.0.Sum() - b.Sum()
    ensures r.2 >= spent
    ensures r.1 <= remaining - (r.2 - spent)
    ensures remaining > 0 ==> r.0.Sum() - b.Sum() <= remaining
    ensures remaining <= 0 ==> r == (b, remaining, spent)
    decreases |groups|
  {
    if |groups| == 0 || remaining <= 0 then (b, remaining, spent)
    else
      var s := GroupStep(b, groups[0], remaining, spent);
      var r := Pass(s.0, groups[1..], s.1, s.2);
      DominatesSum(s.0, b);
      DominatesTransitive(r.0, s.0, b);
      r
  }

  /** The driver loop: passes repeat while `remaining` is positive and the
      last pass spent something. Every pass that spends `p > 0` points lowers
      `remaining` by at least `p`, so the loop terminates. */
  function Drive(b: StatBlock, groups: seq<WeightGroup>, remaining: int): (r: StatBlock)
    ensures Dominates(r, b)
    ensures r.Sum() - b.Sum() <= Max(remaining, 0)
    ensures remaining <= 0 ==> r == b
    decreases if remaining > 0 then remaining else 0
  {
    if remaining <= 0 then b
    else
      var p := Pass(b, groups, remaining, 0);
      DominatesSum(p.0, b);
      if p.2 == 0 then p.0
      else
        var r := Drive(p.0, groups, p.1);
        DominatesTransitive(r, p.0, b);
        r
  }

  /** The phases after the floors: the vital stats, then the weighted
      passes. At most `max(0, points)` points are added, and with no points
      left nothing changes. */
  function SpendAfterFloors(b: StatBlock, points: int, weights: seq<(Stat, real)>): (r: StatBlock)
    ensures Dominates(r, b)
    ensures r.Sum() - b.Sum() <= Max(0, points)
    ensures points <= 0 ==> r == b
  {
    var v := PrioritizeVitalStats(b, points);
    var r := Drive(v.0, GroupStatsByWeight(weights), v.1);
    DominatesTransitive(r, v.0, b);
    r
  }

  /** The source's `distributeStats` with the playstyle's minimums and
      weights passed in. The output never falls below the starting block or
      a floor; after the floors, at most `max(0, budget left)` more points
      are added; if the floors alone use up the budget, nothing else
      changes; so the block grows by at most the budget unless the result
      is the floored block itself. */
  function DistributeStats(start: StatBlock, availablePoints: int,
                           minimums: seq<(Stat, int)>, weights: seq<(Stat, real)>): (r: StatBlock)
    ensures Dominates(r, start)
    ensures forall k :: 0 <= k < |minimums| ==> r.Get(minimums[k].0) >= minimums[k].1
    ensures var m := ApplyMinimums(start, minimums, availablePoints);
            r.Sum() - m.0.Sum() <= Max(0, m.1)
    ensures var m := ApplyMinimums(start, minimums, availablePoints);
            m.1 <= 0 ==> r == m.0
    ensures r.Sum() - start.Sum() <= availablePoints
            || r == ApplyMinimums(start, minimums, availablePoints).0
  {
    var m := ApplyMinimums(start, minimums, availablePoints);
    var r := SpendAfterFloors(m.0, m.1, weights);
    DominatesTransitive(r, m.0, start);
    FloorsKept(r, m.0, minimums);
    r
  }

  /** Raising stats never breaks a floor that already holds. */
  lemma FloorsKept(hi: StatBlock, lo: StatBlock, minimums: seq<(Stat, int)>)
    requires Dominates(hi, lo)
    requires forall k :: 0 <= k < |minimums| ==> lo.Get(minimums[k].0) >= minimums[k].1
    ensures forall k :: 0 <= k < |minimums| ==> hi.Get(minimums[k].0) >= minimums[k].1
  {
  }

  /** `GroupStep` with `remaining` lowered by what the soft-cap fill
      itself spent. */
  function GroupStepCorrected(b: StatBlock, g: WeightGroup, remaining: int, spent: int): (r: (StatBlock, int, int))
    requires spent >= 0 && remaining > 0
    ensures Dominates(r.0, b)
    ensures r.2 - spent == r.0.Sum() - b.Sum()
    ensures r.1 == remaining - (r.2 - spent)
    ensures r.1 >= 0
    ensures spent == 0 && |g.stats| > 0 ==> r.2 > 0
  {
    var high := g.weight >= 1.0;
    var fill := if high then DistributeToSoftCaps(b, g.stats, remaining) else (b, 0);
    var spent1 := spent + fill.1;
    var rem1 := remaining - fill.1;
    if high && spent1 > 0 then (fill.0, rem1, spent1)
    else
      var even := DistributeEvenly(fill.0, g.stats, Min(rem1, |g.stats| * 5));
      DominatesTransitive(even.0, fill.0, b);
      (even.0, rem1 - even.1, spent1 + even.1)
  }

  /** `Pass` over `GroupStepCorrected`: every point spent is charged
      exactly once, so `remaining` falls by exactly what the pass spends. */
  function PassCorrected(b: StatBlock, groups: seq<WeightGroup>, remaining: int, spent: int): (r: (StatBlock, int, int))
    requires spent >= 0
    ensures Dominates(r.0, b)
    ensures r.2 - spent == r.0.Sum() - b.Sum()
    ensures r.2 >= spent
    ensures r.1 == remaining - (r.2 - spent)
    ensures remaining > 0 ==> r.1 >= 0
    ensures remaining <= 0 ==> r == (b, remaining, spent)
    ensures remaining > 0 && spent == 0 && |groups| > 0 && |groups[0].stats| > 0 ==> r.2 > 0
    decreases |groups|
  {
    if |groups| == 0 || remaining <= 0 then (b, remaining, spent)
    else
      var s := GroupStepCorrected(b, groups[0], remaining, spent);
      var r := PassCorrected(s.0, groups[1..], s.1, s.2);
      DominatesSum(s.0, b);
      DominatesTransitive(r.0, s.0, b);
      r
  }

  /** The driver loop over `PassCorrected`. With budget left and a
      non-empty first group it spends the budget exactly. */
  function DriveCorrected(b: StatBlock, groups: seq<WeightGroup>, remaining: int): (r: StatBlock)
    ensures Dominates(r, b)
    ensures r.Sum() - b.Sum() <= Max(remaining, 0)
    ensures remaining <= 0 ==> r == b
    ensures remaining > 0 && |groups| > 0 && |groups[0].stats| > 0 ==> r.Sum() == b.Sum() + remaining
    decreases if remaining > 0 then remaining else 0
  {
    if remaining <= 0 then b
    else
      var p := PassCorrected(b, groups, remaining, 0);
      DominatesSum(p.0, b);
      if p.2 == 0 then p.0
      else
        var r := DriveCorrected(p.0, groups, p.1);
        DominatesTransitive(r, p.0, b);
        r
  }

  /** `SpendAfterFloors` over `DriveCorrected`. */
  function SpendAfterFloorsCorrected(b: StatBlock, points: int, weights: seq<(Stat, real)>): (r: StatBlock)
    ensures Dominates(r, b)
    ensures r.Sum() - b.Sum() <= Max(0, points)
    ensures points <= 0 ==> r == b
    ensures points > 0 && PositiveWeights(weights) != {} ==> r.Sum() == b.Sum() + points
  {
    var v := PrioritizeVitalStats(b, points);
    var groups := GroupStatsByWeight(weights);
    var r := DriveCorrected(v.0, groups, v.1);
    DominatesTransitive(r, v.0, b);
    assert PositiveWeights(weights) != {} ==> |groups| > 0;
    r
  }

  /** `DistributeStats` with the per-fill subtraction. When the floors
      leave budget over and some stat has a positive weight, the result's
      total is the starting total plus the whole budget. */
  function DistributeStatsCorrected(start: StatBlock, availablePoints: int,
                                    minimums: seq<(Stat, int)>, weights: seq<(Stat, real)>): (r: StatBlock)
    ensures Dominates(r, start)
    ensures forall k :: 0 <= k < |minimums| ==> r.Get(minimums[k].0) >= minimums[k].1
    ensures var m := ApplyMinimums(start, minimums, availablePoints);
            m.1 <= 0 ==> r == m.0
    ensures var m := ApplyMinimums(start, minimums, availablePoints);
            m.1 > 0 && PositiveWeights(weights) != {} ==> r.Sum() == start.Sum() + availablePoints
  {
    var m := ApplyMinimums(start, minimums, availablePoints);
    var r := SpendAfterFloorsCorrected(m.0, m.1, weights);
    DominatesTransitive(r, m.0, start);
    FloorsKept(r, m.0, minimums);
    r
  }

  /** A pass over a non-empty list with budget left is one group step
      followed by a pass over the rest. */
  lemma PassCons(b: StatBlock, g: WeightGroup, rest: seq<WeightGroup>, remaining: int, spent: int)
    requires remaining > 0 && spent >= 0
    ensures var s := GroupStep(b, g, remaining, spent);
            Pass(b, [g] + rest, remaining, spent) == Pass(s.0, rest, s.1, s.2)
    ensures var s := GroupStepCorrected(b, g, remaining, spent);
            PassCorrected(b, [g] + rest, remaining, spent) == PassCorrected(s.0, rest, s.1, s.2)
  {
    assert ([g] + rest)[0] == g && ([g] + rest)[1..] == rest;
  }

  /** A one-stat group of weight at least 1.0 whose stat is below its soft
      cap: the fill raises it by `k`, the smaller of its distance to the cap
      and the budget. As written `remaining` drops by the running total
      plus `k`; corrected, by `k` alone. Either way the even step is
      skipped. */
  lemma GroupStepFillsOne(b: StatBlock, s: Stat, w: real, remaining: int, spent: int)
    requires w >= 1.0 && remaining > 0 && spent >= 0 && b.Get(s) < CapsOf(s).soft
    ensures var k := Min(CapsOf(s).soft - b.Get(s), remaining);
            GroupStep(b, WeightGroup(w, [s]), remaining, spent)
              == (b.With(s, b.Get(s) + k), remaining - spent - k, spent + k)
    ensures var k := Min(CapsOf(s).soft - b.Get(s), remaining);
            GroupStepCorrected(b, WeightGroup(w, [s]), remaining, spent)
              == (b.With(s, b.Get(s) + k), remaining - k, spent + k)
  {
    FillBelowSoft(b, s, remaining);
  }

  /** A one-stat group of weight at least 1.0 whose stat is at its soft
      cap, first in its pass: the stat gets min(budget, 5) points by even
      distribution, in both versions. */
  lemma GroupStepEvenOne(b: StatBlock, s: Stat, w: real, remaining: int)
    requires w >= 1.0 && remaining > 0 && b.Get(s) >= CapsOf(s).soft
    ensures var m := Min(remaining, 5);
            GroupStep(b, WeightGroup(w, [s]), remaining, 0) == (b.With(s, b.Get(s) + m), remaining - m, m)
            && GroupStepCorrected(b, WeightGroup(w, [s]), remaining, 0) == (b.With(s, b.Get(s) + m), remaining - m, m)
  {
    var g := WeightGroup(w, [s]);
    FillAtSoft(b, s, remaining);
    assert |g.stats| * 5 == 5;
    EvenlyOne(b, s, Min(remaining, 5));
  }

  /** A one-stat group of weight at least 1.0 whose stat is at its soft
      cap, after something was spent in the pass: nothing is spent and the
      even step is skipped. As written `remaining` still drops by the
      running total; corrected, it is unchanged. */
  lemma GroupStepSkipsOne(b: StatBlock, s: Stat, w: real, remaining: int, spent: int)
    requires w >= 1.0 && remaining > 0 && spent > 0 && b.Get(s) >= CapsOf(s).soft
    ensures GroupStep(b, WeightGroup(w, [s]), remaining, spent) == (b, remaining - spent, spent)
    ensures GroupStepCorrected(b, WeightGroup(w, [s]), remaining, spent) == (b, remaining, spent)
  {
    FillAtSoft(b, s, remaining);
  }

  /** The block and groups on which the cumulative subtraction loses points:
      strength and dexterity both 28, two below their soft cap, with
      strength weighted 2.0 and dexterity 1.5. */
  const LossBlock: StatBlock := StatBlock(30, 6, 6, 20, 28, 28, 6, 6, 6)
  const StrengthGroup: WeightGroup := WeightGroup(2.0, [Strength])
  const DexterityGroup: WeightGroup := WeightGroup(1.5, [Dexterity])
  const LossGroups: seq<WeightGroup> := [StrengthGroup, DexterityGroup]

  /** With 10 points and strength and dexterity both at 28, the as-written
      loop spends only 8. Strength fills to its soft cap 30 (2 points) and
      dexterity fills to 30 (2 points), but `remaining` drops by the running
      totals 2 and 4, to 4. The second pass gives strength those 4 and the
      loop stops with 2 points unspent. The corrected loop charges 2 and 2,
      and spends all 10. */
  lemma CumulativeSubtractionLosesPoints()
    ensures Drive(LossBlock, LossGroups, 10).Sum() == LossBlock.Sum() + 8
    ensures DriveCorrected(LossBlock, LossGroups, 10).Sum() == LossBlock.Sum() + 10
  {
    LossAsWritten(LossBlock, LossGroups);
    LossCorrected(LossBlock, LossGroups);
  }

  /** The first pass of both loops: both soft-cap fills. */
  lemma LossFirstPass(b: StatBlock, groups: seq<WeightGroup>)
    requires b.Get(Strength) == 28 && b.Get(Dexterity) == 28 && groups == LossGroups
    ensures var b2 := b.With(Strength, 30).With(Dexterity, 30);
            Pass(b, groups, 10, 0) == (b2, 4, 4) && PassCorrected(b, groups, 10, 0) == (b2, 6, 4)
  {
    LossStrengthFill(b, groups);
    LossDexterityFill(b.With(Strength, 30));
  }

  lemma LossStrengthFill(b: StatBlock, groups: seq<WeightGroup>)
    requires b.Get(Strength) == 28 && groups == LossGroups
    ensures Pass(b, groups, 10, 0) == Pass(b.With(Strength, 30), [DexterityGroup], 8, 2)
    ensures PassCorrected(b, groups, 10, 0) == PassCorrected(b.With(Strength, 30), [DexterityGroup], 8, 2)
  {
    CapsOfValues();
    assert groups == [StrengthGroup] + [DexterityGroup];
    PassCons(b, StrengthGroup, [DexterityGroup], 10, 0);
    GroupStepFillsOne(b, Strength, 2.0, 10, 0);
  }

  lemma LossDexterityFill(b1: StatBlock)
    requires b1.Get(Dexterity) == 28
    ensures Pass(b1, [DexterityGroup], 8, 2) == (b1.With(Dexterity, 30), 4, 4)
    ensures PassCorrected(b1, [DexterityGroup], 8, 2) == (b1.With(Dexterity, 30), 6, 4)
  {
    CapsOfValues();
    assert [DexterityGroup] == [DexterityGroup] + [];
    PassCons(b1, DexterityGroup, [], 8, 2);
    GroupStepFillsOne(b1, Dexterity, 1.5, 8, 2);
  }

  lemma LossAsWritten(b: StatBlock, groups: seq<WeightGroup>)
    requires b.Get(Strength) == 28 && b.Get(Dexterity) == 28 && groups == LossGroups
    ensures Drive(b, groups, 10).Sum() == b.Sum() + 8
  {
    LossFirstPass(b, groups);
    var b2 := b.With(Strength, 30).With(Dexterity, 30);
    LossAsWrittenSecondPass(b2, groups);
    assert Drive(b, groups, 10) == Drive(b2, groups, 4);
  }

  /** The as-written second pass: 4 points to strength, nothing left. */
  lemma LossAsWrittenSecondPass(b2: StatBlock, groups: seq<WeightGroup>)
    requires b2.Get(Strength) == 30 && b2.Get(Dexterity) == 30 && groups == LossGroups
    ensures Drive(b2, groups, 4) == b2.With(Strength, 34)
  {
    var b3 := b2.With(Strength, 34);
    LossAsWrittenSecondPassSteps(b2, groups);
    assert Drive(b2, groups, 4) == Drive(b3, groups, 0);
  }

  lemma LossAsWrittenSecondPassSteps(b2: StatBlock, groups: seq<WeightGroup>)
    requires b2.Get(Strength) == 30 && groups == LossGroups
    ensures Pass(b2, groups, 4, 0) == (b2.With(Strength, 34), 0, 4)
  {
    CapsOfValues();
    var b3 := b2.With(Strength, 34);
    assert groups == [StrengthGroup] + [DexterityGroup];
    PassCons(b2, StrengthGroup, [DexterityGroup], 4, 0);
    GroupStepEvenOne(b2, Strength, 2.0, 4);
    assert Pass(b3, [DexterityGroup], 0, 4) == (b3, 0, 4);
  }

  lemma LossCorrected(b: StatBlock, groups: seq<WeightGroup>)
    requires b.Get(Strength) == 28 && b.Get(Dexterity) == 28 && groups == LossGroups
    ensures DriveCorrected(b, groups, 10).Sum() == b.Sum() + 10
  {
    LossFirstPass(b, groups);
    var b2 := b.With(Strength, 30).With(Dexterity, 30);
    LossCorrectedLaterPasses(b2, groups);
  }

  /** The corrected loop's second and third passes: 5 and then 1 point to
      strength by even distribution, dexterity skipped. */
  lemma LossCorrectedLaterPasses(b2: StatBlock, groups: seq<WeightGroup>)
    requires b2.Get(Strength) == 30 && b2.Get(Dexterity) == 30 && groups == LossGroups
    ensures DriveCorrected(b2, groups, 6) == b2.With(Strength, 35).With(Strength, 36)
  {
    CapsOfValues();
    var b4 := b2.With(Strength, 35);
    var b5 := b4.With(Strength, 36);
    assert groups == [StrengthGroup] + [DexterityGroup];
    assert [DexterityGroup] == [DexterityGroup] + [];
    PassCons(b2, StrengthGroup, [DexterityGroup], 6, 0);
    GroupStepEvenOne(b2, Strength, 2.0, 6);
    PassCons(b4, DexterityGroup, [], 1, 5);
    GroupStepSkipsOne(b4, Dexterity, 1.5, 1, 5);
    assert PassCorrected(b2, groups, 6, 0) == (b4, 1, 5);
    PassCons(b4, StrengthGroup, [DexterityGroup], 1, 0);
    GroupStepEvenOne(b4, Strength, 2.0, 1);
    assert PassCorrected(b4, groups, 1, 0) == (b5, 0, 1);
    assert DriveCorrected(b4, groups, 1) == b5;
  }

  /** A level-1 Deprived (all sixes) with a budget of 1 and no floors
      ends with vigor 7 and nothing else changed, whatever the weights. */
  lemma DeprivedAtLevelOne(weights: seq<(Stat, real)>)
    ensures GetClass("deprived").Some?
    ensures DistributeStats(GetClass("deprived").value.stats, 1, [], weights)
            == StatBlock(7, 6, 6, 6, 6, 6, 6, 6, 6)
  {
    assert "deprived" in StartingClasses;
    var b := GetClass("deprived").value.stats;
    assert b == StatBlock(6, 6, 6, 6, 6, 6, 6, 6, 6);
    OnePointNoFloors(b, weights);
  }

  /** With one point and no floors, the distribution gives the point to
      vigor whenever vigor is below 30: the vital phase spends it, and the
      weighted phase has nothing left. */
  lemma OnePointNoFloors(b: StatBlock, weights: seq<(Stat, real)>)
    requires b.vigor < VigorGoal
    ensures DistributeStats(b, 1, [], weights) == b.Bump(Vigor)
  {
    OnePointGoesToVigor(b);
    assert ApplyMinimums(b, [], 1) == (b, 1);
  }

  /** Running the distribution again on its own output is not a no-op: the
      budget is the level itself, so a second run spends it again. With one
      point and no floors, each run adds a point to vigor. */
  lemma RerunSpendsAgain(b: StatBlock, weights: seq<(Stat, real)>)
    requires b.vigor < VigorGoal - 1
    ensures var once := DistributeStats(b, 1, [], weights);
            DistributeStats(once, 1, [], weights) == once.Bump(Vigor) != once
  {
    OnePointNoFloors(b, weights);
    OnePointNoFloors(b.Bump(Vigor), weights);
  }

  /** Weights on which a larger budget ends with less strength: endurance
      weighted 2.0 and strength 1.5. */
  const MonoWeights: seq<(Stat, real)> := [(Endurance, 2.0), (Strength, 1.5)]
  const EnduranceFirst: WeightGroup := WeightGroup(2.0, [Endurance])
  const StrengthSecond: WeightGroup := WeightGroup(1.5, [Strength])
  const MonoGroups: seq<WeightGroup> := [EnduranceFirst, StrengthSecond]

  /** A larger budget can lower an output stat, in both loops. With vigor and
      adaptability at their goals, endurance 19 and strength 10, a budget of
      19 leaves endurance one below its soft cap: the first group's fill takes
      that point and skips its even step, and strength fills to 28. A budget
      of 20 first tops endurance up to 20 in the vital phase; the first group
      then takes an even share of 5 instead, and strength gets only 14. */
  lemma LargerBudgetLowersStrength(start: StatBlock)
    requires start.vigor == VigorGoal && start.adaptability == AdaptabilityGoal
    requires start.endurance == 19 && start.strength == 10
    ensures DistributeStats(start, 19, [], MonoWeights).strength == 28
    ensures DistributeStats(start, 20, [], MonoWeights).strength == 24
    ensures DistributeStatsCorrected(start, 19, [], MonoWeights).strength == 28
    ensures DistributeStatsCorrected(start, 20, [], MonoWeights).strength == 24
  {
    EnduranceTargetStep(start);
    MonoGrouping();
    SmallerBudgetRun(start);
    LargerBudgetRun(start);
  }

  lemma SmallerBudgetRun(start: StatBlock)
    requires start.vigor == VigorGoal && start.adaptability == AdaptabilityGoal
    requires start.endurance == 19 && start.strength == 10
    ensures DistributeStats(start, 19, [], MonoWeights) == start.With(Endurance, 20).With(Strength, 28)
    ensures DistributeStatsCorrected(start, 19, [], MonoWeights) == start.With(Endurance, 20).With(Strength, 28)
  {
    EnduranceTargetStep(start);
    MonoGrouping();
    NoFloorsUnfold(start, 19, MonoWeights);
    SmallerBudgetLoop(start);
  }

  lemma LargerBudgetRun(start: StatBlock)
    requires start.vigor == VigorGoal && start.adaptability == AdaptabilityGoal
    requires start.endurance == 19 && start.strength == 10
    ensures DistributeStats(start, 20, [], MonoWeights) == start.Bump(Endurance).With(Endurance, 25).With(Strength, 24)
    ensures DistributeStatsCorrected(start, 20, [], MonoWeights) == start.Bump(Endurance).With(Endurance, 25).With(Strength, 24)
  {
    EnduranceTargetStep(start);
    MonoGrouping();
    NoFloorsUnfold(start, 20, MonoWeights);
    LargerBudgetLoop(start.Bump(Endurance));
  }

  /** With no floors, both versions are the vital phase followed by the
      driver loop over the grouped weights. */
  lemma NoFloorsUnfold(start: StatBlock, points: int, weights: seq<(Stat, real)>)
    ensures var v := PrioritizeVitalStats(start, points);
            DistributeStats(start, points, [], weights) == Drive(v.0, GroupStatsByWeight(weights), v.1)
    ensures var v := PrioritizeVitalStats(start, points);
            DistributeStatsCorrected(start, points, [], weights) == DriveCorrected(v.0, GroupStatsByWeight(weights), v.1)
  {
    assert ApplyMinimums(start, [], points) == (start, points);
  }

  /** The two weights form two one-stat groups, endurance first. */
  lemma MonoGrouping()
    ensures GroupStatsByWeight(MonoWeights) == MonoGroups
  {
    var r := GroupStatsByWeight(MonoWeights);
    MonoWeightLists();
    TwoWeightsDescending(r, 2.0, 1.5);
  }

  lemma MonoWeightLists()
    ensures PositiveWeights(MonoWeights) == {2.0, 1.5}
    ensures StatsWeighted(MonoWeights, 2.0) == [Endurance]
    ensures StatsWeighted(MonoWeights, 1.5) == [Strength]
  {
    assert MonoWeights[0].1 == 2.0 && MonoWeights[1].1 == 1.5;
    assert MonoWeights[..1] == [(Endurance, 2.0)] && MonoWeights[..0] == [];
  }

  /** A strictly descending list of groups that carries exactly two weights
      holds just those two groups, the larger weight first. */
  lemma TwoWeightsDescending(r: seq<WeightGroup>, hi: real, lo: real)
    requires hi > lo && Descending(r) && GroupWeights(r) == {hi, lo}
    ensures |r| == 2 && r[0].weight == hi && r[1].weight == lo
  {
    assert forall k :: 0 <= k < |r| ==> r[k].weight in GroupWeights(r);
    assert hi in GroupWeights(r) && lo in GroupWeights(r);
    var i :| 0 <= i < |r| && r[i].weight == hi;
    var j :| 0 <= j < |r| && r[j].weight == lo;
    assert i < j;
    assert i == 0;
    assert r[1].weight in GroupWeights(r);
    assert r[1].weight <= r[j].weight;
    assert j == 1;
  }

  /** Budget 19 after the vital phase: endurance fills by 1, strength by 18. */
  lemma SmallerBudgetLoop(b: StatBlock)
    requires b.endurance == 19 && b.strength == 10
    ensures Drive(b, MonoGroups, 19) == b.With(Endurance, 20).With(Strength, 28)
    ensures DriveCorrected(b, MonoGroups, 19) == b.With(Endurance, 20).With(Strength, 28)
  {
    var b1 := b.With(Endurance, 20);
    var b2 := b1.With(Strength, 28);
    assert b.Get(Endurance) == 19;
    MonoEnduranceFill(b);
    assert b1.Get(Strength) == 10;
    MonoStrengthFill(b1, 18, 1, 28);
    assert Drive(b, MonoGroups, 19) == Drive(b2, MonoGroups, -1);
    assert DriveCorrected(b, MonoGroups, 19) == DriveCorrected(b2, MonoGroups, 0);
  }

  /** Budget 19 after endurance reached 20 in the vital phase: endurance
      takes an even share of 5, strength fills by 14. */
  lemma LargerBudgetLoop(b: StatBlock)
    requires b.endurance == 20 && b.strength == 10
    ensures Drive(b, MonoGroups, 19) == b.With(Endurance, 25).With(Strength, 24)
    ensures DriveCorrected(b, MonoGroups, 19) == b.With(Endurance, 25).With(Strength, 24)
  {
    var b1 := b.With(Endurance, 25);
    var b2 := b1.With(Strength, 24);
    assert b.Get(Endurance) == 20;
    MonoEnduranceEven(b);
    assert b1.Get(Strength) == 10;
    MonoStrengthFill(b1, 14, 5, 24);
    assert Drive(b, MonoGroups, 19) == Drive(b2, MonoGroups, -5);
    assert DriveCorrected(b, MonoGroups, 19) == DriveCorrected(b2, MonoGroups, 0);
  }

  /** Endurance one below its soft cap: the first group fills it by 1. */
  lemma MonoEnduranceFill(b: StatBlock)
    requires b.Get(Endurance) == 19
    ensures Pass(b, MonoGroups, 19, 0) == Pass(b.With(Endurance, 20), [StrengthSecond], 18, 1)
    ensures PassCorrected(b, MonoGroups, 19, 0) == PassCorrected(b.With(Endurance, 20), [StrengthSecond], 18, 1)
  {
    CapsOfValues();
    assert MonoGroups == [EnduranceFirst] + [StrengthSecond];
    PassCons(b, EnduranceFirst, [StrengthSecond], 19, 0);
    GroupStepFillsOne(b, Endurance, 2.0, 19, 0);
  }

  /** Endurance at its soft cap: the first group takes an even share of 5. */
  lemma MonoEnduranceEven(b: StatBlock)
    requires b.Get(Endurance) == 20
    ensures Pass(b, MonoGroups, 19, 0) == Pass(b.With(Endurance, 25), [StrengthSecond], 14, 5)
    ensures PassCorrected(b, MonoGroups, 19, 0) == PassCorrected(b.With(Endurance, 25), [StrengthSecond], 14, 5)
  {
    CapsOfValues();
    assert MonoGroups == [EnduranceFirst] + [StrengthSecond];
    PassCons(b, EnduranceFirst, [StrengthSecond], 19, 0);
    GroupStepEvenOne(b, Endurance, 2.0, 19);
  }

  /** Strength at 10 with `remaining` points left after `spent` in the pass:
      it fills by all of them, and the pass ends. As written `remaining`
      drops by the running total as well. */
  lemma MonoStrengthFill(b1: StatBlock, remaining: int, spent: int, target: int)
    requires b1.Get(Strength) == 10 && 0 < remaining <= 20 && spent >= 0 && target == 10 + remaining
    ensures Pass(b1, [StrengthSecond], remaining, spent)
            == (b1.With(Strength, target), -spent, spent + remaining)
    ensures PassCorrected(b1, [StrengthSecond], remaining, spent)
            == (b1.With(Strength, target), 0, spent + remaining)
  {
    assert CapsOf(Strength).soft - b1.Get(Strength) == 20 by { CapsOfValues(); }
    assert [StrengthSecond] == [StrengthSecond] + [];
    PassCons(b1, StrengthSecond, [], remaining, spent);
    GroupStepFillsOne(b1, Strength, 1.5, remaining, spent);
    var after := b1.With(Strength, target);
    assert GroupStep(b1, StrengthSecond, remaining, spent) == (after, -spent, spent + remaining);
    assert GroupStepCorrected(b1, StrengthSecond, remaining, spent) == (after, 0, spent + remaining);
  }

  /** Floors taken from a weapon's requirements make the result able to
      use that weapon, whatever the budget and the weights. */
  lemma WeaponFloorsMet(start: StatBlock, availablePoints: int, w: Weapon, weights: seq<(Stat, real)>)
    ensures MeetsWeaponRequirements(w, DistributeStats(start, availablePoints, WeaponFloors(w.requirements), weights))
  {
    var r := DistributeStats(start, availablePoints, WeaponFloors(w.requirements), weights);
    assert MeetsFloors(r, WeaponFloors(w.requirements));
  }

  /** A weapon or spell whose requirements the starting block meets is
      still usable after the distribution. */
  lemma DistributionKeepsRequirements(start: StatBlock, availablePoints: int,
                                      minimums: seq<(Stat, int)>, weights: seq<(Stat, real)>,
                                      w: Weapon, sp: Spell)
    ensures var r := DistributeStats(start, availablePoints, minimums, weights);
            (MeetsWeaponRequirements(w, start) ==> MeetsWeaponRequirements(w, r))
            && (MeetsSpellRequirements(sp, start) ==> MeetsSpellRequirements(sp, r))
  {
    RequirementsUpwardClosed(start, DistributeStats(start, availablePoints, minimums, weights), w, sp);
  }
}
