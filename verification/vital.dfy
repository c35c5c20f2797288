/**
 * The vital-stat phase: before any weighted spending, vigor, adaptability
 * and endurance are topped up toward interim targets, then vigor and
 * adaptability are raised in alternation toward 30 and 20.
 */
module Vital {
  import opened Stats
  import opened Datastore
  import opened Efficiency

  /** The ceiling of the three interim targets. */
  const InterimCap: int := 20
  /** The round-robin raises vigor while it is below this. */
  const VigorGoal: int := 30
  /** The round-robin raises adaptability while it is below this. */
  const AdaptabilityGoal: int := 20

  /** Raises `s` one point at a time while it is below `target`, points
      remain, and its efficiency is at least one half. Returns the block and
      the points left. The loop stops at the first of: the target, the hard
      cap, or an empty budget. */
  function TopUp(b: StatBlock, s: Stat, target: int, remaining: int): (r: (StatBlock, int))
    ensures SameOutside(r.0, b, {s})
    ensures b.Get(s) <= r.0.Get(s) <= Max(b.Get(s), Min(target, CapsOf(s).hard))
    ensures r.1 == remaining - (r.0.Sum() - b.Sum())
    ensures remaining <= 0 ==> r == (b, remaining)
    ensures remaining > 0 ==> r.1 >= 0
    decreases if remaining > 0 then remaining else 0
  {
    if b.Get(s) < target && remaining > 0 && AtLeastHalf(StatEfficiency(s, b.Get(s))) then
      TopUp(b.Bump(s), s, target, remaining - 1)
    else
      (b, remaining)
  }

  /** The top-up loop in closed form: it adds exactly
      `max(0, min(min(target, hard cap) - current, remaining))` points to `s`
      (and, by the contract of `TopUp`, nothing to any other stat). */
  lemma {:induction false} TopUpClosedForm(b: StatBlock, s: Stat, target: int, remaining: int)
    ensures var k := Max(0, Min(Min(target, CapsOf(s).hard) - b.Get(s), remaining));
            var r := TopUp(b, s, target, remaining);
            r.0.Get(s) == b.Get(s) + k && r.1 == remaining - k
    decreases if remaining > 0 then remaining else 0
  {
    var v := b.Get(s);
    AtLeastHalfBelowHardCap(s, v);
    if v < target && remaining > 0 && AtLeastHalf(StatEfficiency(s, v)) {
      TopUpClosedForm(b.Bump(s), s, target, remaining - 1);
    }
  }

  /** One round of the alternation: at most one point to vigor, then at most
      one to adaptability. Returns the block, the points left and the number
      granted this round. */
  function Round(b: StatBlock, remaining: int): (r: (StatBlock, int, int))
    ensures SameOutside(r.0, b, {Vigor, Adaptability})
    ensures Dominates(r.0, b)
    ensures r.0.vigor <= Max(b.vigor, VigorGoal)
    ensures r.0.adaptability <= Max(b.adaptability, AdaptabilityGoal)
    ensures r.2 == r.0.Sum() - b.Sum() && r.1 == remaining - r.2
    ensures remaining > 0 ==> 0 <= r.2 <= remaining
    ensures remaining > 0 && r.2 == 0 ==> b.vigor >= VigorGoal && b.adaptability >= AdaptabilityGoal
  {
    CapsOfValues();
    AtLeastHalfBelowHardCap(Vigor, b.vigor);
    AtLeastHalfBelowHardCap(Adaptability, b.adaptability);
    var (b1, r1, n1) :=
      if b.vigor < VigorGoal && AtLeastHalf(StatEfficiency(Vigor, b.vigor))
      then (b.Bump(Vigor), remaining - 1, 1) else (b, remaining, 0);
    if r1 > 0 && b1.adaptability < AdaptabilityGoal && AtLeastHalf(StatEfficiency(Adaptability, b1.adaptability))
    then (b1.Bump(Adaptability), r1 - 1, n1 + 1) else (b1, r1, n1)
  }

  /** Repeats rounds while points remain and vigor is below 30 or
      adaptability below 20, stopping early after a round that grants nothing. */
  function RoundRobin(b: StatBlock, remaining: int): (r: (StatBlock, int))
    ensures SameOutside(r.0, b, {Vigor, Adaptability})
    ensures Dominates(r.0, b)
    ensures r.0.vigor <= Max(b.vigor, VigorGoal)
    ensures r.0.adaptability <= Max(b.adaptability, AdaptabilityGoal)
    ensures r.1 == remaining - (r.0.Sum() - b.Sum())
    ensures remaining <= 0 ==> r == (b, remaining)
    ensures remaining > 0 ==> 0 <= r.1 <= remaining
    ensures remaining > 0 ==> r.1 == 0 || (r.0.vigor >= VigorGoal && r.0.adaptability >= AdaptabilityGoal)
    decreases if remaining > 0 then remaining else 0
  {
    if remaining > 0 && (b.vigor < VigorGoal || b.adaptability < AdaptabilityGoal) then
      var (b2, r2, n) := Round(b, remaining);
      if n == 0 then (b, remaining) else RoundRobin(b2, r2)
    else
      (b, remaining)
  }

  /** The interim target of a stat: `min(20, floor(points * pct / 100) + current)`.
      For the percentages 13, 14 and 5 this equals the source's
      `Math.floor(points * 0.13)` and friends for every non-negative budget
      of realistic size; for a non-positive budget the phase spends nothing,
      so the target is irrelevant. */
  function InterimTarget(points: int, pct: int, current: int): (r: int)
    ensures r <= InterimCap
    ensures r < InterimCap ==> 100 * (r - current) <= points * pct < 100 * (r - current) + 100
    ensures r == InterimCap ==> 100 * (InterimCap - current) <= points * pct
  {
    Min(InterimCap, (points * pct) / 100 + current)
  }

  /** The three sequential top-ups: vigor, then adaptability, then
      endurance, each toward its interim target computed from the phase's
      initial budget. */
  function TopUps(b: StatBlock, points: int): (r: (StatBlock, int))
    ensures SameOutside(r.0, b, {Vigor, Adaptability, Endurance})
    ensures Dominates(r.0, b)
    ensures r.0.vigor <= Max(b.vigor, InterimCap)
    ensures r.0.adaptability <= Max(b.adaptability, InterimCap)
    ensures r.0.endurance <= Max(b.endurance, InterimCap)
    ensures forall s: Stat :: r.0.Get(s) > b.Get(s) ==> r.0.Get(s) <= CapsOf(s).hard
    ensures r.1 == points - (r.0.Sum() - b.Sum())
    ensures points <= 0 ==> r == (b, points)
    ensures points > 0 ==> r.1 >= 0
  {
    var vigorTarget := InterimTarget(points, 13, b.vigor);
    var adaptabilityTarget := InterimTarget(points, 14, b.adaptability);
    var enduranceTarget := InterimTarget(points, 5, b.endurance);
    var (b1, r1) := TopUp(b, Vigor, vigorTarget, points);
    var (b2, r2) := TopUp(b1, Adaptability, adaptabilityTarget, r1);
    var r := TopUp(b2, Endurance, enduranceTarget, r2);
    SameOutsideTransitive(b2, b1, b, {Adaptability}, {Vigor});
    SameOutsideTransitive(r.0, b2, b, {Endurance}, {Adaptability} + {Vigor});
    assert {Endurance} + ({Adaptability} + {Vigor}) == {Vigor, Adaptability, Endurance};
    r
  }

  /** A block raised only in the three vital stats, vigor to at most 30 and
      the other two to at most 20, never ends above a hard cap where it rose. */
  lemma VitalBoundsBelowHardCaps(b: StatBlock, r: StatBlock)
    requires SameOutside(r, b, {Vigor, Adaptability, Endurance})
    requires r.vigor <= Max(b.vigor, VigorGoal)
    requires r.adaptability <= Max(b.adaptability, InterimCap)
    requires r.endurance <= Max(b.endurance, InterimCap)
    ensures forall s: Stat :: r.Get(s) > b.Get(s) ==> r.Get(s) <= CapsOf(s).hard
  {
    CapsOfValues();
  }

  /** The vital-stat phase. Returns the block and the points left over. */
  function PrioritizeVitalStats(b: StatBlock, points: int): (r: (StatBlock, int))
    ensures SameOutside(r.0, b, {Vigor, Adaptability, Endurance})
    ensures Dominates(r.0, b)
    ensures r.0.vigor <= Max(b.vigor, VigorGoal)
    ensures r.0.adaptability <= Max(b.adaptability, InterimCap)
    ensures r.0.endurance <= Max(b.endurance, InterimCap)
    ensures forall s: Stat :: r.0.Get(s) > b.Get(s) ==> r.0.Get(s) <= CapsOf(s).hard
    ensures r.1 == points - (r.0.Sum() - b.Sum())
    ensures 0 <= r.0.Sum() - b.Sum() <= Max(points, 0)
    ensures points <= 0 ==> r == (b, points)
    ensures points > 0 ==> r.1 >= 0
    ensures points > 0 ==> r.1 == 0 || (r.0.vigor >= VigorGoal && r.0.adaptability >= AdaptabilityGoal)
  {
    var t := TopUps(b, points);
    var r := RoundRobin(t.0, t.1);
    DominatesTransitive(r.0, t.0, b);
    SameOutsideTransitive(r.0, t.0, b, {Vigor, Adaptability}, {Vigor, Adaptability, Endurance});
    assert {Vigor, Adaptability} + {Vigor, Adaptability, Endurance} == {Vigor, Adaptability, Endurance};
    assert r.0.endurance == t.0.endurance;
    VitalBoundsBelowHardCaps(b, r.0);
    DominatesSum(r.0, b);
    r
  }

  /** With a budget of one point, every interim target is the stat's current
      value (13, 14 or 5 percent of 1 rounds down to 0), so the top-ups
      spend nothing, and the round-robin gives the point to vigor whenever
      vigor is below 30. An all-sixes block is one such case. */
  /** With vigor and adaptability at their goals and endurance at 19, a
      budget of 19 leaves the block as it is (the endurance target is 19),
      while a budget of 20 raises endurance to its target 20 and leaves 19. */
  lemma EnduranceTargetStep(b: StatBlock)
    requires b.vigor == VigorGoal && b.adaptability == AdaptabilityGoal && b.endurance == 19
    ensures PrioritizeVitalStats(b, 19) == (b, 19)
    ensures PrioritizeVitalStats(b, 20) == (b.Bump(Endurance), 19)
  {
    CapsOfValues();
    assert InterimTarget(19, 5, 19) == 19;
    assert InterimTarget(20, 5, 19) == 20;
    TopUpClosedForm(b, Endurance, 19, 19);
    TopUpClosedForm(b, Endurance, 20, 20);
    assert TopUps(b, 19) == (b, 19);
    assert TopUps(b, 20) == (b.Bump(Endurance), 19);
  }

  lemma OnePointGoesToVigor(b: StatBlock)
    requires b.vigor < VigorGoal
    ensures PrioritizeVitalStats(b, 1) == (b.Bump(Vigor), 0)
  {
    CapsOfValues();
    assert TopUps(b, 1) == (b, 1);
    AtLeastHalfBelowHardCap(Vigor, b.vigor);
    assert Round(b, 1) == (b.Bump(Vigor), 0, 1);
    assert RoundRobin(b, 1) == RoundRobin(b.Bump(Vigor), 0);
  }
}
