# DS2 stat calculator: allocation engine in Dafny

This project models the stat-allocation engine of a Dark Souls II build
calculator. Given a starting class's nine stats, a point budget, and a
playstyle's minimum floors and per-stat weights, the engine works in phases:

1. It raises the floored stats to their minimums.
2. It tops up vigor, adaptability and endurance ("vital stats"), then
   alternates vigor and adaptability toward 30 and 20.
3. It runs weighted passes over the stats, grouped by weight and highest
   weight first. A group of weight 1.0 or more is first filled toward its
   soft caps; it then gets an even share only if the pass's running total,
   this fill included, is still zero. A group of weight below 1.0 gets only the even share.

The model also covers:

- the efficiency bands against the soft/hard cap table;
- the derived values agility and roll i-frames;
- the weapon and spell requirement checks;
- the static data tables: starting classes, caps, weapons, spells.

Modules, one per file:

- `Stats` (`stats.dfy`): the `Stat` enum and the nine-field `StatBlock`.
  `Dominates(hi, lo)` means no stat of `hi` is below `lo`. `SameOutside`
  means two blocks agree outside a set of stats.
- `Datastore` (`datastore.dfy`): the class, cap, weapon and spell tables and
  their lookups.
- `Derived` (`derived.dfy`): agility, i-frames and the requirement
  predicates.
- `Efficiency` (`efficiency.dfy`): the three efficiency bands as an enum.
  `Full`, `Half` and `Tenth` stand for 1.0, 0.5 and 0.1.
- `Vital` (`vital.dfy`): `prioritizeVitalStats`.
- `Spending` (`spending.dfy`): `distributeToSoftCaps` and `distributeEvenly`.
- `Grouping` (`grouping.dfy`): `groupStatsByWeight`.
- `Allocation` (`allocation.dfy`): `distributeStats`, as written and corrected
  (see Findings).

Every mutating loop of the source is a pure recursive function. It returns
the new block together with the points left or spent. Stat values and
budgets are unbounded integers. No arithmetic in the engine comes near the
limits of a double.

What the code does with the budget and the loop:

- **Budget.** The budget is `availablePoints` as passed. The UI passes the
  level (UIManager.js:51). Nothing caps the total and nothing clamps the
  result.
  - So a level-1 Deprived with budget 1 and no floors (a playstyle the
    profile table does not name) ends with vigor 7
    (`Allocation.DeprivedAtLevelOne`). Every named playstyle sets floors,
    and on Deprived these can cost more than the budget. `remaining` then
    goes negative and the output is the floored block.
- **`continue` (Calculation.js:94).** It moves on to the next group; it does
  not restart the pass, although the comment on that line says "start loop
  over".
- **Playstyles.** An unknown playstyle raises no error. It falls through to
  the base profile, which sets no floors.
- **Exact spending.** The output does not always total start plus budget
  (see Findings).

## Model

| member | source | states |
|---|---|---|
| Datastore.CapTableCoversAllStats | Datastore.js:46-56 | every stat has an entry in the cap table, so the (30, 50) fallback of Calculation.js:165 and :202 never applies |
| Datastore.CapsOf | Calculation.js:202 | the cap lookup with its (30, 50) fallback always returns the table's own entry for the stat, never the fallback, and that entry has 0 < soft cap < hard cap |
| Datastore.CapsOfValues | Datastore.js:46-56 | the cap pair of each of the nine stats, as the table lists it |
| Datastore.CapTableOrdered | Datastore.js:46-56 | every soft cap is positive and strictly below its hard cap |
| Datastore.GetClass | Datastore.js:126-128 | a class key yields a class exactly when it is one of the eight keys; every class has positive stats and a starting level equal to its stat total minus 53 and at least 1 |
| Datastore.DeprivedIsAllSixes | Datastore.js:4-8 | Deprived is all sixes, total 54, starting level 1 |
| Datastore.GetAllWeapons | Datastore.js:130-132 | the catalog flattens to dagger, sword, axe: three weapons in key order |
| Datastore.Flatten | Datastore.js:131 | one-level `flat()`: the first list is a prefix of the result, and an item is in the result exactly when it is in one of the lists |
| Datastore.SpellsOf | Datastore.js:101-123 | each school's list holds one spell, of that school, whose requirements name only intelligence and faith (strength and dexterity 0) |
| Datastore.GetSpellsForPlaystyle | Datastore.js:138-154 | the three sorcery playstyles get the sorcery list, the three miracle ones the miracle list, the two hex ones the hex list, and every other playstyle the empty list, each in both directions |
| Datastore.PyromancersGetNoSpells | Datastore.js:151-152 | the pyromancy playstyles fall to the default case and get no spells |
| Derived.CalculateAgility | Calculation.js:8-10 | agility is 85 plus the floor of three quarters of adaptability plus a quarter of attunement |
| Derived.AgilityOfSixAndSix | Calculation.js:8-10 | adaptability 6 and attunement 6 give agility 91 |
| Derived.AgilityMonotone | Calculation.js:8-10 | raising adaptability or attunement never lowers agility |
| Derived.GetIFrames | Calculation.js:12-26 | i-frames lie in 5..16; every agility below 100 gives 5 and every agility of 116 or more gives 16 |
| Derived.IFramesCountThresholds | Calculation.js:12-26 | i-frames are 5 plus the number of the eleven thresholds 100..116 the agility reaches |
| Derived.CountReachedMonotone | Calculation.js:12-26 | a higher agility reaches at least as many thresholds |
| Derived.IFramesMonotone | Calculation.js:12-26 | i-frames never decrease as agility grows |
| Derived.RequirementsUpwardClosed | Calculation.js:28-44 | a block that dominates one meeting a weapon's or spell's requirements meets them too |
| Derived.StartingBlockRequirements | Calculation.js:28-44 | the all-sixes block meets no catalog weapon and neither the sorcery nor the miracle spell; the Warrior block meets all three weapons |
| Derived.MeetsWeaponRequirements | Calculation.js:28-36 | a weapon is usable exactly when the block meets its four requirements read as floors on strength, dexterity, intelligence and faith |
| Derived.MeetsSpellRequirements | Calculation.js:38-44 | a spell is castable exactly when the block meets its intelligence and faith floors; its strength and dexterity requirements play no part |
| Efficiency.StatEfficiency | Calculation.js:201-206 | efficiency is full exactly below the soft cap, half exactly from the soft cap up to below the hard cap, a tenth exactly from the hard cap on, and never zero |
| Efficiency.AtLeastHalfBelowHardCap | Calculation.js:201-206 | the `>= 0.5` test used by the vital phase holds exactly below the hard cap |
| Efficiency.EfficiencyAtLeastTenth | Calculation.js:186-193 | the `>= 0.1` test of the even distribution always passes, so its splice branch never runs |
| Efficiency.EfficiencyNonIncreasing | Calculation.js:201-206 | a higher value never has a higher efficiency |
| Vital.TopUp | Calculation.js:116-127 | one top-up loop changes only its stat, never lowers it, and never takes it past the larger of its start and min(target, hard cap); the points left are the budget minus what it added and are not negative when the budget was positive |
| Vital.TopUpClosedForm | Calculation.js:116-127 | a top-up adds exactly max(0, min(min(target, hard cap) - current, budget)) points |
| Vital.RoundRobin | Calculation.js:128-141 | the alternation changes only vigor and adaptability, upward, and never past max(start, 30) and max(start, 20); it spends between 0 and the budget, and it stops with points left only when both goals are reached |
| Vital.TopUps | Calculation.js:112-127 | the three top-ups change only the vital stats, upward, to at most max(start, 20), never past a hard cap where they rise, and charge the budget exactly |
| Vital.InterimTarget | Calculation.js:112-114 | the interim target is at most 20; below 20 it is the current value plus the floor of points * pct / 100, and it is 20 exactly when that floor would reach 20 - current |
| Vital.VitalBoundsBelowHardCaps | Calculation.js:116-135 | the vital phase's bounds keep every raised stat at or below its hard cap |
| Vital.PrioritizeVitalStats | Calculation.js:110-143 | only vigor, adaptability and endurance change, upward, to at most max(start, 30), max(start, 20) and max(start, 20), never past a hard cap; the result is points minus spent, with spent between 0 and max(points, 0); nothing changes for a non-positive budget; a positive budget is either used up or both goals are reached |
| Vital.Round | Calculation.js:129-140 | one round changes only vigor and adaptability, upward, never past max(start, 30) and max(start, 20); it charges the budget exactly what it grants, at most the budget when that is positive; it grants nothing only when vigor is at 30 or more and adaptability at 20 or more |
| Vital.OnePointGoesToVigor | Calculation.js:110-143 | with one point, every interim target equals the stat's current value, so the top-ups spend nothing and the point goes to vigor whenever vigor is below 30 |
| Vital.EnduranceTargetStep | Calculation.js:110-143 | with vigor and adaptability at their goals and endurance 19, budget 19 changes nothing while budget 20 raises endurance to 20, since the endurance target is floor(5% of the budget) plus the current value |
| Spending.FillFrom | Calculation.js:162-173 | the fill loop from a running total raises only listed stats, never past their soft cap, and returns the running total plus what it added, at most the budget; if it stops under budget, every listed stat is at its soft cap |
| Spending.DistributeToSoftCaps | Calculation.js:160-175 | the return value equals the total increase and is between 0 and max(maxPoints, 0); no stat is pushed above its soft cap; a stat already at or above it and every unlisted stat are untouched; under budget, every listed stat reaches its soft cap |
| Spending.Sweep | Calculation.js:184-194 | one reverse sweep grants min(length, points left) points, one per position, and touches only the swept positions |
| Spending.Rounds | Calculation.js:180-197 | repeated sweeps over a non-empty list grant exactly the budget and touch only listed stats |
| Spending.DistributeEvenly | Calculation.js:178-199 | with a non-empty list and maxPoints >= 0 it spends exactly maxPoints; with an empty list or no budget it changes nothing; unlisted stats are unchanged |
| Spending.SweepPositions | Calculation.js:184-194 | on a list without repeats, one sweep raises exactly the last `g` positions by one, where `g` is what it grants |
| Spending.RoundsShares | Calculation.js:180-197 | spreading q*n + rem points over n distinct stats gives each q, and the last rem one more |
| Spending.DistributeEvenlyShares | Calculation.js:178-199 | each stat's increase is its even share; increases differ by at most one, and later-listed stats never get less |
| Spending.FillBelowSoft | Calculation.js:164-172 | filling one stat below its soft cap raises it by min(distance to the cap, budget) |
| Spending.FillAtSoft | Calculation.js:164-168 | filling one stat at or above its soft cap changes nothing |
| Spending.EvenlyOne | Calculation.js:178-199 | even distribution over one stat gives it the whole budget |
| Grouping.AddTo | Calculation.js:149-151 | adding a stat under a weight adds that weight to the set of group weights and keeps every group non-empty |
| Grouping.StatsWeightedAbsent | Calculation.js:147-152 | a weight no pair carries collects no stats |
| Grouping.StatsWeightedSnoc | Calculation.js:147-152 | appending a pair appends its stat to exactly the group of its weight |
| Grouping.AddToRepresents | Calculation.js:149-151 | adding a positive-weight pair keeps every group equal to the stats of its weight in declaration order |
| Grouping.PositiveWeightsSnoc | Calculation.js:149 | appending a pair adds its weight to the positive weights exactly when it is positive |
| Grouping.Collect | Calculation.js:146-153 | the collected groups have exactly the positive weights, each non-empty and holding the stats of that weight in declaration order |
| Grouping.InsertDesc | Calculation.js:156 | inserting a group of a new weight keeps the list strictly descending and adds exactly that group |
| Grouping.SortDesc | Calculation.js:154-156 | sorting groups of distinct weights yields the same groups in strictly descending weight |
| Grouping.GroupStatsByWeight | Calculation.js:145-157 | every group has a positive weight and holds the stats of that weight in declaration order; the groups are strictly descending, non-empty, and their weights are exactly the positive weights |
| Grouping.InStatsWeighted | Calculation.js:147-152 | a stat is in the group of a weight exactly when some pair gives it that weight |
| Grouping.GroupingPartitionsStats | Calculation.js:145-157 | on distinct stats: no stat of weight <= 0 is in any group, every positive-weight stat is in exactly the group of its weight, and no group repeats a stat |
| Allocation.ApplyMinimums | Calculation.js:70-76 | after the floors every floored stat is at or above its minimum; only floored stats change, only upward; the budget is charged the exact raise and may go negative |
| Allocation.FloorStep | Calculation.js:71-75 | one floor sets its stat to the larger of its value and the minimum, leaves the other stats alone, and reports the raise |
| Allocation.MinimumsRaiseToListedValue | Calculation.js:70-76 | a stat the floors raise ends exactly at one of the minimums listed for it, never above what some floor asks |
| Allocation.GroupStep | Calculation.js:88-101 | one group only raises stats and adds its spend to the running total; `remaining` falls by at least what it spent; a group that starts a pass with stats and budget spends something |
| Allocation.GroupStepFillsOne | Calculation.js:90-94 | a one-stat group of weight at least 1.0 below its soft cap gets k = min(distance to the cap, budget) points and skips its even step; as written `remaining` drops by the running total plus k, corrected by k |
| Allocation.GroupStepEvenOne | Calculation.js:90-100 | a one-stat group of weight at least 1.0 at its soft cap, first in its pass, gets min(budget, 5) points by even distribution, in both versions |
| Allocation.GroupStepSkipsOne | Calculation.js:90-94 | a one-stat group at its soft cap after earlier spending in the pass gets nothing; as written `remaining` still drops by the running total, corrected it stays |
| Allocation.Pass | Calculation.js:87-101 | a pass only raises stats; its running total grows by what it spends, at most the budget; `remaining` falls by at least that much; with no budget it does nothing |
| Allocation.Drive | Calculation.js:84-104 | the loop terminates, only raises stats, adds at most max(budget, 0) points, and does nothing without budget |
| Allocation.SpendAfterFloors | Calculation.js:78-104 | the phases after the floors only raise stats and add at most max(0, budget left) |
| Allocation.DistributeStats | Calculation.js:63-107 | every output stat is at least its starting value and its minimum; after the floors at most max(0, availablePoints - floor raise) more points are added; if the floors use up the budget nothing else changes; overall the block grows by at most the budget, unless the output is exactly the floored block |
| Allocation.RerunSpendsAgain | Calculation.js:63-107 | the distribution is not idempotent: with one point and no floors, running it again on its own output adds another point to vigor |
| Allocation.LargerBudgetLowersStrength | Calculation.js:63-104 | budget monotonicity fails: on one input a budget of 20 ends with less strength (24) than a budget of 19 (28), in the as-written and the corrected loop |
| Allocation.WeaponFloorsMet | Calculation.js:63-107 | with a weapon's requirements as the floors, the result can use that weapon, whatever the budget and the weights |
| Allocation.FloorsKept | Calculation.js:78-104 | raising stats never breaks a floor that already holds |
| Allocation.GroupStepCorrected | Calculation.js:88-101 | with the per-fill subtraction, `remaining` falls by exactly what the group spent and stays non-negative |
| Allocation.PassCorrected | Calculation.js:87-101 | a corrected pass charges exactly what it spends, keeps `remaining` non-negative, and spends something when the first group is non-empty |
| Allocation.SpendAfterFloorsCorrected | Calculation.js:78-104 | the corrected phases after the floors only raise stats, add at most max(0, budget left), and with a positive budget and some positive weight add exactly that budget |
| Allocation.DriveCorrected | Calculation.js:84-104 | the corrected loop spends the whole positive budget when the first group is non-empty |
| Allocation.DistributeStatsCorrected | Calculation.js:63-107 | when the floors leave budget and some weight is positive, the corrected output totals the starting total plus the whole budget |
| Allocation.CumulativeSubtractionLosesPoints | Calculation.js:93 | on the block and groups of the finding below, the loop as written adds 8 of 10 points and the corrected loop adds 10 |
| Allocation.LossAsWritten | Calculation.js:84-104 | for every block with strength and dexterity at 28, the groups (2.0, [strength]), (1.5, [dexterity]) and 10 points, the loop as written adds only 8 points |
| Allocation.LossCorrected | Calculation.js:84-104 | on the same inputs the corrected loop adds all 10 points |
| Allocation.OnePointNoFloors | Calculation.js:63-143 | with one point and no floors, the whole distribution adds that point to vigor whenever vigor is below 30, whatever the weights |
| Allocation.DeprivedAtLevelOne | Calculation.js:63-143 | a level-1 Deprived with budget 1 and no floors ends with vigor 7 and nothing else changed, whatever the weights |
| Allocation.DistributionKeepsRequirements | Calculation.js:28-44 | a weapon or spell usable with the starting stats stays usable after the distribution |

## Left out

- UIManager.js: DOM wiring, form parsing and HTML output. Its call passes the
  level as the budget (UIManager.js:51) after a range check (UIManager.js:42).
  The model takes the budget as an integer parameter.
- `getPlaystyleRequirements` (Calculation.js:209-370): its weights come from
  floating-point additions and are grouped by exact equality. The model
  takes minimums and weights as inputs. Weights are `real`, which compares
  finite doubles exactly; NaN weights are not modelled. The integer minimum
  tables are not encoded.
- `recommendWeapons` / `recommendSpells` (Calculation.js:46-60): they only copy
  catalog entries and add the flag the two requirement predicates compute.
- Display strings in the catalogs: names, scaling text, type labels.
- `getStatCaps` (Datastore.js:134-136) is the table itself, as `Datastore.StatCaps`.
- `Datastore.GetClass`: inherited JavaScript object properties (`getClass("toString")`)
  are not modelled; any key outside the eight class keys gives `None`.
- `Derived.CalculateAgility`: it computes with `(3a + t) / 4` on integers.
  The source's `a * 0.75 + t * 0.25` in doubles is equal to it for stat
  values below 2^50, because both constants are exact in binary.
- `Vital.InterimTarget`: `floor(points * 0.13)`, `* 0.14` and `* 0.05` are
  written `(13 * points) / 100` and so on. The three doubles lie slightly
  above their decimal values, so the two agree on every non-negative budget
  of realistic size. For a non-positive budget the phase spends nothing.
- Spending.DistributeEvenly: the splice branch (Calculation.js:192-193) is
  not modelled, because `Efficiency.EfficiencyAtLeastTenth` shows it
  unreachable.
- Allocation.Drive: no claim that the output totals start plus budget,
  because the code does not guarantee it (see Findings).
- Allocation.DistributeStats: a larger budget can lower an output stat, in
  the as-written and the corrected loop alike, so no monotonicity in the
  budget is claimed. `Allocation.LargerBudgetLowersStrength` gives an input:
  with endurance weighted 2.0 and strength 1.5, budget 19 ends with
  strength 28 and budget 20 with strength 24. At 20 the endurance interim
  target (Calculation.js:114) reaches the soft cap, so the first group takes
  an even share of 5 (Calculation.js:96-100) instead of a one-point fill
  that skips it (Calculation.js:94). No profile of Calculation.js:209-370
  weights endurance at 1.0 or more, so whether a real playstyle shows the
  same effect is open.
- Allocation.DistributeStats: running it again on its own output is not a
  no-op, because the budget is the level itself and is spent again
  (`Allocation.RerunSpendsAgain`).
- The minimum floors are a sequence of (stat, minimum) pairs in object key
  order, and weights a sequence of (stat, weight) pairs. A repeated stat is
  allowed in the model, though a JavaScript object cannot hold one.

## Findings

| source | as written | input that shows it | evidently intended | confidence | as-written member | corrected member |
|---|---|---|---|---|---|---|
| Calculation.js:93 | after a soft-cap fill, `remaining -= pointsSpent` subtracts the pass's running total, so earlier spending in the same pass is charged again | stats (vigor 30, endurance 6, vitality 6, adaptability 20, strength 28, dexterity 28, intelligence 6, faith 6, attunement 6), groups [(2.0, [strength]), (1.5, [dexterity])], remaining 10: the strength fill spends 2 and the dexterity fill spends 2, but `remaining` drops by 2 and then by 4; the second pass spends the 4 left, and the loop adds 8 points instead of 10 | subtract only what this fill spent, so `remaining` falls by exactly the points spent and the whole budget is used | high (proved on the model; not executed) | Allocation.Drive | Allocation.DriveCorrected |

The corrected chain (`GroupStepCorrected`, `PassCorrected`, `DriveCorrected`,
`DistributeStatsCorrected`) changes only the subtraction at line 93.
`DriveCorrected` proves that a positive budget is spent exactly when the
first group is non-empty. `DistributeStatsCorrected` lifts this to the whole
engine: the output totals start plus budget whenever the floors leave budget
and some weight is positive. `Allocation.CumulativeSubtractionLosesPoints`
computes both loops on the input above. Those groups are an input of
the weighted phase; the source's own profiles weight all nine stats.
Several of them (priest and mage, for example) have two groups of weight
1.0 or more. When both fill in one pass, line 93 charges the first fill
twice in the same way. The model proves the loss only for the input above,
not for a full profile.
