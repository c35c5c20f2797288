/**
 * Values the calculator derives from a finished stat block: agility, the
 * invincibility frames of a roll, and whether an item's stat requirements
 * are met.
 */
module Derived {
  import opened Stats
  import opened Datastore

  /** Agility: the floor of three quarters of adaptability plus a quarter of
      attunement, plus 85. For integer inputs the float expression is exact,
      so it is the integer quotient of 3a + t by 4 (Dafny's `/` rounds toward
      minus infinity for a positive divisor, as `Math.floor` does). */
  function CalculateAgility(adaptability: int, attunement: int): (r: int)
    ensures 4 * (r - 85) <= 3 * adaptability + attunement < 4 * (r - 85) + 4
  {
    (3 * adaptability + attunement) / 4 + 85
  }

  lemma AgilityOfSixAndSix()
    ensures CalculateAgility(6, 6) == 91
  {
  }

  /** Raising either input never lowers agility. */
  lemma AgilityMonotone(a: int, t: int, a': int, t': int)
    requires a <= a' && t <= t'
    ensures CalculateAgility(a, t) <= CalculateAgility(a', t')
  {
  }

  /** Roll invincibility frames as a step function of agility. */
  function GetIFrames(agility: int): (r: int)
    ensures 5 <= r <= 16
    ensures agility < 100 ==> r == 5
    ensures agility >= 116 ==> r == 16
  {
    if agility >= 116 then 16
    else if agility >= 113 then 15
    else if agility >= 111 then 14
    else if agility >= 109 then 13
    else if agility >= 108 then 12
    else if agility >= 106 then 11
    else if agility >= 105 then 10
    else if agility >= 103 then 9
    else if agility >= 102 then 8
    else if agility >= 101 then 7
    else if agility >= 100 then 6
    else if agility >= 99 then 5
    else 5
  }

  /** The agility values at which one more frame is gained, ascending. */
  const FrameThresholds: seq<int> := [100, 101, 102, 103, 105, 106, 108, 109, 111, 113, 116]

  /** How many of `ts` are at most `agility`. */
  function CountReached(ts: seq<int>, agility: int): (n: nat)
    ensures n <= |ts|
  {
    if |ts| == 0 then 0
    else (if ts[0] <= agility then 1 else 0) + CountReached(ts[1..], agility)
  }

  /** The step function is five plus the number of thresholds reached. */
  lemma IFramesCountThresholds(agility: int)
    ensures GetIFrames(agility) == 5 + CountReached(FrameThresholds, agility)
  {
    var t0: seq<int> := [100, 101, 102, 103, 105, 106, 108, 109, 111, 113, 116];
    var t1: seq<int> := [101, 102, 103, 105, 106, 108, 109, 111, 113, 116];
    var t2: seq<int> := [102, 103, 105, 106, 108, 109, 111, 113, 116];
    var t3: seq<int> := [103, 105, 106, 108, 109, 111, 113, 116];
    var t4: seq<int> := [105, 106, 108, 109, 111, 113, 116];
    var t5: seq<int> := [106, 108, 109, 111, 113, 116];
    var t6: seq<int> := [108, 109, 111, 113, 116];
    var t7: seq<int> := [109, 111, 113, 116];
    var t8: seq<int> := [111, 113, 116];
    var t9: seq<int> := [113, 116];
    var t10: seq<int> := [116];
    var t11: seq<int> := [];
    assert t0[1..] == t1;
    assert CountReached(t0, agility) == (if 100 <= agility then 1 else 0) + CountReached(t1, agility);
    assert t1[1..] == t2;
    assert CountReached(t1, agility) == (if 101 <= agility then 1 else 0) + CountReached(t2, agility);
    assert t2[1..] == t3;
    assert CountReached(t2, agility) == (if 102 <= agility then 1 else 0) + CountReached(t3, agility);
    assert t3[1..] == t4;
    assert CountReached(t3, agility) == (if 103 <= agility then 1 else 0) + CountReached(t4, agility);
    assert t4[1..] == t5;
    assert CountReached(t4, agility) == (if 105 <= agility then 1 else 0) + CountReached(t5, agility);
    assert t5[1..] == t6;
    assert CountReached(t5, agility) == (if 106 <= agility then 1 else 0) + CountReached(t6, agility);
    assert t6[1..] == t7;
    assert CountReached(t6, agility) == (if 108 <= agility then 1 else 0) + CountReached(t7, agility);
    assert t7[1..] == t8;
    assert CountReached(t7, agility) == (if 109 <= agility then 1 else 0) + CountReached(t8, agility);
    assert t8[1..] == t9;
    assert CountReached(t8, agility) == (if 111 <= agility then 1 else 0) + CountReached(t9, agility);
    assert t9[1..] == t10;
    assert CountReached(t9, agility) == (if 113 <= agility then 1 else 0) + CountReached(t10, agility);
    assert t10[1..] == t11;
    assert CountReached(t10, agility) == (if 116 <= agility then 1 else 0) + CountReached(t11, agility);
    assert t0 == FrameThresholds;
  }

  /** Counting reached thresholds is monotone in agility. */
  lemma {:induction false} CountReachedMonotone(ts: seq<int>, a: int, b: int)
    requires a <= b
    ensures CountReached(ts, a) <= CountReached(ts, b)
  {
    if |ts| > 0 {
      CountReachedMonotone(ts[1..], a, b);
    }
  }

  /** More agility never means fewer frames. */
  lemma IFramesMonotone(a: int, b: int)
    requires a <= b
    ensures GetIFrames(a) <= GetIFrames(b)
  {
    IFramesCountThresholds(a);
    IFramesCountThresholds(b);
    CountReachedMonotone(FrameThresholds, a, b);
  }

  /** A requirement record read as floors on the four stats it names. */
  function WeaponFloors(req: Requirements): seq<(Stat, int)> {
    [(Strength, req.strength), (Dexterity, req.dexterity), (Intelligence, req.intelligence), (Faith, req.faith)]
  }

  /** The two floors a spell check reads: intelligence and faith. */
  function SpellFloors(req: Requirements): seq<(Stat, int)> {
    [(Intelligence, req.intelligence), (Faith, req.faith)]
  }

  /** Every floor in the list holds. */
  ghost predicate MeetsFloors(stats: StatBlock, floors: seq<(Stat, int)>) {
    forall k :: 0 <= k < |floors| ==> stats.Get(floors[k].0) >= floors[k].1
  }

  lemma WeaponFloorsIff(stats: StatBlock, req: Requirements)
    ensures MeetsFloors(stats, WeaponFloors(req))
            <==> stats.strength >= req.strength && stats.dexterity >= req.dexterity
                 && stats.intelligence >= req.intelligence && stats.faith >= req.faith
  {
    var f := WeaponFloors(req);
    assert f[0] == (Strength, req.strength) && f[1] == (Dexterity, req.dexterity);
    assert f[2] == (Intelligence, req.intelligence) && f[3] == (Faith, req.faith);
  }

  lemma SpellFloorsIff(stats: StatBlock, req: Requirements)
    ensures MeetsFloors(stats, SpellFloors(req))
            <==> stats.intelligence >= req.intelligence && stats.faith >= req.faith
  {
    var f := SpellFloors(req);
    assert f[0] == (Intelligence, req.intelligence) && f[1] == (Faith, req.faith);
  }

  /** A weapon is usable when strength, dexterity, intelligence and faith
      each reach the weapon's requirement: exactly when the block meets the
      requirement read as floors. */
  predicate MeetsWeaponRequirements(weapon: Weapon, stats: StatBlock): (r: bool)
    ensures r <==> MeetsFloors(stats, WeaponFloors(weapon.requirements))
  {
    var req := weapon.requirements;
    WeaponFloorsIff(stats, req);
    && stats.strength >= req.strength
    && stats.dexterity >= req.dexterity
    && stats.intelligence >= req.intelligence
    && stats.faith >= req.faith
  }

  /** A spell is castable when intelligence and faith reach its requirement;
      strength and dexterity requirements are ignored. */
  predicate MeetsSpellRequirements(spell: Spell, stats: StatBlock): (r: bool)
    ensures r <==> MeetsFloors(stats, SpellFloors(spell.requirements))
    ensures r <==> MeetsWeaponRequirements(
                     Weapon(Dagger, spell.requirements.(strength := stats.strength, dexterity := stats.dexterity)), stats)
  {
    var req := spell.requirements;
    SpellFloorsIff(stats, req);
    && stats.intelligence >= req.intelligence
    && stats.faith >= req.faith
  }

  /** A block that dominates another can use every weapon and spell the other can. */
  lemma RequirementsUpwardClosed(lo: StatBlock, hi: StatBlock, w: Weapon, sp: Spell)
    requires Dominates(hi, lo)
    ensures MeetsWeaponRequirements(w, lo) ==> MeetsWeaponRequirements(w, hi)
    ensures MeetsSpellRequirements(sp, lo) ==> MeetsSpellRequirements(sp, hi)
  {
    assert hi.Get(Strength) >= lo.Get(Strength) && hi.Get(Dexterity) >= lo.Get(Dexterity);
    assert hi.Get(Intelligence) >= lo.Get(Intelligence) && hi.Get(Faith) >= lo.Get(Faith);
  }

  /** The predicates check the catalog's numbers: all sixes (Deprived) meet
      no weapon and no spell, while the Warrior block meets all three weapons. */
  lemma StartingBlockRequirements()
    ensures forall w :: w in GetAllWeapons() ==> !MeetsWeaponRequirements(w, StatBlock(6, 6, 6, 6, 6, 6, 6, 6, 6))
    ensures forall w :: w in GetAllWeapons() ==> MeetsWeaponRequirements(w, StatBlock(7, 6, 6, 5, 15, 11, 5, 5, 5))
    ensures !MeetsSpellRequirements(TestSpell, StatBlock(6, 6, 6, 6, 6, 6, 6, 6, 6))
    ensures !MeetsSpellRequirements(Heal, StatBlock(6, 6, 6, 6, 6, 6, 6, 6, 6))
  {
  }
}
