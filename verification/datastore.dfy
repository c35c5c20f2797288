/**
 * The static game data the calculator reads: starting classes, the
 * soft/hard cap table, and the weapon and spell catalogs. Display strings
 * (names, scaling text, type labels) are not modelled; each entry keeps the
 * key it is filed under and its numeric requirements.
 */
module Datastore {
  import opened Stats

  datatype Option<T> = None | Some(value: T)

  /** A soft cap (start of diminishing returns) and a hard cap. */
  datatype CapPair = CapPair(soft: int, hard: int)

  /** The caps used for a stat the table does not list. */
  const DefaultCaps: CapPair := CapPair(30, 50)

  const StatCaps: map<Stat, CapPair> := map[
    Vigor := CapPair(30, 50),
    Endurance := CapPair(20, 40),
    Vitality := CapPair(20, 40),
    Adaptability := CapPair(20, 39),
    Strength := CapPair(30, 50),
    Dexterity := CapPair(30, 50),
    Intelligence := CapPair(40, 50),
    Faith := CapPair(40, 50),
    Attunement := CapPair(25, 45)
  ]

  /** The cap pair of a stat, falling back to (30, 50) when the table has
      none. Every stat has an entry, so the result is always the table's,
      and its soft cap is positive and below its hard cap. */
  function CapsOf(s: Stat): (r: CapPair)
    ensures s in StatCaps && r == StatCaps[s]
    ensures 0 < r.soft < r.hard
  {
    StatCapsEntry(s);
    if s in StatCaps then StatCaps[s] else DefaultCaps
  }

  lemma StatCapsEntry(s: Stat)
    ensures s in StatCaps && 0 < StatCaps[s].soft < StatCaps[s].hard
  {
    match s
    case Vigor =>
    case Endurance =>
    case Vitality =>
    case Adaptability =>
    case Strength =>
    case Dexterity =>
    case Intelligence =>
    case Faith =>
    case Attunement =>
  }

  /** Every stat has an entry, so the (30, 50) fallback never applies. */
  lemma CapTableCoversAllStats()
    ensures forall s: Stat :: s in StatCaps && CapsOf(s) == StatCaps[s]
  {
    forall s: Stat ensures s in StatCaps {
      match s
      case Vigor =>
      case Endurance =>
      case Vitality =>
      case Adaptability =>
      case Strength =>
      case Dexterity =>
      case Intelligence =>
      case Faith =>
      case Attunement =>
    }
  }

  /** The cap pair of each stat, as the table lists it. */
  lemma CapsOfValues()
    ensures CapsOf(Vigor) == CapPair(30, 50) && CapsOf(Endurance) == CapPair(20, 40)
    ensures CapsOf(Vitality) == CapPair(20, 40) && CapsOf(Adaptability) == CapPair(20, 39)
    ensures CapsOf(Strength) == CapPair(30, 50) && CapsOf(Dexterity) == CapPair(30, 50)
    ensures CapsOf(Intelligence) == CapPair(40, 50) && CapsOf(Faith) == CapPair(40, 50)
    ensures CapsOf(Attunement) == CapPair(25, 45)
  {
  }

  /** Every cap pair has its soft cap strictly below its hard cap. */
  lemma CapTableOrdered()
    ensures forall s: Stat :: 0 < CapsOf(s).soft < CapsOf(s).hard
  {
    CapTableCoversAllStats();
    forall s: Stat ensures 0 < CapsOf(s).soft < CapsOf(s).hard {
      match s
      case Vigor =>
      case Endurance =>
      case Vitality =>
      case Adaptability =>
      case Strength =>
      case Dexterity =>
      case Intelligence =>
      case Faith =>
      case Attunement =>
    }
  }

  /** A starting class: the level it starts at and its stat block. */
  datatype ClassInfo = ClassInfo(startingLevel: int, stats: StatBlock)

  /** The soul level of a stat block is its total minus this constant. */
  const LevelBase: int := 53

  /** The keys of the starting-class table, in declaration order. */
  const ClassKeys: seq<string> :=
    ["deprived", "warrior", "knight", "swordsman", "bandit", "cleric", "sorcerer", "explorer"]

  const StartingClasses: map<string, ClassInfo> := map[
    "deprived" := ClassInfo(1, StatBlock(6, 6, 6, 6, 6, 6, 6, 6, 6)),
    "warrior" := ClassInfo(12, StatBlock(7, 6, 6, 5, 15, 11, 5, 5, 5)),
    "knight" := ClassInfo(13, StatBlock(12, 6, 7, 9, 11, 8, 3, 6, 4)),
    "swordsman" := ClassInfo(12, StatBlock(4, 8, 4, 6, 9, 16, 7, 5, 6)),
    "bandit" := ClassInfo(11, StatBlock(9, 7, 11, 3, 9, 14, 1, 8, 2)),
    "cleric" := ClassInfo(14, StatBlock(10, 3, 8, 4, 11, 5, 4, 12, 10)),
    "sorcerer" := ClassInfo(11, StatBlock(5, 6, 5, 8, 3, 7, 14, 4, 12)),
    "explorer" := ClassInfo(10, StatBlock(7, 6, 9, 12, 6, 6, 5, 5, 7))
  ]

  /** A starting class is well formed when all nine stats are positive and
      its starting level is its stat total minus 53. */
  ghost predicate WellFormedClass(c: ClassInfo) {
    && (forall s: Stat :: c.stats.Get(s) > 0)
    && c.startingLevel == c.stats.Sum() - LevelBase
  }

  /** Looks a class up by key; an unknown key yields nothing (JavaScript `undefined`). */
  function GetClass(key: string): (r: Option<ClassInfo>)
    ensures r.Some? <==> key in ClassKeys
    ensures r.Some? ==> WellFormedClass(r.value) && r.value.startingLevel >= 1
  {
    if key in StartingClasses then Some(StartingClasses[key]) else None
  }

  /** Deprived is all sixes: total 54 at starting level 1. */
  lemma DeprivedIsAllSixes()
    ensures GetClass("deprived").Some?
    ensures forall s: Stat :: GetClass("deprived").value.stats.Get(s) == 6
    ensures GetClass("deprived").value.stats.Sum() == 54
    ensures GetClass("deprived").value.startingLevel == 1
  {
    assert "deprived" in StartingClasses;
  }

  /** What a weapon or spell demands of four stats (spells use only the last two). */
  datatype Requirements = Requirements(strength: int, dexterity: int, intelligence: int, faith: int)

  /** The weapon catalog is filed under these keys, in this order. */
  datatype WeaponKind = Dagger | Sword | Axe

  datatype Weapon = Weapon(kind: WeaponKind, requirements: Requirements)

  const BasicDagger: Weapon := Weapon(Dagger, Requirements(5, 8, 0, 0))
  const BasicSword: Weapon := Weapon(Sword, Requirements(10, 10, 0, 0))
  const BasicAxe: Weapon := Weapon(Axe, Requirements(12, 6, 0, 0))

  /** The catalog's values in key order: one list of weapons per kind. */
  const WeaponCatalog: seq<seq<Weapon>> := [[BasicDagger], [BasicSword], [BasicAxe]]

  /** The lists joined end to end: the first list comes first, and an item
      occurs in the result exactly when it occurs in one of the lists. */
  function Flatten<T(!new)>(xss: seq<seq<T>>): (r: seq<T>)
    ensures |xss| > 0 ==> |xss[0]| <= |r| && r[..|xss[0]|] == xss[0]
    ensures forall x :: x in r <==> exists i :: 0 <= i < |xss| && x in xss[i]
  {
    if |xss| == 0 then []
    else
      var rest := Flatten(xss[1..]);
      assert forall x :: x in rest <==> exists i :: 1 <= i < |xss| && x in xss[i] by {
        forall x | x in rest ensures exists i :: 1 <= i < |xss| && x in xss[i] {
          var j :| 0 <= j < |xss[1..]| && x in xss[1..][j];
          assert x in xss[j + 1];
        }
        forall x | (exists i :: 1 <= i < |xss| && x in xss[i]) ensures x in rest {
          var i :| 1 <= i < |xss| && x in xss[i];
          assert x in xss[1..][i - 1];
        }
      }
      assert (xss[0] + rest)[..|xss[0]|] == xss[0];
      xss[0] + rest
  }

  /** Every weapon of every kind, kinds in catalog order. */
  function GetAllWeapons(): (r: seq<Weapon>)
    ensures |r| == 3
    ensures r[0].kind == Dagger && r[1].kind == Sword && r[2].kind == Axe
    ensures r == [BasicDagger, BasicSword, BasicAxe]
  {
    assert Flatten(WeaponCatalog[3..]) == [];
    assert Flatten(WeaponCatalog[2..]) == [BasicAxe] + Flatten(WeaponCatalog[3..]);
    assert Flatten(WeaponCatalog[1..]) == [BasicSword] + Flatten(WeaponCatalog[2..]);
    assert Flatten(WeaponCatalog) == [BasicDagger] + Flatten(WeaponCatalog[1..]);
    Flatten(WeaponCatalog)
  }

  /** The spell catalog is filed under these schools. */
  datatype School = Sorcery | Miracle | Hex

  datatype Spell = Spell(school: School, requirements: Requirements)

  const TestSpell: Spell := Spell(Sorcery, Requirements(0, 0, 10, 0))
  const Heal: Spell := Spell(Miracle, Requirements(0, 0, 0, 12))
  const DarkOrb: Spell := Spell(Hex, Requirements(0, 0, 12, 10))

  function SpellsOf(school: School): (r: seq<Spell>)
    ensures |r| == 1 && r[0].school == school
    ensures r[0].requirements.strength == 0 && r[0].requirements.dexterity == 0
  {
    match school
    case Sorcery => [TestSpell]
    case Miracle => [Heal]
    case Hex => [DarkOrb]
  }

  const SorceryPlaystyles: set<string> := {"mage", "magic_swordsman", "mage_barbarian"}
  const MiraclePlaystyles: set<string> := {"priest", "paladin", "faith_dex"}
  const HexPlaystyles: set<string> := {"hexer", "hexer_physical"}

  /** The spells offered to a playstyle; any other playstyle gets none. */
  function GetSpellsForPlaystyle(playstyle: string): (r: seq<Spell>)
    ensures r == SpellsOf(Sorcery) <==> playstyle in SorceryPlaystyles
    ensures r == SpellsOf(Miracle) <==> playstyle in MiraclePlaystyles
    ensures r == SpellsOf(Hex) <==> playstyle in HexPlaystyles
    ensures r == [] <==> playstyle !in SorceryPlaystyles + MiraclePlaystyles + HexPlaystyles
    ensures forall i :: 0 <= i < |r| ==> r[i].school == r[0].school
  {
    match playstyle
    case "mage" => SpellsOf(Sorcery)
    case "magic_swordsman" => SpellsOf(Sorcery)
    case "mage_barbarian" => SpellsOf(Sorcery)
    case "priest" => SpellsOf(Miracle)
    case "paladin" => SpellsOf(Miracle)
    case "faith_dex" => SpellsOf(Miracle)
    case "hexer" => SpellsOf(Hex)
    case "hexer_physical" => SpellsOf(Hex)
    case _ => []
  }

  /** The two pyromancy playstyles have no spell school of their own. */
  lemma PyromancersGetNoSpells()
    ensures GetSpellsForPlaystyle("pyromancer") == []
    ensures GetSpellsForPlaystyle("pyro_physical") == []
  {
  }
}
