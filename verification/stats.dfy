/**
 * The nine character attributes and the stat block that assigns a level to
 * each of them. Every phase of the allocation engine reads and returns a
 * `StatBlock` value instead of mutating a shared object.
 */
module Stats {

  /** The nine attributes, in the order the data tables declare them. */
  datatype Stat =
    | Vigor | Endurance | Vitality | Adaptability | Strength
    | Dexterity | Intelligence | Faith | Attunement

  /** All nine attributes in declaration order. */
  const AllStats: seq<Stat> :=
    [Vigor, Endurance, Vitality, Adaptability, Strength, Dexterity, Intelligence, Faith, Attunement]

  function Min(a: int, b: int): int { if a <= b then a else b }

  function Max(a: int, b: int): int { if a >= b then a else b }

  /** One value per attribute; the record always holds exactly the nine stats. */
  datatype StatBlock = StatBlock(
    vigor: int, endurance: int, vitality: int, adaptability: int, strength: int,
    dexterity: int, intelligence: int, faith: int, attunement: int)
  {
    function Get(s: Stat): int {
      match s
      case Vigor => vigor
      case Endurance => endurance
      case Vitality => vitality
      case Adaptability => adaptability
      case Strength => strength
      case Dexterity => dexterity
      case Intelligence => intelligence
      case Faith => faith
      case Attunement => attunement
    }

    /** The total of all nine values. */
    function Sum(): int {
      vigor + endurance + vitality + adaptability + strength
      + dexterity + intelligence + faith + attunement
    }

    /** This block with `s` set to `v`; the other eight stats are kept. */
    function With(s: Stat, v: int): (r: StatBlock)
      ensures r.Get(s) == v
      ensures forall t :: t != s ==> r.Get(t) == Get(t)
      ensures r.Sum() == Sum() - Get(s) + v
    {
      match s
      case Vigor => this.(vigor := v)
      case Endurance => this.(endurance := v)
      case Vitality => this.(vitality := v)
      case Adaptability => this.(adaptability := v)
      case Strength => this.(strength := v)
      case Dexterity => this.(dexterity := v)
      case Intelligence => this.(intelligence := v)
      case Faith => this.(faith := v)
      case Attunement => this.(attunement := v)
    }

    /** This block with one more point in `s`. */
    function Bump(s: Stat): (r: StatBlock)
      ensures r.Get(s) == Get(s) + 1
      ensures forall t :: t != s ==> r.Get(t) == Get(t)
      ensures r.Sum() == Sum() + 1
    {
      With(s, Get(s) + 1)
    }
  }

  /** No stat of `hi` is below the same stat of `lo`. */
  ghost predicate Dominates(hi: StatBlock, lo: StatBlock) {
    forall s: Stat :: hi.Get(s) >= lo.Get(s)
  }

  /** `a` and `b` agree on every stat outside `changed`. */
  ghost predicate SameOutside(a: StatBlock, b: StatBlock, changed: set<Stat>) {
    forall s: Stat :: s !in changed ==> a.Get(s) == b.Get(s)
  }

  lemma DominatesTransitive(a: StatBlock, b: StatBlock, c: StatBlock)
    requires Dominates(a, b) && Dominates(b, c)
    ensures Dominates(a, c)
  {
  }

  lemma SameOutsideTransitive(a: StatBlock, b: StatBlock, c: StatBlock, x: set<Stat>, y: set<Stat>)
    requires SameOutside(a, b, x) && SameOutside(b, c, y)
    ensures SameOutside(a, c, x + y)
  {
  }

  /** Dominating blocks have at least the same total. */
  lemma DominatesSum(hi: StatBlock, lo: StatBlock)
    requires Dominates(hi, lo)
    ensures hi.Sum() >= lo.Sum()
  {
    assert hi.Get(Vigor) >= lo.Get(Vigor) && hi.Get(Endurance) >= lo.Get(Endurance);
    assert hi.Get(Vitality) >= lo.Get(Vitality) && hi.Get(Adaptability) >= lo.Get(Adaptability);
    assert hi.Get(Strength) >= lo.Get(Strength) && hi.Get(Dexterity) >= lo.Get(Dexterity);
    assert hi.Get(Intelligence) >= lo.Get(Intelligence) && hi.Get(Faith) >= lo.Get(Faith);
    assert hi.Get(Attunement) >= lo.Get(Attunement);
  }

  /** A block that dominates another and has the same total is that block. */
  lemma DominatesSameSumIsEqual(hi: StatBlock, lo: StatBlock)
    requires Dominates(hi, lo)
    ensures hi.Sum() == lo.Sum() ==> hi == lo
  {
    assert hi.Get(Vigor) >= lo.Get(Vigor) && hi.Get(Endurance) >= lo.Get(Endurance);
    assert hi.Get(Vitality) >= lo.Get(Vitality) && hi.Get(Adaptability) >= lo.Get(Adaptability);
    assert hi.Get(Strength) >= lo.Get(Strength) && hi.Get(Dexterity) >= lo.Get(Dexterity);
    assert hi.Get(Intelligence) >= lo.Get(Intelligence) && hi.Get(Faith) >= lo.Get(Faith);
    assert hi.Get(Attunement) >= lo.Get(Attunement);
  }

  /** A block is determined by its nine values. */
  lemma BlockExt(a: StatBlock, b: StatBlock)
    requires forall s: Stat :: a.Get(s) == b.Get(s)
    ensures a == b
  {
    assert a.Get(Vigor) == b.Get(Vigor) && a.Get(Endurance) == b.Get(Endurance);
    assert a.Get(Vitality) == b.Get(Vitality) && a.Get(Adaptability) == b.Get(Adaptability);
    assert a.Get(Strength) == b.Get(Strength) && a.Get(Dexterity) == b.Get(Dexterity);
    assert a.Get(Intelligence) == b.Get(Intelligence) && a.Get(Faith) == b.Get(Faith);
    assert a.Get(Attunement) == b.Get(Attunement);
  }

  /** Distinct elements: the keys of a JavaScript object never repeat. */
  ghost predicate Distinct<T>(xs: seq<T>) {
    forall i, j :: 0 <= i < j < |xs| ==> xs[i] != xs[j]
  }
}
