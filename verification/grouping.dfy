/**
 * Grouping of stats by weight. The weights come in as the list of
 * (stat, weight) pairs in declaration order. Stats with weight 0 or less
 * are dropped; the rest are collected into one group per distinct weight
 * (in order of first appearance, as a JavaScript `Map` keeps them), and
 * the groups are then sorted by descending weight.
 *
 * Weights are `real`: a finite double is a rational number and two finite
 * doubles compare and test equal exactly as those rationals do.
 */
module Grouping {
  import opened Stats

  datatype WeightGroup = WeightGroup(weight: real, stats: seq<Stat>)

  /** Reference definition: the stats whose weight is exactly `w`, in declaration order. */
  function StatsWeighted(ws: seq<(Stat, real)>, w: real): seq<Stat>
  {
    if |ws| == 0 then []
    else StatsWeighted(ws[..|ws| - 1], w) + (if ws[|ws| - 1].1 == w then [ws[|ws| - 1].0] else [])
  }

  /** The distinct positive weights that occur in `ws`. */
  function PositiveWeights(ws: seq<(Stat, real)>): set<real> {
    set k | 0 <= k < |ws| && ws[k].1 > 0.0 :: ws[k].1
  }

  function GroupWeights(gs: seq<WeightGroup>): set<real> {
    set g | g in gs :: g.weight
  }

  ghost predicate DistinctWeights(gs: seq<WeightGroup>) {
    forall i, j :: 0 <= i < j < |gs| ==> gs[i].weight != gs[j].weight
  }

  /** Strictly descending weights. */
  ghost predicate Descending(gs: seq<WeightGroup>) {
    forall i, j :: 0 <= i < j < |gs| ==> gs[i].weight > gs[j].weight
  }

  /** No stat is declared twice (the keys of a JavaScript object are unique). */
  ghost predicate DistinctStats(ws: seq<(Stat, real)>) {
    forall i, j :: 0 <= i < j < |ws| ==> ws[i].0 != ws[j].0
  }

  /** Every group has a positive weight, weights do not repeat, and each
      group's stats are the reference list for its weight. */
  ghost predicate Represents(gs: seq<WeightGroup>, ws: seq<(Stat, real)>) {
    && DistinctWeights(gs)
    && (forall i :: 0 <= i < |gs| ==> gs[i].weight > 0.0 && gs[i].stats == StatsWeighted(ws, gs[i].weight))
  }

  /** Appends `s` to the group of weight `w`, creating it at the end when absent. */
  function AddTo(gs: seq<WeightGroup>, s: Stat, w: real): (r: seq<WeightGroup>)
    ensures GroupWeights(r) == GroupWeights(gs) + {w}
    ensures (forall i :: 0 <= i < |gs| ==> |gs[i].stats| > 0) ==> forall i :: 0 <= i < |r| ==> |r[i].stats| > 0
  {
    if |gs| == 0 then [WeightGroup(w, [s])]
    else if gs[0].weight == w then
      GroupWeightsCons(gs[0], gs[1..]);
      GroupWeightsCons(gs[0].(stats := gs[0].stats + [s]), gs[1..]);
      assert gs == [gs[0]] + gs[1..];
      [gs[0].(stats := gs[0].stats + [s])] + gs[1..]
    else
      GroupWeightsCons(gs[0], gs[1..]);
      GroupWeightsCons(gs[0], AddTo(gs[1..], s, w));
      assert gs == [gs[0]] + gs[1..];
      [gs[0]] + AddTo(gs[1..], s, w)
  }

  lemma {:induction false} StatsWeightedAbsent(ws: seq<(Stat, real)>, w: real)
    requires forall k :: 0 <= k < |ws| ==> ws[k].1 != w
    ensures StatsWeighted(ws, w) == []
  {
    if |ws| > 0 {
      StatsWeightedAbsent(ws[..|ws| - 1], w);
    }
  }

  lemma StatsWeightedSnoc(ws: seq<(Stat, real)>, x: (Stat, real), w: real)
    ensures StatsWeighted(ws + [x], w) == StatsWeighted(ws, w) + (if x.1 == w then [x.0] else [])
  {
    assert (ws + [x])[..|ws|] == ws;
  }

  lemma GroupWeightsCons(g: WeightGroup, gs: seq<WeightGroup>)
    ensures GroupWeights([g] + gs) == {g.weight} + GroupWeights(gs)
  {
    assert forall x :: x in [g] + gs <==> x == g || x in gs;
  }

  lemma StatsWeightedSnocAll(ws: seq<(Stat, real)>, s: Stat, w: real)
    ensures forall v :: StatsWeighted(ws + [(s, w)], v) == StatsWeighted(ws, v) + (if v == w then [s] else [])
  {
    forall v ensures StatsWeighted(ws + [(s, w)], v) == StatsWeighted(ws, v) + (if v == w then [s] else []) {
      StatsWeightedSnoc(ws, (s, w), v);
    }
  }

  /** With distinct weights, the first group's weight occurs nowhere after it. */
  lemma HeadWeightFresh(gs: seq<WeightGroup>)
    requires DistinctWeights(gs) && |gs| > 0
    ensures gs[0].weight !in GroupWeights(gs[1..])
  {
    forall g | g in gs[1..] ensures g.weight != gs[0].weight {
      var k :| 0 <= k < |gs[1..]| && gs[1..][k] == g;
      assert gs[k + 1] == g;
    }
  }

  /** Adding one more declared pair keeps the groups representing the list. */
  lemma {:induction false} AddToRepresents(gs: seq<WeightGroup>, ws: seq<(Stat, real)>, s: Stat, w: real)
    requires Represents(gs, ws) && w > 0.0
    requires w !in GroupWeights(gs) ==> StatsWeighted(ws, w) == []
    ensures Represents(AddTo(gs, s, w), ws + [(s, w)])
    decreases |gs|
  {
    StatsWeightedSnocAll(ws, s, w);
    if |gs| == 0 {
    } else if gs[0].weight == w {
      AddToExistingRepresents(gs, ws, s, w);
    } else {
      RepresentsTail(gs, ws, w);
      AddToRepresents(gs[1..], ws, s, w);
      HeadWeightFresh(gs);
      AddToInnerRepresents(gs[0], AddTo(gs[1..], s, w), ws, s, w);
    }
  }

  /** The groups after the first still represent the list, and a weight
      absent from them that differs from the first group's is absent from all. */
  lemma RepresentsTail(gs: seq<WeightGroup>, ws: seq<(Stat, real)>, w: real)
    requires Represents(gs, ws) && |gs| > 0 && gs[0].weight != w
    ensures Represents(gs[1..], ws)
    ensures w !in GroupWeights(gs[1..]) ==> w !in GroupWeights(gs)
    ensures gs[0].weight > 0.0 && gs[0].stats == StatsWeighted(ws, gs[0].weight)
  {
    GroupWeightsCons(gs[0], gs[1..]);
    assert gs == [gs[0]] + gs[1..];
  }

  lemma AddToExistingRepresents(gs: seq<WeightGroup>, ws: seq<(Stat, real)>, s: Stat, w: real)
    requires Represents(gs, ws) && |gs| > 0 && gs[0].weight == w
    requires forall v :: StatsWeighted(ws + [(s, w)], v) == StatsWeighted(ws, v) + (if v == w then [s] else [])
    ensures Represents(AddTo(gs, s, w), ws + [(s, w)])
  {
    var r := AddTo(gs, s, w);
    assert r == [gs[0].(stats := gs[0].stats + [s])] + gs[1..];
    assert |r| == |gs|;
    forall i | 0 <= i < |r|
      ensures r[i].weight == gs[i].weight
      ensures r[i].stats == StatsWeighted(ws + [(s, w)], r[i].weight)
    {
      if i > 0 {
        assert r[i] == gs[i];
        assert gs[i].weight != w;
      }
    }
  }

  lemma AddToInnerRepresents(g: WeightGroup, rest: seq<WeightGroup>, ws: seq<(Stat, real)>, s: Stat, w: real)
    requires Represents(rest, ws + [(s, w)])
    requires g.weight > 0.0 && g.weight != w && g.stats == StatsWeighted(ws, g.weight)
    requires g.weight !in GroupWeights(rest) - {w}
    requires forall v :: StatsWeighted(ws + [(s, w)], v) == StatsWeighted(ws, v) + (if v == w then [s] else [])
    ensures Represents([g] + rest, ws + [(s, w)])
  {
    var r := [g] + rest;
    forall j | 0 <= j < |rest| ensures rest[j].weight != g.weight {
      assert rest[j] in rest;
    }
    forall i | 0 <= i < |r|
      ensures r[i].weight > 0.0 && r[i].stats == StatsWeighted(ws + [(s, w)], r[i].weight)
    {
      if i > 0 {
        assert r[i] == rest[i - 1];
      }
    }
    forall i, j | 0 <= i < j < |r| ensures r[i].weight != r[j].weight {
      assert r[j] == rest[j - 1];
      if i > 0 {
        assert r[i] == rest[i - 1];
      }
    }
  }

  lemma PositiveWeightsSnoc(ws: seq<(Stat, real)>, x: (Stat, real))
    ensures PositiveWeights(ws + [x]) == PositiveWeights(ws) + (if x.1 > 0.0 then {x.1} else {})
  {
    var ws' := ws + [x];
    forall v | v in PositiveWeights(ws')
      ensures v in PositiveWeights(ws) + (if x.1 > 0.0 then {x.1} else {})
    {
      var k :| 0 <= k < |ws'| && ws'[k].1 > 0.0 && ws'[k].1 == v;
      if k < |ws| {
        assert ws'[k] == ws[k];
      }
    }
    forall v | v in PositiveWeights(ws)
      ensures v in PositiveWeights(ws')
    {
      var k :| 0 <= k < |ws| && ws[k].1 > 0.0 && ws[k].1 == v;
      assert ws'[k] == ws[k];
    }
    if x.1 > 0.0 {
      assert ws'[|ws|] == x;
    }
  }

  /** Builds the groups in order of first appearance, as the source fills its `Map`. */
  function Collect(ws: seq<(Stat, real)>): (r: seq<WeightGroup>)
    ensures Represents(r, ws)
    ensures GroupWeights(r) == PositiveWeights(ws)
    ensures forall i :: 0 <= i < |r| ==> |r[i].stats| > 0
  {
    if |ws| == 0 then []
    else
      var prefix := ws[..|ws| - 1];
      var x := ws[|ws| - 1];
      var gs := Collect(prefix);
      assert ws == prefix + [x];
      PositiveWeightsSnoc(prefix, x);
      if x.1 > 0.0 then
        CollectAddsPair(gs, prefix, x);
        AddTo(gs, x.0, x.1)
      else
        CollectSkipsPair(gs, prefix, x);
        gs
  }

  lemma CollectAddsPair(gs: seq<WeightGroup>, prefix: seq<(Stat, real)>, x: (Stat, real))
    requires Represents(gs, prefix) && GroupWeights(gs) == PositiveWeights(prefix)
    requires x.1 > 0.0
    ensures Represents(AddTo(gs, x.0, x.1), prefix + [x])
  {
    if x.1 !in GroupWeights(gs) {
      assert forall k :: 0 <= k < |prefix| ==> prefix[k].1 != x.1;
      StatsWeightedAbsent(prefix, x.1);
    }
    AddToRepresents(gs, prefix, x.0, x.1);
  }

  lemma CollectSkipsPair(gs: seq<WeightGroup>, prefix: seq<(Stat, real)>, x: (Stat, real))
    requires Represents(gs, prefix)
    requires x.1 <= 0.0
    ensures Represents(gs, prefix + [x])
  {
    forall i | 0 <= i < |gs| ensures gs[i].stats == StatsWeighted(prefix + [x], gs[i].weight) {
      StatsWeightedSnoc(prefix, x, gs[i].weight);
    }
  }

  /** Inserts `g` into a descending list before the first weight not above its own. */
  function InsertDesc(sorted: seq<WeightGroup>, g: WeightGroup): (r: seq<WeightGroup>)
    requires Descending(sorted) && g.weight !in GroupWeights(sorted)
    ensures Descending(r)
    ensures |r| == |sorted| + 1
    ensures forall x :: x in r <==> x == g || x in sorted
  {
    if |sorted| == 0 then [g]
    else if sorted[0].weight <= g.weight then
      assert sorted[0] in sorted;
      [g] + sorted
    else
      assert forall x :: x in sorted[1..] ==> x in sorted;
      var rest := InsertDesc(sorted[1..], g);
      assert forall j :: 0 <= j < |rest| ==> rest[j] in rest;
      [sorted[0]] + rest
  }

  /** Sorts groups of distinct weights by descending weight. */
  function SortDesc(gs: seq<WeightGroup>): (r: seq<WeightGroup>)
    requires DistinctWeights(gs)
    ensures Descending(r)
    ensures |r| == |gs|
    ensures forall x :: x in r <==> x in gs
  {
    if |gs| == 0 then []
    else
      var rest := SortDesc(gs[1..]);
      assert forall x :: x in gs[1..] ==> x in gs;
      assert gs[0].weight !in GroupWeights(rest);
      assert gs == [gs[0]] + gs[1..];
      InsertDesc(rest, gs[0])
  }

  /** The source's `groupStatsByWeight`: one group per distinct positive
      weight, strictly descending by weight, each holding exactly the stats
      declared with that weight, in declaration order. */
  function GroupStatsByWeight(ws: seq<(Stat, real)>): (r: seq<WeightGroup>)
    ensures forall i :: 0 <= i < |r| ==> r[i].weight > 0.0
    ensures Descending(r)
    ensures forall i :: 0 <= i < |r| ==> r[i].stats == StatsWeighted(ws, r[i].weight)
    ensures forall i :: 0 <= i < |r| ==> |r[i].stats| > 0
    ensures GroupWeights(r) == PositiveWeights(ws)
  {
    var gs := Collect(ws);
    var r := SortDesc(gs);
    assert forall i :: 0 <= i < |r| ==> r[i] in gs;
    assert GroupWeights(r) == GroupWeights(gs);
    r
  }

  /** A stat is in the reference list for `w` exactly when it is declared with weight `w`. */
  lemma {:induction false} InStatsWeighted(ws: seq<(Stat, real)>, w: real, s: Stat)
    ensures s in StatsWeighted(ws, w) <==> exists k :: 0 <= k < |ws| && ws[k] == (s, w)
  {
    if |ws| > 0 {
      var prefix := ws[..|ws| - 1];
      InStatsWeighted(prefix, w, s);
      assert forall k :: 0 <= k < |prefix| ==> prefix[k] == ws[k];
      if s in StatsWeighted(prefix, w) {
        var k :| 0 <= k < |prefix| && prefix[k] == (s, w);
        assert ws[k] == (s, w);
      }
    }
  }

  /** Without repeated stats, the reference list has no repeats either. */
  lemma {:induction false} StatsWeightedDistinct(ws: seq<(Stat, real)>, w: real)
    requires DistinctStats(ws)
    ensures Distinct(StatsWeighted(ws, w))
  {
    if |ws| > 0 {
      var prefix := ws[..|ws| - 1];
      var x := ws[|ws| - 1];
      assert DistinctStats(prefix);
      StatsWeightedDistinct(prefix, w);
      InStatsWeighted(prefix, w, x.0);
      assert forall k :: 0 <= k < |prefix| ==> prefix[k].0 == ws[k].0 != x.0;
      assert x.0 !in StatsWeighted(prefix, w);
    }
  }

  /** With each stat declared once, the groups partition the positively
      weighted stats: a stat sits in a group exactly when its weight is the
      group's weight, every positive weight has a group, no stat with weight
      0 or less appears anywhere, and no group repeats a stat. */
  lemma GroupingPartitionsStats(ws: seq<(Stat, real)>)
    requires DistinctStats(ws)
    ensures var r := GroupStatsByWeight(ws);
            forall k, i :: 0 <= k < |ws| && 0 <= i < |r| ==> (ws[k].0 in r[i].stats <==> ws[k].1 == r[i].weight)
    ensures var r := GroupStatsByWeight(ws);
            forall k :: 0 <= k < |ws| && ws[k].1 > 0.0 ==> exists i :: 0 <= i < |r| && ws[k].0 in r[i].stats
    ensures var r := GroupStatsByWeight(ws);
            forall k, i :: 0 <= k < |ws| && 0 <= i < |r| && ws[k].1 <= 0.0 ==> ws[k].0 !in r[i].stats
    ensures var r := GroupStatsByWeight(ws);
            forall i :: 0 <= i < |r| ==> Distinct(r[i].stats)
  {
    var r := GroupStatsByWeight(ws);
    forall k, i | 0 <= k < |ws| && 0 <= i < |r|
      ensures ws[k].0 in r[i].stats <==> ws[k].1 == r[i].weight
    {
      InStatsWeighted(ws, r[i].weight, ws[k].0);
      if ws[k].0 in r[i].stats {
        var k' :| 0 <= k' < |ws| && ws[k'] == (ws[k].0, r[i].weight);
        assert k' == k;
      }
    }
    forall k | 0 <= k < |ws| && ws[k].1 > 0.0
      ensures exists i :: 0 <= i < |r| && ws[k].0 in r[i].stats
    {
      assert ws[k].1 in PositiveWeights(ws);
      var g :| g in r && g.weight == ws[k].1;
      var i :| 0 <= i < |r| && r[i] == g;
      InStatsWeighted(ws, r[i].weight, ws[k].0);
    }
    forall i | 0 <= i < |r| ensures Distinct(r[i].stats) {
      StatsWeightedDistinct(ws, r[i].weight);
    }
  }
}
