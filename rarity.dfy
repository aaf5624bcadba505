/** The rarity table and `choose_rarity`: a walk over the ordered tiers that
    returns the first tier whose running weight total reaches the draw. */
module Rarity {
  import opened Outcome

  /** A tier and its exact probability. */
  datatype Tier = Tier(name: string, weight: real)

  const RarityTable: seq<Tier> := [
    Tier("Common", 0.70),
    Tier("Rare", 0.20),
    Tier("Elite", 0.075),
    Tier("Epic", 0.024),
    Tier("Legendary", 0.001)
  ]

  /** The tier name `choose_rarity` returns when no running total reaches the draw. */
  const FallbackName: string := "Common"

  /** The flavour number is drawn from [1, MaxFlavour]. */
  const MaxFlavour: int := 100_000_000

  /** The table's tier names, in order (`valid` in `!autodelete`). */
  function TierNames(table: seq<Tier>): (names: seq<string>)
    ensures |names| == |table|
    ensures forall i :: 0 <= i < |table| ==> names[i] == table[i].name
  {
    if table == [] then [] else [table[0].name] + TierNames(table[1..])
  }

  /** Sum of the weights of the first `k` tiers. */
  function Cumulative(table: seq<Tier>, k: nat): real
    requires k <= |table|
  {
    if k == 0 then 0.0 else Cumulative(table, k - 1) + table[k - 1].weight
  }

  ghost predicate PositiveWeights(table: seq<Tier>)
  {
    forall i :: 0 <= i < |table| ==> table[i].weight > 0.0
  }

  /** Index of the first tier at or after `i` whose running total reaches `draw`. */
  function FirstReaching(table: seq<Tier>, draw: real, i: nat): (r: Option<nat>)
    requires i <= |table|
    decreases |table| - i
    ensures r.Some? ==> i <= r.value < |table| && draw <= Cumulative(table, r.value + 1)
    ensures r.Some? ==> forall k :: i < k <= r.value ==> Cumulative(table, k) < draw
    ensures r.None? <==> forall k :: i < k <= |table| ==> Cumulative(table, k) < draw
  {
    if i == |table| then None
    else if draw <= Cumulative(table, i + 1) then Some(i)
    else FirstReaching(table, draw, i + 1)
  }

  /** Tier `i`'s running total is the first to reach `draw`. */
  ghost predicate IsFirstReaching(table: seq<Tier>, draw: real, i: nat)
    requires i < |table|
  {
    draw <= Cumulative(table, i + 1) && forall k :: 0 < k <= i ==> Cumulative(table, k) < draw
  }

  lemma FirstReachingIsFirst(table: seq<Tier>, draw: real)
    ensures forall i :: 0 <= i < |table| && IsFirstReaching(table, draw, i) ==>
                          FirstReaching(table, draw, 0) == Some(i)
  {
  }

  /** The tier name selected by `draw`, falling back to "Common". */
  function ChosenName(table: seq<Tier>, draw: real): (r: string)
    ensures forall i :: 0 <= i < |table| && IsFirstReaching(table, draw, i) ==> r == table[i].name
    ensures (forall k :: 0 < k <= |table| ==> Cumulative(table, k) < draw) ==> r == FallbackName
  {
    FirstReachingIsFirst(table, draw);
    match FirstReaching(table, draw, 0)
    case Some(i) => table[i].name
    case None => FallbackName
  }

  /** `choose_rarity`: `draw` stands for `random.random()` and `number` for
      `random.randint(1, 100_000_000)`. */
  method ChooseRarity(draw: real, number: int) returns (name: string, num: int)
    requires 1 <= number <= MaxFlavour
    ensures name == ChosenName(RarityTable, draw)
    ensures num == number && 1 <= num <= MaxFlavour
  {
    var cum := 0.0;
    for i := 0 to |RarityTable|
      invariant cum == Cumulative(RarityTable, i)
      invariant FirstReaching(RarityTable, draw, i) == FirstReaching(RarityTable, draw, 0)
    {
      cum := cum + RarityTable[i].weight;
      if draw <= cum {
        return RarityTable[i].name, number;
      }
    }
    return FallbackName, number;
  }

  lemma {:induction false} CumulativeMonotone(table: seq<Tier>, j: nat, k: nat)
    requires PositiveWeights(table)
    requires j <= k <= |table|
    ensures j < k ==> Cumulative(table, j) < Cumulative(table, k)
    ensures Cumulative(table, j) <= Cumulative(table, k)
  {
    if j < k {
      CumulativeMonotone(table, j, k - 1);
    }
  }

  /** With positive weights, tier `i` is selected exactly for the draws in
      (Cumulative(i), Cumulative(i + 1)] (for the first tier, every draw up to
      its weight), an interval as wide as the tier's weight. */
  lemma SelectedExactlyOnInterval(table: seq<Tier>, draw: real, i: nat)
    requires PositiveWeights(table)
    requires i < |table|
    ensures FirstReaching(table, draw, 0) == Some(i) <==>
              (i == 0 || Cumulative(table, i) < draw) && draw <= Cumulative(table, i + 1)
    ensures Cumulative(table, i + 1) - Cumulative(table, i) == table[i].weight
  {
    var r := FirstReaching(table, draw, 0);
    if r == Some(i) && i > 0 {
      assert Cumulative(table, i) < draw;
    }
    if (i == 0 || Cumulative(table, i) < draw) && draw <= Cumulative(table, i + 1) {
      if r.Some? && r.value < i {
        CumulativeMonotone(table, r.value + 1, i);
      }
    }
  }

  /** The fallback is taken exactly when the draw exceeds the total weight. */
  lemma FallbackIffDrawExceedsTotal(table: seq<Tier>, draw: real)
    requires PositiveWeights(table)
    requires table != []
    ensures FirstReaching(table, draw, 0).None? <==> Cumulative(table, |table|) < draw
  {
    if Cumulative(table, |table|) < draw {
      forall k | 0 < k <= |table| ensures Cumulative(table, k) < draw {
        CumulativeMonotone(table, k, |table|);
      }
    }
  }

  /** The table's weights are positive and add up to exactly one. */
  lemma RarityTableIsDistribution()
    ensures PositiveWeights(RarityTable)
    ensures Cumulative(RarityTable, |RarityTable|) == 1.0
    ensures TierNames(RarityTable) == ["Common", "Rare", "Elite", "Epic", "Legendary"]
  {
    assert Cumulative(RarityTable, 1) == 0.70;
    assert Cumulative(RarityTable, 2) == 0.90;
    assert Cumulative(RarityTable, 3) == 0.975;
    assert Cumulative(RarityTable, 4) == 0.999;
  }

  /** The boundary between Common and Rare, and the out-of-range fallback. */
  lemma ChosenNameExamples(draw: real)
    ensures ChosenName(RarityTable, 0.699999) == "Common"
    ensures ChosenName(RarityTable, 0.700001) == "Rare"
    ensures 0.999 < draw <= 1.0 ==> ChosenName(RarityTable, draw) == "Legendary"
    ensures 1.0 < draw ==> ChosenName(RarityTable, draw) == "Common"
  {
    RarityTableIsDistribution();
    SelectedExactlyOnInterval(RarityTable, 0.699999, 0);
    SelectedExactlyOnInterval(RarityTable, 0.700001, 1);
    SelectedExactlyOnInterval(RarityTable, draw, 4);
    FallbackIffDrawExceedsTotal(RarityTable, draw);
  }
}
