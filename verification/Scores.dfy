/** Criterion scores and their weighted mean. */
module Scores {
  import opened Collections
  import opened Money

  datatype Kind = Mechanical | Subjective

  datatype Scored = Scored(id: string, kind: Kind, weight: real, scored: bool, score: Option<real>, reason: string)

  datatype Aggregation = Aggregation(aggregate: Option<real>, totalWeight: real, scoredWeight: real)

  predicate Counts(r: Scored) {
    r.scored && r.score.Some?
  }

  function TotalWeight(results: seq<Scored>): real {
    if results == [] then 0.0 else TotalWeight(results[..|results| - 1]) + results[|results| - 1].weight
  }

  function ScoredWeight(results: seq<Scored>): real {
    if results == [] then 0.0
    else ScoredWeight(results[..|results| - 1]) + if Counts(results[|results| - 1]) then results[|results| - 1].weight else 0.0
  }

  function Times(x: real, w: real): real {
    x * w
  }

  function Weighted(r: Scored): real {
    if Counts(r) then Times(r.score.value, r.weight) else 0.0
  }

  function WeightedSum(results: seq<Scored>): real {
    if results == [] then 0.0 else WeightedSum(results[..|results| - 1]) + Weighted(results[|results| - 1])
  }

  function Mean(sum: real, weight: real): real
    requires weight > 0.0
  {
    RoundCents(sum / weight)
  }

  function Aggregated(results: seq<Scored>): Aggregation {
    var weight := ScoredWeight(results);
    Aggregation(if weight > 0.0 then Some(Mean(WeightedSum(results), weight)) else None, TotalWeight(results), weight)
  }

  method AggregateScores(results: seq<Scored>) returns (agg: Aggregation)
    ensures agg == Aggregated(results)
  {
    var totalWeight, scoredWeight, weightedSum := 0.0, 0.0, 0.0;
    var i := 0;
    while i < |results|
      invariant 0 <= i <= |results|
      invariant totalWeight == TotalWeight(results[..i])
      invariant scoredWeight == ScoredWeight(results[..i])
      invariant weightedSum == WeightedSum(results[..i])
    {
      assert results[..i + 1][..i] == results[..i];
      var r := results[i];
      totalWeight := totalWeight + r.weight;
      if r.scored && r.score.Some? {
        scoredWeight := scoredWeight + r.weight;
        weightedSum := weightedSum + Times(r.score.value, r.weight);
      }
      i := i + 1;
    }
    assert results[..i] == results;
    agg := Aggregation(if scoredWeight > 0.0 then Some(Mean(weightedSum, scoredWeight)) else None, totalWeight, scoredWeight);
  }

  predicate Between(results: seq<Scored>, low: real, high: real) {
    forall i :: 0 <= i < |results| ==> results[i].weight > 0.0 && (Counts(results[i]) ==> low <= results[i].score.value <= high)
  }

  lemma OneMoreScore(low: real, sum: real, high: real, weight: real, x: real, w: real)
    requires Times(low, weight) <= sum <= Times(high, weight) && low <= x <= high && w > 0.0
    ensures Times(low, weight + w) <= sum + Times(x, w) <= Times(high, weight + w)
  {
    assert low * w <= x * w <= high * w;
    assert low * (weight + w) == low * weight + low * w;
    assert high * (weight + w) == high * weight + high * w;
  }

  lemma {:induction false} SumWithin(results: seq<Scored>, low: real, high: real)
    requires Between(results, low, high)
    ensures Times(low, ScoredWeight(results)) <= WeightedSum(results) <= Times(high, ScoredWeight(results))
    ensures 0.0 <= ScoredWeight(results) <= TotalWeight(results)
  {
    if results == [] {
      assert Times(low, 0.0) == 0.0 == Times(high, 0.0);
    } else {
      hide Times;
      var front, last := results[..|results| - 1], results[|results| - 1];
      SumWithin(front, low, high);
      if Counts(last) {
        OneMoreScore(low, WeightedSum(front), high, ScoredWeight(front), last.score.value, last.weight);
      }
    }
  }

  lemma QuotientWithin(low: real, sum: real, high: real, w: real)
    requires w > 0.0 && Times(low, w) <= sum <= Times(high, w)
    ensures low <= sum / w <= high
  {
    assert (sum - low * w) / w == sum / w - low;
    assert (high * w - sum) / w == high - sum / w;
    assert (sum - low * w) / w >= 0.0 && (high * w - sum) / w >= 0.0;
  }

  /** The aggregate lies between the lowest and the highest counted score, when those are whole hundredths. */
  lemma MeanLiesBetween(results: seq<Scored>, low: real, high: real)
    requires Between(results, low, high) && WholeCents(low) && WholeCents(high)
    ensures Aggregated(results).aggregate.Some? ==> low <= Aggregated(results).aggregate.value <= high
  {
    SumWithin(results, low, high);
    if ScoredWeight(results) > 0.0 {
      QuotientWithin(low, WeightedSum(results), high, ScoredWeight(results));
      RoundMonotone(low, WeightedSum(results) / ScoredWeight(results));
      RoundMonotone(WeightedSum(results) / ScoredWeight(results), high);
    }
  }

  lemma HundredIsWhole()
    ensures WholeCents(0.0) && WholeCents(100.0)
  {
    RoundOfInt(0);
    RoundOfInt(10000);
  }

  /** Scores in 0..100 give an aggregate in 0..100. */
  lemma AggregateInRange(results: seq<Scored>)
    requires Between(results, 0.0, 100.0)
    ensures Aggregated(results).aggregate.Some? ==> 0.0 <= Aggregated(results).aggregate.value <= 100.0
  {
    HundredIsWhole();
    MeanLiesBetween(results, 0.0, 100.0);
  }

  // ---------------------------------------------------------------------
  // The mean is where the weighted scores balance
  // ---------------------------------------------------------------------

  /** How far the counted scores pull away from `mean`, each by its weight. */
  function Pull(results: seq<Scored>, mean: real): real {
    if results == [] then 0.0
    else
      var last := results[|results| - 1];
      Pull(results[..|results| - 1], mean) + if last.scored && last.score.Some? then (last.score.value - mean) * last.weight else 0.0
  }

  /** The weight of the criteria without a counted score. */
  function OpenWeight(results: seq<Scored>): real {
    if results == [] then 0.0
    else
      var last := results[|results| - 1];
      OpenWeight(results[..|results| - 1]) + if last.scored && last.score.Some? then 0.0 else last.weight
  }

  lemma {:induction false} PullExactly(results: seq<Scored>, mean: real)
    ensures Pull(results, mean) == WeightedSum(results) - mean * ScoredWeight(results)
    ensures TotalWeight(results) == ScoredWeight(results) + OpenWeight(results)
  {
    if results != [] {
      var front, last := results[..|results| - 1], results[|results| - 1];
      PullExactly(front, mean);
      if Counts(last) {
        assert (last.score.value - mean) * last.weight == Times(last.score.value, last.weight) - mean * last.weight;
        assert mean * (ScoredWeight(front) + last.weight) == mean * ScoredWeight(front) + mean * last.weight;
      }
    }
  }

  /** The aggregate is the balance of the counted scores, to half a hundredth; there is one exactly when they have weight. */
  lemma MeanBalances(results: seq<Scored>, mean: real)
    ensures var agg := Aggregated(results);
            && agg.totalWeight == agg.scoredWeight + OpenWeight(results)
            && (agg.aggregate.Some? <==> agg.scoredWeight > 0.0)
            && (agg.scoredWeight > 0.0 && Pull(results, mean) == 0.0 ==> -0.005 <= agg.aggregate.value - mean <= 0.005)
            && (agg.scoredWeight > 0.0 ==> exists m :: Pull(results, m) == 0.0)
  {
    PullExactly(results, mean);
    var sum, weight := WeightedSum(results), ScoredWeight(results);
    if weight > 0.0 {
      PullExactly(results, sum / weight);
      assert (sum / weight) * weight == sum;
      if Pull(results, mean) == 0.0 {
        SameQuotient(sum, weight, mean);
        RoundNear(mean * 100.0);
      }
    }
  }

  lemma SameQuotient(sum: real, weight: real, mean: real)
    requires weight > 0.0 && sum == mean * weight
    ensures sum / weight == mean
  {
  }
}
