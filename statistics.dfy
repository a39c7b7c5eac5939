/**
  The statistics helpers: the z-score of an observation against an ensemble of
  randomised observations, and the normalised histogram of non-negative integer
  observations. Arithmetic is over exact reals; floating point rounding is not
  modelled. Dafny has no square root, so the ensemble's standard deviation is
  passed in together with the requirement that it is the non-negative square
  root of the population variance (the value `numpy.std` returns).
*/
module Statistics {
  import opened Wrappers

  /** The values `compute_zscore` returns: NaN, the two infinities, or a finite float. */
  datatype ZScore = NaN | PosInf | NegInf | Finite(value: real)

  function Sum(xs: seq<real>): real
  {
    if xs == [] then 0.0 else xs[0] + Sum(xs[1..])
  }

  /** `numpy.mean` */
  function Mean(xs: seq<real>): real
    requires |xs| > 0
  {
    Sum(xs) / (|xs| as real)
  }

  function SquaredDeviations(xs: seq<real>, centre: real): real
  {
    if xs == [] then 0.0 else (xs[0] - centre) * (xs[0] - centre) + SquaredDeviations(xs[1..], centre)
  }

  /** The population variance, the square of `numpy.std` (ddof = 0). */
  function Variance(xs: seq<real>): real
    requires |xs| > 0
  {
    SquaredDeviations(xs, Mean(xs)) / (|xs| as real)
  }

  /** `std` is a standard deviation of `xs`: the non-negative root of the variance. */
  predicate IsStd(xs: seq<real>, std: real)
  {
    std >= 0.0 && (|xs| > 0 ==> std * std == Variance(xs))
  }

  lemma {:induction false} SquaredDeviationsNonNegative(xs: seq<real>, centre: real)
    ensures SquaredDeviations(xs, centre) >= 0.0
  {
    if xs != [] {
      SquaredDeviationsNonNegative(xs[1..], centre);
      var d := xs[0] - centre;
      if d < 0.0 {
        assert d * d == (-d) * (-d);
      }
      assert d * d >= 0.0;
    }
  }

  /**
    `compute_zscore(observable, random_stats)`: NaN for an empty ensemble, 0 when
    the observation equals the ensemble mean, a signed infinity when the ensemble
    has no spread, and otherwise the deviation from the mean in units of the
    standard deviation.
  */
  function ComputeZScore(observable: real, randomStats: seq<real>, std: real): (z: ZScore)
    requires IsStd(randomStats, std)
    ensures randomStats == [] <==> z == NaN
    ensures randomStats != [] && observable == Mean(randomStats) ==> z == Finite(0.0)
    ensures randomStats != [] && observable != Mean(randomStats) && Variance(randomStats) == 0.0 ==>
      z == (if observable > Mean(randomStats) then PosInf else NegInf)
    ensures randomStats != [] && observable != Mean(randomStats) && Variance(randomStats) != 0.0 ==>
      z.Finite? &&
      (z.value > 0.0 <==> observable > Mean(randomStats)) &&
      z.value * z.value * Variance(randomStats) ==
        (observable - Mean(randomStats)) * (observable - Mean(randomStats))
  {
    if randomStats == [] then NaN
    else
      var mean := Mean(randomStats);
      var numerator := observable - mean;
      if numerator == 0.0 then Finite(numerator)
      else if std == 0.0 then
        if numerator < 0.0 then NegInf else PosInf
      else
        var r := numerator / std;
        assert r * std == numerator;
        assert r * r * (std * std) == numerator * numerator by {
          assert r * r * (std * std) == (r * std) * (r * std);
        }
        Finite(r)
  }

  /** The z-score examples: an ensemble equal to the observation, one below it with spread, one below it without spread, none. */
  lemma ZScoreExamples(std: real)
    requires IsStd([1.0, 2.0, 3.0], std)
    ensures ComputeZScore(5.0, [5.0, 5.0, 5.0], 0.0) == Finite(0.0)
    ensures ComputeZScore(5.0, [1.0, 2.0, 3.0], std).Finite?
    ensures ComputeZScore(5.0, [1.0, 2.0, 3.0], std).value > 0.0
    ensures ComputeZScore(5.0, [2.0, 2.0, 2.0], 0.0) == PosInf
    ensures ComputeZScore(5.0, [], 0.0) == NaN
  {
    assert Mean([5.0, 5.0, 5.0]) == 5.0 by { assert Sum([5.0, 5.0, 5.0]) == 15.0; }
    assert Variance([5.0, 5.0, 5.0]) == 0.0 by {
      assert SquaredDeviations([5.0, 5.0, 5.0], 5.0) == 0.0;
    }
    assert Mean([1.0, 2.0, 3.0]) == 2.0 by { assert Sum([1.0, 2.0, 3.0]) == 6.0; }
    assert Variance([1.0, 2.0, 3.0]) == 2.0 / 3.0 by {
      assert SquaredDeviations([1.0, 2.0, 3.0], 2.0) == 2.0;
    }
    assert Mean([2.0, 2.0, 2.0]) == 2.0 by { assert Sum([2.0, 2.0, 2.0]) == 6.0; }
    assert Variance([2.0, 2.0, 2.0]) == 0.0 by {
      assert SquaredDeviations([2.0, 2.0, 2.0], 2.0) == 0.0;
    }
  }

  /** The number of occurrences of `i` in `xs`: entry i of `numpy.bincount(xs)`. */
  function Count(xs: seq<int>, i: int): nat
  {
    if xs == [] then 0 else (if xs[0] == i then 1 else 0) + Count(xs[1..], i)
  }

  /** Count(xs, 0) + ... + Count(xs, k - 1) */
  function CountsBelow(xs: seq<int>, k: nat): nat
  {
    if k == 0 then 0 else CountsBelow(xs, k - 1) + Count(xs, k - 1)
  }

  function Max(xs: seq<int>): int
    requires |xs| > 0
  {
    if |xs| == 1 then xs[0] else
      var m := Max(xs[1..]);
      if xs[0] > m then xs[0] else m
  }

  lemma {:induction false} MaxIsUpperBound(xs: seq<int>, j: int)
    requires 0 <= j < |xs|
    ensures xs[j] <= Max(xs)
  {
    if |xs| > 1 && j > 0 {
      MaxIsUpperBound(xs[1..], j - 1);
    }
  }

  lemma {:induction false} MaxIsElement(xs: seq<int>)
    requires |xs| > 0
    ensures Max(xs) in xs
  {
    if |xs| > 1 {
      MaxIsElement(xs[1..]);
    }
  }

  lemma {:induction false} CountOutside(xs: seq<int>, i: int)
    requires i !in xs
    ensures Count(xs, i) == 0
  {
    if xs != [] {
      CountOutside(xs[1..], i);
    }
  }

  /** Every observation in 0..k-1 is counted exactly once by the first k bins. */
  lemma {:induction false} CountsBelowCoverAll(xs: seq<int>, k: nat)
    requires forall j :: 0 <= j < |xs| ==> 0 <= xs[j] < k
    ensures CountsBelow(xs, k) == |xs|
  {
    if xs == [] {
      CountsBelowEmpty(k);
    } else {
      CountsBelowCoverAll(xs[1..], k);
      CountsBelowSplit(xs, k);
    }
  }

  lemma {:induction false} CountsBelowEmpty(k: nat)
    ensures CountsBelow([], k) == 0
  {
    if k > 0 {
      CountsBelowEmpty(k - 1);
    }
  }

  lemma {:induction false} CountsBelowSplit(xs: seq<int>, k: nat)
    requires xs != []
    ensures CountsBelow(xs, k) == CountsBelow(xs[1..], k) + (if 0 <= xs[0] < k then 1 else 0)
  {
    if k > 0 {
      CountsBelowSplit(xs, k - 1);
    }
  }

  lemma AddFractions(a: real, b: real, t: real)
    requires t > 0.0
    ensures a / t + b / t == (a + b) / t
  {
  }

  /** The bins 0..max(xs) of a non-negative sequence hold every observation. */
  lemma BinsCoverObservations(xs: seq<int>)
    requires |xs| > 0
    requires forall j :: 0 <= j < |xs| ==> xs[j] >= 0
    ensures forall c: nat :: Count(xs, c) > 0 ==> c < Max(xs) + 1
    ensures CountsBelow(xs, Max(xs) + 1) == |xs|
  {
    forall c: nat | Count(xs, c) > 0
      ensures c < Max(xs) + 1
    {
      if c >= Max(xs) + 1 {
        forall j | 0 <= j < |xs| ensures xs[j] != c {
          MaxIsUpperBound(xs, j);
        }
        CountOutside(xs, c);
      }
    }
    forall j | 0 <= j < |xs| ensures 0 <= xs[j] < Max(xs) + 1 {
      MaxIsUpperBound(xs, j);
    }
    CountsBelowCoverAll(xs, Max(xs) + 1);
  }

  /** A sign that numpy.bincount raised: it refuses negative entries. */
  datatype BincountError = NegativeEntry

  function Probabilities(points: seq<(nat, real)>): real
  {
    if points == [] then 0.0 else points[0].1 + Probabilities(points[1..])
  }

  lemma {:induction false} ProbabilitiesAppend(points: seq<(nat, real)>, p: (nat, real))
    ensures Probabilities(points + [p]) == Probabilities(points) + p.1
  {
    if points == [] {
      assert points + [p] == [p];
    } else {
      assert (points + [p])[1..] == points[1..] + [p];
      ProbabilitiesAppend(points[1..], p);
    }
  }

  /** The share of the observations equal to `i`. */
  function Frequency(xs: seq<int>, i: int): real
    requires |xs| > 0
  {
    (Count(xs, i) as real) / (|xs| as real)
  }

  /** The share of the observations in the bins 0..k-1. */
  function MassBelow(xs: seq<int>, k: nat): real
    requires |xs| > 0
  {
    (CountsBelow(xs, k) as real) / (|xs| as real)
  }

  lemma MassStep(xs: seq<int>, k: nat)
    requires |xs| > 0
    ensures MassBelow(xs, k + 1) == MassBelow(xs, k) + Frequency(xs, k)
  {
    AddFractions(CountsBelow(xs, k) as real, Count(xs, k) as real, |xs| as real);
  }

  /**
    `points` lists, in strictly increasing order of value, exactly the values
    that occur in `xs`, each with the share of the observations equal to it.
  */
  ghost predicate Histogram(xs: seq<int>, points: seq<(nat, real)>)
    requires |xs| > 0
  {
    (forall k :: 0 <= k < |points| ==> Count(xs, points[k].0) > 0 && points[k].1 == Frequency(xs, points[k].0)) &&
    (forall k, l :: 0 <= k < l < |points| ==> points[k].0 < points[l].0) &&
    (forall c: nat :: Count(xs, c) > 0 ==> exists k :: 0 <= k < |points| && points[k].0 == c)
  }

  /** Every entry of `points` is a value below `i` that occurs, with its frequency. */
  predicate EntriesBelow(xs: seq<int>, points: seq<(nat, real)>, i: nat)
    requires |xs| > 0
  {
    forall k :: 0 <= k < |points| ==>
      points[k].0 < i && Count(xs, points[k].0) > 0 && points[k].1 == Frequency(xs, points[k].0)
  }

  predicate StrictlyIncreasing(points: seq<(nat, real)>)
  {
    forall k, l :: 0 <= k < l < |points| ==> points[k].0 < points[l].0
  }

  /** Every value below `i` that occurs has an entry in `points`. */
  predicate CoversBelow(xs: seq<int>, points: seq<(nat, real)>, i: nat)
  {
    forall c: nat :: c < i && Count(xs, c) > 0 ==> exists k :: 0 <= k < |points| && points[k].0 == c
  }

  /** `points` is the output of `probability_bincounts` restricted to the bins below `i`. */
  predicate BinsBelow(xs: seq<int>, points: seq<(nat, real)>, i: nat)
    requires |xs| > 0
  {
    EntriesBelow(xs, points, i) && StrictlyIncreasing(points) && CoversBelow(xs, points, i) &&
    Probabilities(points) == MassBelow(xs, i)
  }

  /** An empty bin adds nothing to the output. */
  lemma BinsSkip(xs: seq<int>, points: seq<(nat, real)>, i: nat)
    requires |xs| > 0 && BinsBelow(xs, points, i) && Count(xs, i) == 0
    ensures BinsBelow(xs, points, i + 1)
  {
    MassStep(xs, i);
    assert Frequency(xs, i) == 0.0;
  }

  /** A non-empty bin is appended with its frequency. */
  lemma BinsAppend(xs: seq<int>, points: seq<(nat, real)>, i: nat)
    requires |xs| > 0 && BinsBelow(xs, points, i) && Count(xs, i) > 0
    ensures BinsBelow(xs, points + [(i, Frequency(xs, i))], i + 1)
  {
    var p := (i, Frequency(xs, i));
    EntriesAppend(xs, points, i);
    SortedAppend(points, p);
    CoversAppend(xs, points, p);
    MassStep(xs, i);
    ProbabilitiesAppend(points, p);
  }

  lemma EntriesAppend(xs: seq<int>, points: seq<(nat, real)>, i: nat)
    requires |xs| > 0 && EntriesBelow(xs, points, i) && Count(xs, i) > 0
    ensures EntriesBelow(xs, points + [(i, Frequency(xs, i))], i + 1)
  {
    var next := points + [(i, Frequency(xs, i))];
    forall k | 0 <= k < |next|
      ensures next[k].0 < i + 1 && Count(xs, next[k].0) > 0 && next[k].1 == Frequency(xs, next[k].0)
    {
      if k < |points| {
        assert next[k] == points[k];
      }
    }
  }

  lemma SortedAppend(points: seq<(nat, real)>, p: (nat, real))
    requires StrictlyIncreasing(points)
    requires forall k :: 0 <= k < |points| ==> points[k].0 < p.0
    ensures StrictlyIncreasing(points + [p])
  {
    var next := points + [p];
    forall k, l | 0 <= k < l < |next|
      ensures next[k].0 < next[l].0
    {
      assert next[k] == points[k];
      if l < |points| {
        assert next[l] == points[l];
      }
    }
  }

  lemma CoversAppend(xs: seq<int>, points: seq<(nat, real)>, p: (nat, real))
    requires CoversBelow(xs, points, p.0)
    ensures CoversBelow(xs, points + [p], p.0 + 1)
  {
    var next := points + [p];
    forall c: nat | c < p.0 + 1 && Count(xs, c) > 0
      ensures exists k :: 0 <= k < |next| && next[k].0 == c
    {
      if c == p.0 {
        assert next[|next| - 1].0 == c;
      } else {
        var k :| 0 <= k < |points| && points[k].0 == c;
        assert next[k].0 == c;
      }
    }
  }

  /** Once the bins reach the largest observation the output is the whole histogram. */
  lemma HistogramComplete(xs: seq<int>, points: seq<(nat, real)>)
    requires |xs| > 0
    requires forall j :: 0 <= j < |xs| ==> xs[j] >= 0
    requires BinsBelow(xs, points, Max(xs) + 1)
    ensures Histogram(xs, points)
    ensures Probabilities(points) == 1.0
  {
    BinsCoverObservations(xs);
    var bins := Max(xs) + 1;
    forall c: nat | Count(xs, c) > 0
      ensures exists k :: 0 <= k < |points| && points[k].0 == c
    {
      assert c < bins;
    }
    var n := |xs| as real;
    assert MassBelow(xs, bins) == n / n;
    SelfDivision(n);
  }

  lemma SelfDivision(t: real)
    requires t > 0.0
    ensures t / t == 1.0
  {
  }

  /** The loop of `probability_bincounts` over the first `bins` bins. */
  method CollectBins(observables: seq<int>, bins: nat) returns (points: seq<(nat, real)>)
    requires |observables| > 0
    ensures BinsBelow(observables, points, bins)
  {
    points := [];
    for i := 0 to bins
      invariant BinsBelow(observables, points, i)
    {
      var value := Count(observables, i);
      if value > 0 {
        BinsAppend(observables, points, i);
        points := points + [(i, (value as real) / (|observables| as real))];
      } else {
        BinsSkip(observables, points, i);
      }
    }
  }

  /**
    `probability_bincounts`: for every value i that occurs, in increasing order,
    the pair (i, occurrences / |observables|); these fractions sum to one. An
    empty input gives the empty list; a negative observation makes
    `numpy.bincount` raise.
  */
  method ProbabilityBincounts(observables: seq<int>) returns (r: Result<seq<(nat, real)>, BincountError>)
    ensures observables == [] ==> r == Ok([])
    ensures r.Err? <==> exists j :: 0 <= j < |observables| && observables[j] < 0
    ensures r.Ok? && observables != [] ==> Histogram(observables, r.value) && Probabilities(r.value) == 1.0
  {
    if observables == [] {
      return Ok([]);
    }
    if exists j :: 0 <= j < |observables| && observables[j] < 0 {
      return Err(NegativeEntry);
    }
    MaxIsElement(observables);
    var bins := Max(observables) + 1;
    var points := CollectBins(observables, bins);
    HistogramComplete(observables, points);
    r := Ok(points);
  }
}
