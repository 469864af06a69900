/**
  Feature calculation (gaitalytics/features.py): a driver that runs one
  family's per-cycle calculation over every cycle of a segmented trial, the
  time-series family (summary statistics per channel) and the temporal family
  (support phases and timing ratios from the three events inside a cycle).
*/
module Features {
  import opened Outcomes
  import opened Dict
  import opened Paths
  import opened Model
  import Events
  import Segmentation

  // ---------------------------------------------------------------------
  // The driver: `BaseFeatureCalculation.calculate`
  // ---------------------------------------------------------------------

  /**
    The stacked result: context -> (cycle id -> the cycle's features), both
    axes in container order.
  */
  type Stacked<F> = seq<(string, seq<(string, F)>)>

  /** `xr.concat` of an empty list raises. */
  const EmptyConcat := Error(ValueError, "must supply at least one object to concatenate")

  /** The inner loop of `calculate` from cycle `k` on, having collected `acc`. */
  function CyclesFrom<F>(compute: TrialData -> Result<F>, cycles: seq<(string, TrialData)>, k: nat, acc: seq<(string, F)>)
    : Result<seq<(string, F)>>
    requires k <= |cycles|
    decreases |cycles| - k
  {
    if k == |cycles| then Ok(acc)
    else
      var feature :- compute(cycles[k].1);
      CyclesFrom(compute, cycles, k + 1, acc + [(cycles[k].0, feature)])
  }

  /** The outer loop of `calculate` from context `j` on, having collected `acc`. */
  function ContextsFrom<F>(compute: TrialData -> Result<F>, all: seq<(string, seq<(string, TrialData)>)>, j: nat, acc: Stacked<F>)
    : Result<Stacked<F>>
    requires j <= |all|
    decreases |all| - j
  {
    if j == |all| then
      if acc == [] then Err(EmptyConcat) else Ok(acc)
    else
      var contextResults :- CyclesFrom(compute, all[j].1, 0, []);
      if contextResults == [] then Err(EmptyConcat)
      else ContextsFrom(compute, all, j + 1, acc + [(all[j].0, contextResults)])
  }

  /** What `calculate` returns for a segmented trial, or the exception it raises. */
  function FeatureTable<F>(compute: TrialData -> Result<F>, tc: TrialCycles): Result<Stacked<F>> {
    ContextsFrom(compute, AllCycles(tc), 0, [])
  }

  /**
    `calculate`: runs the family's calculation on every cycle, context by
    context, and stacks the results along a cycle axis and a context axis.
  */
  method Calculate<F>(tc: TrialCycles, compute: TrialData -> Result<F>) returns (r: Result<Stacked<F>>)
    ensures r == FeatureTable(compute, tc)
  {
    var all := AllCycles(tc);
    var results: Stacked<F> := [];
    var j := 0;
    while j < |all|
      invariant j <= |all|
      invariant ContextsFrom(compute, all, 0, []) == ContextsFrom(compute, all, j, results)
    {
      var context: string := all[j].0;
      var contextCycles: seq<(string, TrialData)> := all[j].1;
      var contextResults: seq<(string, F)> := [];
      var k := 0;
      while k < |contextCycles|
        invariant k <= |contextCycles|
        invariant CyclesFrom(compute, contextCycles, 0, []) == CyclesFrom(compute, contextCycles, k, contextResults)
      {
        var feature: Result<F> := compute(contextCycles[k].1);
        if feature.Err? {
          return Err(feature.error);
        }
        contextResults := contextResults + [(contextCycles[k].0, feature.value)];
        k := k + 1;
      }
      if contextResults == [] {
        return Err(EmptyConcat);
      }
      results := results + [(context, contextResults)];
      j := j + 1;
    }
    if results == [] {
      return Err(EmptyConcat);
    }
    return Ok(results);
  }

  /** Every cycle from `k` on can be calculated. */
  predicate AllCalculated<F>(compute: TrialData -> Result<F>, cycles: seq<(string, TrialData)>, k: nat) {
    forall m :: k <= m < |cycles| ==> compute(cycles[m].1).Ok?
  }

  /**
    The inner loop succeeds exactly when every remaining cycle can be
    calculated; it then appends one entry per cycle, under the cycle's key,
    holding that cycle's features. Otherwise it raises the first failure.
  */
  lemma {:induction false} CyclesFromSpec<F>(compute: TrialData -> Result<F>, cycles: seq<(string, TrialData)>, k: nat, acc: seq<(string, F)>)
    requires k <= |cycles|
    ensures var r := CyclesFrom(compute, cycles, k, acc);
      && (r.Ok? <==> AllCalculated(compute, cycles, k))
      && (r.Ok? ==>
            && |r.value| == |acc| + |cycles| - k
            && r.value[..|acc|] == acc
            && forall m :: k <= m < |cycles| ==>
                 r.value[|acc| + m - k] == (cycles[m].0, compute(cycles[m].1).value))
      && (r.Err? ==> exists m :: k <= m < |cycles| && compute(cycles[m].1) == Err(r.error)
                       && AllCalculated(compute, cycles[..m], k))
    decreases |cycles| - k
  {
    if k < |cycles| {
      var feature := compute(cycles[k].1);
      if feature.Ok? {
        var acc' := acc + [(cycles[k].0, feature.value)];
        CyclesFromSpec(compute, cycles, k + 1, acc');
        var r := CyclesFrom(compute, cycles, k, acc);
        if r.Ok? {
          assert r.value[..|acc|] == acc' [..|acc|];
        } else {
          var m :| k + 1 <= m < |cycles| && compute(cycles[m].1) == Err(r.error)
            && AllCalculated(compute, cycles[..m], k + 1);
          assert AllCalculated(compute, cycles[..m], k);
        }
      } else {
        assert AllCalculated(compute, cycles[..k], k);
      }
    }
  }

  /** The keys of the stacked features of one context are its cycle keys, in order. */
  lemma ContextFeatures<F>(compute: TrialData -> Result<F>, cycles: seq<(string, TrialData)>)
    ensures var r := CyclesFrom(compute, cycles, 0, []);
      && (r.Ok? <==> AllCalculated(compute, cycles, 0))
      && (r.Ok? ==>
            && Keys(r.value) == Keys(cycles)
            && forall m :: 0 <= m < |cycles| ==> r.value[m].1 == compute(cycles[m].1).value)
  {
    CyclesFromSpec(compute, cycles, 0, []);
  }

  /** Every context has a cycle and every cycle can be calculated, from context `j` on. */
  predicate Calculable<F>(compute: TrialData -> Result<F>, all: seq<(string, seq<(string, TrialData)>)>, j: nat) {
    forall i :: j <= i < |all| ==> all[i].1 != [] && AllCalculated(compute, all[i].1, 0)
  }

  /**
    The outer loop succeeds exactly when there is a context, every context
    from `j` on has a cycle and every cycle can be calculated; the contexts
    then follow `acc` in order, each with its cycles' features under their keys.
  */
  lemma {:induction false} ContextsFromSpec<F>(compute: TrialData -> Result<F>, all: seq<(string, seq<(string, TrialData)>)>, j: nat, acc: Stacked<F>)
    requires j <= |all|
    ensures var r := ContextsFrom(compute, all, j, acc);
      && (r.Ok? <==> Calculable(compute, all, j) && |acc| + |all| - j > 0)
      && (r.Ok? ==>
            && |r.value| == |acc| + |all| - j
            && r.value[..|acc|] == acc
            && forall i :: j <= i < |all| ==>
                 && r.value[|acc| + i - j].0 == all[i].0
                 && Keys(r.value[|acc| + i - j].1) == Keys(all[i].1)
                 && forall m :: 0 <= m < |all[i].1| ==>
                      r.value[|acc| + i - j].1[m].1 == compute(all[i].1[m].1).value)
    decreases |all| - j
  {
    if j < |all| {
      ContextFeatures(compute, all[j].1);
      var contextResults := CyclesFrom(compute, all[j].1, 0, []);
      if contextResults.Ok? && contextResults.value != [] {
        var acc' := acc + [(all[j].0, contextResults.value)];
        ContextsFromSpec(compute, all, j + 1, acc');
        var r := ContextsFrom(compute, all, j, acc);
        if r.Ok? {
          assert r.value[..|acc|] == acc' [..|acc|];
          assert r.value[|acc|] == acc'[|acc|];
        }
      } else if contextResults.Ok? {
        assert Keys(all[j].1) == [];
        assert !Calculable(compute, all, j);
      } else {
        assert !Calculable(compute, all, j);
      }
    }
  }

  /**
    `calculate` succeeds exactly when the trial has a context, every context
    has a cycle and every cycle's calculation succeeds. Its context axis is
    then the trial's contexts and each cycle axis that context's cycle ids,
    in container order, and each entry holds the calculation of that cycle.
  */
  lemma FeatureTableSpec<F>(compute: TrialData -> Result<F>, tc: TrialCycles)
    ensures var r := FeatureTable(compute, tc);
      var all := AllCycles(tc);
      && (r.Ok? <==> |all| > 0 && Calculable(compute, all, 0))
      && (r.Ok? ==>
            && Keys(r.value) == Keys(tc.segments)
            && forall i :: 0 <= i < |all| ==>
                 && Keys(r.value[i].1) == Keys(tc.segments[i].1.segments)
                 && forall m :: 0 <= m < |all[i].1| ==>
                      r.value[i].1[m].1 == compute(all[i].1[m].1).value)
  {
    var all := AllCycles(tc);
    ContextsFromStart(compute, all);
  }

  /** The outer loop from its start: the contexts in order, each with its cycles' features. */
  lemma ContextsFromStart<F>(compute: TrialData -> Result<F>, all: seq<(string, seq<(string, TrialData)>)>)
    ensures var r := ContextsFrom(compute, all, 0, []);
      && (r.Ok? <==> |all| > 0 && Calculable(compute, all, 0))
      && (r.Ok? ==>
            && Keys(r.value) == Keys(all)
            && forall i :: 0 <= i < |all| ==>
                 && Keys(r.value[i].1) == Keys(all[i].1)
                 && forall m :: 0 <= m < |all[i].1| ==>
                      r.value[i].1[m].1 == compute(all[i].1[m].1).value)
  {
    var none: Stacked<F> := [];
    ContextsFromSpec(compute, all, 0, none);
    var r := ContextsFrom(compute, all, 0, none);
    if r.Ok? {
      forall i | 0 <= i < |all|
        ensures Keys(r.value)[i] == Keys(all)[i]
      {
        assert |none| + i - 0 == i;
      }
    }
  }

  // ---------------------------------------------------------------------
  // The time-series family: `TimeSeriesFeatures._calculate`
  // ---------------------------------------------------------------------

  /** The feature axis of the time-series family, in order. */
  const TimeSeriesNames: seq<string> := ["min", "max", "mean", "median", "std"]

  /** The samples of a series that are present (`skipna=True`), in order. */
  function Present(s: Series): (r: seq<real>)
    ensures |r| <= |s|
  {
    if s == [] then []
    else
      var init := Present(s[..|s| - 1]);
      match s[|s| - 1]
      case Some(x) => init + [x]
      case None => init
  }

  /** A series with no missing sample keeps all its samples. */
  lemma {:induction false} PresentComplete(s: Series)
    requires forall i :: 0 <= i < |s| ==> s[i].Some?
    ensures |Present(s)| == |s|
    ensures forall i :: 0 <= i < |s| ==> Present(s)[i] == s[i].value
  {
    if s != [] {
      PresentComplete(s[..|s| - 1]);
    }
  }

  function Min(xs: seq<real>): (r: real)
    requires xs != []
  {
    if |xs| == 1 then xs[0]
    else
      var m := Min(xs[..|xs| - 1]);
      if xs[|xs| - 1] < m then xs[|xs| - 1] else m
  }

  function Max(xs: seq<real>): (r: real)
    requires xs != []
  {
    if |xs| == 1 then xs[0]
    else
      var m := Max(xs[..|xs| - 1]);
      if xs[|xs| - 1] > m then xs[|xs| - 1] else m
  }

  /** The minimum and maximum are samples, and bound every sample. */
  lemma {:induction false} MinMaxBound(xs: seq<real>)
    requires xs != []
    ensures Min(xs) in xs && Max(xs) in xs
    ensures forall i :: 0 <= i < |xs| ==> Min(xs) <= xs[i] <= Max(xs)
  {
    if |xs| > 1 {
      var p := xs[..|xs| - 1];
      MinMaxBound(p);
      assert forall i :: 0 <= i < |p| ==> xs[i] == p[i];
    }
  }

  function Sum(xs: seq<real>): real {
    if xs == [] then 0.0 else Sum(xs[..|xs| - 1]) + xs[|xs| - 1]
  }

  function Mean(xs: seq<real>): real
    requires xs != []
  {
    Sum(xs) / |xs| as real
  }

  /** The sum is at least `n` times the minimum. */
  lemma {:induction false} SumLower(xs: seq<real>)
    requires xs != []
    ensures |xs| as real * Min(xs) <= Sum(xs)
  {
    if |xs| > 1 {
      var p := xs[..|xs| - 1];
      SumLower(p);
      var lo, n := Min(xs), |p| as real;
      assert lo <= Min(p) && lo <= xs[|xs| - 1];
      MulMono(n, lo, Min(p));
      MulSucc(n, lo);
      assert |xs| as real == n + 1.0;
    }
  }

  /** The sum is at most `n` times the maximum. */
  lemma {:induction false} SumUpper(xs: seq<real>)
    requires xs != []
    ensures Sum(xs) <= |xs| as real * Max(xs)
  {
    if |xs| > 1 {
      var p := xs[..|xs| - 1];
      SumUpper(p);
      var hi, n := Max(xs), |p| as real;
      assert Max(p) <= hi && xs[|xs| - 1] <= hi;
      MulMono(n, Max(p), hi);
      MulSucc(n, hi);
      assert |xs| as real == n + 1.0;
    }
  }

  lemma MulMono(n: real, a: real, b: real)
    requires n >= 0.0 && a <= b
    ensures n * a <= n * b
  {
    assert n * b - n * a == n * (b - a);
  }

  lemma MulSucc(n: real, a: real)
    ensures (n + 1.0) * a == n * a + a
  {
  }

  /** A quotient by a positive `n` stays within bounds that `n` times them enclose. */
  lemma DivBounds(s: real, n: real, lo: real, hi: real)
    requires n > 0.0 && n * lo <= s <= n * hi
    ensures lo <= s / n <= hi
  {
    var q := s / n;
    assert n * q == s;
    assert n * (q - lo) >= 0.0;
    assert n * (hi - q) >= 0.0;
  }

  /** The mean lies between the minimum and the maximum. */
  lemma MeanBounds(xs: seq<real>)
    requires xs != []
    ensures Min(xs) <= Mean(xs) <= Max(xs)
  {
    SumLower(xs);
    SumUpper(xs);
    DivBounds(Sum(xs), |xs| as real, Min(xs), Max(xs));
  }

  predicate IsSorted(xs: seq<real>) {
    forall i, j :: 0 <= i < j < |xs| ==> xs[i] <= xs[j]
  }

  function Insert(x: real, xs: seq<real>): (r: seq<real>)
    ensures multiset(r) == multiset(xs) + multiset{x}
  {
    if xs == [] || x <= xs[0] then [x] + xs
    else
      assert xs == [xs[0]] + xs[1..];
      [xs[0]] + Insert(x, xs[1..])
  }

  /** Insertion into a sorted sequence keeps it sorted. */
  lemma {:induction false} InsertSorted(x: real, xs: seq<real>)
    requires IsSorted(xs)
    ensures IsSorted(Insert(x, xs))
  {
    if xs != [] && x > xs[0] {
      var rest := xs[1..];
      assert IsSorted(rest) && forall k :: 0 <= k < |rest| ==> xs[0] <= rest[k] by {
        forall k | 0 <= k < |rest| ensures rest[k] == xs[k + 1] {
        }
      }
      InsertSorted(x, rest);
      InsertAbove(x, rest, xs[0]);
      ConsSorted(xs[0], Insert(x, rest));
      assert Insert(x, xs) == [xs[0]] + Insert(x, rest);
    }
  }

  /** A lower bound of `x` and of every element of `xs` bounds every element after inserting `x`. */
  lemma InsertAbove(x: real, xs: seq<real>, lo: real)
    requires lo <= x && forall k :: 0 <= k < |xs| ==> lo <= xs[k]
    ensures forall k :: 0 <= k < |Insert(x, xs)| ==> lo <= Insert(x, xs)[k]
  {
    var ins := Insert(x, xs);
    forall k | 0 <= k < |ins| ensures lo <= ins[k] {
      assert ins[k] in multiset(ins);
      if ins[k] != x {
        assert ins[k] in multiset(xs);
        var j :| 0 <= j < |xs| && xs[j] == ins[k];
      }
    }
  }

  /** A sorted sequence preceded by a lower bound of its elements is sorted. */
  lemma ConsSorted(h: real, xs: seq<real>)
    requires IsSorted(xs) && forall k :: 0 <= k < |xs| ==> h <= xs[k]
    ensures IsSorted([h] + xs)
  {
    var r := [h] + xs;
    forall a, b | 0 <= a < b < |r| ensures r[a] <= r[b] {
      assert r[b] == xs[b - 1];
      if a > 0 {
        assert r[a] == xs[a - 1];
      }
    }
  }

  /** The samples in ascending order. */
  function Sort(xs: seq<real>): (r: seq<real>)
    ensures multiset(r) == multiset(xs)
  {
    if xs == [] then []
    else
      assert xs == xs[..|xs| - 1] + [xs[|xs| - 1]];
      Insert(xs[|xs| - 1], Sort(xs[..|xs| - 1]))
  }

  lemma {:induction false} SortSorted(xs: seq<real>)
    ensures IsSorted(Sort(xs))
  {
    if xs != [] {
      SortSorted(xs[..|xs| - 1]);
      InsertSorted(xs[|xs| - 1], Sort(xs[..|xs| - 1]));
    }
  }

  /** `median`: the middle sample, or the mean of the two middle samples. */
  function Median(xs: seq<real>): real
    requires xs != []
  {
    var s := Sort(xs);
    assert |s| == |xs| by { assert |multiset(s)| == |multiset(xs)|; }
    var n := |s|;
    if n % 2 == 1 then s[n / 2] else (s[n / 2 - 1] + s[n / 2]) / 2.0
  }

  /** The median lies between the minimum and the maximum. */
  lemma MedianBounds(xs: seq<real>)
    requires xs != []
    ensures Min(xs) <= Median(xs) <= Max(xs)
  {
    var s := Sort(xs);
    assert |s| == |xs| by { assert |multiset(s)| == |multiset(xs)|; }
    MinMaxBound(xs);
    forall i | 0 <= i < |s| ensures Min(xs) <= s[i] <= Max(xs) {
      assert s[i] in multiset(xs);
      var j :| 0 <= j < |xs| && xs[j] == s[i];
    }
  }

  /** `std` with `ddof=0`: the root of the mean squared deviation. */
  function Variance(xs: seq<real>): (r: real)
    requires xs != []
  {
    var m := Mean(xs);
    Mean(seq(|xs|, i requires 0 <= i < |xs| => (xs[i] - m) * (xs[i] - m)))
  }

  lemma {:induction false} SumNonNegative(xs: seq<real>)
    requires forall i :: 0 <= i < |xs| ==> xs[i] >= 0.0
    ensures Sum(xs) >= 0.0
  {
    if xs != [] {
      SumNonNegative(xs[..|xs| - 1]);
    }
  }

  /** The variance under the square root is never negative. */
  lemma VarianceNonNegative(xs: seq<real>)
    requires xs != []
    ensures Variance(xs) >= 0.0
  {
    var m := Mean(xs);
    var sq := seq(|xs|, i requires 0 <= i < |xs| => (xs[i] - m) * (xs[i] - m));
    SumNonNegative(sq);
  }

  /** One statistic over the present samples; with none present the result is NaN (`None`). */
  function Statistic(name: string, s: Series, sqrt: real -> real): Option<real> {
    var xs := Present(s);
    if xs == [] then None
    else if name == "min" then Some(Min(xs))
    else if name == "max" then Some(Max(xs))
    else if name == "mean" then Some(Mean(xs))
    else if name == "median" then Some(Median(xs))
    else Some(sqrt(Variance(xs)))
  }

  /** One feature over the time axis, per (channel, axis) cell. */
  function Reduce(a: CategoryArray, name: string, sqrt: real -> real): map<(string, string), Option<real>> {
    map k | k in a.values :: Statistic(name, a.values[k], sqrt)
  }

  /**
    `TimeSeriesFeatures._calculate`: the five statistics of the analysis
    category over time, stacked along the feature axis. A trial without
    that category raises KeyError.
  */
  function TimeSeriesCalculate(t: TrialData, sqrt: real -> real)
    : (r: Result<seq<(string, map<(string, string), Option<real>>)>>)
    ensures r.Ok? <==> Analysis in Keys(t.data)
    ensures r.Ok? ==> Keys(r.value) == TimeSeriesNames
  {
    match Get(t.data, Analysis)
    case None => Err(Error(KeyError, Analysis.Value()))
    case Some(markers) =>
      var features := seq(5, i requires 0 <= i < 5 => (TimeSeriesNames[i], Reduce(markers, TimeSeriesNames[i], sqrt)));
      assert Keys(features) == TimeSeriesNames;
      Ok(features)
  }

  /** Feature `i` of a cell is statistic `TimeSeriesNames[i]` of its series. */
  lemma TimeSeriesAt(t: TrialData, sqrt: real -> real, k: (string, string))
    requires TimeSeriesCalculate(t, sqrt).Ok?
    ensures var f := TimeSeriesCalculate(t, sqrt).value;
      var markers := Get(t.data, Analysis).value;
      |f| == 5 &&
      forall i :: 0 <= i < 5 ==>
        (k in f[i].1 <==> k in markers.values) &&
        (k in markers.values ==> f[i].1[k] == Statistic(TimeSeriesNames[i], markers.values[k], sqrt))
  {
  }

  /** Over a series with a present sample, min <= mean <= max and min <= median <= max. */
  lemma StatisticOrdering(s: Series, sqrt: real -> real)
    requires Present(s) != []
    ensures var min, max := Statistic("min", s, sqrt), Statistic("max", s, sqrt);
      var mean, median := Statistic("mean", s, sqrt), Statistic("median", s, sqrt);
      && min.Some? && max.Some? && mean.Some? && median.Some?
      && min.value <= max.value
      && min.value <= mean.value <= max.value
      && min.value <= median.value <= max.value
  {
    var xs := Present(s);
    MinMaxBound(xs);
    MeanBounds(xs);
    MedianBounds(xs);
  }

  /**
    For every cell with at least one present sample, the features satisfy
    min <= mean <= max and min <= median <= max.
  */
  lemma TimeSeriesOrdering(t: TrialData, sqrt: real -> real, k: (string, string))
    requires TimeSeriesCalculate(t, sqrt).Ok?
    ensures var f := TimeSeriesCalculate(t, sqrt).value;
      var markers := Get(t.data, Analysis).value;
      k in markers.values && Present(markers.values[k]) != [] ==>
        && f[0].1[k].Some? && f[1].1[k].Some? && f[2].1[k].Some? && f[3].1[k].Some?
        && f[0].1[k].value <= f[1].1[k].value
        && f[0].1[k].value <= f[2].1[k].value <= f[1].1[k].value
        && f[0].1[k].value <= f[3].1[k].value <= f[1].1[k].value
  {
    var markers := Get(t.data, Analysis).value;
    if k in markers.values && Present(markers.values[k]) != [] {
      TimeSeriesAt(t, sqrt, k);
      FeatureOrdering(TimeSeriesCalculate(t, sqrt).value, markers.values[k], sqrt, k);
    }
  }

  lemma FeatureOrdering(f: seq<(string, map<(string, string), Option<real>>)>, s: Series, sqrt: real -> real, k: (string, string))
    requires Present(s) != [] && |f| == 5
    requires forall i :: 0 <= i < 5 ==> k in f[i].1 && f[i].1[k] == Statistic(TimeSeriesNames[i], s, sqrt)
    ensures && f[0].1[k].Some? && f[1].1[k].Some? && f[2].1[k].Some? && f[3].1[k].Some?
      && f[0].1[k].value <= f[1].1[k].value
      && f[0].1[k].value <= f[2].1[k].value <= f[1].1[k].value
      && f[0].1[k].value <= f[3].1[k].value <= f[1].1[k].value
  {
    StatisticOrdering(s, sqrt);
    assert f[0].1[k] == Statistic(TimeSeriesNames[0], s, sqrt) && f[1].1[k] == Statistic(TimeSeriesNames[1], s, sqrt);
    assert f[2].1[k] == Statistic(TimeSeriesNames[2], s, sqrt) && f[3].1[k] == Statistic(TimeSeriesNames[3], s, sqrt);
  }

  /** A cell with no missing sample has all five statistics. */
  lemma CompleteSeriesHasFeatures(t: TrialData, sqrt: real -> real, k: (string, string))
    requires TimeSeriesCalculate(t, sqrt).Ok?
    requires var markers := Get(t.data, Analysis).value;
      && k in markers.values && markers.values[k] != []
      && forall i :: 0 <= i < |markers.values[k]| ==> markers.values[k][i].Some?
    ensures var f := TimeSeriesCalculate(t, sqrt).value;
      forall i :: 0 <= i < 5 ==> k in f[i].1 && f[i].1[k].Some?
  {
    PresentComplete(Get(t.data, Analysis).value.values[k]);
  }

  /** The time-series family over a whole segmented trial: every entry has the five features. */
  lemma TimeSeriesTable(tc: TrialCycles, sqrt: real -> real)
    ensures var r := FeatureTable(t => TimeSeriesCalculate(t, sqrt), tc);
      r.Ok? ==> forall i, m :: 0 <= i < |r.value| && 0 <= m < |r.value[i].1| ==>
        Keys(r.value[i].1[m].1) == TimeSeriesNames
  {
    var compute := (t: TrialData) => TimeSeriesCalculate(t, sqrt);
    FeatureTableSpec(compute, tc);
    var r := FeatureTable(compute, tc);
    var all := AllCycles(tc);
    if r.Ok? {
      forall i, m | 0 <= i < |r.value| && 0 <= m < |r.value[i].1|
        ensures Keys(r.value[i].1[m].1) == TimeSeriesNames
      {
        assert |r.value[i].1| == |Keys(r.value[i].1)| == |all[i].1|;
        assert compute(all[i].1[m].1).Ok?;
      }
    }
  }

  // ---------------------------------------------------------------------
  // The temporal family: `TemporalFeatures`
  // ---------------------------------------------------------------------

  /**
    The attributes of a cycle's event table that `check_events_validity`
    reads: the end time, the cycle's own context and its id.
  */
  datatype CycleAttrs = CycleAttrs(endTime: real, context: string, cycleId: nat)

  /** The times `check_events_validity` returns, in its order. */
  datatype EventTimes = EventTimes(contraFo: real, contraFs: real, ipsiFo: real, endTime: real)

  /** The row filters `check_events_validity` applies. */
  datatype Selector = Ipsi(ctx: string) | Contra(ctx: string) | Labelled(name: string)

  predicate Selects(sel: Selector, ev: Event) {
    match sel
    case Ipsi(ctx) => ev.context == ctx
    case Contra(ctx) => ev.context != ctx
    case Labelled(name) => ev.name == name
  }

  function Keep(sel: Selector, ev: Event): seq<Event> {
    if Selects(sel, ev) then [ev] else []
  }

  /** A boolean-mask row selection: the selected rows, in table order. */
  function Filter(e: EventTable, sel: Selector): (r: EventTable)
    ensures |r| <= |e|
  {
    if e == [] then [] else Filter(e[..|e| - 1], sel) + Keep(sel, e[|e| - 1])
  }

  /** Every row is either of the cycle's context or of another one. */
  lemma {:induction false} FilterPartition(e: EventTable, ctx: string)
    ensures |Filter(e, Ipsi(ctx))| + |Filter(e, Contra(ctx))| == |e|
  {
    if e != [] {
      FilterPartition(e[..|e| - 1], ctx);
    }
  }

  lemma FilterTwo(e: EventTable, sel: Selector)
    requires |e| == 2
    ensures Filter(e, sel) == Keep(sel, e[0]) + Keep(sel, e[1])
  {
    assert e[..1][..0] == [];
    assert e[..1] == [e[0]];
  }

  lemma FilterThree(e: EventTable, sel: Selector)
    requires |e| == 3
    ensures Filter(e, sel) == Keep(sel, e[0]) + Keep(sel, e[1]) + Keep(sel, e[2])
  {
    FilterTwo(e[..2], sel);
  }

  function MissingEvents(attrs: CycleAttrs): Error {
    Error(ValueError, "Missing events in segment " + attrs.context + " nr. " + NatToString(attrs.cycleId))
  }

  function WrongSequence(attrs: CycleAttrs): Error {
    Error(ValueError, "Error events sequence " + attrs.context + " nr. " + NatToString(attrs.cycleId))
  }

  /** `.values[0]` of an empty selection. */
  const NoFirstValue := Error(IndexError, "index 0 is out of bounds for axis 0 with size 0")

  /**
    `check_events_validity`: a cycle needs an event table of at least three
    rows, exactly one row of its own context and exactly two of the other;
    the first Foot Strike and the first Foot Off of the other context must
    exist.
  */
  function CheckEventsValidity(events: Option<EventTable>, attrs: CycleAttrs): (r: Result<EventTimes>)
    ensures events.None? ==> r == Err(Error(ValueError, "Trial does not have events."))
    ensures events.Some? && |events.value| < 3 ==> r == Err(MissingEvents(attrs))
    ensures r.Ok? ==> r.value.endTime == attrs.endTime
  {
    match events
    case None => Err(Error(ValueError, "Trial does not have events."))
    case Some(e) =>
      if |e| < 3 then Err(MissingEvents(attrs))
      else
        var ipsiFo := Filter(e, Ipsi(attrs.context));
        var contra := Filter(e, Contra(attrs.context));
        if |ipsiFo| != 1 then Err(WrongSequence(attrs))
        else if |contra| != 2 then Err(WrongSequence(attrs))
        else
          var contraFs := Filter(contra, Labelled(Events.FootStrike));
          var contraFo := Filter(contra, Labelled(Events.FootOff));
          if contraFs == [] || contraFo == [] then Err(NoFirstValue)
          else Ok(EventTimes(contraFo[0].time, contraFs[0].time, ipsiFo[0].time, attrs.endTime))
  }

  /**
    Rows `i`, `j` and `k` of a three-row table are the ipsilateral event, the
    contralateral Foot Strike and the contralateral Foot Off of context `ctx`.
  */
  predicate Roles(e: EventTable, ctx: string, i: nat, j: nat, k: nat) {
    && |e| == 3 && i < 3 && j < 3 && k < 3 && i != j && j != k && i != k
    && e[i].context == ctx
    && e[j].context != ctx && e[j].name == Events.FootStrike
    && e[k].context != ctx && e[k].name == Events.FootOff
  }

  /** A table of more than three rows always fails the sequence check. */
  lemma TooManyEvents(e: EventTable, attrs: CycleAttrs)
    requires |e| > 3
    ensures CheckEventsValidity(Some(e), attrs) == Err(WrongSequence(attrs))
  {
    FilterPartition(e, attrs.context);
  }

  /**
    A cycle's events pass exactly when the table has three rows: one of the
    cycle's context, a Foot Strike and a Foot Off of the other. The times
    returned are then the other foot's Foot Off and Foot Strike, the own
    event's time and the end time.
  */
  lemma CheckEventsValiditySpec(e: EventTable, attrs: CycleAttrs)
    ensures var r := CheckEventsValidity(Some(e), attrs);
      && (r.Ok? <==> exists i: nat, j: nat, k: nat :: Roles(e, attrs.context, i, j, k))
      && forall i: nat, j: nat, k: nat :: Roles(e, attrs.context, i, j, k) ==>
           r == Ok(EventTimes(e[k].time, e[j].time, e[i].time, attrs.endTime))
  {
    var ctx := attrs.context;
    if |e| > 3 {
      TooManyEvents(e, attrs);
    } else if |e| == 3 {
      RolesOfThree(e, attrs);
    }
  }

  lemma RolesOfThree(e: EventTable, attrs: CycleAttrs)
    requires |e| == 3
    ensures var r := CheckEventsValidity(Some(e), attrs);
      && (r.Ok? <==> exists i: nat, j: nat, k: nat :: Roles(e, attrs.context, i, j, k))
      && forall i: nat, j: nat, k: nat :: Roles(e, attrs.context, i, j, k) ==>
           r == Ok(EventTimes(e[k].time, e[j].time, e[i].time, attrs.endTime))
  {
    forall i: nat, j: nat, k: nat | Roles(e, attrs.context, i, j, k)
      ensures CheckEventsValidity(Some(e), attrs) == Ok(EventTimes(e[k].time, e[j].time, e[i].time, attrs.endTime))
    {
      RolesPass(e, attrs, i, j, k);
    }
    if CheckEventsValidity(Some(e), attrs).Ok? {
      PassHasRoles(e, attrs);
    }
  }

  /** The row of the own context and the other two rows, in table order. */
  lemma SplitThree(e: EventTable, ctx: string, i: nat)
    requires |e| == 3 && i < 3 && e[i].context == ctx
    requires forall m :: 0 <= m < 3 && m != i ==> e[m].context != ctx
    ensures Filter(e, Ipsi(ctx)) == [e[i]]
    ensures Filter(e, Contra(ctx)) == if i == 0 then [e[1], e[2]] else if i == 1 then [e[0], e[2]] else [e[0], e[1]]
  {
    FilterThree(e, Ipsi(ctx));
    FilterThree(e, Contra(ctx));
  }

  lemma RolesPass(e: EventTable, attrs: CycleAttrs, i: nat, j: nat, k: nat)
    requires Roles(e, attrs.context, i, j, k)
    ensures CheckEventsValidity(Some(e), attrs) == Ok(EventTimes(e[k].time, e[j].time, e[i].time, attrs.endTime))
  {
    var ctx := attrs.context;
    SplitThree(e, ctx, i);
    var contra := Filter(e, Contra(ctx));
    if j < k {
      assert contra == [e[j], e[k]];
    } else {
      assert contra == [e[k], e[j]];
    }
    CheckFromFilters(e, attrs, e[i], e[j], e[k]);
  }

  /** The check passes once the filters have picked the own row and the other foot's strike and off. */
  lemma CheckFromFilters(e: EventTable, attrs: CycleAttrs, own: Event, strike: Event, off: Event)
    requires |e| == 3 && Filter(e, Ipsi(attrs.context)) == [own]
    requires var contra := Filter(e, Contra(attrs.context));
      contra == [strike, off] || contra == [off, strike]
    requires strike.name == Events.FootStrike && off.name == Events.FootOff
    ensures CheckEventsValidity(Some(e), attrs) == Ok(EventTimes(off.time, strike.time, own.time, attrs.endTime))
  {
    var contra := Filter(e, Contra(attrs.context));
    FilterTwo(contra, Labelled(Events.FootStrike));
    FilterTwo(contra, Labelled(Events.FootOff));
  }

  lemma PassHasRoles(e: EventTable, attrs: CycleAttrs)
    requires |e| == 3 && CheckEventsValidity(Some(e), attrs).Ok?
    ensures exists i: nat, j: nat, k: nat :: Roles(e, attrs.context, i, j, k)
  {
    var ctx := attrs.context;
    FilterThree(e, Ipsi(ctx));
    var i: nat := if e[0].context == ctx then 0 else if e[1].context == ctx then 1 else 2;
    SplitThree(e, ctx, i);
    var a: nat, b: nat := if i == 0 then 1 else 0, if i == 2 then 1 else 2;
    var contra := Filter(e, Contra(ctx));
    assert contra == [e[a], e[b]];
    FilterTwo(contra, Labelled(Events.FootStrike));
    FilterTwo(contra, Labelled(Events.FootOff));
    if e[a].name == Events.FootStrike {
      assert Roles(e, ctx, i, a, b);
    } else {
      assert Roles(e, ctx, i, b, a);
    }
  }

  /** `_calculate_supports`: double and single support as fractions of the cycle. */
  function Supports(t: EventTimes): seq<(string, real)>
    requires t.endTime != 0.0
  {
    [ ("double_support", (t.contraFo + (t.ipsiFo - t.contraFs)) / t.endTime),
      ("single_support", (t.contraFs - t.contraFo) / t.endTime) ]
  }

  /** The feature axis of the temporal family, in order. */
  const TemporalNames: seq<string> := [
    "double_support", "single_support", "foot_off", "opposite_foot_off",
    "opposite_foot_contact", "stride_time", "step_time", "cadence"]

  /**
    `TemporalFeatures._calculate`: the checked event times, then the eight
    features; a zero end time makes the float division raise.
  */
  function TemporalCalculate(events: Option<EventTable>, attrs: CycleAttrs): (r: Result<seq<(string, real)>>)
    ensures CheckEventsValidity(events, attrs).Err? ==> r == Err(CheckEventsValidity(events, attrs).error)
  {
    var t :- CheckEventsValidity(events, attrs);
    if t.endTime == 0.0 then Err(Error(ZeroDivisionError, "float division by zero"))
    else
      Ok(Supports(t) + [
        ("foot_off", t.ipsiFo / t.endTime),
        ("opposite_foot_off", t.contraFo / t.endTime),
        ("opposite_foot_contact", t.contraFs / t.endTime),
        ("stride_time", t.endTime),
        ("step_time", t.endTime - t.contraFs),
        ("cadence", 60.0 / (t.endTime / 2.0))])
  }

  /**
    The eight temporal features of checked event times `t`, in their fixed
    order: single support is the opposite foot contact less the opposite foot
    off, double plus single support equals the own foot-off fraction, each
    fraction is an event time over the stride time, the step time is the
    stride time less the opposite foot contact, and cadence times stride time
    is 120 (steps per minute from seconds per stride).
  */
  predicate TemporalFeaturesOf(f: seq<(string, real)>, t: EventTimes) {
    && t.endTime != 0.0
    && Keys(f) == TemporalNames
    && f[1].1 == f[4].1 - f[3].1
    && f[0].1 + f[1].1 == f[2].1
    && f[2].1 == t.ipsiFo / t.endTime
    && f[3].1 == t.contraFo / t.endTime
    && f[4].1 == t.contraFs / t.endTime
    && f[5].1 == t.endTime
    && f[6].1 == t.endTime - t.contraFs
    && f[7].1 * f[5].1 == 120.0
  }

  /**
    The temporal family on one cycle succeeds exactly when its events are in
    their roles and the end time is not zero; the features are then those of
    the own foot off, the other foot's strike and off, and the end time.
  */
  lemma TemporalSpec(e: EventTable, attrs: CycleAttrs)
    ensures var r := TemporalCalculate(Some(e), attrs);
      && (r.Ok? <==> (exists i: nat, j: nat, k: nat :: Roles(e, attrs.context, i, j, k)) && attrs.endTime != 0.0)
      && (r.Ok? ==> forall i: nat, j: nat, k: nat :: Roles(e, attrs.context, i, j, k) ==>
            TemporalFeaturesOf(r.value, EventTimes(e[k].time, e[j].time, e[i].time, attrs.endTime)))
  {
    CheckEventsValiditySpec(e, attrs);
    var c := CheckEventsValidity(Some(e), attrs);
    if c.Ok? {
      var i: nat, j: nat, k: nat :| Roles(e, attrs.context, i, j, k);
      assert c.value == EventTimes(e[k].time, e[j].time, e[i].time, attrs.endTime);
      TemporalOfTimes(Some(e), attrs, c.value);
    }
  }

  /** The features computed from checked event times. */
  lemma TemporalOfTimes(events: Option<EventTable>, attrs: CycleAttrs, t: EventTimes)
    requires CheckEventsValidity(events, attrs) == Ok(t)
    ensures var r := TemporalCalculate(events, attrs);
      && (r.Ok? <==> t.endTime != 0.0)
      && (r.Ok? ==> TemporalFeaturesOf(r.value, t))
  {
    if t.endTime != 0.0 {
      var r := TemporalCalculate(events, attrs);
      var end := t.endTime;
      assert r.value[0].1 + r.value[1].1 == (t.contraFo + (t.ipsiFo - t.contraFs) + (t.contraFs - t.contraFo)) / end;
      assert r.value[1].1 == t.contraFs / end - t.contraFo / end;
      assert 60.0 / (end / 2.0) * end == 120.0;
    }
  }

  /** The temporal family, reading each cycle's attributes with `attrsOf`. */
  function TemporalFamily(attrsOf: TrialData -> CycleAttrs): TrialData -> Result<seq<(string, real)>> {
    (t: TrialData) => TemporalCalculate(t.events, attrsOf(t))
  }

  /**
    The events of a gait cycle pass the check: the other foot's off and
    strike and this foot's off are returned in that role.
  */
  lemma GaitCyclePasses(ev: EventTable, attrs: CycleAttrs)
    requires Segmentation.GaitCycleEvents(ev, attrs.context)
    ensures CheckEventsValidity(Some(ev), attrs) == Ok(EventTimes(ev[0].time, ev[1].time, ev[2].time, attrs.endTime))
  {
    RolesPass(ev, attrs, 2, 1, 0);
  }

  /**
    Segmenting a table in the regular gait pattern at the foot strikes gives
    cycles whose events all pass the temporal family's check, when each
    cycle's attributes name its own context.
  */
  lemma PatternCyclesPass(t: TrialData)
    requires t.events.Some? && Events.FollowsPattern(t.events.value)
    requires Segmentation.StrictlyIncreasing(t.events.value)
    ensures var r := Segmentation.Segment(t, Segmentation.DefaultLabel);
      r.Ok? ==>
        && IsTrialCycles(r.value)
        && forall j, i, attrs: CycleAttrs ::
             0 <= j < |r.value.segments| && 0 <= i < |r.value.segments[j].1.segments|
             && attrs.context == r.value.segments[j].0 ==>
               CheckEventsValidity(r.value.segments[j].1.segments[i].1.trial.events, attrs).Ok?
  {
    var r := Segmentation.Segment(t, Segmentation.DefaultLabel);
    Segmentation.PatternCyclesHoldThreeEvents(t);
    if r.Ok? {
      forall j, i, attrs: CycleAttrs |
        0 <= j < |r.value.segments| && 0 <= i < |r.value.segments[j].1.segments|
        && attrs.context == r.value.segments[j].0
        ensures CheckEventsValidity(r.value.segments[j].1.segments[i].1.trial.events, attrs).Ok?
      {
        GaitCyclePasses(r.value.segments[j].1.segments[i].1.trial.events.value, attrs);
      }
    }
  }
}
