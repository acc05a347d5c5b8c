/** Bootstrap and descriptive statistics over the reals; only the generator works on machine words. */
module Stats {
  import opened Wrappers
  import opened Order

  // ---------------------------------------------------------------- sums and bounds

  function Sum(xs: seq<real>): real {
    if xs == [] then 0.0 else Sum(xs[..|xs| - 1]) + xs[|xs| - 1]
  }

  function Mean(xs: seq<real>): real
    requires xs != []
  {
    Sum(xs) / |xs| as real
  }

  ghost predicate Within(lo: real, xs: seq<real>, hi: real) {
    forall i :: 0 <= i < |xs| ==> lo <= xs[i] <= hi
  }

  /** The least and the greatest element. */
  ghost predicate AreBounds(lo: real, xs: seq<real>, hi: real) {
    lo in xs && hi in xs && Within(lo, xs, hi)
  }

  lemma {:induction false} SumIsBounded(lo: real, xs: seq<real>, hi: real)
    requires Within(lo, xs, hi)
    ensures lo * |xs| as real <= Sum(xs) <= hi * |xs| as real
  {
    if xs != [] {
      var n := |xs| - 1;
      SumIsBounded(lo, xs[..n], hi);
      OneMore(lo, n);
      OneMore(hi, n);
    }
  }

  lemma {:induction false} SumJoins(xs: seq<real>, ys: seq<real>)
    ensures Sum(xs + ys) == Sum(xs) + Sum(ys)
    ensures |ys| == 1 ==> Sum(ys) == ys[0]
  {
    if ys == [] {
      assert xs + ys == xs;
    } else {
      var n := |ys| - 1;
      SumJoins(xs, ys[..n]);
      assert (xs + ys)[..|xs| + n] == xs + ys[..n];
    }
  }

  lemma OneMore(x: real, n: nat)
    ensures x * (n + 1) as real == x * n as real + x
  {
  }

  lemma Scaled(x: real, y: real, n: nat)
    ensures x <= y ==> x * n as real <= y * n as real
    ensures x < y && n > 0 ==> x * n as real < y * n as real
  {
    ScaledReal(x, y, n as real);
  }

  lemma ScaledReal(x: real, y: real, n: real)
    requires n >= 0.0
    ensures x <= y ==> x * n <= y * n
    ensures x < y && n > 0.0 ==> x * n < y * n
  {
  }

  lemma Quotient(lo: real, total: real, hi: real, n: nat)
    requires n > 0 && lo * n as real <= total <= hi * n as real
    ensures lo <= total / n as real <= hi
  {
    var q := total / n as real;
    assert q * n as real == total;
    Scaled(q, lo, n);
    Scaled(hi, q, n);
  }

  lemma IsQuotient(q: real, total: real, n: nat)
    requires n > 0 && q * n as real == total
    ensures total / n as real == q
  {
    Quotient(q, total, q, n);
  }

  lemma MeanIsWithin(lo: real, xs: seq<real>, hi: real)
    requires xs != [] && Within(lo, xs, hi)
    ensures lo <= Mean(xs) <= hi
  {
    SumIsBounded(lo, xs, hi);
    Quotient(lo, Sum(xs), hi, |xs|);
  }

  // ---------------------------------------------------------------- the generator

  const WORD: nat := 0x1_0000_0000_0000_0000
  const MULTIPLIER: nat := 6364136223846793005
  const INCREMENT: nat := 1442695040888963407

  function Step(state: nat): (next: nat)
    ensures next < WORD
  {
    (state * MULTIPLIER + INCREMENT) % WORD
  }

  class DeterministicRng {
    var state: nat

    constructor (seed: nat)
      requires seed < WORD
      ensures state == seed
    {
      state := seed;
    }

    /** Advances the state; the index is always in range. */
    method Index(len: nat) returns (i: nat)
      requires len > 0
      modifies this
      ensures state == Step(old(state)) && i == state % len && i < len
    {
      state := (state * MULTIPLIER + INCREMENT) % WORD;
      i := state % len;
    }
  }

  /** The state after `n` draws. */
  function After(state: nat, n: nat): nat {
    if n == 0 then state else Step(After(state, n - 1))
  }

  /** The sum of the first `n` draws from `ds`. */
  function DrawTotal(state: nat, ds: seq<real>, n: nat): real
    requires ds != []
  {
    if n == 0 then 0.0 else DrawTotal(state, ds, n - 1) + ds[After(state, n) % |ds|]
  }

  /** The first `n` bootstrap means, each from its own `|ds|` draws. */
  function Estimates(state: nat, ds: seq<real>, n: nat): (es: seq<real>)
    requires ds != []
    ensures |es| == n
  {
    if n == 0 then []
    else Estimates(state, ds, n - 1) + [DrawTotal(After(state, (n - 1) * |ds|), ds, |ds|) / |ds| as real]
  }

  lemma {:induction false} AfterAdds(state: nat, m: nat, n: nat)
    ensures After(After(state, m), n) == After(state, m + n)
  {
    if n > 0 {
      AfterAdds(state, m, n - 1);
    }
  }

  lemma {:induction false} DrawsAreBounded(state: nat, ds: seq<real>, n: nat, lo: real, hi: real)
    requires ds != [] && Within(lo, ds, hi)
    ensures lo * n as real <= DrawTotal(state, ds, n) <= hi * n as real
  {
    hide Step;
    if n > 0 {
      DrawsAreBounded(state, ds, n - 1, lo, hi);
      OneMore(lo, n - 1);
      OneMore(hi, n - 1);
    }
  }

  lemma {:induction false} EstimatesAreWithin(state: nat, ds: seq<real>, n: nat, lo: real, hi: real)
    requires ds != [] && Within(lo, ds, hi)
    ensures Within(lo, Estimates(state, ds, n), hi)
  {
    hide DrawTotal, After;
    if n > 0 {
      EstimatesAreWithin(state, ds, n - 1, lo, hi);
      var start := After(state, (n - 1) * |ds|);
      DrawsAreBounded(start, ds, |ds|, lo, hi);
      Quotient(lo, DrawTotal(start, ds, |ds|), hi, |ds|);
    }
  }

  // ---------------------------------------------------------------- the draws, one by one

  /** The successive states of the 64-bit generator. */
  ghost predicate Stream(x: seq<nat>, seed: nat) {
    && |x| > 0 && x[0] == seed
    && forall j :: 0 < j < |x| ==>
         x[j] == (6364136223846793005 * x[j - 1] + 1442695040888963407) % 0x1_0000_0000_0000_0000
  }

  /** The elements of `ds` that the states from number `from` on draw, as many as there are elements. */
  function Drawn(ds: seq<real>, x: seq<nat>, from: nat): (r: seq<real>)
    requires ds != [] && from + |ds| <= |x|
    ensures |r| == |ds|
  {
    seq(|ds|, k requires 0 <= k < |ds| => ds[x[from + k] % |ds|])
  }

  /** Estimate `i` is the mean of what states `i * n + 1` to `i * n + n` draw. */
  ghost predicate Resamples(es: seq<real>, ds: seq<real>, x: seq<nat>)
    requires ds != []
  {
    forall i :: 0 <= i < |es| ==> i * |ds| + 1 + |ds| <= |x| && es[i] == Mean(Drawn(ds, x, i * |ds| + 1))
  }

  lemma {:induction false} StreamIsAfter(x: seq<nat>, seed: nat, j: nat)
    requires Stream(x, seed) && j < |x|
    ensures x[j] == After(seed, j)
  {
    if j > 0 {
      StreamIsAfter(x, seed, j - 1);
    }
  }

  lemma {:induction false} DrawnTotal(x: seq<nat>, seed: nat, ds: seq<real>, from: nat, n: nat)
    requires Stream(x, seed) && ds != [] && n <= |ds| && from + 1 + |ds| <= |x|
    ensures DrawTotal(After(seed, from), ds, n) == Sum(Drawn(ds, x, from + 1)[..n])
  {
    hide Stream, Step;
    if n > 0 {
      DrawnTotal(x, seed, ds, from, n - 1);
      AfterAdds(seed, from, n);
      StreamIsAfter(x, seed, from + n);
      var drawn := Drawn(ds, x, from + 1);
      assert drawn[..n][..n - 1] == drawn[..n - 1];
      assert drawn[n - 1] == ds[x[from + n] % |ds|];
    }
  }

  lemma {:induction false} EstimatesAreMeans(x: seq<nat>, seed: nat, ds: seq<real>, n: nat)
    requires Stream(x, seed) && ds != [] && |x| > n * |ds|
    ensures Resamples(Estimates(seed, ds, n), ds, x)
  {
    hide Stream, Drawn;
    if n > 0 {
      var from := (n - 1) * |ds|;
      assert from + |ds| == n * |ds|;
      EstimatesAreMeans(x, seed, ds, n - 1);
      DrawnTotal(x, seed, ds, from, |ds|);
      assert Drawn(ds, x, from + 1)[..|ds|] == Drawn(ds, x, from + 1);
    }
  }

  ghost function States(seed: nat, n: nat): (x: seq<nat>)
    ensures |x| == n + 1 && Stream(x, seed)
  {
    if n == 0 then [seed]
    else
      var x := States(seed, n - 1);
      x + [Step(x[n - 1])]
  }

  // ---------------------------------------------------------------- the paired bootstrap

  function Differences(a: seq<real>, b: seq<real>): (ds: seq<real>)
    requires |a| == |b|
    ensures |ds| == |a| && forall i :: 0 <= i < |a| ==> ds[i] == b[i] - a[i]
  {
    seq(|a|, i requires 0 <= i < |a| => b[i] - a[i])
  }

  predicate RealLe(x: real, y: real) { x <= y }

  /** The position of a tail among `n` sorted estimates. */
  function TailIndex(tail: real, n: nat): (i: nat)
    requires tail >= 0.0 && n > 0
    ensures i < n
  {
    var i := (tail * n as real).Floor;
    NotBelowZero(tail, n);
    if i < n - 1 then i else n - 1
  }

  lemma NotBelowZero(tail: real, n: nat)
    requires tail >= 0.0
    ensures (tail * n as real).Floor >= 0
  {
    Scaled(0.0, tail, n);
  }

  datatype Comparison = Comparison(meanA: real, meanB: real, delta: real, countA: nat, countB: nat,
                                   interval: Option<(real, real)>)

  function CompareArrays(a: seq<real>, b: seq<real>): Result<Comparison> {
    if a == [] || b == [] then Err(Validation)
    else Ok(Comparison(Mean(a), Mean(b), Mean(b) - Mean(a), |a|, |b|, None))
  }

  function Interval(sorted: seq<real>, confidence: real): (real, real)
    requires sorted != [] && 0.0 <= confidence < 1.0
  {
    var tail := (1.0 - confidence) / 2.0;
    (sorted[TailIndex(tail, |sorted|)], sorted[TailIndex(1.0 - tail, |sorted|)])
  }

  function Bootstrap(a: seq<real>, b: seq<real>, samples: nat, confidence: real, seed: nat): Result<Comparison> {
    if |a| != |b| || a == [] || samples == 0 || !(0.0 <= confidence < 1.0) then Err(Validation)
    else
      var sorted := StableSort(Estimates(seed, Differences(a, b), samples), RealLe);
      Ok(CompareArrays(a, b).value.(interval := Some(Interval(sorted, confidence))))
  }

  method DrawMean(rng: DeterministicRng, ds: seq<real>) returns (m: real)
    requires ds != []
    modifies rng
    ensures rng.state == After(old(rng.state), |ds|)
    ensures m == DrawTotal(old(rng.state), ds, |ds|) / |ds| as real
  {
    hide Step;
    var total := 0.0;
    var k := 0;
    while k < |ds|
      invariant 0 <= k <= |ds|
      invariant rng.state == After(old(rng.state), k) && total == DrawTotal(old(rng.state), ds, k)
    {
      var i := rng.Index(|ds|);
      total := total + ds[i];
      k := k + 1;
    }
    m := total / |ds| as real;
  }

  method PairedBootstrap(a: seq<real>, b: seq<real>, samples: nat, confidence: real, seed: nat)
    returns (r: Result<Comparison>, ghost x: seq<nat>, ghost sorted: seq<real>)
    requires seed < WORD
    ensures r == Bootstrap(a, b, samples, confidence, seed)
    ensures r.Ok? <==> |a| == |b| && a != [] && samples > 0 && 0.0 <= confidence < 1.0
    ensures r.Ok? ==> r.value.meanA == Mean(a) && r.value.meanB == Mean(b) && r.value.delta == Mean(b) - Mean(a)
                      && r.value.countA == r.value.countB == |a|
    ensures r.Ok? ==>
      && |x| == samples * |a| + 1 && Stream(x, seed)
      && |sorted| == samples && (forall i, j :: 0 <= i < j < samples ==> sorted[i] <= sorted[j])
      && (exists es :: Resamples(es, Differences(a, b), x) && multiset(es) == multiset(sorted))
      && r.value.interval.Some?
      && var low := ((1.0 - confidence) / 2.0 * samples as real).Floor;
         var high := ((1.0 - (1.0 - confidence) / 2.0) * samples as real).Floor;
         && 0 <= low <= high
         && r.value.interval.value.0 == sorted[if low < samples - 1 then low else samples - 1]
         && r.value.interval.value.1 == sorted[if high < samples - 1 then high else samples - 1]
  {
    hide Mean, After, DrawTotal, StableSort, Stream;
    x, sorted := [], [];
    if |a| != |b| || a == [] {
      return Err(Validation), x, sorted;
    }
    if samples == 0 || !(0.0 <= confidence < 1.0) {
      return Err(Validation), x, sorted;
    }
    var ds := Differences(a, b);
    var rng := new DeterministicRng(seed);
    var estimates: seq<real> := [];
    var i := 0;
    StartOfDraws(seed);
    while i < samples
      invariant 0 <= i <= samples
      invariant rng.state == After(seed, i * |ds|)
      invariant estimates == Estimates(seed, ds, i)
    {
      AfterAdds(seed, i * |ds|, |ds|);
      assert i * |ds| + |ds| == (i + 1) * |ds|;
      var m := DrawMean(rng, ds);
      estimates := estimates + [m];
      i := i + 1;
    }
    EstimatesSort(seed, ds, samples);
    x, sorted := States(seed, samples * |ds|), StableSort(estimates, RealLe);
    estimates := StableSort(estimates, RealLe);
    TailsAreFloors(confidence, samples);
    var tail := (1.0 - confidence) / 2.0;
    var lower := estimates[TailIndex(tail, samples)];
    var upper := estimates[TailIndex(1.0 - tail, samples)];
    var comparison := CompareArrays(a, b).value;
    r := Ok(comparison.(interval := Some((lower, upper))));
  }

  /** What the estimates are, and what sorting makes of them. */
  lemma EstimatesSort(seed: nat, ds: seq<real>, samples: nat)
    requires ds != []
    ensures var es := Estimates(seed, ds, samples);
      var sorted := StableSort(es, RealLe);
      && Resamples(es, ds, States(seed, samples * |ds|))
      && |sorted| == samples && multiset(es) == multiset(sorted)
      && forall i, j :: 0 <= i < j < samples ==> sorted[i] <= sorted[j]
  {
    hide Estimates, StableSort, Resamples, Stream;
    var es := Estimates(seed, ds, samples);
    EstimatesAreMeans(States(seed, samples * |ds|), seed, ds, samples);
    RealLeIsPreorder();
    StableSortSorts(es, RealLe);
    var sorted := StableSort(es, RealLe);
    assert |multiset(sorted)| == |multiset(es)|;
    forall i, j | 0 <= i < j < samples ensures sorted[i] <= sorted[j] {
      SortedAt(sorted, i, j);
    }
  }

  lemma TailsAreFloors(confidence: real, samples: nat)
    requires 0.0 <= confidence < 1.0 && samples > 0
    ensures var low := ((1.0 - confidence) / 2.0 * samples as real).Floor;
      var high := ((1.0 - (1.0 - confidence) / 2.0) * samples as real).Floor;
      && 0 <= low <= high
      && TailIndex((1.0 - confidence) / 2.0, samples) == (if low < samples - 1 then low else samples - 1)
      && TailIndex(1.0 - (1.0 - confidence) / 2.0, samples) == (if high < samples - 1 then high else samples - 1)
  {
    var tail := (1.0 - confidence) / 2.0;
    NotBelowZero(tail, samples);
    ScaledReal(tail, 1.0 - tail, samples as real);
    FloorOrder(tail * samples as real, (1.0 - tail) * samples as real);
  }

  /** The seed matters: three draws of one seed take the middle difference each time, those of another each
      difference once. */
  lemma SeedDecidesInterval()
    ensures var a, b := [0.0, 0.0, 0.0], [1.0, 2.0, 6.0];
      && Bootstrap(a, b, 1, 0.0, 0).Ok? && Bootstrap(a, b, 1, 0.0, 0).value.interval == Some((2.0, 2.0))
      && Bootstrap(a, b, 1, 0.0, 4).Ok? && Bootstrap(a, b, 1, 0.0, 4).value.interval == Some((3.0, 3.0))
  {
    hide StableSort, Step;
    var a, b := [0.0, 0.0, 0.0], [1.0, 2.0, 6.0];
    assert Differences(a, b) == [1.0, 2.0, 6.0];
    FirstStates();
    ThreeDraws(0, [1.0, 2.0, 6.0]);
    ThreeDraws(4, [1.0, 2.0, 6.0]);
    OneEstimate(a, b, 0);
    OneEstimate(a, b, 4);
  }

  lemma StepsFromZero()
    ensures Step(0) == 1442695040888963407 && Step(1442695040888963407) == 1876011003808476466
    ensures Step(1876011003808476466) == 11166244414315200793
  {
  }

  lemma StepsFromFour()
    ensures Step(4) == 8452495862566583811 && Step(8452495862566583811) == 13512857827340264662
    ensures Step(13512857827340264662) == 14341745989969716461
  {
  }

  lemma ThreeSteps(seed: nat)
    ensures After(seed, 1) == Step(seed) && After(seed, 2) == Step(Step(seed))
    ensures After(seed, 3) == Step(Step(Step(seed)))
  {
    hide Step;
    assert After(seed, 2) == Step(After(seed, 1));
  }

  /** The indices that the first three states give among three. */
  lemma FirstStates()
    ensures After(0, 1) % 3 == 1 && After(0, 2) % 3 == 1 && After(0, 3) % 3 == 1
    ensures After(4, 1) % 3 == 0 && After(4, 2) % 3 == 1 && After(4, 3) % 3 == 2
  {
    hide After, Step;
    StepsFromZero();
    StepsFromFour();
    ThreeSteps(0);
    ThreeSteps(4);
  }

  lemma ThreeDraws(seed: nat, ds: seq<real>)
    requires |ds| == 3
    ensures DrawTotal(seed, ds, 3) == ds[After(seed, 1) % 3] + ds[After(seed, 2) % 3] + ds[After(seed, 3) % 3]
  {
    hide After;
    assert DrawTotal(seed, ds, 1) == ds[After(seed, 1) % 3];
    assert DrawTotal(seed, ds, 2) == DrawTotal(seed, ds, 1) + ds[After(seed, 2) % 3];
  }

  /** With one sample the interval is its estimate. */
  lemma OneEstimate(a: seq<real>, b: seq<real>, seed: nat)
    requires |a| == |b| && a != []
    ensures Bootstrap(a, b, 1, 0.0, seed).Ok?
    ensures var m := DrawTotal(seed, Differences(a, b), |a|) / |a| as real;
      Bootstrap(a, b, 1, 0.0, seed).value.interval == Some((m, m))
  {
    hide StableSort, DrawTotal, Mean;
    var es := Estimates(seed, Differences(a, b), 1);
    RealLeIsPreorder();
    StableSortSorts(es, RealLe);
    var sorted := StableSort(es, RealLe);
    assert |multiset(sorted)| == |multiset(es)|;
    assert sorted[0] in es;
  }

  lemma StartOfDraws(seed: nat)
    ensures After(seed, 0) == seed
  {
  }

  lemma RealLeIsPreorder()
    ensures IsPreorder(RealLe)
  {
  }

  lemma TailOrder(s: real, t: real, n: nat)
    requires 0.0 <= s <= t && n > 0
    ensures TailIndex(s, n) <= TailIndex(t, n)
  {
    var x, y := s * n as real, t * n as real;
    ScaledReal(s, t, n as real);
    FloorOrder(x, y);
    assert TailIndex(s, n) == if x.Floor < n - 1 then x.Floor else n - 1;
    assert TailIndex(t, n) == if y.Floor < n - 1 then y.Floor else n - 1;
  }

  lemma FloorOrder(x: real, y: real)
    requires x <= y
    ensures x.Floor <= y.Floor
  {
  }

  lemma {:induction false} SumOfDifferences(a: seq<real>, b: seq<real>)
    requires |a| == |b|
    ensures Sum(Differences(a, b)) == Sum(b) - Sum(a)
  {
    if a != [] {
      var n := |a| - 1;
      SumOfDifferences(a[..n], b[..n]);
      assert Differences(a, b)[..n] == Differences(a[..n], b[..n]);
    }
  }

  lemma MeanOfDifferences(a: seq<real>, b: seq<real>)
    requires |a| == |b| && a != []
    ensures Mean(Differences(a, b)) == Mean(b) - Mean(a)
  {
    SumOfDifferences(a, b);
    hide Sum;
    var n := |a|;
    var p, q := Mean(b), Mean(a);
    assert p * n as real == Sum(b) && q * n as real == Sum(a);
    assert (p - q) * n as real == p * n as real - q * n as real;
    IsQuotient(p - q, Sum(b) - Sum(a), n);
  }

  /** The interval is in order, and it and the difference of means lie between the least and the
      greatest paired difference. */
  lemma IntervalIsSound(a: seq<real>, b: seq<real>, samples: nat, confidence: real, seed: nat, lo: real, hi: real)
    requires Bootstrap(a, b, samples, confidence, seed).Ok?
    requires AreBounds(lo, Differences(a, b), hi)
    ensures var c := Bootstrap(a, b, samples, confidence, seed).value;
      && c.interval.Some? && lo <= c.interval.value.0 <= c.interval.value.1 <= hi
      && lo <= c.delta <= hi
  {
    hide Estimates, StableSort, TailIndex, Mean;
    var ds := Differences(a, b);
    var es := Estimates(seed, ds, samples);
    var sorted := StableSort(es, RealLe);
    EstimatesAreWithin(seed, ds, samples, lo, hi);
    RealLeIsPreorder();
    StableSortSorts(es, RealLe);
    forall i | 0 <= i < |sorted| ensures lo <= sorted[i] <= hi {
      assert sorted[i] in es;
    }
    var tail := (1.0 - confidence) / 2.0;
    TailOrder(tail, 1.0 - tail, samples);
    SortedAt(sorted, TailIndex(tail, samples), TailIndex(1.0 - tail, samples));
    MeanOfDifferences(a, b);
    MeanIsWithin(lo, ds, hi);
  }

  lemma SortedAt(s: seq<real>, i: nat, j: nat)
    requires i <= j < |s| && Sorted(s, RealLe)
    ensures s[i] <= s[j]
  {
    assert i < j ==> RealLe(s[i], s[j]);
  }

  /** With the same data, seed and number of samples, a higher confidence gives an interval that contains
      the other. */
  lemma HigherConfidenceContains(a: seq<real>, b: seq<real>, samples: nat, low: real, high: real, seed: nat)
    requires low <= high && Bootstrap(a, b, samples, low, seed).Ok? && Bootstrap(a, b, samples, high, seed).Ok?
    ensures var narrow := Bootstrap(a, b, samples, low, seed).value.interval;
      var wide := Bootstrap(a, b, samples, high, seed).value.interval;
      && narrow.Some? && wide.Some?
      && wide.value.0 <= narrow.value.0 && narrow.value.1 <= wide.value.1
  {
    hide Estimates, StableSort, TailIndex, Mean;
    var es := Estimates(seed, Differences(a, b), samples);
    var sorted := StableSort(es, RealLe);
    RealLeIsPreorder();
    StableSortSorts(es, RealLe);
    var s, t := (1.0 - low) / 2.0, (1.0 - high) / 2.0;
    TailOrder(t, s, samples);
    TailOrder(1.0 - s, 1.0 - t, samples);
    SortedAt(sorted, TailIndex(t, samples), TailIndex(s, samples));
    SortedAt(sorted, TailIndex(1.0 - s, samples), TailIndex(1.0 - t, samples));
  }

  // ---------------------------------------------------------------- describing one array

  datatype Description = Description(count: nat, mean: real, min: real, max: real, variance: real)

  /** The sum of squared distances from `c`. */
  function Spread(xs: seq<real>, c: real): real {
    if xs == [] then 0.0
    else
      var delta := xs[|xs| - 1] - c;
      Spread(xs[..|xs| - 1], c) + delta * delta
  }

  method DescribeArray(values: seq<real>) returns (r: Result<Description>)
    ensures r.Err? <==> values == []
    ensures r.Ok? ==> r.value.count == |values| && r.value.mean == Mean(values)
                      && AreBounds(r.value.min, values, r.value.max)
                      && r.value.variance == Spread(values, Mean(values)) / |values| as real
                      && r.value.variance == Mean(Squares(values)) - Mean(values) * Mean(values)
  {
    hide Sum, Spread, Squares;
    if values == [] {
      return Err(Validation);
    }
    var count := |values|;
    var mean := Sum(values) / count as real;
    var min, max := values[0], values[0];
    var i := 1;
    while i < count
      invariant 1 <= i <= count
      invariant min in values && max in values
      invariant forall j :: 0 <= j < i ==> min <= values[j] <= max
    {
      if values[i] < min {
        min := values[i];
      }
      if values[i] > max {
        max := values[i];
      }
      i := i + 1;
    }
    var total := SumOfSquares(values, mean);
    VarianceIsMeanSquare(values);
    r := Ok(Description(count, mean, min, max, total / count as real));
  }

  method SumOfSquares(values: seq<real>, mean: real) returns (total: real)
    ensures total == Spread(values, mean)
  {
    total := 0.0;
    var i := 0;
    while i < |values|
      invariant 0 <= i <= |values|
      invariant total == Spread(values[..i], mean)
    {
      var delta := values[i] - mean;
      assert values[..i + 1][..i] == values[..i];
      total := total + delta * delta;
      i := i + 1;
    }
    assert values[..i] == values;
  }

  function Squares(xs: seq<real>): (r: seq<real>)
    ensures |r| == |xs| && forall i :: 0 <= i < |xs| ==> r[i] == xs[i] * xs[i]
  {
    seq(|xs|, i requires 0 <= i < |xs| => xs[i] * xs[i])
  }

  lemma SquaresOfFront(xs: seq<real>)
    requires xs != []
    ensures Squares(xs)[..|xs| - 1] == Squares(xs[..|xs| - 1])
  {
    var n := |xs| - 1;
    forall i | 0 <= i < n ensures Squares(xs)[i] == Squares(xs[..n])[i] {
      assert xs[..n][i] == xs[i];
    }
  }

  lemma {:induction false} SpreadExpands(xs: seq<real>, c: real)
    ensures Spread(xs, c) == Sum(Squares(xs)) - 2.0 * (c * Sum(xs)) + c * c * |xs| as real
  {
    if xs != [] {
      var n := |xs| - 1;
      SpreadExpands(xs[..n], c);
      SquaresOfFront(xs);
      Expanded(0.0, xs[n], 0.0, c);
      OneMore(c * c, n);
      Distributes(c, Sum(xs[..n]), xs[n]);
    }
  }

  lemma Distributes(c: real, x: real, y: real)
    ensures c * (x + y) == c * x + c * y
  {
  }

  /** The variance is the mean of the squares less the square of the mean. */
  lemma VarianceIsMeanSquare(xs: seq<real>)
    requires xs != []
    ensures Spread(xs, Mean(xs)) / |xs| as real == Mean(Squares(xs)) - Mean(xs) * Mean(xs)
  {
    hide Sum, Spread, Squares, Mean;
    var n, m, q := |xs| as real, Mean(xs), Mean(Squares(xs));
    SpreadExpands(xs, m);
    MeanTimesCount(xs);
    MeanTimesCount(Squares(xs));
    Collected(m, q, n);
    IsQuotient(q - m * m, Spread(xs, m), |xs|);
  }

  lemma MeanTimesCount(xs: seq<real>)
    requires xs != []
    ensures Mean(xs) * |xs| as real == Sum(xs)
  {
    hide Sum;
  }

  lemma Collected(m: real, q: real, n: real)
    ensures q * n - 2.0 * (m * (m * n)) + m * m * n == (q - m * m) * n
  {
    assert m * (m * n) == m * m * n;
  }

  lemma Square(x: real)
    ensures x * x >= 0.0
  {
  }

  lemma {:induction false} SpreadIsNotNegative(xs: seq<real>, c: real)
    ensures Spread(xs, c) >= 0.0
  {
    if xs != [] {
      SpreadIsNotNegative(xs[..|xs| - 1], c);
      Square(xs[|xs| - 1] - c);
    }
  }

  lemma Expanded(lo: real, x: real, hi: real, c: real)
    ensures (hi - x) * (x - lo) == hi * x - hi * lo - x * x + x * lo
    ensures (x - c) * (x - c) == x * x - 2.0 * (c * x) + c * c
    ensures x * (hi + lo - 2.0 * c) == hi * x + x * lo - 2.0 * (c * x)
  {
  }

  lemma ProductOfDistances(lo: real, x: real, hi: real)
    requires lo <= x <= hi
    ensures (hi - x) * (x - lo) >= 0.0
  {
  }

  /** One element: the product of its distances to the bounds is not negative. */
  lemma OneElement(lo: real, x: real, hi: real, c: real)
    requires lo <= x <= hi
    ensures (x - c) * (x - c) <= x * (hi + lo - 2.0 * c) + c * c - hi * lo
  {
    ProductOfDistances(lo, x, hi);
    Expanded(lo, x, hi, c);
  }

  lemma {:induction false} SpreadIsBounded(lo: real, xs: seq<real>, hi: real, c: real)
    requires Within(lo, xs, hi)
    ensures Spread(xs, c) <= Sum(xs) * (hi + lo - 2.0 * c) + (c * c - hi * lo) * |xs| as real
  {
    if xs != [] {
      var n := |xs| - 1;
      var x, k := xs[n], hi + lo - 2.0 * c;
      SpreadIsBounded(lo, xs[..n], hi, c);
      OneElement(lo, x, hi, c);
      OneMore(c * c - hi * lo, n);
      assert (Sum(xs[..n]) + x) * k == Sum(xs[..n]) * k + x * k;
    }
  }

  /** The mean lies between the bounds and the variance between zero and the product of the mean's
      distances to them. */
  lemma DescriptionIsSound(xs: seq<real>, lo: real, hi: real)
    requires xs != [] && AreBounds(lo, xs, hi)
    ensures lo <= Mean(xs) <= hi
    ensures 0.0 <= Spread(xs, Mean(xs)) / |xs| as real <= (hi - Mean(xs)) * (Mean(xs) - lo)
  {
    hide Sum, Spread;
    MeanIsWithin(lo, xs, hi);
    var n, m := |xs| as real, Mean(xs);
    SpreadIsNotNegative(xs, m);
    SpreadIsBounded(lo, xs, hi, m);
    assert Sum(xs) == m * n;
    Collects(m, n, lo, hi);
    Quotient(0.0, Spread(xs, m), (hi - m) * (m - lo), |xs|);
  }

  lemma Collects(m: real, n: real, lo: real, hi: real)
    ensures m * n * (hi + lo - 2.0 * m) + (m * m - hi * lo) * n == (hi - m) * (m - lo) * n
  {
    assert m * (hi + lo - 2.0 * m) + (m * m - hi * lo) == (hi - m) * (m - lo);
    assert m * n * (hi + lo - 2.0 * m) == m * (hi + lo - 2.0 * m) * n;
  }
}
