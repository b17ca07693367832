/** The result aggregator, as functions: how `post_process` combines the results of
    the trajectories into one answer. */
module Aggregation {
  import opened DataModel

  function Pow2(n: nat): (r: nat)
    ensures r >= 1
  {
    if n == 0 then 1 else 2 * Pow2(n - 1)
  }

  function Zeros(size: nat): (v: seq<real>)
    ensures |v| == size && forall i :: 0 <= i < size ==> v[i] == 0.0
  {
    seq(size, _ => 0.0)
  }

  function Sum(xs: seq<real>): real
  {
    if xs == [] then 0.0 else Sum(xs[..|xs| - 1]) + xs[|xs| - 1]
  }

  // ---------------------------------------------------------------- SAMPLE jobs

  /** One trajectory's samples written into a dense vector of `size` zeros: each
      sample stores its probability at its state, a later sample on the same state
      overwriting an earlier one; a state outside the vector is an index error. */
  function Scatter(samples: seq<StateProb>, size: nat): (r: Result<seq<real>, PluginError>)
    ensures r.Ok? ==> |r.value| == size
  {
    if samples == [] then Ok(Zeros(size))
    else
      var last := samples[|samples| - 1];
      match Scatter(samples[..|samples| - 1], size)
      case Err(e) => Err(e)
      case Ok(v) =>
        if last.state < size then Ok(v[last.state := last.probability])
        else Err(IndexOutOfBounds(last.state))
  }

  /** `x` is what state `i` holds once every sample has been written: the
      probability of the last sample on `i`, or 0 when no sample is on `i`. */
  ghost predicate LastWritten(samples: seq<StateProb>, i: nat, x: real)
  {
    (exists j :: 0 <= j < |samples| && samples[j].state == i && samples[j].probability == x &&
       forall j' :: j < j' < |samples| ==> samples[j'].state != i) ||
    ((forall j :: 0 <= j < |samples| ==> samples[j].state != i) && x == 0.0)
  }

  /** Scattering succeeds exactly when every state is inside the vector. */
  lemma {:induction false} ScatterSucceeds(samples: seq<StateProb>, size: nat)
    ensures Scatter(samples, size).Ok? <==> forall j :: 0 <= j < |samples| ==> samples[j].state < size
  {
    if samples != [] {
      ScatterSucceeds(samples[..|samples| - 1], size);
    }
  }

  /** After scattering, each entry holds the probability last written to its
      state, or 0 if no sample is on it. */
  lemma {:induction false} ScatterLastWriteWins(samples: seq<StateProb>, size: nat, i: nat)
    requires Scatter(samples, size).Ok? && i < size
    ensures LastWritten(samples, i, Scatter(samples, size).value[i])
  {
    if samples != [] {
      var n := |samples| - 1;
      var prefix := samples[..n];
      var x := Scatter(samples, size).value[i];
      var v := Scatter(prefix, size).value;
      if samples[n].state == i {
        assert samples[n].probability == x;
      } else {
        ScatterLastWriteWins(prefix, size, i);
        assert x == v[i];
        if forall j :: 0 <= j < n ==> prefix[j].state != i {
          assert forall j :: 0 <= j < |samples| ==> samples[j].state != i;
        } else {
          var j :| 0 <= j < n && prefix[j].state == i && prefix[j].probability == v[i] &&
            forall j' :: j < j' < n ==> prefix[j'].state != i;
          assert samples[j].state == i && samples[j].probability == x;
        }
      }
    }
  }

  /** A failed scattering names the first state outside the vector. */
  lemma {:induction false} ScatterFirstError(samples: seq<StateProb>, size: nat, j: nat)
    requires j < |samples| && samples[j].state >= size
    requires forall j' :: 0 <= j' < j ==> samples[j'].state < size
    ensures Scatter(samples, size) == Err(IndexOutOfBounds(samples[j].state))
  {
    var n := |samples| - 1;
    if j < n {
      ScatterFirstError(samples[..n], size, j);
    } else {
      ScatterSucceeds(samples[..n], size);
    }
  }

  /** A write loop that has written the first `j` samples stops at sample `j`
      when its state is outside the vector, with that state's index error. */
  lemma ScatterStop(samples: seq<StateProb>, size: nat, j: nat)
    requires j < |samples| && Scatter(samples[..j], size).Ok? && samples[j].state >= size
    ensures Scatter(samples, size) == Err(IndexOutOfBounds(samples[j].state))
  {
    ScatterSucceeds(samples[..j], size);
    forall j' | 0 <= j' < j
      ensures samples[j'].state < size
    {
      assert samples[..j][j'] == samples[j'];
    }
    ScatterFirstError(samples, size, j);
  }

  /** Every trajectory's samples scattered, in result order; the first index
      error aborts. */
  function Scatters(results: seq<ExecResult>, size: nat): (r: Result<seq<seq<real>>, PluginError>)
    ensures r.Ok? ==> (|r.value| == |results| &&
      forall k :: 0 <= k < |results| ==> Scatter(results[k].samples, size) == Ok(r.value[k]))
  {
    if results == [] then Ok([])
    else
      var n := |results| - 1;
      match Scatters(results[..n], size)
      case Err(e) => Err(e)
      case Ok(vs) =>
        match Scatter(results[n].samples, size)
        case Err(e) => Err(e)
        case Ok(v) => Ok(vs + [v])
  }

  /** Scattering one more result appends its vector. */
  lemma ScattersStep(results: seq<ExecResult>, size: nat, k: nat, vs: seq<seq<real>>, v: seq<real>)
    requires k < |results| && Scatters(results[..k], size) == Ok(vs)
    requires Scatter(results[k].samples, size) == Ok(v)
    ensures Scatters(results[..k + 1], size) == Ok(vs + [v])
  {
    assert results[..k + 1][..k] == results[..k];
  }

  /** Element-wise sum of equally long vectors. */
  function AddVec(a: seq<real>, b: seq<real>): (c: seq<real>)
    requires |a| == |b|
    ensures |c| == |a| && forall i :: 0 <= i < |a| ==> c[i] == a[i] + b[i]
  {
    seq(|a|, i requires 0 <= i < |a| => a[i] + b[i])
  }

  /** The dense vectors added up: the first one, then each next one added to it. */
  function SumVecs(vs: seq<seq<real>>, size: nat): (total: seq<real>)
    requires |vs| >= 1 && forall k :: 0 <= k < |vs| ==> |vs[k]| == size
    ensures |total| == size
  {
    if |vs| == 1 then vs[0]
    else AddVec(SumVecs(vs[..|vs| - 1], size), vs[|vs| - 1])
  }

  /** Adding one more vector: the first vector is the total, and each later one
      is added to the total so far. */
  lemma SumVecsStep(vs: seq<seq<real>>, size: nat, v: seq<real>)
    requires |v| == size && forall k :: 0 <= k < |vs| ==> |vs[k]| == size
    ensures vs == [] ==> SumVecs(vs + [v], size) == v
    ensures vs != [] ==> SumVecs(vs + [v], size) == AddVec(SumVecs(vs, size), v)
  {
    assert (vs + [v])[..|vs|] == vs;
  }

  /** Entry `i` of vector `k`, for every `k`. */
  function Column(vs: seq<seq<real>>, i: nat): (col: seq<real>)
    requires forall k :: 0 <= k < |vs| ==> i < |vs[k]|
    ensures |col| == |vs|
  {
    seq(|vs|, k requires 0 <= k < |vs| => vs[k][i])
  }

  /** Each entry of the summed vector is the sum of that entry across vectors. */
  lemma {:induction false} SumVecsAt(vs: seq<seq<real>>, size: nat, i: nat)
    requires |vs| >= 1 && forall k :: 0 <= k < |vs| ==> |vs[k]| == size
    requires i < size
    ensures SumVecs(vs, size)[i] == Sum(Column(vs, i))
  {
    var n := |vs| - 1;
    if n == 0 {
      assert Column(vs, i)[..0] == [];
    } else {
      SumVecsAt(vs[..n], size, i);
      assert Column(vs, i)[..n] == Column(vs[..n], i);
    }
  }

  /** The summed vector divided by the number of vectors. */
  function Average(vs: seq<seq<real>>, size: nat): (avg: seq<real>)
    requires |vs| >= 1 && forall k :: 0 <= k < |vs| ==> |vs[k]| == size
    ensures |avg| == size
  {
    Scaled(SumVecs(vs, size), |vs| as real)
  }

  /** Every entry divided by `c`. */
  function Scaled(v: seq<real>, c: real): (w: seq<real>)
    requires c != 0.0
    ensures |w| == |v| && forall i :: 0 <= i < |v| ==> w[i] == v[i] / c
  {
    seq(|v|, i requires 0 <= i < |v| => v[i] / c)
  }

  /** The averaged distribution over `size` states. An empty result list leaves
      nothing to divide, which is an error. */
  function Averaged(results: seq<ExecResult>, size: nat): Result<seq<real>, PluginError>
  {
    match Scatters(results, size)
    case Err(e) => Err(e)
    case Ok(vs) => if vs == [] then Err(NoResults) else Ok(Average(vs, size))
  }

  /** The distribution as (state, probability) pairs, in ascending state order. */
  function Enumerate(d: seq<real>): (raw: seq<StateProb>)
    ensures |raw| == |d|
    ensures forall i :: 0 <= i < |d| ==> raw[i] == StateProb(i, d[i])
  {
    seq(|d|, i requires 0 <= i < |d| => StateProb(i, d[i]))
  }

  /** `post_process` for a SAMPLE job on `nbqbits` qubits requesting `nbshots`. */
  function SampleAggregate(results: seq<ExecResult>, nbqbits: nat, nbshots: int): Result<seq<Aggregate>, PluginError>
  {
    match Averaged(results, Pow2(nbqbits))
    case Err(e) => Err(e)
    case Ok(d) => if nbshots == 0 then Ok([Distribution(Enumerate(d))]) else Err(ShotsNotImplemented)
  }

  /** With at least one result and every state inside the vector, SAMPLE
      aggregation with 0 shots yields one distribution listing all 2^n states in
      ascending order, entry `i` being the sum over the trajectories of the
      probability last written to state `i`, divided by the number of
      trajectories; with a nonzero shot count it fails. */
  lemma SampleAggregateEntries(results: seq<ExecResult>, nbqbits: nat, nbshots: int)
    requires |results| >= 1
    requires forall k, j :: 0 <= k < |results| && 0 <= j < |results[k].samples| ==>
      results[k].samples[j].state < Pow2(nbqbits)
    ensures Scatters(results, Pow2(nbqbits)).Ok?
    ensures nbshots != 0 ==> SampleAggregate(results, nbqbits, nbshots) == Err(ShotsNotImplemented)
    ensures nbshots == 0 ==>
      var size := Pow2(nbqbits);
      var vs := Scatters(results, size).value;
      SampleAggregate(results, nbqbits, nbshots).Ok? &&
      |SampleAggregate(results, nbqbits, nbshots).value| == 1 &&
      SampleAggregate(results, nbqbits, nbshots).value[0].Distribution? &&
      var raw := SampleAggregate(results, nbqbits, nbshots).value[0].raw;
      |raw| == size &&
      (forall k :: 0 <= k < |results| ==> Scatter(results[k].samples, size) == Ok(vs[k])) &&
      forall i :: 0 <= i < size ==>
        raw[i].state == i && raw[i].probability == Sum(Column(vs, i)) / |results| as real
  {
    var size := Pow2(nbqbits);
    ScattersOk(results, size);
    var vs := Scatters(results, size).value;
    forall i | 0 <= i < size ensures Average(vs, size)[i] == Sum(Column(vs, i)) / |results| as real {
      SumVecsAt(vs, size, i);
    }
  }

  /** Scattering every result succeeds when every state is inside the vector. */
  lemma {:induction false} ScattersOk(results: seq<ExecResult>, size: nat)
    requires forall k, j :: 0 <= k < |results| && 0 <= j < |results[k].samples| ==>
      results[k].samples[j].state < size
    ensures Scatters(results, size).Ok?
  {
    if results != [] {
      var n := |results| - 1;
      ScattersOk(results[..n], size);
      ScatterSucceeds(results[n].samples, size);
    }
  }

  /** SAMPLE aggregation over no results fails, and so does a sampled state
      outside the 2^n vector. */
  lemma SampleAggregateErrors(results: seq<ExecResult>, nbqbits: nat, nbshots: int)
    ensures results == [] ==> SampleAggregate(results, nbqbits, nbshots) == Err(NoResults)
    ensures (exists k, j ::
      0 <= k < |results| && 0 <= j < |results[k].samples| &&
      results[k].samples[j].state >= Pow2(nbqbits)) ==>
        SampleAggregate(results, nbqbits, nbshots).Err? &&
        SampleAggregate(results, nbqbits, nbshots).error.IndexOutOfBounds?
  {
    var size := Pow2(nbqbits);
    if exists k, j ::
      0 <= k < |results| && 0 <= j < |results[k].samples| && results[k].samples[j].state >= size
    {
      var k, j :| 0 <= k < |results| && 0 <= j < |results[k].samples| &&
        results[k].samples[j].state >= size;
      ScattersFail(results, size, k, j);
    }
  }

  /** A state outside the vector in any result makes scattering fail with an
      index error. */
  lemma {:induction false} ScattersFail(results: seq<ExecResult>, size: nat, k: nat, j: nat)
    requires k < |results| && j < |results[k].samples| && results[k].samples[j].state >= size
    ensures Scatters(results, size).Err? && Scatters(results, size).error.IndexOutOfBounds?
  {
    var n := |results| - 1;
    if k < n {
      ScattersFail(results[..n], size, k, j);
    } else if Scatters(results[..n], size).Ok? {
      ScatterSucceeds(results[n].samples, size);
      ScatterErrorKind(results[n].samples, size);
    } else {
      ScattersErrorKind(results[..n], size);
    }
  }

  /** Scattering stops at the first result whose samples fail to scatter, with
      that result's error. */
  lemma {:induction false} ScattersStop(results: seq<ExecResult>, size: nat, k: nat)
    requires k < |results| && Scatters(results[..k], size).Ok?
    requires Scatter(results[k].samples, size).Err?
    ensures Scatters(results, size) == Err(Scatter(results[k].samples, size).error)
  {
    var n := |results| - 1;
    if k < n {
      assert results[..n][..k] == results[..k];
      ScattersStop(results[..n], size, k);
    } else {
      assert results[..n] == results[..k];
    }
  }

  /** Scattering can only fail with an index error. */
  lemma {:induction false} ScatterErrorKind(samples: seq<StateProb>, size: nat)
    ensures Scatter(samples, size).Err? ==> Scatter(samples, size).error.IndexOutOfBounds?
  {
    if samples != [] {
      ScatterErrorKind(samples[..|samples| - 1], size);
    }
  }

  lemma {:induction false} ScattersErrorKind(results: seq<ExecResult>, size: nat)
    ensures Scatters(results, size).Err? ==> Scatters(results, size).error.IndexOutOfBounds?
  {
    if results != [] {
      ScattersErrorKind(results[..|results| - 1], size);
      ScatterErrorKind(results[|results| - 1].samples, size);
    }
  }

  // ------------------------------------------------- normalisation of the average

  lemma {:induction false} SumUpdate(v: seq<real>, i: nat, x: real)
    requires i < |v|
    ensures Sum(v[i := x]) == Sum(v) - v[i] + x
  {
    var n := |v| - 1;
    if i < n {
      SumUpdate(v[..n], i, x);
      assert v[i := x][..n] == v[..n][i := x];
    } else {
      assert v[i := x][..n] == v[..n];
    }
  }

  lemma {:induction false} SumZeros(size: nat)
    ensures Sum(Zeros(size)) == 0.0
  {
    if size > 0 {
      SumZeros(size - 1);
      assert Zeros(size)[..size - 1] == Zeros(size - 1);
    }
  }

  lemma {:induction false} SumNonNegative(v: seq<real>)
    requires forall i :: 0 <= i < |v| ==> v[i] >= 0.0
    ensures Sum(v) >= 0.0
  {
    if v != [] {
      SumNonNegative(v[..|v| - 1]);
    }
  }

  /** The probabilities of a list of samples. */
  function Probabilities(samples: seq<StateProb>): (ps: seq<real>)
    ensures |ps| == |samples|
  {
    seq(|samples|, j requires 0 <= j < |samples| => samples[j].probability)
  }

  /** No state is sampled twice. */
  predicate DistinctStates(samples: seq<StateProb>)
  {
    forall j, j' :: 0 <= j < j' < |samples| ==> samples[j].state != samples[j'].state
  }

  /** When no state repeats, scattering loses nothing: the dense vector sums to
      the probabilities of the samples, and is non-negative when they are. */
  lemma {:induction false} ScatterTotal(samples: seq<StateProb>, size: nat)
    requires Scatter(samples, size).Ok? && DistinctStates(samples)
    ensures Sum(Scatter(samples, size).value) == Sum(Probabilities(samples))
    ensures (forall j :: 0 <= j < |samples| ==> samples[j].probability >= 0.0) ==>
      forall i :: 0 <= i < size ==> Scatter(samples, size).value[i] >= 0.0
  {
    if samples == [] {
      SumZeros(size);
    } else {
      var n := |samples| - 1;
      var prefix := samples[..n];
      var last := samples[n];
      ScatterTotal(prefix, size);
      var v := Scatter(prefix, size).value;
      ScatterLastWriteWins(prefix, size, last.state);
      assert v[last.state] == 0.0;
      SumUpdate(v, last.state, last.probability);
      assert Probabilities(samples)[..n] == Probabilities(prefix);
    }
  }

  lemma {:induction false} SumAddVec(a: seq<real>, b: seq<real>)
    requires |a| == |b|
    ensures Sum(AddVec(a, b)) == Sum(a) + Sum(b)
  {
    if a != [] {
      var n := |a| - 1;
      SumAddVec(a[..n], b[..n]);
      assert AddVec(a, b)[..n] == AddVec(a[..n], b[..n]);
    }
  }

  /** The sums of the vectors, one per vector. */
  function Totals(vs: seq<seq<real>>): (ts: seq<real>)
    ensures |ts| == |vs|
  {
    seq(|vs|, k requires 0 <= k < |vs| => Sum(vs[k]))
  }

  lemma {:induction false} SumVecsTotal(vs: seq<seq<real>>, size: nat)
    requires |vs| >= 1 && forall k :: 0 <= k < |vs| ==> |vs[k]| == size
    ensures Sum(SumVecs(vs, size)) == Sum(Totals(vs))
  {
    var n := |vs| - 1;
    if n == 0 {
      assert Totals(vs)[..0] == [];
    } else {
      var prev := SumVecs(vs[..n], size);
      SumVecsTotal(vs[..n], size);
      SumAddVec(prev, vs[n]);
      assert SumVecs(vs, size) == AddVec(prev, vs[n]);
      assert Totals(vs)[..n] == Totals(vs[..n]);
      assert Sum(Totals(vs)) == Sum(Totals(vs[..n])) + Sum(vs[n]);
    }
  }

  lemma {:induction false} SumScaled(v: seq<real>, c: real)
    requires c > 0.0
    ensures Sum(Scaled(v, c)) == Sum(v) / c
  {
    if v != [] {
      var n := |v| - 1;
      SumScaled(v[..n], c);
      assert Scaled(v, c)[..n] == Scaled(v[..n], c);
    }
  }

  /** A sum of equal terms. */
  lemma {:induction false} SumConstant(xs: seq<real>, x: real)
    requires forall k :: 0 <= k < |xs| ==> xs[k] == x
    ensures Sum(xs) == |xs| as real * x
  {
    if xs != [] {
      SumConstant(xs[..|xs| - 1], x);
    }
  }

  /** Averaging vectors that each sum to 1 gives a vector summing to 1. */
  lemma AverageSumsToOne(vs: seq<seq<real>>, size: nat)
    requires |vs| >= 1 && forall k :: 0 <= k < |vs| ==> |vs[k]| == size && Sum(vs[k]) == 1.0
    ensures Sum(Average(vs, size)) == 1.0
  {
    var m := |vs| as real;
    var total := SumVecs(vs, size);
    SumVecsTotal(vs, size);
    SumConstant(Totals(vs), 1.0);
    assert Sum(total) == m;
    SumScaled(total, m);
    DivideSelf(m);
  }

  lemma DivideSelf(x: real)
    requires x > 0.0
    ensures x / x == 1.0
  {
  }

  /** Averaging non-negative vectors gives a non-negative vector. */
  lemma AverageNonNegative(vs: seq<seq<real>>, size: nat, i: nat)
    requires |vs| >= 1 && forall k :: 0 <= k < |vs| ==> |vs[k]| == size
    requires forall k, i' :: 0 <= k < |vs| && 0 <= i' < size ==> vs[k][i'] >= 0.0
    requires i < size
    ensures Average(vs, size)[i] >= 0.0
  {
    SumVecsAt(vs, size, i);
    SumNonNegative(Column(vs, i));
  }

  /** When every trajectory reports a proper distribution (distinct states inside
      the vector, non-negative probabilities summing to 1), the averaged
      distribution is non-negative and sums to 1. */
  lemma AveragedNormalised(results: seq<ExecResult>, size: nat)
    requires |results| >= 1
    requires forall k :: 0 <= k < |results| ==>
      DistinctStates(results[k].samples) &&
      Sum(Probabilities(results[k].samples)) == 1.0 &&
      forall j :: 0 <= j < |results[k].samples| ==>
        results[k].samples[j].state < size && results[k].samples[j].probability >= 0.0
    ensures Averaged(results, size).Ok?
    ensures Sum(Averaged(results, size).value) == 1.0
    ensures forall i :: 0 <= i < size ==> Averaged(results, size).value[i] >= 0.0
  {
    ScattersOk(results, size);
    var vs := Scatters(results, size).value;
    forall k | 0 <= k < |vs|
      ensures Sum(vs[k]) == 1.0 && forall i :: 0 <= i < size ==> vs[k][i] >= 0.0
    {
      ScatterTotal(results[k].samples, size);
    }
    AverageSumsToOne(vs, size);
    forall i | 0 <= i < size ensures Average(vs, size)[i] >= 0.0 {
      AverageNonNegative(vs, size, i);
    }
  }

  // ------------------------------------------------------------ OBSERVABLE jobs

  /** The value each trajectory reported, in result order. */
  function Values(results: seq<ExecResult>): (vals: seq<real>)
    ensures |vals| == |results|
    ensures forall k :: 0 <= k < |results| ==> vals[k] == results[k].value
  {
    seq(|results|, k requires 0 <= k < |results| => results[k].value)
  }

  function Mean(xs: seq<real>): real
    requires |xs| > 0
  {
    Sum(xs) / |xs| as real
  }

  /** The squared deviations from the mean. */
  function SquaredDeviations(xs: seq<real>): (ds: seq<real>)
    requires |xs| > 0
    ensures |ds| == |xs|
  {
    var m := Mean(xs);
    seq(|xs|, k requires 0 <= k < |xs| => (xs[k] - m) * (xs[k] - m))
  }

  /** The population variance (the one numpy's default `std` takes the root of). */
  function PopVariance(xs: seq<real>): real
    requires |xs| > 0
  {
    Sum(SquaredDeviations(xs)) / |xs| as real
  }

  /** The unbiased sample variance. */
  function SampleVariance(xs: seq<real>): real
    requires |xs| > 1
  {
    Sum(SquaredDeviations(xs)) / (|xs| - 1) as real
  }

  /** Floating-point division: a zero divisor gives nan for 0/0 and an infinity
      otherwise. */
  function Divide(a: real, b: real): Float
  {
    if b != 0.0 then Num(a / b) else if a == 0.0 then NaN else Inf
  }

  /** `sqrt` returns the non-negative square root of `x`. */
  predicate IsRootAt(sqrt: real -> real, x: real)
  {
    sqrt(x) >= 0.0 && sqrt(x) * sqrt(x) == x
  }

  /** `post_process` for an OBSERVABLE job: the mean of the values and, as error
      bar, the population standard deviation divided by the square root of n - 1;
      numpy yields nan for both on an empty list. */
  function Observe(vals: seq<real>, sqrt: real -> real): Aggregate
  {
    if vals == [] then Estimate(NaN, NaN)
    else Estimate(Num(Mean(vals)), Divide(sqrt(PopVariance(vals)), sqrt((|vals| - 1) as real)))
  }

  /** With at least two values the error bar `e` satisfies e*e*(n-1) equal to the
      population variance; it is therefore the standard error of the mean, the
      sample standard deviation over the square root of n. */
  lemma ObserveStandardError(vals: seq<real>, sqrt: real -> real)
    requires |vals| >= 2
    requires IsRootAt(sqrt, PopVariance(vals)) && IsRootAt(sqrt, (|vals| - 1) as real)
    ensures Observe(vals, sqrt).value == Num(Mean(vals))
    ensures Observe(vals, sqrt).error.Num?
    ensures var e := Observe(vals, sqrt).error.r;
      e >= 0.0 &&
      e * e * (|vals| - 1) as real == PopVariance(vals) &&
      e * e * |vals| as real == SampleVariance(vals)
  {
    var n := |vals| as real;
    var a := sqrt(PopVariance(vals));
    var b := sqrt(n - 1.0);
    assert b * b == n - 1.0;
    assert b > 0.0;
    var e := a / b;
    assert e * b == a;
    assert e * e * (b * b) == a * a;
    var ss := Sum(SquaredDeviations(vals));
    assert PopVariance(vals) == ss / n;
    assert e * e * (n - 1.0) == ss / n;
    assert e * e * n * (n - 1.0) == ss;
    assert SampleVariance(vals) == ss / (n - 1.0);
  }

  /** Identical values: the mean is that value and the error bar is 0. */
  lemma ObserveConstant(vals: seq<real>, v: real, sqrt: real -> real)
    requires |vals| >= 2 && forall k :: 0 <= k < |vals| ==> vals[k] == v
    requires sqrt(0.0) == 0.0 && IsRootAt(sqrt, (|vals| - 1) as real)
    ensures Observe(vals, sqrt) == Estimate(Num(v), Num(0.0))
  {
    SumConstant(vals, v);
    assert Mean(vals) == v;
    SumConstant(SquaredDeviations(vals), 0.0);
    assert PopVariance(vals) == 0.0;
  }

  /** A single value: the mean is that value and the error bar is 0/0, nan. */
  lemma ObserveSingle(vals: seq<real>, sqrt: real -> real)
    requires |vals| == 1 && sqrt(0.0) == 0.0
    ensures Observe(vals, sqrt) == Estimate(Num(vals[0]), NaN)
  {
    assert vals[..0] == [];
    assert Sum(vals) == Sum(vals[..0]) + vals[0];
    assert Mean(vals) == vals[0];
    var ds := SquaredDeviations(vals);
    assert ds[..0] == [];
    assert Sum(ds) == Sum(ds[..0]) + ds[0];
    assert PopVariance(vals) == 0.0;
  }

  /** The values 1, 2, 3: mean 2 and an error bar whose square is 1/3. */
  lemma ObserveOneTwoThree(sqrt: real -> real)
    requires IsRootAt(sqrt, 2.0 / 3.0) && IsRootAt(sqrt, 2.0)
    ensures Observe([1.0, 2.0, 3.0], sqrt).value == Num(2.0)
    ensures Observe([1.0, 2.0, 3.0], sqrt).error.Num?
    ensures Observe([1.0, 2.0, 3.0], sqrt).error.r * Observe([1.0, 2.0, 3.0], sqrt).error.r == 1.0 / 3.0
  {
    var vals := [1.0, 2.0, 3.0];
    SumOfThree(vals);
    assert Mean(vals) == 2.0;
    var ds := SquaredDeviations(vals);
    assert ds == [1.0, 0.0, 1.0];
    SumOfThree(ds);
    assert PopVariance(vals) == 2.0 / 3.0;
    ObserveStandardError(vals, sqrt);
  }

  lemma SumOfThree(xs: seq<real>)
    requires |xs| == 3
    ensures Sum(xs) == xs[0] + xs[1] + xs[2]
  {
    assert xs[..2][..1][..0] == [];
    assert Sum(xs[..2][..1]) == xs[0];
    assert Sum(xs[..2]) == xs[0] + xs[1];
  }
}
