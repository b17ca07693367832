/** The plugin object. `Compile` turns a one-job batch into noisy trajectories and
    records the job's shot count, qubit count and type; `PostProcess` reads them
    back to combine the trajectories' results. */
module Plugin {
  import opened DataModel
  import opened Randomness
  import opened Noise
  import Sampler
  import opened Aggregation

  class DepolarizingPlugin {
    const prob1qb: real
    const prob2qb: real
    const nSamples: nat
    const seed: int
    const verbose: bool
    var nbshots: Option<int>
    var nbqbits: Option<nat>
    var jobType: Option<ProcessingType>

    /** The three session fields are recorded together. */
    predicate Valid()
      reads this
    {
      jobType.Some? ==> nbshots.Some? && nbqbits.Some?
    }

    /** The settings default to the source's: no noise, 1000 trajectories, seed
        1425, quiet. */
    constructor (prob1qb: real := 0.0, prob2qb: real := 0.0, nSamples: nat := 1000,
                 seed: int := 1425, verbose: bool := false)
      ensures this.prob1qb == prob1qb && this.prob2qb == prob2qb && this.nSamples == nSamples
      ensures this.seed == seed && this.verbose == verbose
      ensures nbshots == None && nbqbits == None && jobType == None
      ensures Valid()
    {
      this.prob1qb := prob1qb;
      this.prob2qb := prob2qb;
      this.nSamples := nSamples;
      this.seed := seed;
      this.verbose := verbose;
      nbshots := None;
      nbqbits := None;
      jobType := None;
    }

    /** `compile`: refuses a batch that does not hold exactly one job; otherwise
        records the job's shot count, qubit count and type, and builds `nSamples`
        trajectories, each replaying the job's operations in order, checking each
        operation and drawing the noise that follows it from `rng`. */
    method Compile(batch: seq<Job>, rng: RandomSource) returns (r: Result<seq<Job>, PluginError>)
      requires Valid()
      modifies this, rng
      ensures Valid()
      ensures r == Sampler.Compile(batch, prob1qb, prob2qb, nSamples, rng.stream, old(rng.pos)).result
      ensures rng.pos == Sampler.Compile(batch, prob1qb, prob2qb, nSamples, rng.stream, old(rng.pos)).next
      ensures |batch| == 1 ==>
        nbshots == Some(batch[0].nbshots) && nbqbits == Some(|batch[0].qubits|) &&
        jobType == Some(batch[0].kind)
      ensures |batch| != 1 ==>
        nbshots == old(nbshots) && nbqbits == old(nbqbits) && jobType == old(jobType)
    {
      if |batch| != 1 {
        return Err(InvalidArgs(|batch|));
      }
      var job := batch[0];
      nbshots := Some(job.nbshots);
      nbqbits := Some(|job.qubits|);
      jobType := Some(job.kind);
      var ops := job.circuit.ops;
      ghost var pos0 := rng.pos;
      var newBatch: seq<Job> := [];
      ghost var noises: seq<seq<seq<Op>>> := [];
      for t := 0 to nSamples
        modifies rng
        invariant Sampler.Trajectories(job, prob1qb, prob2qb, t, rng.stream, pos0)
          == Sampler.Sampled(newBatch, noises, rng.pos)
        invariant t >= 1 ==> FirstBad(ops, job.circuit.gateDic) == |ops|
      {
        ghost var start := rng.pos;
        var replayed := Replay(job.circuit, rng);
        if replayed.Err? {
          assert t == 0;
          return Err(replayed.error);
        }
        ghost var noise := NoiseList(ops, prob1qb, prob2qb, rng.stream, start).noise;
        var trajectory := job.(nbshots := 0, circuit := job.circuit.(ops := replayed.value));
        assert trajectory == Sampler.Trajectory(job, noise);
        newBatch := newBatch + [trajectory];
        noises := noises + [noise];
      }
      r := Ok(newBatch);
    }

    /** One pass over the circuit (the loop body of `compile` for one trajectory):
        each operation is checked, copied, and followed by the noise drawn for it.
        The first operation that fails the check aborts the pass. */
    method Replay(circuit: Circuit, rng: RandomSource) returns (r: Result<seq<Op>, PluginError>)
      modifies rng
      ensures var ops := circuit.ops;
        var bad := FirstBad(ops, circuit.gateDic);
        if bad == |ops| then
          var drawn := NoiseList(ops, prob1qb, prob2qb, rng.stream, old(rng.pos));
          r == Ok(Interleave(ops, drawn.noise)) && rng.pos == drawn.next
        else
          r == Err(CheckOp(ops[bad], circuit.gateDic).value) &&
          rng.pos == NoiseList(ops[..bad], prob1qb, prob2qb, rng.stream, old(rng.pos)).next
    {
      var ops := circuit.ops;
      ghost var start := rng.pos;
      var trajOps: seq<Op> := [];
      ghost var noise: seq<seq<Op>> := [];
      for i := 0 to |ops|
        invariant NoiseList(ops[..i], prob1qb, prob2qb, rng.stream, start) == Noisy(noise, rng.pos)
        invariant trajOps == Interleave(ops[..i], noise)
        invariant i <= FirstBad(ops, circuit.gateDic)
      {
        var op := ops[i];
        NoiseListStep(ops, prob1qb, prob2qb, rng.stream, start, i);
        ghost var inj := InjectAfter(op, prob1qb, prob2qb, rng.stream, rng.pos);
        InterleaveStep(ops, noise, i, inj.ops);
        var step := ReplayOp(trajOps, op, circuit.gateDic, rng);
        if step.Err? {
          FirstBadAt(ops, circuit.gateDic, i);
          return Err(step.error);
        }
        FirstBadBeyond(ops, circuit.gateDic, i);
        trajOps := step.value;
        noise := noise + [inj.ops];
      }
      assert ops[..|ops|] == ops;
      r := Ok(trajOps);
    }

    /** One iteration of the replay loop: `op` is checked (only gates pass, and a
        gate on more than two qubits must be defined in the gate dictionary as a
        state preparation); if it passes it is copied and followed by the noise
        drawn for it. */
    method ReplayOp(trajOps: seq<Op>, op: Op, gateDic: map<string, GateDefinition>, rng: RandomSource)
      returns (r: Result<seq<Op>, PluginError>)
      modifies rng
      ensures CheckOp(op, gateDic).Some? ==>
        r == Err(CheckOp(op, gateDic).value) && rng.pos == old(rng.pos)
      ensures CheckOp(op, gateDic).None? ==>
        var inj := InjectAfter(op, prob1qb, prob2qb, rng.stream, old(rng.pos));
        r == Ok(trajOps + [op] + inj.ops) && rng.pos == inj.next
    {
      if op.kind != GateType {
        return Err(IllegalGates(op.kind));
      }
      if |op.qbits| > 2 {
        if op.gate !in gateDic {
          return Err(MissingGate(op.gate));
        }
        var gname := gateDic[op.gate].syntaxName;
        if gname != "STATE_PREPARATION" {
          return Err(NbQbits(op.qbits));
        }
      }
      var extended := AppendNoise(trajOps + [op], op, rng);
      return Ok(extended);
    }

    /** Appends to `trajOps` the noise drawn after `op`: for a 1-qubit gate, with
        probability `prob1qb`, one of X, Y, Z on its qubit; for a 2-qubit gate, with
        probability `prob2qb`, the non-identity factors of a drawn 2-qubit label,
        each on the qubit at its position. */
    method AppendNoise(trajOps: seq<Op>, op: Op, rng: RandomSource) returns (extended: seq<Op>)
      modifies rng
      ensures var inj := InjectAfter(op, prob1qb, prob2qb, rng.stream, old(rng.pos));
        extended == trajOps + inj.ops && rng.pos == inj.next
    {
      if |op.qbits| == 1 {
        extended := AppendOneQubitNoise(trajOps, op, rng);
      } else if |op.qbits| == 2 {
        extended := AppendTwoQubitNoise(trajOps, op, rng);
      } else {
        extended := trajOps;
      }
    }

    /** The 1-qubit case of `AppendNoise`. */
    method AppendOneQubitNoise(trajOps: seq<Op>, op: Op, rng: RandomSource) returns (extended: seq<Op>)
      requires |op.qbits| == 1
      modifies rng
      ensures var inj := InjectAfter(op, prob1qb, prob2qb, rng.stream, old(rng.pos));
        extended == trajOps + inj.ops && rng.pos == inj.next
    {
      extended := trajOps;
      var u := rng.Random();
      if u < prob1qb {
        var g := rng.Choice(OneQubitPaulis);
        extended := extended + [MakePauliOp(g, op.qbits)];
      }
    }

    /** The 2-qubit case of `AppendNoise`. */
    method AppendTwoQubitNoise(trajOps: seq<Op>, op: Op, rng: RandomSource) returns (extended: seq<Op>)
      requires |op.qbits| == 2
      modifies rng
      ensures var inj := InjectAfter(op, prob1qb, prob2qb, rng.stream, old(rng.pos));
        extended == trajOps + inj.ops && rng.pos == inj.next
    {
      ghost var pos := rng.pos;
      extended := trajOps;
      var u := rng.Random();
      if u < prob2qb {
        extended := AppendDrawnPair(extended, op, rng, pos);
        InjectAfterTwoFired(op, prob1qb, prob2qb, rng.stream, pos);
      }
    }

    /** `post_process`: combines the trajectories' results according to the job
        type recorded by the last `compile`. A SAMPLE job averages the
        trajectories' distributions; an OBSERVABLE job reports the mean of their
        values with an error bar (`sqrt` stands for the square root numpy takes);
        any other type, or no compiled job, is an error. */
    method PostProcess(results: seq<ExecResult>, sqrt: real -> real) returns (r: Result<seq<Aggregate>, PluginError>)
      requires Valid()
      ensures jobType == Some(SampleType) ==> r == SampleAggregate(results, nbqbits.value, nbshots.value)
      ensures jobType == Some(ObservableType) ==> r == Ok([Observe(Values(results), sqrt)])
      ensures jobType != Some(SampleType) && jobType != Some(ObservableType) ==> r == Err(UnknownJobType)
    {
      if jobType == Some(SampleType) {
        var averaged := AverageDistributions(results, Pow2(nbqbits.value));
        if averaged.Err? {
          return Err(averaged.error);
        }
        if nbshots.value == 0 {
          var raw := Enumerated(averaged.value);
          return Ok([Distribution(raw)]);
        }
        return Err(ShotsNotImplemented);
      } else if jobType == Some(ObservableType) {
        var vals: seq<real> := [];
        for k := 0 to |results|
          invariant vals == Values(results[..k])
        {
          vals := vals + [results[k].value];
        }
        assert results[..|results|] == results;
        return Ok([Observe(vals, sqrt)]);
      } else {
        return Err(UnknownJobType);
      }
    }
  }

  /** Draws a 2-qubit label with `choice` and appends its factors. */
  method AppendDrawnPair(trajOps: seq<Op>, op: Op, rng: RandomSource, ghost pos: nat) returns (extended: seq<Op>)
    requires |op.qbits| == 2 && rng.pos == pos + 1
    modifies rng
    ensures rng.pos == pos + 2
    ensures extended == trajOps + PauliFactors(DrawnPair(rng.stream(pos + 1)), op.qbits)
  {
    var noiseGate := rng.Choice(TwoQubitPaulis());
    assert noiseGate == DrawnPair(rng.stream(pos + 1));
    extended := PlaceFactors(trajOps, noiseGate, op.qbits);
  }

  /** The inner loop of the 2-qubit case: each non-identity letter of `pauli`
      becomes a 1-qubit gate on the qubit at the same position. */
  method PlaceFactors(trajOps: seq<Op>, pauli: string, qbits: seq<int>) returns (extended: seq<Op>)
    requires |pauli| <= |qbits|
    ensures extended == trajOps + PauliFactors(pauli, qbits)
  {
    extended := trajOps;
    for j := 0 to |pauli|
      invariant extended == trajOps + PauliFactors(pauli[..j], qbits)
    {
      assert pauli[..j + 1][..j] == pauli[..j];
      if pauli[j] != 'I' {
        extended := extended + [MakePauliOp([pauli[j]], [qbits[j]])];
      }
    }
    assert pauli[..|pauli|] == pauli;
  }

  /** The SAMPLE path of `post_process`: the running total of the results' dense
      vectors, divided by the number of results. */
  method AverageDistributions(results: seq<ExecResult>, size: nat) returns (r: Result<seq<real>, PluginError>)
    ensures r == Averaged(results, size)
  {
    var summed := SumDistributions(results, size);
    if summed.Err? {
      return Err(summed.error);
    }
    var finalDistrib := summed.value;
    ghost var vs := Scatters(results, size).value;
    DivideBy(finalDistrib, |results|);
    assert finalDistrib[..] == Average(vs, size);
    r := Ok(finalDistrib[..]);
  }

  /** The SAMPLE loop of `post_process`: each result's samples are written into
      a fresh vector of `size` zeros, the first vector becomes the running total
      and each later one is added into it. The first result that cannot be
      written aborts with its error, and an empty result list leaves no total. */
  method SumDistributions(results: seq<ExecResult>, size: nat) returns (r: Result<array<real>, PluginError>)
    ensures Scatters(results, size).Err? ==> r == Err(Scatters(results, size).error)
    ensures Scatters(results, size).Ok? && results == [] ==> r == Err(NoResults)
    ensures Scatters(results, size).Ok? && results != [] ==>
      r.Ok? && fresh(r.value) && r.value[..] == SumVecs(Scatters(results, size).value, size)
  {
    var finalDistrib: array?<real> := null;
    ghost var vs: seq<seq<real>> := [];
    for k := 0 to |results|
      invariant Scatters(results[..k], size) == Ok(vs)
      invariant forall j :: 0 <= j < |vs| ==> |vs[j]| == size
      invariant finalDistrib == null <==> k == 0
      invariant finalDistrib != null ==>
        fresh(finalDistrib) && finalDistrib.Length == size && finalDistrib[..] == SumVecs(vs, size)
    {
      var scattered := ScatterSamples(results[k].samples, size);
      if scattered.Err? {
        ScattersStop(results, size, k);
        return Err(scattered.error);
      }
      var probs := scattered.value;
      ScattersStep(results, size, k, vs, probs[..]);
      SumVecsStep(vs, size, probs[..]);
      finalDistrib := Accumulate(finalDistrib, probs);
      vs := vs + [probs[..]];
    }
    assert results[..|results|] == results;
    if finalDistrib == null {
      return Err(NoResults);
    }
    r := Ok(finalDistrib);
  }

  /** One result's samples written into a fresh vector of `size` zeros, each at
      its state, a later sample overwriting an earlier one on the same state. */
  method ScatterSamples(samples: seq<StateProb>, size: nat) returns (r: Result<array<real>, PluginError>)
    ensures r.Ok? ==> fresh(r.value) && Scatter(samples, size) == Ok(r.value[..])
    ensures r.Err? ==> Scatter(samples, size) == Err(r.error)
  {
    var probs := new real[size](_ => 0.0);
    assert probs[..] == Zeros(size);
    for j := 0 to |samples|
      invariant Scatter(samples[..j], size) == Ok(probs[..])
    {
      assert samples[..j + 1][..j] == samples[..j];
      var sample := samples[j];
      if sample.state >= size {
        ScatterStop(samples, size, j);
        return Err(IndexOutOfBounds(sample.state));
      }
      probs[sample.state] := sample.probability;
    }
    assert samples[..|samples|] == samples;
    r := Ok(probs);
  }

  /** The first vector becomes the running total (the same array, not a copy);
      each later one is added into the total in place. */
  method Accumulate(total: array?<real>, probs: array<real>) returns (sum: array<real>)
    requires total != null ==> total.Length == probs.Length && total != probs
    modifies total
    ensures total == null ==> sum == probs
    ensures total != null ==> sum == total && sum[..] == AddVec(old(total[..]), probs[..])
  {
    if total == null {
      sum := probs;
    } else {
      ghost var before := total[..];
      AddInto(total, probs);
      sum := total;
      assert sum[..] == AddVec(before, probs[..]);
    }
  }

  /** `total += probs`, element by element. */
  method AddInto(total: array<real>, probs: array<real>)
    requires total.Length == probs.Length && total != probs
    modifies total
    ensures forall j :: 0 <= j < total.Length ==> total[j] == old(total[j]) + probs[j]
  {
    for i := 0 to total.Length
      invariant forall j :: 0 <= j < i ==> total[j] == old(total[j]) + probs[j]
      invariant forall j :: i <= j < total.Length ==> total[j] == old(total[j])
    {
      total[i] := total[i] + probs[i];
    }
  }

  /** `total /= n`, element by element. */
  method DivideBy(total: array<real>, n: nat)
    requires n > 0
    modifies total
    ensures forall i :: 0 <= i < total.Length ==> total[i] == old(total[i]) / n as real
  {
    for i := 0 to total.Length
      invariant forall i' :: 0 <= i' < i ==> total[i'] == old(total[i']) / n as real
      invariant forall i' :: i <= i' < total.Length ==> total[i'] == old(total[i'])
    {
      total[i] := total[i] / n as real;
    }
  }

  /** `enumerate(final_distrib)`: one sample per state, in ascending order. */
  method Enumerated(d: seq<real>) returns (raw: seq<StateProb>)
    ensures raw == Enumerate(d)
  {
    raw := [];
    for i := 0 to |d|
      invariant raw == Enumerate(d[..i])
    {
      raw := raw + [StateProb(i, d[i])];
    }
    assert d[..|d|] == d;
  }
}
