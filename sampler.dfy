/** The trajectory sampler, as functions: what `compile` returns for a batch, and
    how far it advances the random stream. */
module Sampler {
  import opened DataModel
  import opened Randomness
  import opened Noise

  /** One trajectory: a copy of the job asking for the exact result (0 shots)
      whose operations are the originals interleaved with the drawn noise. */
  function Trajectory(job: Job, noise: seq<seq<Op>>): Job
    requires |noise| == |job.circuit.ops|
  {
    job.(nbshots := 0, circuit := job.circuit.(ops := Interleave(job.circuit.ops, noise)))
  }

  /** The trajectories built so far, the noise drawn for each, and the stream
      position reached. */
  datatype Sampled = Sampled(jobs: seq<Job>, noises: seq<seq<seq<Op>>>, next: nat)

  /** `n` trajectories of `job`, generated one after the other from stream position
      `pos`, each replaying the original operations in order. */
  function Trajectories(job: Job, p1: real, p2: real, n: nat, s: Stream, pos: nat): (t: Sampled)
    ensures |t.jobs| == |t.noises| == n
    ensures forall k :: 0 <= k < n ==> |t.noises[k]| == |job.circuit.ops|
  {
    if n == 0 then Sampled([], [], pos)
    else
      var prev := Trajectories(job, p1, p2, n - 1, s, pos);
      var drawn := NoiseList(job.circuit.ops, p1, p2, s, prev.next);
      Sampled(prev.jobs + [Trajectory(job, drawn.noise)], prev.noises + [drawn.noise], drawn.next)
  }

  /** The outcome of `compile` and the stream position it leaves behind. */
  datatype Compiled = Compiled(result: Result<seq<Job>, PluginError>, next: nat)

  /** `compile` on a batch: a batch that does not hold exactly one job is refused;
      otherwise, when at least one trajectory is asked for, the first operation
      that fails the check aborts the first trajectory after the draws made for the
      operations before it; else all `n` trajectories are returned. */
  function Compile(batch: seq<Job>, p1: real, p2: real, n: nat, s: Stream, pos: nat): Compiled
  {
    if |batch| != 1 then Compiled(Err(InvalidArgs(|batch|)), pos)
    else
      var job := batch[0];
      var ops := job.circuit.ops;
      var bad := FirstBad(ops, job.circuit.gateDic);
      if n >= 1 && bad < |ops| then
        Compiled(Err(CheckOp(ops[bad], job.circuit.gateDic).value),
                 NoiseList(ops[..bad], p1, p2, s, pos).next)
      else
        var t := Trajectories(job, p1, p2, n, s, pos);
        Compiled(Ok(t.jobs), t.next)
  }

  /** `tj` is a trajectory of `job` carrying the noise `noise`, drawn admissibly
      for the probabilities `p1` and `p2`. */
  predicate IsNoisyCopy(tj: Job, job: Job, noise: seq<seq<Op>>, p1: real, p2: real)
  {
    |noise| == |job.circuit.ops| &&
    tj == Trajectory(job, noise) &&
    forall i :: 0 <= i < |noise| ==> Admissible(job.circuit.ops[i], noise[i], p1, p2)
  }

  /** Each trajectory is the job with 0 shots and the same qubits, type and gate
      table, whose operations interleave the originals with admissible noise. */
  lemma {:induction false} TrajectoriesShape(job: Job, p1: real, p2: real, n: nat, s: Stream, pos: nat)
    ensures forall k :: 0 <= k < n ==>
      IsNoisyCopy(Trajectories(job, p1, p2, n, s, pos).jobs[k], job,
                  Trajectories(job, p1, p2, n, s, pos).noises[k], p1, p2)
  {
    if n > 0 {
      TrajectoriesShape(job, p1, p2, n - 1, s, pos);
      var prev := Trajectories(job, p1, p2, n - 1, s, pos);
      var t := Trajectories(job, p1, p2, n, s, pos);
      NoiseListAdmissible(job.circuit.ops, p1, p2, s, prev.next);
      forall k | 0 <= k < n ensures IsNoisyCopy(t.jobs[k], job, t.noises[k], p1, p2) {
        if k < n - 1 {
          assert t.jobs[k] == prev.jobs[k] && t.noises[k] == prev.noises[k];
        }
      }
    }
  }

  /** A batch without exactly one job is refused, reporting the job count, and no
      draw is made. */
  lemma CompileRejectsBatch(batch: seq<Job>, p1: real, p2: real, n: nat, s: Stream, pos: nat)
    requires |batch| != 1
    ensures Compile(batch, p1, p2, n, s, pos) == Compiled(Err(InvalidArgs(|batch|)), pos)
  {
  }

  /** On success `compile` returns exactly `n` trajectories; each asks for 0 shots,
      keeps the job's qubits, type and gate table, and its operations are the
      originals interleaved with admissible noise, which gives back the original
      operations, in order, once the injected errors are deleted. */
  lemma CompileSucceeds(batch: seq<Job>, p1: real, p2: real, n: nat, s: Stream, pos: nat)
    requires |batch| == 1
    requires n == 0 || FirstBad(batch[0].circuit.ops, batch[0].circuit.gateDic) == |batch[0].circuit.ops|
    ensures Compile(batch, p1, p2, n, s, pos).result.Ok?
    ensures var jobs := Compile(batch, p1, p2, n, s, pos).result.value;
      |jobs| == n &&
      forall k :: 0 <= k < n ==>
        jobs[k].nbshots == 0 &&
        jobs[k].qubits == batch[0].qubits &&
        jobs[k].kind == batch[0].kind &&
        jobs[k].circuit.gateDic == batch[0].circuit.gateDic &&
        exists noise :: |noise| == |batch[0].circuit.ops| &&
          jobs[k].circuit.ops == Interleave(batch[0].circuit.ops, noise) &&
          Erase(jobs[k].circuit.ops, Counts(noise)) == batch[0].circuit.ops &&
          forall i :: 0 <= i < |noise| ==> Admissible(batch[0].circuit.ops[i], noise[i], p1, p2)
  {
    var job := batch[0];
    var t := Trajectories(job, p1, p2, n, s, pos);
    TrajectoriesShape(job, p1, p2, n, s, pos);
    forall k | 0 <= k < n
      ensures Erase(t.jobs[k].circuit.ops, Counts(t.noises[k])) == job.circuit.ops
    {
      assert IsNoisyCopy(t.jobs[k], job, t.noises[k], p1, p2);
      EraseInterleave(job.circuit.ops, t.noises[k]);
    }
  }

  /** With at least one trajectory, the first operation that fails the check
      decides the error `compile` raises. */
  lemma CompileRejectsOp(batch: seq<Job>, p1: real, p2: real, n: nat, s: Stream, pos: nat, i: nat)
    requires |batch| == 1 && n >= 1
    requires i < |batch[0].circuit.ops|
    requires CheckOp(batch[0].circuit.ops[i], batch[0].circuit.gateDic).Some?
    requires forall j :: 0 <= j < i ==> CheckOp(batch[0].circuit.ops[j], batch[0].circuit.gateDic) == None
    ensures Compile(batch, p1, p2, n, s, pos).result ==
      Err(CheckOp(batch[0].circuit.ops[i], batch[0].circuit.gateDic).value)
  {
    FirstFailure(batch[0].circuit.ops, batch[0].circuit.gateDic, i);
  }

  /** With both probabilities 0 (a draw is never below 0), every trajectory is the
      original job with 0 shots. */
  lemma {:induction false} NoiselessTrajectories(job: Job, p1: real, p2: real, n: nat, s: Stream, pos: nat)
    requires p1 <= 0.0 && p2 <= 0.0
    ensures forall k :: 0 <= k < n ==>
      Trajectories(job, p1, p2, n, s, pos).jobs[k] == job.(nbshots := 0)
  {
    var t := Trajectories(job, p1, p2, n, s, pos);
    TrajectoriesShape(job, p1, p2, n, s, pos);
    forall k | 0 <= k < n ensures t.jobs[k] == job.(nbshots := 0) {
      assert IsNoisyCopy(t.jobs[k], job, t.noises[k], p1, p2);
      forall i | 0 <= i < |job.circuit.ops| ensures t.noises[k][i] == [] {
        assert Admissible(job.circuit.ops[i], t.noises[k][i], p1, p2);
      }
      InterleaveNothing(job.circuit.ops, t.noises[k]);
    }
  }
}
