# Depolarizing plugin, modelled in Dafny

This project models `DepolarizingPlugin` from the Thursday simulators, a
compilation plugin. It sits in front of a perfect QPU and makes the stack behave
like a QPU with depolarizing noise. It has two halves that share three fields of
session state:

* `compile` takes a batch holding exactly one job. It records the job's shot
  count, qubit count and processing type in the fields `nbshots`, `nbqbits` and
  `job_type`. It then returns `n_samples` trajectories. Each trajectory is a copy
  of the job asking for 0 shots, and its operations are rebuilt by replaying the
  original ones in order:
  * every operation is checked: only gates are allowed, and a gate on more than
    two qubits must be a state preparation;
  * after a 1-qubit gate, with probability `prob_1qb`, one of X, Y, Z is
    appended on that qubit;
  * after a 2-qubit gate, with probability `prob_2qb`, a non-identity two-letter
    Pauli string is drawn, and each of its letters other than I is appended as a
    1-qubit gate on the qubit at the same position.
* `post_process` combines the trajectories' results according to the recorded
  job type:
  * SAMPLE jobs get the average of the trajectories' dense probability vectors;
  * OBSERVABLE jobs get the mean of the trajectories' values and an error bar;
  * any other type is an error.

Modules:

* `DataModel` (datamodel.dfy): operations, circuits, jobs, results, the
  aggregated answer and the error codes.
* `Randomness` (randomness.dfy): the generator as a stream of draws in [0, 1).
  `RandomSource` is a class whose position advances by one per `random()` or
  `choice()` call.
* `Noise` (noise.dfy):
  * `make_pauli_op` and the list of 2-qubit labels;
  * the noise drawn after one operation, and after a whole operation list;
  * the interleaving of noise with the originals, and its erasure;
  * the per-operation check.
* `Sampler` (sampler.dfy): what `compile` returns and how far it advances the
  stream, as functions, with the lemmas about trajectories.
* `Aggregation` (aggregation.dfy): what `post_process` returns, as functions,
  with the lemmas about the averaged distribution and the error bar.
* `Plugin` (plugin.dfy): the class `DepolarizingPlugin`.
  * Its fields are the three session fields, and its methods are `Compile` and
    `PostProcess`.
  * The methods use the source's loops, appends and in-place array updates.
  * Each method is proved equal to the functions of `Sampler` and `Aggregation`.

Four behaviours of the code are worth noting:

* A trajectory's samples are written into the probability vector. A later
  sample on the same state overwrites an earlier one; it is not added.
* The error bar is numpy's default (population, ddof = 0) standard deviation
  divided by `sqrt(n - 1)`. For the values 1, 2, 3 its square is 1/3.
  `ObserveStandardError` shows that this equals the standard error of the mean.
* Fewer than two values raise no error. numpy yields nan, which is modelled by
  `Float.NaN`.
* The seed is stored but never used to seed the generator.

Some edge cases of the code are modelled as errors:

* a gate name missing from the gate dictionary (a `KeyError`) is `MissingGate`;
* a sampled state outside the 2^n vector (an `IndexError`) is `IndexOutOfBounds`;
* SAMPLE aggregation over an empty result list divides `None` (a `TypeError`)
  and is `NoResults`;
* `post_process` before any `compile` sees no job type, so it is `UnknownJobType`.

## Model

| member | source | states |
|---|---|---|
| Noise.MakePauliOp | Thursday-Simulators/depolarizing_plugin.py:42-51 | needs one Pauli letter per qubit; returns a gate operation with exactly that label and qubit list |
| Noise.TwoQubitPaulis | Thursday-Simulators/depolarizing_plugin.py:98-101 | the 2-qubit error list has 15 entries, each two letters long |
| Noise.TwoQubitPaulisSound | Thursday-Simulators/depolarizing_plugin.py:98-101 | every listed label is a two-letter string over I, X, Y, Z other than "II" |
| Noise.TwoQubitPaulisComplete | Thursday-Simulators/depolarizing_plugin.py:98-101 | every two-letter string over I, X, Y, Z other than "II" is listed |
| Noise.TwoQubitPaulisDistinct | Thursday-Simulators/depolarizing_plugin.py:98-101 | no label is listed twice |
| Noise.PauliFactors | Thursday-Simulators/depolarizing_plugin.py:130-132 | no contract of its own beyond its length precondition; stated by `PauliFactorsOfPair`, `PairFactorsShape` and `PauliFactorsShape` |
| Noise.PauliFactorsShape | Thursday-Simulators/depolarizing_plugin.py:129-132 | a drawn 2-qubit label yields one or two 1-qubit X/Y/Z errors, each on the qubit at its position; a corollary of the helper `PairFactorsShape`, which states the same for any two-letter Pauli string other than "II" |
| Noise.InjectAfter | Thursday-Simulators/depolarizing_plugin.py:123-132 | consumes at most two draws; the rest is stated by `InjectAfterShape` |
| Noise.InjectAfterShape | Thursday-Simulators/depolarizing_plugin.py:123-132 | after a 1-qubit gate, at most one X/Y/Z error on its qubit; after a 2-qubit gate, none or one or two errors on the matching qubits; after wider operations, none; probability 0 never fires; probability 1 always fires; at most two draws are used |
| Noise.NoiseList | Thursday-Simulators/depolarizing_plugin.py:108-132 | one noise list per operation, and the stream never moves backwards; admissibility is stated by `NoiseListAdmissible` |
| Noise.NoiseListAdmissible | Thursday-Simulators/depolarizing_plugin.py:108-132 | replaying a whole operation list, the noise after every operation has the shape above |
| Noise.EraseInterleave | Thursday-Simulators/depolarizing_plugin.py:107-132 | deleting the injected errors from a trajectory gives back the original operations in their order |
| Noise.EraseAppend | Thursday-Simulators/depolarizing_plugin.py:122-132 | erasing the errors that follow the last copied operation leaves that operation at the end of what was erased before |
| Noise.InterleaveAppend | Thursday-Simulators/depolarizing_plugin.py:122-132 | replaying one more operation appends that operation and then the errors drawn after it |
| Noise.InterleaveNothing | Thursday-Simulators/depolarizing_plugin.py:107-122 | with no injected error the trajectory's operations are exactly the originals |
| Noise.InterleaveLength | Thursday-Simulators/depolarizing_plugin.py:107-132 | a trajectory's length is the number of original operations plus the number of injected errors |
| Noise.CheckOp | Thursday-Simulators/depolarizing_plugin.py:110-120 | no contract of its own; stated by `CheckOpAccepts`, `FirstBad`, `FirstBadPasses` and `FirstFailure` |
| Noise.CheckOpAccepts | Thursday-Simulators/depolarizing_plugin.py:110-120 | an operation passes the check exactly when it is a gate on at most two qubits, or a gate whose definition resolves to STATE_PREPARATION |
| Noise.FirstBad | Thursday-Simulators/depolarizing_plugin.py:108-120 | the position where the replay loop stops: at most the number of operations, and the operation there fails the check |
| Noise.FirstBadPasses | Thursday-Simulators/depolarizing_plugin.py:108-120 | every operation before that position passes the check |
| Noise.FirstFailure | Thursday-Simulators/depolarizing_plugin.py:108-120 | a failing operation preceded only by passing ones is where the loop stops |
| Sampler.Trajectories | Thursday-Simulators/depolarizing_plugin.py:104-133 | one job and one noise list per trajectory, n of each, with one noise entry per original operation; stated further by `TrajectoriesShape` |
| Sampler.TrajectoriesShape | Thursday-Simulators/depolarizing_plugin.py:104-133 | each trajectory is the job with 0 shots whose operations interleave the originals with admissible noise |
| Sampler.Compile | Thursday-Simulators/depolarizing_plugin.py:89-134 | no contract of its own; stated by `CompileRejectsBatch`, `CompileSucceeds`, `CompileRejectsOp` and `NoiselessTrajectories` |
| Sampler.CompileRejectsBatch | Thursday-Simulators/depolarizing_plugin.py:90-93 | a batch without exactly one job is refused with INVALID_ARGS, reporting the job count, and makes no draw |
| Sampler.CompileSucceeds | Thursday-Simulators/depolarizing_plugin.py:94-134 | when every operation passes the check, or no trajectory is asked for, compile returns exactly n_samples jobs. Each asks for 0 shots and keeps the qubits, type and gate table. Its operations are the originals interleaved with admissible noise, and erasing that noise gives back the original operations in order |
| Sampler.CompileRejectsOp | Thursday-Simulators/depolarizing_plugin.py:104-120 | with at least one trajectory, the first operation failing the check decides the error: ILLEGAL_GATES, NBQBITS, or the missing gate |
| Sampler.NoiselessTrajectories | Thursday-Simulators/depolarizing_plugin.py:122-132 | with both probabilities 0, every trajectory is the original job with 0 shots |
| Aggregation.Scatter | Thursday-Simulators/depolarizing_plugin.py:140-142 | a successful write gives a vector of exactly 2^n (`size`) entries; stated further by `ScatterSucceeds`, `ScatterLastWriteWins` and `ScatterFirstError` |
| Aggregation.ScatterSucceeds | Thursday-Simulators/depolarizing_plugin.py:140-142 | writing one result's samples into the 2^n vector succeeds exactly when every state is inside it |
| Aggregation.ScatterLastWriteWins | Thursday-Simulators/depolarizing_plugin.py:140-142 | each entry holds the probability of the last sample on its state, or 0 if no sample is on it |
| Aggregation.ScatterFirstError | Thursday-Simulators/depolarizing_plugin.py:140-142 | a failed write names the first state outside the vector |
| Aggregation.ScatterStop | Thursday-Simulators/depolarizing_plugin.py:140-142 | once the earlier samples are written, a sample on a state outside the vector ends the write with that state's index error |
| Aggregation.Scatters | Thursday-Simulators/depolarizing_plugin.py:139-142 | on success there is one dense vector per result, each being that result's samples written out |
| Aggregation.ScattersStop | Thursday-Simulators/depolarizing_plugin.py:139-142 | the first result whose samples cannot be written aborts the aggregation with its error |
| Aggregation.ScattersFail | Thursday-Simulators/depolarizing_plugin.py:139-142 | a state outside the vector in any result makes the aggregation fail with an index error |
| Aggregation.SumVecs | Thursday-Simulators/depolarizing_plugin.py:144-147 | the total has `size` entries; stated further by `SumVecsAt` |
| Aggregation.SumVecsAt | Thursday-Simulators/depolarizing_plugin.py:144-147 | each entry of the accumulated vector is the sum of that entry across the results |
| Aggregation.Averaged | Thursday-Simulators/depolarizing_plugin.py:137-148 | no contract of its own; stated by `AveragedNormalised` and `SampleAggregateErrors` |
| Aggregation.SampleAggregate | Thursday-Simulators/depolarizing_plugin.py:137-164 | no contract of its own; stated by `SampleAggregateEntries` and `SampleAggregateErrors` |
| Aggregation.SampleAggregateEntries | Thursday-Simulators/depolarizing_plugin.py:137-164 | with at least one result, every state inside the vector and 0 shots: one distribution of 2^n samples in ascending state order, entry i being the sum over results of the last-written probability of state i divided by the number of results; with nonzero shots it is an error |
| Aggregation.SampleAggregateErrors | Thursday-Simulators/depolarizing_plugin.py:137-148 | an empty result list is an error, and so is a state outside the 2^n vector (an index error) |
| Aggregation.AveragedNormalised | Thursday-Simulators/depolarizing_plugin.py:137-148 | when every trajectory reports a proper distribution, the averaged one is non-negative and sums to 1 |
| Aggregation.Enumerate | Thursday-Simulators/depolarizing_plugin.py:158-162 | the emitted samples list every state once, in ascending order, with its probability |
| Aggregation.Values | Thursday-Simulators/depolarizing_plugin.py:167-170 | the values are collected one per result, in result order |
| Aggregation.Observe | Thursday-Simulators/depolarizing_plugin.py:171-173 | no contract of its own; stated by `ObserveStandardError`, `ObserveConstant`, `ObserveSingle` and `ObserveOneTwoThree` |
| Aggregation.ObserveStandardError | Thursday-Simulators/depolarizing_plugin.py:171-173 | the value is the mean; with at least two values the error bar e satisfies e*e*(n-1) = population variance and e*e*n = sample variance |
| Aggregation.ObserveConstant | Thursday-Simulators/depolarizing_plugin.py:171-173 | when all values are equal (at least two), the value is that value and the error bar is 0 |
| Aggregation.ObserveSingle | Thursday-Simulators/depolarizing_plugin.py:171-173 | a single value gives that value with a nan error bar (0/0), not an exception |
| Aggregation.ObserveOneTwoThree | Thursday-Simulators/depolarizing_plugin.py:171-173 | for the values 1, 2, 3 the value is 2 and the squared error bar is 1/3 |
| Randomness.Pick | Thursday-Simulators/depolarizing_plugin.py:125-129 | a draw selects a valid index into the list `choice` picks from |
| Randomness.RandomSource.Random | Thursday-Simulators/depolarizing_plugin.py:124-128 | `random()` returns the next draw and consumes it |
| Randomness.RandomSource.Choice | Thursday-Simulators/depolarizing_plugin.py:125-129 | `choice(items)` returns the item the next draw selects and consumes that draw |
| Plugin.DepolarizingPlugin.constructor | Thursday-Simulators/depolarizing_plugin.py:78-87 | stores the probabilities, sample count, seed and verbosity, which default to 0, 0, 1000, 1425 and quiet; the three session fields start empty |
| Plugin.DepolarizingPlugin.Compile | Thursday-Simulators/depolarizing_plugin.py:89-134 | returns what `Sampler.Compile` specifies and leaves the generator where it says; records the job's shot count, qubit count and type when the batch holds one job, and leaves them unchanged otherwise |
| Plugin.DepolarizingPlugin.Replay | Thursday-Simulators/depolarizing_plugin.py:105-132 | one pass over the circuit: when every operation passes, the originals interleaved with the drawn noise; otherwise the first failing operation's error, after the draws for the operations before it |
| Plugin.DepolarizingPlugin.ReplayOp | Thursday-Simulators/depolarizing_plugin.py:110-132 | one iteration: an operation failing the check gives its error (ILLEGAL_GATES, the missing gate, NBQBITS) and makes no draw; a passing one is copied and followed by exactly the noise `InjectAfter` draws |
| Plugin.DepolarizingPlugin.AppendNoise | Thursday-Simulators/depolarizing_plugin.py:122-132 | appends exactly the noise `InjectAfter` draws after the operation and consumes exactly its draws |
| Plugin.DepolarizingPlugin.AppendOneQubitNoise | Thursday-Simulators/depolarizing_plugin.py:123-126 | the 1-qubit case of the above |
| Plugin.DepolarizingPlugin.AppendTwoQubitNoise | Thursday-Simulators/depolarizing_plugin.py:127-132 | the 2-qubit case of the above |
| Plugin.AppendDrawnPair | Thursday-Simulators/depolarizing_plugin.py:129-132 | draws one 2-qubit label with `choice` and appends its factors |
| Plugin.PlaceFactors | Thursday-Simulators/depolarizing_plugin.py:130-132 | appends, for each letter of the label other than I, a 1-qubit gate on the qubit at that position, in order |
| Plugin.DepolarizingPlugin.PostProcess | Thursday-Simulators/depolarizing_plugin.py:136-178 | SAMPLE gives `SampleAggregate` of the results for the recorded qubits and shots; OBSERVABLE gives the one estimate `Observe` computes from the results' values; any other type, or none recorded, is an error |
| Plugin.AverageDistributions | Thursday-Simulators/depolarizing_plugin.py:137-148 | the running total divided in place by the number of results (`/=`) is exactly `Averaged`, and its error cases are `Averaged`'s |
| Plugin.SumDistributions | Thursday-Simulators/depolarizing_plugin.py:137-147 | the loop (fresh zero vectors, the first reused as the total, `+=`) yields a fresh array holding `SumVecs` of the scattered results; the first failing result's error; no total for an empty list |
| Plugin.ScatterSamples | Thursday-Simulators/depolarizing_plugin.py:140-142 | the array written sample by sample equals `Scatter`, or fails with its error |
| Plugin.Accumulate | Thursday-Simulators/depolarizing_plugin.py:144-147 | the first vector becomes the running total itself; each later one is added into the total in place |
| Plugin.AddInto | Thursday-Simulators/depolarizing_plugin.py:144-147 | `total += probs` adds element by element and changes nothing else |
| Plugin.DivideBy | Thursday-Simulators/depolarizing_plugin.py:148 | `total /= n` divides every entry by n |
| Plugin.Enumerated | Thursday-Simulators/depolarizing_plugin.py:158-162 | the appended samples are exactly `Enumerate` of the distribution |

## Left out

- The Mersenne Twister is not modelled. Its draws are an arbitrary stream of reals in [0, 1) (`Randomness.Stream`).
  `choice` over n items takes the index floor(u * n) of one draw; Python derives it with `_randbelow` instead.
  Nothing is claimed about the distribution of the draws.
- The seed (`seed`) is stored but never applied, as in the code. The generator position is an explicit `RandomSource` object rather than module-global state.
- `extract_syntax` and the gate-definition format are not part of this model. A gate definition is reduced to the name its syntax resolves to (`GateDefinition.syntaxName`).
- `deepcopy`, and the sharing of the original `Op` objects between the job and its copies, are not modelled. Jobs and operations are values.
- The `qat` classes (`Batch`, `BatchResult`, `Result`, `Sample`, `Op`, `PluginException`) are reduced to plain datatypes. Exceptions become `Err` values of `PluginError`. The human-readable messages are dropped.
- `harware_specs` is accepted but unused by `compile`, so it is not a parameter.
- The `verbose` printing (lines 150-151 and 169-170) is not modelled.
- `n_samples` is a natural number; the behaviour of `range` on a negative count (no trajectory) is not modelled.
- Floating point: probabilities, values and averages are exact reals. nan and inf (`Float`) appear only where numpy produces them: the mean and error bar of an empty value list (both nan), and a division by zero in the error bar.
- `np.sqrt` is a parameter of `PostProcess`. The lemmas about the error bar assume it returns the non-negative root at the arguments they use.
- The depolarizing-channel claim in the class documentation (lines 59-65) is not modelled. It is a statement about the physics of averaged trajectories, not about this code.
- Sampler.CompileSucceeds: states that each trajectory's operations are the originals interleaved with some admissible noise (shape and the effect of probabilities 0 and 1), not which noise the draws pick; `Sampler.TrajectoriesShape` and `Plugin.DepolarizingPlugin.Compile` tie the exact result to the draws.
