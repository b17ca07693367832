/** The records the plugin reads and writes: operations, circuits, jobs, execution
    results and the aggregated answer, together with the plugin's error codes. */
module DataModel {

  datatype Option<+T> = None | Some(value: T)

  datatype Result<+T, +E> = Ok(value: T) | Err(error: E)

  /** Kind tag of a circuit operation; the plugin accepts gates only. */
  datatype OpType = GateType | OtherOpType(code: int)

  /** One circuit instruction: a gate name, the qubits it acts on, its kind. */
  datatype Op = Op(gate: string, qbits: seq<int>, kind: OpType)

  /** A gate definition, seen only through the name its syntax resolves to. */
  datatype GateDefinition = GateDefinition(syntaxName: string)

  datatype Circuit = Circuit(ops: seq<Op>, gateDic: map<string, GateDefinition>)

  /** What a job asks for: a distribution over basis states, or an observable. */
  datatype ProcessingType = SampleType | ObservableType | OtherProcessing(code: int)

  datatype Job = Job(circuit: Circuit, qubits: seq<int>, nbshots: int, kind: ProcessingType)

  datatype PluginError =
    | InvalidArgs(jobCount: nat)        // the batch does not hold exactly one job
    | IllegalGates(opType: OpType)      // an operation that is not a gate
    | NbQbits(qbits: seq<int>)          // a gate on more than 2 qubits that is no state preparation
    | MissingGate(gate: string)         // the gate name is not a key of the gate dictionary
    | IndexOutOfBounds(state: nat)      // a sampled state outside the 2^n probability vector
    | NoResults                         // SAMPLE aggregation over an empty result list
    | ShotsNotImplemented               // SAMPLE aggregation with a nonzero shot count
    | UnknownJobType                    // neither SAMPLE nor OBSERVABLE (or nothing compiled yet)

  /** One (basis state, probability) pair of a distribution. */
  datatype StateProb = StateProb(state: nat, probability: real)

  /** What the executor returns for one trajectory: sparse samples and a value. */
  datatype ExecResult = ExecResult(samples: seq<StateProb>, value: real)

  /** A floating-point outcome: a number, or numpy's nan / inf. */
  datatype Float = Num(r: real) | NaN | Inf

  /** The one combined result handed back to the caller. */
  datatype Aggregate = Distribution(raw: seq<StateProb>) | Estimate(value: Float, error: Float)
}
