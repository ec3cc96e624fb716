/** Backend-neutral sandbox requests and results. */
module Executors {
  import opened Protocol

  /** A candidate's source with the digest of it; the hash function itself is opaque. */
  datatype CandidateProgram = CandidateProgram(source: string, sha256: string)

  /** What static validation of a candidate yields. */
  datatype CandidateMetadata = CandidateMetadata(sourceBytes: nat, astNodes: nat)

  datatype ExecutionLimits = ExecutionLimits(timeoutSeconds: real, maxOutputBytes: nat, maxFrames: nat) {
    predicate Valid() {
      && 0.0 < timeoutSeconds <= 300.0
      && 1024 <= maxOutputBytes <= 1_048_576
      && 1 <= maxFrames <= 65_536
    }
  }

  datatype SandboxRequest = SandboxRequest(
    program: CandidateProgram,
    init: InitializeFrame,
    bars: seq<BarFrame>,
    limits: ExecutionLimits)
  {
    predicate Valid() {
      && init.Valid()
      && limits.Valid()
      && 1 <= |bars| <= limits.maxFrames
      && (forall i :: 0 <= i < |bars| ==> bars[i].sequence == i)
      && (forall i :: 0 <= i < |bars| ==> bars[i].row.Valid(|init.symbols|))
    }
  }

  datatype SandboxStatus = Completed | Invalid | ProtocolError | RuntimeError | Timeout | Unavailable

  datatype Violation =
    | NotReady
    | NotWeights
    | SequenceMismatch
    | BadPortfolio(fault: WeightFault)
    | NotStopped
    | LineTooLarge
    | StreamClosed
    | OutputExceeded
    | InvalidFrame

  /** The text of a result's error field; NoError is the empty string. */
  datatype SandboxError =
    | NoError
    | ExceededWallClock
    | CandidateMessage(message: string)
    | WorkerExited(code: int)
    | Violated(violation: Violation)
    | FailedToStart
    | SourceRejected
    | BrokerFailed

  datatype FrameOutcome = FrameOutcome(sequence: nat, weights: seq<Number>, duration: real)

  datatype SandboxResult = SandboxResult(
    status: SandboxStatus,
    programSha256: string,
    frames: seq<FrameOutcome>,
    duration: real,
    stdoutBytes: nat,
    stderrBytes: nat,
    stderrTail: seq<bv8>,
    error: SandboxError)
  {
    predicate Succeeded() {
      status.Completed?
    }
  }
}
