/** The JSONL driver: one request out, one response in, for a whole sandbox run.

    The worker is an arbitrary function from the frames it has received to what the
    driver then observes on its stdout; deadlines, line lengths, the exit code and the
    stderr chunks are part of the same environment. */
module ProcessDriver {
  import opened Wrappers
  import opened Protocol
  import opened Executors

  const STDERR_RETAINED := 8192

  /** What one readline (and the write before it) gives; a line of length 0 is end of file. */
  datatype Reply =
    | Line(length: nat, content: RawResponse, elapsed: real)
    | LineOverLimit
    | DeadlineHit

  datatype Exit = Exited(code: int) | ExitDeadline

  datatype Environment = Environment(
    spawns: bool,
    respond: seq<RequestFrame> -> Reply,
    exit: seq<RequestFrame> -> Exit,
    stderr: seq<seq<bv8>>,
    elapsed: real)

  datatype Fault =
    | TimedOut
    | CandidateFailure(message: string)
    | ExitFailure(code: int)
    | ProtocolViolation(violation: Violation)

  // ----- stderr

  function Flatten(chunks: seq<seq<bv8>>): seq<bv8> {
    if chunks == [] then [] else Flatten(chunks[..|chunks| - 1]) + chunks[|chunks| - 1]
  }

  /** Python's `del tail[:-retained]`: with retained 0 the slice is empty and nothing goes. */
  function DeleteFront(tail: seq<bv8>, retained: nat): seq<bv8>
    requires retained <= |tail|
  {
    if retained == 0 then tail else tail[|tail| - retained..]
  }

  function LastBytes(stream: seq<bv8>, n: nat): (tail: seq<bv8>)
    ensures |tail| <= n && |tail| <= |stream|
    ensures tail == stream || |tail| == n
  {
    if |stream| <= n then stream else stream[|stream| - n..]
  }

  /** The end of a stream that the capture still holds after seeing all of it. */
  function RetainedTail(stream: seq<bv8>, retained: nat): seq<bv8> {
    if retained == 0 then stream else LastBytes(stream, retained)
  }

  function Retention(tailLimit: nat): nat {
    if tailLimit < STDERR_RETAINED then tailLimit else STDERR_RETAINED
  }

  class StderrCapture {
    var total: nat
    var tail: seq<bv8>

    constructor ()
      ensures total == 0 && tail == []
    {
      total, tail := 0, [];
    }
  }

  class StreamCounters {
    var stdoutBytes: nat

    constructor ()
      ensures stdoutBytes == 0
    {
      stdoutBytes := 0;
    }
  }

  /** What the capture holds once it has consumed some chunks, whatever their sizes. */
  ghost predicate Captures(capture: StderrCapture, retained: nat, chunks: seq<seq<bv8>>)
    reads capture
  {
    && capture.total == |Flatten(chunks)|
    && capture.tail == RetainedTail(Flatten(chunks), retained)
  }

  method DrainStderr(chunks: seq<seq<bv8>>, tailLimit: nat, capture: StderrCapture)
    requires capture.total == 0 && capture.tail == []
    modifies capture
    ensures Captures(capture, Retention(tailLimit), chunks)
  {
    var retained := Retention(tailLimit);
    for i := 0 to |chunks|
      invariant Captures(capture, retained, chunks[..i])
    {
      assert chunks[..i + 1][..i] == chunks[..i];
      Absorb(Flatten(chunks[..i]), chunks[i], retained);
      capture.total := capture.total + |chunks[i]|;
      capture.tail := capture.tail + chunks[i];
      if retained < |capture.tail| {
        capture.tail := DeleteFront(capture.tail, retained);
      }
    }
    assert chunks[..|chunks|] == chunks;
  }

  /** Appending a chunk and deleting from the front keeps the end of the longer stream. */
  lemma Absorb(stream: seq<bv8>, chunk: seq<bv8>, retained: nat)
    ensures var tail := RetainedTail(stream, retained) + chunk;
            RetainedTail(stream + chunk, retained) ==
              if retained < |tail| then DeleteFront(tail, retained) else tail
  {
  }

  // ----- one exchange

  class WorkerProcess {
    const environment: Environment
    var received: seq<RequestFrame>

    constructor (environment: Environment)
      ensures this.environment == environment && received == []
    {
      this.environment := environment;
      received := [];
    }
  }

  function LineLength(reply: Reply): nat {
    if reply.Line? then reply.length else 0
  }

  /** The response carried by a reply, given the bytes counted before it. */
  function Read(reply: Reply, counted: nat, budget: nat): Result<Response, Fault> {
    match reply
    case DeadlineHit => Failure(TimedOut)
    case LineOverLimit => Failure(ProtocolViolation(LineTooLarge))
    case Line(length, content, _) =>
      if length == 0 then Failure(ProtocolViolation(StreamClosed))
      else if budget < counted + length then Failure(ProtocolViolation(OutputExceeded))
      else match ParseResponse(content)
        case None => Failure(ProtocolViolation(InvalidFrame))
        case Some(response) => Success(response)
  }

  method Exchange(process: WorkerProcess, frame: RequestFrame, counters: StreamCounters, maxOutputBytes: nat)
    returns (r: Result<Response, Fault>, elapsed: real)
    modifies process, counters
    ensures process.received == old(process.received) + [frame]
    ensures var reply := process.environment.respond(process.received);
            && counters.stdoutBytes == old(counters.stdoutBytes) + LineLength(reply)
            && r == Read(reply, old(counters.stdoutBytes), maxOutputBytes)
            && elapsed == if reply.Line? then reply.elapsed else 0.0
  {
    elapsed := 0.0;
    process.received := process.received + [frame];
    var reply := process.environment.respond(process.received);
    if reply.DeadlineHit? {
      return Failure(TimedOut), elapsed;
    }
    if reply.LineOverLimit? {
      return Failure(ProtocolViolation(LineTooLarge)), elapsed;
    }
    elapsed := reply.elapsed;
    if reply.length == 0 {
      return Failure(ProtocolViolation(StreamClosed)), elapsed;
    }
    counters.stdoutBytes := counters.stdoutBytes + reply.length;
    if maxOutputBytes < counters.stdoutBytes {
      return Failure(ProtocolViolation(OutputExceeded)), elapsed;
    }
    var response := ParseResponse(reply.content);
    if response.None? {
      return Failure(ProtocolViolation(InvalidFrame)), elapsed;
    }
    return Success(response.value), elapsed;
  }

  // ----- the run, exchange by exchange

  /** Every frame a faultless run sends, in order. */
  function Requests(r: SandboxRequest): (frames: seq<RequestFrame>)
    ensures |frames| == |r.bars| + 2
  {
    [Initialize(r.init)] + seq(|r.bars|, i requires 0 <= i < |r.bars| => Bar(r.bars[i])) + [Stop]
  }

  function ReplyAt(env: Environment, r: SandboxRequest, k: nat): Reply
    requires k < |Requests(r)|
  {
    env.respond(Requests(r)[..k + 1])
  }

  /** Stdout bytes counted in the first k exchanges. */
  function Counted(env: Environment, r: SandboxRequest, k: nat): nat
    requires k <= |Requests(r)|
  {
    if k == 0 then 0 else Counted(env, r, k - 1) + LineLength(ReplyAt(env, r, k - 1))
  }

  /** Whether a response is the one exchange k calls for: ready, then the portfolio for
      bar k - 1, then stopped. */
  function Check(r: SandboxRequest, k: nat, response: Response): Option<Fault>
    requires k < |Requests(r)|
  {
    if k == |Requests(r)| - 1 then
      if response.Stopped? then None else Some(ProtocolViolation(NotStopped))
    else if response.CandidateError? then
      Some(CandidateFailure(response.message))
    else if k == 0 then
      if response.Ready? then None else Some(ProtocolViolation(NotReady))
    else if !response.Weights? then
      Some(ProtocolViolation(NotWeights))
    else if response.sequence != r.bars[k - 1].sequence then
      Some(ProtocolViolation(SequenceMismatch))
    else
      match ValidateTargetWeights(response.weights, r.init)
      case Success(_) => None
      case Failure(fault) => Some(ProtocolViolation(BadPortfolio(fault)))
  }

  /** The fault of exchange k, judged on the frames sent up to it; None when it is accepted. */
  function FaultAt(env: Environment, r: SandboxRequest, k: nat): Option<Fault>
    requires k < |Requests(r)|
  {
    match Read(ReplyAt(env, r, k), Counted(env, r, k), r.limits.maxOutputBytes)
    case Failure(fault) => Some(fault)
    case Success(response) => Check(r, k, response)
  }

  predicate Accepted(env: Environment, r: SandboxRequest, k: nat) {
    k <= |Requests(r)| && forall j :: 0 <= j < k ==> FaultAt(env, r, j).None?
  }

  /** The outcome recorded for bar i once exchange i + 1 is accepted. */
  function FrameAt(env: Environment, r: SandboxRequest, i: nat): FrameOutcome
    requires i < |r.bars|
    requires FaultAt(env, r, i + 1).None?
  {
    var reply := ReplyAt(env, r, i + 1);
    var response := ParseResponse(reply.content).value;
    FrameOutcome(r.bars[i].sequence, response.weights, reply.elapsed)
  }

  /** The least faulty exchange, or the number of exchanges when there is none. */
  function FirstFault(env: Environment, r: SandboxRequest, from: nat): (k: nat)
    requires Accepted(env, r, from)
    ensures Accepted(env, r, k)
    ensures k < |Requests(r)| ==> FaultAt(env, r, k).Some?
    decreases |Requests(r)| - from
  {
    if from == |Requests(r)| || FaultAt(env, r, from).Some? then from
    else FirstFault(env, r, from + 1)
  }

  /** Bars answered once the first k exchanges are accepted. */
  function BarsAnswered(r: SandboxRequest, k: nat): nat {
    if k == 0 then 0 else if k - 1 <= |r.bars| then k - 1 else |r.bars|
  }

  function FramesThrough(env: Environment, r: SandboxRequest, k: nat): seq<FrameOutcome>
    requires Accepted(env, r, k)
  {
    seq(BarsAnswered(r, k), i requires 0 <= i < BarsAnswered(r, k) => FrameAt(env, r, i))
  }

  /** How the guarded part of a run ends: the first faulty exchange, else the exit. */
  function Ending(env: Environment, r: SandboxRequest): Option<Fault> {
    var k := FirstFault(env, r, 0);
    if k < |Requests(r)| then FaultAt(env, r, k)
    else ExitFault(env.exit(Requests(r)))
  }

  function ExitFault(exit: Exit): Option<Fault> {
    match exit
    case ExitDeadline => Some(TimedOut)
    case Exited(code) => if code == 0 then None else Some(ExitFailure(code))
  }

  function StatusOf(fault: Fault): SandboxStatus {
    match fault
    case TimedOut => Timeout
    case CandidateFailure(_) => RuntimeError
    case ExitFailure(_) => RuntimeError
    case ProtocolViolation(_) => ProtocolError
  }

  function ErrorOf(fault: Fault): SandboxError {
    match fault
    case TimedOut => ExceededWallClock
    case CandidateFailure(message) => CandidateMessage(message)
    case ExitFailure(code) => WorkerExited(code)
    case ProtocolViolation(violation) => Violated(violation)
  }

  function StdoutCounted(env: Environment, r: SandboxRequest): nat {
    var k := FirstFault(env, r, 0);
    Counted(env, r, if k < |Requests(r)| then k + 1 else k)
  }

  /** The result of a whole run, read off its least faulty exchange. */
  function Drive(env: Environment, r: SandboxRequest): SandboxResult {
    if !env.spawns then
      SandboxResult(Unavailable, r.program.sha256, [], env.elapsed, 0, 0, [], FailedToStart)
    else
      var ending := Ending(env, r);
      var stdout := StdoutCounted(env, r);
      var stderr := Flatten(env.stderr);
      var overflow := ending.None? && r.limits.maxOutputBytes < stdout + |stderr|;
      SandboxResult(
        if overflow then ProtocolError else if ending.Some? then StatusOf(ending.value) else Completed,
        r.program.sha256,
        FramesThrough(env, r, FirstFault(env, r, 0)),
        env.elapsed,
        stdout,
        |stderr|,
        RetainedTail(stderr, Retention(r.limits.maxOutputBytes)),
        if overflow then Violated(OutputExceeded) else if ending.Some? then ErrorOf(ending.value) else NoError)
  }

  // ----- the driver itself

  /** The guarded part of execute asks for ready, for one portfolio per bar, for stopped;
      each step is exchange k of the run. */
  ghost predicate InStep(process: WorkerProcess, counters: StreamCounters, r: SandboxRequest, k: nat)
    reads process, counters
  {
    && k <= |Requests(r)|
    && process.received == Requests(r)[..k]
    && counters.stdoutBytes == Counted(process.environment, r, k)
  }

  method AskReady(process: WorkerProcess, r: SandboxRequest, counters: StreamCounters)
    returns (fault: Option<Fault>)
    requires InStep(process, counters, r, 0)
    modifies process, counters
    ensures InStep(process, counters, r, 1)
    ensures fault == FaultAt(process.environment, r, 0)
  {
    assert Requests(r)[..1] == [Initialize(r.init)];
    var response, _ := Exchange(process, Initialize(r.init), counters, r.limits.maxOutputBytes);
    if response.Failure? {
      return Some(response.error);
    }
    if response.value.CandidateError? {
      return Some(CandidateFailure(response.value.message));
    }
    if !response.value.Ready? {
      return Some(ProtocolViolation(NotReady));
    }
    return None;
  }

  method AskBar(process: WorkerProcess, r: SandboxRequest, i: nat, counters: StreamCounters)
    returns (outcome: Result<FrameOutcome, Fault>)
    requires i < |r.bars| && InStep(process, counters, r, i + 1)
    modifies process, counters
    ensures InStep(process, counters, r, i + 2)
    ensures outcome.Failure? ==> FaultAt(process.environment, r, i + 1) == Some(outcome.error)
    ensures outcome.Success? ==>
              && FaultAt(process.environment, r, i + 1).None?
              && outcome.value == FrameAt(process.environment, r, i)
  {
    var bar := r.bars[i];
    assert Requests(r)[..i + 2] == Requests(r)[..i + 1] + [Bar(bar)];
    var response, elapsed := Exchange(process, Bar(bar), counters, r.limits.maxOutputBytes);
    if response.Failure? {
      return Failure(response.error);
    }
    if response.value.CandidateError? {
      return Failure(CandidateFailure(response.value.message));
    }
    if !response.value.Weights? {
      return Failure(ProtocolViolation(NotWeights));
    }
    if response.value.sequence != bar.sequence {
      return Failure(ProtocolViolation(SequenceMismatch));
    }
    var weights := ValidateTargetWeights(response.value.weights, r.init);
    if weights.Failure? {
      return Failure(ProtocolViolation(BadPortfolio(weights.error)));
    }
    return Success(FrameOutcome(bar.sequence, response.value.weights, elapsed));
  }

  method AskStopped(process: WorkerProcess, r: SandboxRequest, counters: StreamCounters)
    returns (fault: Option<Fault>)
    requires InStep(process, counters, r, |r.bars| + 1)
    modifies process, counters
    ensures InStep(process, counters, r, |r.bars| + 2)
    ensures fault == FaultAt(process.environment, r, |r.bars| + 1)
  {
    assert Requests(r)[..|r.bars| + 2] == Requests(r)[..|r.bars| + 1] + [Stop];
    var response, _ := Exchange(process, Stop, counters, r.limits.maxOutputBytes);
    if response.Failure? {
      return Some(response.error);
    }
    if !response.value.Stopped? {
      return Some(ProtocolViolation(NotStopped));
    }
    return None;
  }

  /** Close stdin and wait; a non-zero status is the candidate's failure. */
  method AwaitExit(process: WorkerProcess) returns (fault: Option<Fault>)
    ensures fault == ExitFault(process.environment.exit(process.received))
  {
    match process.environment.exit(process.received) {
      case ExitDeadline =>
        return Some(TimedOut);
      case Exited(code) =>
        if code != 0 {
          return Some(ExitFailure(code));
        }
        return None;
    }
  }

  method AskBars(process: WorkerProcess, r: SandboxRequest, counters: StreamCounters)
    returns (fault: Option<Fault>, frames: seq<FrameOutcome>)
    requires InStep(process, counters, r, 1)
    requires Accepted(process.environment, r, 1)
    modifies process, counters
    ensures fault.None? ==>
              && InStep(process, counters, r, |r.bars| + 1)
              && Accepted(process.environment, r, |r.bars| + 1)
              && frames == FramesThrough(process.environment, r, |r.bars| + 1)
    ensures fault.Some? ==>
              var k := FirstFault(process.environment, r, 0);
              && k < |Requests(r)|
              && FaultAt(process.environment, r, k) == fault
              && InStep(process, counters, r, k + 1)
              && frames == FramesThrough(process.environment, r, k)
  {
    hide FaultAt, FrameAt, Counted;
    frames := [];
    for i := 0 to |r.bars|
      invariant InStep(process, counters, r, i + 1)
      invariant Accepted(process.environment, r, i + 1)
      invariant frames == FramesThrough(process.environment, r, i + 1)
    {
      var outcome := AskBar(process, r, i, counters);
      if outcome.Failure? {
        FaultIsFirst(process.environment, r, i + 1);
        return Some(outcome.error), frames;
      }
      frames := frames + [outcome.value];
    }
    return None, frames;
  }

  method Lockstep(process: WorkerProcess, r: SandboxRequest, counters: StreamCounters)
    returns (ending: Option<Fault>, frames: seq<FrameOutcome>)
    requires process.received == [] && counters.stdoutBytes == 0
    modifies process, counters
    ensures ending == Ending(process.environment, r)
    ensures frames == FramesThrough(process.environment, r, FirstFault(process.environment, r, 0))
    ensures counters.stdoutBytes == StdoutCounted(process.environment, r)
    ensures process.received <= Requests(r)
  {
    frames := [];
    ending := AskReady(process, r, counters);
    if ending.Some? {
      FaultIsFirst(process.environment, r, 0);
      return;
    }
    ending, frames := AskBars(process, r, counters);
    if ending.Some? {
      return;
    }
    ending := AskStopped(process, r, counters);
    if ending.Some? {
      FaultIsFirst(process.environment, r, |r.bars| + 1);
      return;
    }
    NoFault(process.environment, r);
    assert process.received == Requests(r);
    ending := AwaitExit(process);
  }

  method Execute(environment: Environment, r: SandboxRequest) returns (result: SandboxResult)
    ensures result == Drive(environment, r)
  {
    if !environment.spawns {
      return SandboxResult(Unavailable, r.program.sha256, [], environment.elapsed, 0, 0, [], FailedToStart);
    }
    var process := new WorkerProcess(environment);
    var capture := new StderrCapture();
    var counters := new StreamCounters();
    var status, error := Completed, NoError;
    var ending, frames := Lockstep(process, r, counters);
    if ending.Some? {
      status, error := StatusOf(ending.value), ErrorOf(ending.value);
    }
    DrainStderr(environment.stderr, r.limits.maxOutputBytes, capture);
    if status.Completed? && r.limits.maxOutputBytes < counters.stdoutBytes + capture.total {
      status, error := ProtocolError, Violated(OutputExceeded);
    }
    result := SandboxResult(
      status, r.program.sha256, frames, environment.elapsed,
      counters.stdoutBytes, capture.total, capture.tail, error);
  }

  lemma {:induction false} FirstFaultFrom(env: Environment, r: SandboxRequest, from: nat, k: nat)
    requires Accepted(env, r, from) && Accepted(env, r, k) && from <= k
    requires k < |Requests(r)| ==> FaultAt(env, r, k).Some?
    ensures FirstFault(env, r, from) == k
    decreases k - from
  {
    if from < k {
      FirstFaultFrom(env, r, from + 1, k);
    }
  }

  lemma FaultIsFirst(env: Environment, r: SandboxRequest, k: nat)
    requires k < |Requests(r)|
    requires Accepted(env, r, k) && FaultAt(env, r, k).Some?
    ensures FirstFault(env, r, 0) == k
  {
    FirstFaultFrom(env, r, 0, k);
  }

  lemma NoFault(env: Environment, r: SandboxRequest)
    requires Accepted(env, r, |Requests(r)|)
    ensures FirstFault(env, r, 0) == |Requests(r)|
  {
    FirstFaultFrom(env, r, 0, |Requests(r)|);
  }
}
