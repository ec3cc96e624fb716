/** The driver's environment built from the worker loop around a strategy: the line owed at
    each exchange, when it arrives, and what the strategy's fold over the bars makes of it. */
module Lockstep {
  import opened Wrappers
  import opened Protocol
  import opened Executors
  import opened ProcessDriver
  import Worker

  type Strategy<!S> = Worker.Strategy<S>

  type Loaded<!S> = Worker.Attempt<Strategy<S>>

  function Encode(frame: RequestFrame): Worker.InputLine {
    match frame
    case Initialize(init) => Worker.InitializeLine(PROTOCOL_VERSION, Some(init.symbols), Some(init.seed))
    case Bar(bar) => Worker.BarLine(Some(bar.sequence), bar)
    case Stop => Worker.StopLine
  }

  function EncodeAll(frames: seq<RequestFrame>): (lines: seq<Worker.InputLine>)
    ensures |lines| == |frames|
  {
    seq(|frames|, i requires 0 <= i < |frames| => Encode(frames[i]))
  }

  // ----- time and bytes

  /** What the surroundings of one run contribute: encoded line lengths (never zero, a line
      ends in a newline), the seconds from each frame to the line that answers it, the
      seconds from the last line to the exit, the exit status a run that returned 0 shows,
      and the stderr that was drained. */
  datatype Surroundings = Surroundings(
    lineLength: RawResponse -> nat,
    frameSeconds: seq<RequestFrame> -> real,
    exitSeconds: real,
    exitCode: int,
    stderr: seq<seq<bv8>>,
    elapsed: real)
  {
    ghost predicate Valid() {
      && (forall line: RawResponse :: 0 < lineLength(line))
      && (forall sent: seq<RequestFrame> :: 0.0 <= frameSeconds(sent))
      && 0.0 <= exitSeconds
    }

    /** Seconds gone when the last of these frames has been answered. */
    function Seconds(sent: seq<RequestFrame>): real {
      if sent == [] then 0.0 else Seconds(sent[..|sent| - 1]) + frameSeconds(sent)
    }
  }

  // ----- what the worker owes

  /** The line of the worker's stdout an exchange is answered with; nothing, because candidate
      code keeps control; or the end of the stream. */
  datatype Owed = Owes(line: RawResponse) | Silent | Closed

  function OwedFor<S>(loaded: Loaded<S>, sent: seq<RequestFrame>): Owed {
    var (lines, state) := Worker.Answers(loaded, EncodeAll(sent));
    if 0 < |sent| <= |lines| then Owes(lines[|sent| - 1])
    else if state.Stuck? then Silent
    else Closed
  }

  /** What the driver reads: nothing before the deadline, or the line, refused by readline when
      it outgrows its buffer, or the end of the stream. */
  function Delivered(around: Surroundings, limits: ExecutionLimits, sent: seq<RequestFrame>, owed: Owed): Reply {
    if limits.timeoutSeconds < around.Seconds(sent) then DeadlineHit
    else
      match owed
      case Silent => DeadlineHit
      case Closed => Line(0, Malformed, 0.0)
      case Owes(line) =>
        if limits.maxOutputBytes + 2 < around.lineLength(line) then LineOverLimit
        else Line(around.lineLength(line), line, around.frameSeconds(sent))
  }

  function WorkerExit<S>(loaded: Loaded<S>, around: Surroundings, limits: ExecutionLimits,
                         sent: seq<RequestFrame>): Exit
  {
    if limits.timeoutSeconds < around.Seconds(sent) + around.exitSeconds then ExitDeadline
    else
      match Worker.Answers(loaded, EncodeAll(sent)).1
      case Stuck => ExitDeadline
      case Exited(code) => Exited(if code == 0 then around.exitCode else code)
      case Running(_) => Exited(around.exitCode)
      case Escaped => Exited(around.exitCode)
  }

  function WithWorker<S>(loaded: Loaded<S>, around: Surroundings, limits: ExecutionLimits): Environment {
    Environment(
      true,
      sent => Delivered(around, limits, sent, OwedFor(loaded, sent)),
      sent => WorkerExit(loaded, around, limits, sent),
      around.stderr,
      around.elapsed)
  }

  // ----- exchange by exchange

  function Says<S>(loaded: Loaded<S>, r: SandboxRequest, k: nat): Owed
    requires k < |Requests(r)|
  {
    OwedFor(loaded, Requests(r)[..k + 1])
  }

  function Spent(r: SandboxRequest, around: Surroundings, k: nat): real
    requires k <= |Requests(r)|
  {
    around.Seconds(Requests(r)[..k])
  }

  function LengthOf(around: Surroundings, owed: Owed): nat {
    if owed.Owes? then around.lineLength(owed.line) else 0
  }

  /** Stdout bytes of the first k lines owed. */
  function Bytes<S>(loaded: Loaded<S>, r: SandboxRequest, around: Surroundings, k: nat): nat
    requires k <= |Requests(r)|
  {
    if k == 0 then 0 else Bytes(loaded, r, around, k - 1) + LengthOf(around, Says(loaded, r, k - 1))
  }

  // ----- the strategy as a fold over the bars

  /** The instance before bar i, if every earlier call returned numbers. */
  function InstanceBefore<S>(strategy: Strategy<S>, init: InitializeFrame, bars: seq<BarFrame>, i: nat): Option<S>
    requires i <= |bars|
  {
    if i == 0 then
      match strategy.construct(init.symbols, init.seed).outcome
      case Done(instance) => Some(instance)
      case _ => None
    else
      match InstanceBefore(strategy, init, bars, i - 1)
      case None => None
      case Some(instance) =>
        match strategy.onBar(instance, bars[i - 1]).outcome
        case Done((next, value)) => if Worker.CoerceWeights(value).Success? then Some(next) else None
        case _ => None
  }

  /** One thing a strategy does: what was asked, an error to report, an exception that cannot
      be rendered, nothing at all, or first of all a line of its own on the protocol stream. */
  datatype Act<+T> = Did(value: T) | Fails(message: string) | Escapes | Loops | Prints(first: RawResponse)

  function Raising<T>(exc: Worker.Raised): Act<T> {
    if exc.text.printed != [] then Prints(exc.text.printed[0])
    else
      match exc.text.outcome
      case Done(text) => Fails(Worker.MessageError(exc.typeName, text))
      case Threw(_) => Escapes
      case Hangs => Loops
  }

  function StartAct<S>(strategy: Strategy<S>, init: InitializeFrame): Act<S> {
    var call := strategy.construct(init.symbols, init.seed);
    if call.printed != [] then Prints(call.printed[0])
    else
      match call.outcome
      case Done(instance) => Did(instance)
      case Threw(exc) => Raising(exc)
      case Hangs => Loops
  }

  function ActOn<S>(strategy: Strategy<S>, instance: S, bar: BarFrame): Act<seq<Number>> {
    var call := strategy.onBar(instance, bar);
    if call.printed != [] then Prints(call.printed[0])
    else
      match call.outcome
      case Hangs => Loops
      case Threw(exc) => Raising(exc)
      case Done((_, value)) =>
        match Worker.CoerceWeights(value)
        case Failure(exc) => Raising(exc)
        case Success(weights) => Did(weights)
  }

  function ActAt<S>(strategy: Strategy<S>, r: SandboxRequest, i: nat): Act<seq<Number>>
    requires i < |r.bars|
    requires InstanceBefore(strategy, r.init, r.bars, i).Some?
  {
    ActOn(strategy, InstanceBefore(strategy, r.init, r.bars, i).value, r.bars[i])
  }

  /** The strategy was constructed and answered its first bars with numbers, printing nothing. */
  predicate DidThrough<S>(strategy: Strategy<S>, r: SandboxRequest, i: nat)
    requires i <= |r.bars|
  {
    && StartAct(strategy, r.init).Did?
    && forall j :: 0 <= j < i ==>
         InstanceBefore(strategy, r.init, r.bars, j).Some? && ActAt(strategy, r, j).Did?
  }

  /** The line an act owes the exchange it answers. */
  function Owe<T>(act: Act<T>, sequence: Option<int>, done: RawResponse): Owed {
    match act
    case Did(_) => Owes(done)
    case Fails(message) => Owes(RawError(sequence, message))
    case Escapes => Closed
    case Loops => Silent
    case Prints(first) => Owes(first)
  }

  lemma AnswersStep<S>(strategy: Strategy<S>, r: SandboxRequest, k: nat)
    requires k < |Requests(r)|
    requires Worker.Answers(Worker.Done(strategy), EncodeAll(Requests(r)[..k])).1.Running?
    ensures var (lines, state) := Worker.Answers(Worker.Done(strategy), EncodeAll(Requests(r)[..k]));
            Worker.Answers(Worker.Done(strategy), EncodeAll(Requests(r)[..k + 1])) ==
              Worker.After(lines, Worker.Handle(strategy, state.instance, Encode(Requests(r)[k])))
  {
    hide Worker.Handle, Worker.After;
    var lines := EncodeAll(Requests(r)[..k + 1]);
    assert lines[..|lines| - 1] == EncodeAll(Requests(r)[..k]);
    assert lines[|lines| - 1] == Encode(Requests(r)[k]);
  }

  lemma DidGoesOn<S>(strategy: Strategy<S>, r: SandboxRequest, i: nat)
    requires i <= |r.bars| && DidThrough(strategy, r, i)
    ensures InstanceBefore(strategy, r.init, r.bars, i).Some?
  {
    if 0 < i {
      assert ActAt(strategy, r, i - 1).Did?;
    }
  }

  lemma HandleStart<S>(strategy: Strategy<S>, init: InitializeFrame)
    ensures var (lines, state) := Worker.Handle(strategy, None, Encode(Initialize(init)));
            match StartAct(strategy, init)
            case Did(instance) => lines == [RawReady(PROTOCOL_VERSION)] && state == Worker.Running(Some(instance))
            case Fails(message) => lines == [RawError(None, message)]
            case Escapes => lines == [] && state.Escaped?
            case Loops => lines == [] && state.Stuck?
            case Prints(first) => lines != [] && lines[0] == first
  {
    hide Worker.MessageError;
  }

  lemma HandleAct<S>(strategy: Strategy<S>, instance: S, bar: BarFrame)
    ensures var (lines, state) := Worker.Handle(strategy, Some(instance), Encode(Bar(bar)));
            match ActOn(strategy, instance, bar)
            case Did(weights) => lines == [RawWeights(bar.sequence, weights)] && state.Running?
            case Fails(message) => lines == [RawError(Some(bar.sequence), message)]
            case Escapes => lines == [] && state.Escaped?
            case Loops => lines == [] && state.Stuck?
            case Prints(first) => lines != [] && lines[0] == first
  {
    hide Worker.MessageError, Worker.CoerceWeights;
  }

  lemma HandleDid<S>(strategy: Strategy<S>, r: SandboxRequest, i: nat)
    requires i < |r.bars|
    requires InstanceBefore(strategy, r.init, r.bars, i).Some? && ActAt(strategy, r, i).Did?
    ensures Worker.Handle(strategy, InstanceBefore(strategy, r.init, r.bars, i), Encode(Bar(r.bars[i]))) ==
              ([RawWeights(r.bars[i].sequence, ActAt(strategy, r, i).value)],
               Worker.Running(InstanceBefore(strategy, r.init, r.bars, i + 1)))
  {
    hide Worker.CoerceWeights, Worker.MessageError;
    HandleAct(strategy, InstanceBefore(strategy, r.init, r.bars, i).value, r.bars[i]);
  }

  /** While the strategy answers with numbers, the worker writes one line per frame and
      carries the fold's instance. */
  lemma {:induction false} WorkerFollowsFold<S>(strategy: Strategy<S>, r: SandboxRequest, i: nat)
    requires i <= |r.bars| && DidThrough(strategy, r, i)
    ensures var (lines, state) := Worker.Answers(Worker.Done(strategy), EncodeAll(Requests(r)[..i + 1]));
            && state == Worker.Running(InstanceBefore(strategy, r.init, r.bars, i))
            && |lines| == i + 1
  {
    hide Worker.Handle;
    if i == 0 {
      assert EncodeAll(Requests(r)[..0]) == [];
      AnswersStep(strategy, r, 0);
      assert Requests(r)[0] == Initialize(r.init);
      HandleStart(strategy, r.init);
    } else {
      WorkerFollowsFold(strategy, r, i - 1);
      HandleDid(strategy, r, i - 1);
      AnswersStep(strategy, r, i);
      assert Requests(r)[i] == Bar(r.bars[i - 1]);
    }
  }

  /** The worker loop owes the first exchange what constructing the strategy comes to. */
  lemma OwedAtStart<S>(strategy: Strategy<S>, r: SandboxRequest)
    ensures Says(Worker.Done(strategy), r, 0) == Owe(StartAct(strategy, r.init), None, RawReady(PROTOCOL_VERSION))
  {
    hide Worker.Handle, StartAct;
    assert EncodeAll(Requests(r)[..0]) == [];
    AnswersStep(strategy, r, 0);
    assert Requests(r)[0] == Initialize(r.init);
    HandleStart(strategy, r.init);
    var (lines, state) := Worker.Handle(strategy, None, Encode(Initialize(r.init)));
    assert [] + lines == lines;
  }

  /** And the exchange of bar i what the strategy does with that bar, once it has done what
      was asked on every earlier one. */
  lemma OwedOnBar<S>(strategy: Strategy<S>, r: SandboxRequest, i: nat)
    requires i < |r.bars| && DidThrough(strategy, r, i)
    ensures InstanceBefore(strategy, r.init, r.bars, i).Some?
    ensures var act := ActAt(strategy, r, i);
            Says(Worker.Done(strategy), r, i + 1) ==
              Owe(act, Some(r.bars[i].sequence), RawWeights(r.bars[i].sequence, if act.Did? then act.value else []))
  {
    hide Worker.Handle, ActOn, InstanceBefore, DidThrough;
    DidGoesOn(strategy, r, i);
    WorkerFollowsFold(strategy, r, i);
    AnswersStep(strategy, r, i + 1);
    assert Requests(r)[i + 1] == Bar(r.bars[i]);
    HandleAct(strategy, InstanceBefore(strategy, r.init, r.bars, i).value, r.bars[i]);
  }

  lemma OwedAtStop<S>(strategy: Strategy<S>, r: SandboxRequest)
    requires DidThrough(strategy, r, |r.bars|)
    ensures Says(Worker.Done(strategy), r, |r.bars| + 1) == Owes(RawStopped)
    ensures Worker.Answers(Worker.Done(strategy), EncodeAll(Requests(r))).1 == Worker.Exited(0)
  {
    hide InstanceBefore, DidThrough;
    var n := |r.bars|;
    WorkerFollowsFold(strategy, r, n);
    AnswersStep(strategy, r, n + 1);
    assert Requests(r)[..n + 2] == Requests(r);
    assert Requests(r)[n + 1] == Stop;
  }

  lemma DidWeightsAreFinite<S>(strategy: Strategy<S>, instance: S, bar: BarFrame)
    ensures var act := ActOn(strategy, instance, bar);
            act.Did? ==> AllFinite(act.value)
  {
  }
}
