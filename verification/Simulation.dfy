/** Driver and worker together: the status, the frames and the error of every run follow from
    the lines the worker owes, the clock and the byte budget, exchange by exchange; and the
    lines follow from what the strategy does, bar by bar. */
module Simulation {
  import opened Wrappers
  import opened Vectors
  import opened Protocol
  import opened Executors
  import opened ProcessDriver
  import opened DriverProperties
  import opened Lockstep
  import Worker

  // ----- every run, classified

  /** What goes wrong at an exchange, if the line owed there is the next one read: first the
      clock, then the stream, then the budget, then the frame. */
  function Fate<S>(loaded: Loaded<S>, r: SandboxRequest, around: Surroundings, k: nat): Option<Fault>
    requires k < |Requests(r)|
  {
    if r.limits.timeoutSeconds < Spent(r, around, k + 1) then Some(TimedOut)
    else
      match Says(loaded, r, k)
      case Silent => Some(TimedOut)
      case Closed => Some(ProtocolViolation(StreamClosed))
      case Owes(line) =>
        if r.limits.maxOutputBytes + 2 < around.lineLength(line) then Some(ProtocolViolation(LineTooLarge))
        else if r.limits.maxOutputBytes < Bytes(loaded, r, around, k + 1) then Some(ProtocolViolation(OutputExceeded))
        else
          match ParseResponse(line)
          case None => Some(ProtocolViolation(InvalidFrame))
          case Some(response) => Check(r, k, response)
  }

  predicate FirstFate<S>(loaded: Loaded<S>, r: SandboxRequest, around: Surroundings, k: nat) {
    && k <= |Requests(r)|
    && (forall j :: 0 <= j < k ==> Fate(loaded, r, around, j).None?)
    && (k < |Requests(r)| ==> Fate(loaded, r, around, k).Some?)
  }

  lemma FateOfReply<S>(loaded: Loaded<S>, r: SandboxRequest, around: Surroundings, k: nat)
    requires around.Valid() && k < |Requests(r)|
    requires Counted(WithWorker(loaded, around, r.limits), r, k) == Bytes(loaded, r, around, k)
    ensures FaultAt(WithWorker(loaded, around, r.limits), r, k) == Fate(loaded, r, around, k)
    ensures Fate(loaded, r, around, k).None? ==>
              Counted(WithWorker(loaded, around, r.limits), r, k + 1) == Bytes(loaded, r, around, k + 1)
  {
    hide OwedFor, Check, ParseResponse, Requests;
  }

  lemma {:induction false} FatesAreFaults<S>(loaded: Loaded<S>, r: SandboxRequest, around: Surroundings, k: nat)
    requires around.Valid() && k <= |Requests(r)|
    requires forall j :: 0 <= j < k ==> Fate(loaded, r, around, j).None?
    ensures Accepted(WithWorker(loaded, around, r.limits), r, k)
    ensures Counted(WithWorker(loaded, around, r.limits), r, k) == Bytes(loaded, r, around, k)
  {
    hide Fate, FaultAt, WithWorker;
    if 0 < k {
      FatesAreFaults(loaded, r, around, k - 1);
      FateOfReply(loaded, r, around, k - 1);
    }
  }

  /** How a run ends whose exchanges were all accepted: the clock, the exit, the output. */
  function LastFate<S>(loaded: Loaded<S>, r: SandboxRequest, around: Surroundings): Option<Fault> {
    ExitFault(WorkerExit(loaded, around, r.limits, Requests(r)))
  }

  predicate Overflows<S>(loaded: Loaded<S>, r: SandboxRequest, around: Surroundings) {
    r.limits.maxOutputBytes < Bytes(loaded, r, around, |Requests(r)|) + |Flatten(around.stderr)|
  }

  /** The frame of bar i carries the weights of the line owed to the exchange of that bar. */
  predicate FrameOwed<S>(loaded: Loaded<S>, r: SandboxRequest, i: nat, frame: FrameOutcome)
    requires i < |r.bars|
  {
    && frame.sequence == r.bars[i].sequence
    && Says(loaded, r, i + 1) == Owes(RawWeights(r.bars[i].sequence, frame.weights))
    && AllFinite(frame.weights)
    && Admissible(Values(frame.weights), r.init)
  }

  predicate FramesOwed<S>(loaded: Loaded<S>, r: SandboxRequest, frames: seq<FrameOutcome>) {
    |frames| <= |r.bars| && forall i :: 0 <= i < |frames| ==> FrameOwed(loaded, r, i, frames[i])
  }

  lemma FrameIsOwed<S>(loaded: Loaded<S>, r: SandboxRequest, around: Surroundings, i: nat)
    requires i < |r.bars| && FaultAt(WithWorker(loaded, around, r.limits), r, i + 1).None?
    ensures FrameOwed(loaded, r, i, FrameAt(WithWorker(loaded, around, r.limits), r, i))
  {
    hide OwedFor, FaultAt;
    AcceptedIsGood(WithWorker(loaded, around, r.limits), r, i + 1);
  }

  lemma FramesAreOwed<S>(loaded: Loaded<S>, r: SandboxRequest, around: Surroundings)
    ensures FramesOwed(loaded, r, Drive(WithWorker(loaded, around, r.limits), r).frames)
  {
    hide FaultAt, FrameAt, FrameOwed, OwedFor, Requests;
    var env := WithWorker(loaded, around, r.limits);
    var frames := Drive(env, r).frames;
    forall i | 0 <= i < |frames|
      ensures FrameOwed(loaded, r, i, frames[i])
    {
      FrameIsOwed(loaded, r, around, i);
    }
  }

  /** What is read of the line owed to the exchange with the first fate: nothing when it is
      late or refused by readline. */
  function LastRead<S>(loaded: Loaded<S>, r: SandboxRequest, around: Surroundings, k: nat): nat
    requires k < |Requests(r)|
  {
    if Spent(r, around, k + 1) <= r.limits.timeoutSeconds && LengthOf(around, Says(loaded, r, k)) <= r.limits.maxOutputBytes + 2
    then LengthOf(around, Says(loaded, r, k)) else 0
  }

  /** The bytes, the time and the program a result accounts for. */
  predicate Measured<S>(loaded: Loaded<S>, r: SandboxRequest, around: Surroundings, k: nat, result: SandboxResult)
    requires k <= |Requests(r)|
  {
    && result.programSha256 == r.program.sha256
    && result.duration == around.elapsed
    && result.stdoutBytes == Bytes(loaded, r, around, k) + (if k < |Requests(r)| then LastRead(loaded, r, around, k) else 0)
    && result.stderrBytes == Total(ChunkLengths(around.stderr))
  }

  lemma RunMeasures<S>(loaded: Loaded<S>, r: SandboxRequest, around: Surroundings, k: nat)
    requires around.Valid() && FirstFate(loaded, r, around, k)
    ensures Measured(loaded, r, around, k, Drive(WithWorker(loaded, around, r.limits), r))
  {
    hide Fate, FaultAt, Says, OwedFor, ExitFault, WorkerExit, Flatten;
    var env := WithWorker(loaded, around, r.limits);
    FatesAreFaults(loaded, r, around, k);
    FlattenedLength(around.stderr);
    if k < |Requests(r)| {
      FateOfReply(loaded, r, around, k);
      FaultIsFirst(env, r, k);
      ReplyLength(loaded, r, around, k);
    } else {
      NoFault(env, r);
    }
  }

  lemma ReplyLength<S>(loaded: Loaded<S>, r: SandboxRequest, around: Surroundings, k: nat)
    requires k < |Requests(r)|
    ensures LineLength(ReplyAt(WithWorker(loaded, around, r.limits), r, k)) == LastRead(loaded, r, around, k)
  {
    hide OwedFor;
  }

  /** The result of a run whose first fate is at exchange k, or nowhere: each frame is the
      line owed to its bar, and the fate decides the rest. */
  predicate Verdict<S>(loaded: Loaded<S>, r: SandboxRequest, around: Surroundings, k: nat, result: SandboxResult)
    requires FirstFate(loaded, r, around, k)
  {
    && |result.frames| == BarsAnswered(r, k)
    && FramesOwed(loaded, r, result.frames)
    && Measured(loaded, r, around, k, result)
    && if k < |Requests(r)| then
         var fault := Fate(loaded, r, around, k).value;
         result.status == StatusOf(fault) && result.error == ErrorOf(fault)
       else if LastFate(loaded, r, around).Some? then
         var fault := LastFate(loaded, r, around).value;
         result.status == StatusOf(fault) && result.error == ErrorOf(fault)
       else if Overflows(loaded, r, around) then
         result.status == ProtocolError && result.error == Violated(OutputExceeded)
       else
         result.status == Completed && result.error == NoError
  }

  /** Every run of every module, whatever it prints, raises or does to the clock: the frames
      are the lines owed to their bars, and the first exchange with a fate decides status,
      error and number of frames; without one, the exit and the output do. */
  lemma EveryRunIsClassified<S>(loaded: Loaded<S>, r: SandboxRequest, around: Surroundings, k: nat)
    requires around.Valid() && FirstFate(loaded, r, around, k)
    ensures Verdict(loaded, r, around, k, Drive(WithWorker(loaded, around, r.limits), r))
  {
    hide Fate, FaultAt, Says, OwedFor, ExitFault, WorkerExit, Requests, FramesOwed, Measured;
    var env := WithWorker(loaded, around, r.limits);
    FatesAreFaults(loaded, r, around, k);
    FramesAreOwed(loaded, r, around);
    RunMeasures(loaded, r, around, k);
    if k < |Requests(r)| {
      FateOfReply(loaded, r, around, k);
      FaultIsFirst(env, r, k);
    } else {
      NoFault(env, r);
    }
  }

  /** And there is always one such exchange, or none at all. */
  lemma {:induction false} SomeFirstFate<S>(loaded: Loaded<S>, r: SandboxRequest, around: Surroundings, from: nat)
    returns (k: nat)
    requires from <= |Requests(r)|
    requires forall j :: 0 <= j < from ==> Fate(loaded, r, around, j).None?
    ensures from <= k && FirstFate(loaded, r, around, k)
    decreases |Requests(r)| - from
  {
    hide Fate;
    if from == |Requests(r)| || Fate(loaded, r, around, from).Some? {
      k := from;
    } else {
      k := SomeFirstFate(loaded, r, around, from + 1);
    }
  }

  // ----- behaving strategies

  predicate Portfolio(init: InitializeFrame, act: Act<seq<Number>>) {
    act.Did? && AllFinite(act.value) && Admissible(Values(act.value), init)
  }

  /** The strategy is constructed and answers its first bars with admissible portfolios. */
  predicate BehavesThrough<S>(strategy: Strategy<S>, r: SandboxRequest, k: nat)
    requires k <= |r.bars|
  {
    DidThrough(strategy, r, k) && forall i :: 0 <= i < k ==> Portfolio(r.init, ActAt(strategy, r, i))
  }

  /** Exchange k is over in time, and everything up to it fits the budget. */
  predicate InBounds<S>(loaded: Loaded<S>, r: SandboxRequest, around: Surroundings, k: nat)
    requires k < |Requests(r)|
  {
    && Spent(r, around, k + 1) <= r.limits.timeoutSeconds
    && Bytes(loaded, r, around, k + 1) <= r.limits.maxOutputBytes
  }

  lemma BytesIncludeLine<S>(loaded: Loaded<S>, r: SandboxRequest, around: Surroundings, k: nat)
    requires k < |Requests(r)|
    ensures LengthOf(around, Says(loaded, r, k)) <= Bytes(loaded, r, around, k + 1)
  {
    hide Says;
  }

  /** The exchanges a behaving strategy gets through are all accepted, as long as the clock
      and the budget last. */
  lemma BehavedHasNoFate<S>(strategy: Strategy<S>, r: SandboxRequest, around: Surroundings, k: nat)
    requires r.Valid() && k < |Requests(r)|
    requires BehavesThrough(strategy, r, BarsAnswered(r, k + 1))
    ensures Fate(Worker.Done(strategy), r, around, k).None? <==> InBounds(Worker.Done(strategy), r, around, k)
    ensures Fate(Worker.Done(strategy), r, around, k) in {
              None, Some(TimedOut), Some(ProtocolViolation(LineTooLarge)), Some(ProtocolViolation(OutputExceeded))}
  {
    hide Says, Spent, Bytes, StartAct, InstanceBefore, ActOn, DidThrough;
    BytesIncludeLine(Worker.Done(strategy), r, around, k);
    if k == 0 {
      OwedAtStart(strategy, r);
      StartDid(strategy, r, 0);
    } else if k <= |r.bars| {
      DidEarlier(strategy, r, k, k - 1);
      OwedOnBar(strategy, r, k - 1);
    } else {
      OwedAtStop(strategy, r);
    }
  }

  lemma StartDid<S>(strategy: Strategy<S>, r: SandboxRequest, k: nat)
    requires k <= |r.bars| && DidThrough(strategy, r, k)
    ensures StartAct(strategy, r.init).Did?
  {
  }

  lemma DidEarlier<S>(strategy: Strategy<S>, r: SandboxRequest, k: nat, i: nat)
    requires i <= k <= |r.bars| && DidThrough(strategy, r, k)
    ensures DidThrough(strategy, r, i)
    ensures i < k ==> InstanceBefore(strategy, r.init, r.bars, i).Some? && ActAt(strategy, r, i).Did?
  {
  }

  lemma BehavedEarlier<S>(strategy: Strategy<S>, r: SandboxRequest, k: nat, i: nat)
    requires i <= k <= |r.bars| && BehavesThrough(strategy, r, k)
    ensures BehavesThrough(strategy, r, i)
  {
    hide ActOn, InstanceBefore, StartAct;
  }

  lemma {:induction false} SpentGrows(r: SandboxRequest, around: Surroundings, j: nat, k: nat)
    requires around.Valid() && j <= k <= |Requests(r)|
    ensures Spent(r, around, j) <= Spent(r, around, k)
  {
    if j < k {
      SpentGrows(r, around, j, k - 1);
      var sent := Requests(r)[..k];
      assert sent[..|sent| - 1] == Requests(r)[..k - 1];
    }
  }

  lemma {:induction false} BytesGrow<S>(loaded: Loaded<S>, r: SandboxRequest, around: Surroundings, j: nat, k: nat)
    requires j <= k <= |Requests(r)|
    ensures Bytes(loaded, r, around, j) <= Bytes(loaded, r, around, k)
  {
    if j < k {
      BytesGrow(loaded, r, around, j, k - 1);
    }
  }

  lemma InBoundsEarlier<S>(loaded: Loaded<S>, r: SandboxRequest, around: Surroundings, k: nat, j: nat)
    requires around.Valid() && j <= k < |Requests(r)| && InBounds(loaded, r, around, k)
    ensures InBounds(loaded, r, around, j)
  {
    hide Spent, Bytes;
    SpentGrows(r, around, j + 1, k + 1);
    BytesGrow(loaded, r, around, j + 1, k + 1);
  }

  /** A behaving strategy has no fate before the first exchange out of bounds. */
  lemma BehavedPrefix<S>(strategy: Strategy<S>, r: SandboxRequest, around: Surroundings, k: nat)
    requires r.Valid() && around.Valid() && k <= |Requests(r)|
    requires BehavesThrough(strategy, r, BarsAnswered(r, k))
    requires 0 < k ==> InBounds(Worker.Done(strategy), r, around, k - 1)
    ensures forall j :: 0 <= j < k ==> Fate(Worker.Done(strategy), r, around, j).None?
  {
    hide Fate, InBounds, BehavesThrough;
    forall j | 0 <= j < k
      ensures Fate(Worker.Done(strategy), r, around, j).None?
    {
      BehavedEarlier(strategy, r, BarsAnswered(r, k), BarsAnswered(r, j + 1));
      InBoundsEarlier(Worker.Done(strategy), r, around, k - 1, j);
      BehavedHasNoFate(strategy, r, around, j);
    }
  }

  /** The strategy's own account of a run that completes: every bar answered with an admissible
      portfolio, within the time and the output allowed, and a clean exit. */
  predicate WellBehaved<S>(strategy: Strategy<S>, r: SandboxRequest, around: Surroundings) {
    var n := |Requests(r)|;
    && BehavesThrough(strategy, r, |r.bars|)
    && Spent(r, around, n) + around.exitSeconds <= r.limits.timeoutSeconds
    && around.exitCode == 0
    && Bytes(Worker.Done(strategy), r, around, n) + |Flatten(around.stderr)| <= r.limits.maxOutputBytes
  }

  /** No call the run reaches prints on the protocol stream. */
  predicate Quiet<S>(strategy: Strategy<S>, r: SandboxRequest) {
    && !StartAct(strategy, r.init).Prints?
    && forall i :: 0 <= i < |r.bars| && DidThrough(strategy, r, i) && InstanceBefore(strategy, r.init, r.bars, i).Some? ==>
         !ActAt(strategy, r, i).Prints?
  }

  lemma WellBehavedCompletes<S>(strategy: Strategy<S>, r: SandboxRequest, around: Surroundings)
    requires r.Valid() && around.Valid() && WellBehaved(strategy, r, around)
    ensures Drive(WithWorker(Worker.Done(strategy), around, r.limits), r).Succeeded()
  {
    hide Fate, LastFate, Spent, Bytes, BehavesThrough, Drive;
    var loaded := Worker.Done(strategy);
    var n := |Requests(r)|;
    BehavedPrefix(strategy, r, around, n);
    BehavedExit(strategy, r, around);
    EveryRunIsClassified(loaded, r, around, n);
  }

  lemma BehavedExit<S>(strategy: Strategy<S>, r: SandboxRequest, around: Surroundings)
    requires BehavesThrough(strategy, r, |r.bars|)
    ensures LastFate(Worker.Done(strategy), r, around) ==
              if r.limits.timeoutSeconds < Spent(r, around, |Requests(r)|) + around.exitSeconds then Some(TimedOut)
              else if around.exitCode != 0 then Some(ExitFailure(around.exitCode))
              else None
  {
    hide InstanceBefore, ActOn;
    OwedAtStop(strategy, r);
    assert Requests(r)[..|Requests(r)|] == Requests(r);
  }

  /** An accepted exchange with a quiet strategy is one it behaved on. */
  lemma AcceptedMeansBehaved<S>(strategy: Strategy<S>, r: SandboxRequest, around: Surroundings, i: nat)
    requires r.Valid() && i < |r.bars| && Quiet(strategy, r)
    requires BehavesThrough(strategy, r, i)
    requires Fate(Worker.Done(strategy), r, around, i + 1).None?
    ensures BehavesThrough(strategy, r, i + 1)
  {
    hide Says, Spent, Bytes, StartAct, InstanceBefore, ActOn;
    OwedOnBar(strategy, r, i);
    QuietAt(strategy, r, i);
  }

  lemma QuietAt<S>(strategy: Strategy<S>, r: SandboxRequest, i: nat)
    requires Quiet(strategy, r) && i < |r.bars| && DidThrough(strategy, r, i)
    ensures InstanceBefore(strategy, r.init, r.bars, i).Some? && !ActAt(strategy, r, i).Prints?
  {
    DidGoesOn(strategy, r, i);
  }

  lemma AcceptedStart<S>(strategy: Strategy<S>, r: SandboxRequest, around: Surroundings)
    requires Quiet(strategy, r) && Fate(Worker.Done(strategy), r, around, 0).None?
    ensures BehavesThrough(strategy, r, 0)
  {
    hide Says, Spent, Bytes;
    OwedAtStart(strategy, r);
  }

  lemma {:induction false} AllAcceptedMeansBehaved<S>(strategy: Strategy<S>, r: SandboxRequest, around: Surroundings, i: nat)
    requires r.Valid() && i <= |r.bars| && Quiet(strategy, r)
    requires forall j :: 0 <= j <= i ==> Fate(Worker.Done(strategy), r, around, j).None?
    ensures BehavesThrough(strategy, r, i)
  {
    hide Fate, BehavesThrough, Quiet;
    if i == 0 {
      AcceptedStart(strategy, r, around);
    } else {
      AllAcceptedMeansBehaved(strategy, r, around, i - 1);
      AcceptedMeansBehaved(strategy, r, around, i - 1);
    }
  }

  lemma CompletedIsWellBehaved<S>(strategy: Strategy<S>, r: SandboxRequest, around: Surroundings)
    requires r.Valid() && around.Valid() && Quiet(strategy, r)
    requires Drive(WithWorker(Worker.Done(strategy), around, r.limits), r).Succeeded()
    ensures WellBehaved(strategy, r, around)
  {
    hide Fate, LastFate, Spent, Bytes, BehavesThrough, Drive, Quiet;
    var loaded := Worker.Done(strategy);
    var k := SomeFirstFate(loaded, r, around, 0);
    EveryRunIsClassified(loaded, r, around, k);
    NoFaultCompletes(loaded, r, around, k);
    AllAcceptedMeansBehaved(strategy, r, around, |r.bars|);
    BehavedExit(strategy, r, around);
  }

  lemma NoFaultCompletes<S>(loaded: Loaded<S>, r: SandboxRequest, around: Surroundings, k: nat)
    requires FirstFate(loaded, r, around, k)
    requires Verdict(loaded, r, around, k, Drive(WithWorker(loaded, around, r.limits), r))
    requires Drive(WithWorker(loaded, around, r.limits), r).Succeeded()
    ensures k == |Requests(r)| && LastFate(loaded, r, around).None? && !Overflows(loaded, r, around)
  {
    hide Fate, LastFate, Overflows, Drive;
  }

  /** The frames a behaving strategy leaves are its answers. */
  lemma BehavedFrames<S>(strategy: Strategy<S>, r: SandboxRequest, around: Surroundings, i: nat)
    requires r.Valid() && around.Valid()
    requires i < |Drive(WithWorker(Worker.Done(strategy), around, r.limits), r).frames|
    requires i < |r.bars| && BehavesThrough(strategy, r, i + 1)
    ensures InstanceBefore(strategy, r.init, r.bars, i).Some? && ActAt(strategy, r, i).Did?
    ensures Drive(WithWorker(Worker.Done(strategy), around, r.limits), r).frames[i].weights == ActAt(strategy, r, i).value
  {
    hide Drive, OwedFor, BehavesThrough, InstanceBefore, ActOn;
    var env := WithWorker(Worker.Done(strategy), around, r.limits);
    FramesAlwaysPrefix(env, r);
    assert IsAnswer(env, r, Drive(env, r).frames[i], i);
    BehavedActs(strategy, r, i);
    OwedOnBar(strategy, r, i);
  }

  /** And those are the very numbers it returned: ints as they are, floats as they are. */
  lemma FramesCarryReturned<S>(strategy: Strategy<S>, r: SandboxRequest, around: Surroundings, i: nat)
    returns (items: seq<Worker.Item>)
    requires r.Valid() && around.Valid()
    requires i < |Drive(WithWorker(Worker.Done(strategy), around, r.limits), r).frames|
    requires i < |r.bars| && BehavesThrough(strategy, r, i + 1)
    ensures InstanceBefore(strategy, r.init, r.bars, i).Some?
    ensures var outcome := strategy.onBar(InstanceBefore(strategy, r.init, r.bars, i).value, r.bars[i]).outcome;
            outcome.Done? && outcome.value.1 == Worker.Items(items)
    ensures var weights := Drive(WithWorker(Worker.Done(strategy), around, r.limits), r).frames[i].weights;
            && |weights| == |items|
            && forall k :: 0 <= k < |items| ==> Worker.Becomes(items[k], weights[k])
  {
    hide Drive, BehavesThrough, InstanceBefore, Worker.CoerceWeights;
    BehavedFrames(strategy, r, around, i);
    var call := strategy.onBar(InstanceBefore(strategy, r.init, r.bars, i).value, r.bars[i]);
    assert ActAt(strategy, r, i).Did?;
    Worker.CoercionIsExact(call.outcome.value.1);
    items := call.outcome.value.1.items;
  }

  lemma BehavedActs<S>(strategy: Strategy<S>, r: SandboxRequest, i: nat)
    requires i < |r.bars| && BehavesThrough(strategy, r, i + 1)
    ensures DidThrough(strategy, r, i)
    ensures InstanceBefore(strategy, r.init, r.bars, i).Some? && Portfolio(r.init, ActAt(strategy, r, i))
  {
    hide ActOn, InstanceBefore, StartAct;
  }

  /** The driver around the worker loop completes exactly for strategies that answer every bar
      with an admissible portfolio within time and output limits, and exit cleanly; the frames
      are then the strategy's fold over the bars. A strategy that prints on the protocol stream
      itself may complete in other ways, any other one may not; CompletesExactlyWhenOwed covers
      both. */
  lemma CompletesExactlyWhenWellBehaved<S>(strategy: Strategy<S>, r: SandboxRequest, around: Surroundings)
    requires r.Valid() && around.Valid()
    ensures var result := Drive(WithWorker(Worker.Done(strategy), around, r.limits), r);
            && (WellBehaved(strategy, r, around) ==> result.Succeeded())
            && (Quiet(strategy, r) ==> (result.Succeeded() <==> WellBehaved(strategy, r, around)))
            && (WellBehaved(strategy, r, around) ==>
                  && |result.frames| == |r.bars|
                  && forall i :: 0 <= i < |r.bars| ==>
                       && InstanceBefore(strategy, r.init, r.bars, i).Some?
                       && ActAt(strategy, r, i).Did?
                       && result.frames[i].weights == ActAt(strategy, r, i).value)
  {
    hide Drive, Quiet, BehavesThrough, ActOn, InstanceBefore;
    var env := WithWorker(Worker.Done(strategy), around, r.limits);
    if WellBehaved(strategy, r, around) {
      WellBehavedCompletes(strategy, r, around);
      CompletedFrames(env, r);
      forall i | 0 <= i < |r.bars|
        ensures InstanceBefore(strategy, r.init, r.bars, i).Some? && ActAt(strategy, r, i).Did?
        ensures Drive(env, r).frames[i].weights == ActAt(strategy, r, i).value
      {
        BehavedEarlier(strategy, r, |r.bars|, i + 1);
        BehavedFrames(strategy, r, around, i);
      }
    } else if Quiet(strategy, r) && Drive(env, r).Succeeded() {
      CompletedIsWellBehaved(strategy, r, around);
    }
  }

  // ----- completion, line by line

  /** Every exchange is owed the line it calls for, and the worker exits with status 0 in
      time, everything it wrote within the budget. */
  predicate OwesCleanRun<S>(loaded: Loaded<S>, r: SandboxRequest, around: Surroundings) {
    && (forall k :: 0 <= k < |Requests(r)| ==> Says(loaded, r, k).Owes? && GoodContent(r, k, Says(loaded, r, k).line))
    && WorkerExit(loaded, around, r.limits, Requests(r)) == Exited(0)
    && !Overflows(loaded, r, around)
  }

  /** Apart from time and budget an exchange is accepted exactly when it is owed its line. */
  lemma OwedIsAccepted<S>(loaded: Loaded<S>, r: SandboxRequest, around: Surroundings, k: nat)
    requires k < |Requests(r)|
    ensures Fate(loaded, r, around, k).None? <==>
              InBounds(loaded, r, around, k) && Says(loaded, r, k).Owes? && GoodContent(r, k, Says(loaded, r, k).line)
  {
    hide Says, Spent, Bytes;
    BytesIncludeLine(loaded, r, around, k);
  }

  lemma CleanIsInBounds<S>(loaded: Loaded<S>, r: SandboxRequest, around: Surroundings, k: nat)
    requires around.Valid() && OwesCleanRun(loaded, r, around) && k < |Requests(r)|
    ensures InBounds(loaded, r, around, k)
  {
    hide Says, Bytes, GoodContent;
    SpentGrows(r, around, k + 1, |Requests(r)|);
    BytesGrow(loaded, r, around, k + 1, |Requests(r)|);
    assert Requests(r)[..|Requests(r)|] == Requests(r);
  }

  /** Any module, whatever it prints, completes exactly when every line read is the one its
      exchange calls for and it exits with status 0, in time and within the budget. */
  lemma CompletesExactlyWhenOwed<S>(loaded: Loaded<S>, r: SandboxRequest, around: Surroundings)
    requires around.Valid()
    ensures Drive(WithWorker(loaded, around, r.limits), r).Succeeded() <==> OwesCleanRun(loaded, r, around)
  {
    hide Drive, Fate, InBounds, GoodContent, Overflows, FramesOwed, WorkerExit, Says;
    var k := SomeFirstFate(loaded, r, around, 0);
    EveryRunIsClassified(loaded, r, around, k);
    if OwesCleanRun(loaded, r, around) {
      if k < |Requests(r)| {
        CleanIsInBounds(loaded, r, around, k);
        OwedIsAccepted(loaded, r, around, k);
      }
    } else if Drive(WithWorker(loaded, around, r.limits), r).Succeeded() {
      NoFaultCompletes(loaded, r, around, k);
      forall j | 0 <= j < |Requests(r)|
        ensures Says(loaded, r, j).Owes? && GoodContent(r, j, Says(loaded, r, j).line)
      {
        OwedIsAccepted(loaded, r, around, j);
      }
      NoLastFate(loaded, r, around);
      assert false;
    }
  }

  lemma NoLastFate<S>(loaded: Loaded<S>, r: SandboxRequest, around: Surroundings)
    ensures LastFate(loaded, r, around).None? <==> WorkerExit(loaded, around, r.limits, Requests(r)) == Exited(0)
  {
    hide WorkerExit;
  }

  // ----- the first misstep

  predicate Reportable(message: string) {
    1 <= |message| <= 512
  }

  /** What becomes of a run whose first misstep is this act, its line in time: error frames a
      driver accepts are RUNTIME_ERROR, a silent call TIMEOUT, all else PROTOCOL_ERROR. */
  predicate ActVerdict<T>(act: Act<T>, fits: bool, result: SandboxResult) {
    match act
    case Did(_) => result.status == ProtocolError
    case Loops => result.status == Timeout
    case Escapes => result.status == ProtocolError && result.error == Violated(StreamClosed)
    case Fails(message) =>
      if Reportable(message) && fits
      then result.status == RuntimeError && result.error == CandidateMessage(message)
      else result.status == ProtocolError
    case Prints(first) =>
      if ParseResponse(first).Some? && ParseResponse(first).value.CandidateError? && fits
      then result.status == RuntimeError
      else result.status == ProtocolError
  }

  /** The next line is a line of the strategy's own that the driver takes for the answer. */
  predicate PassesForAnswer<T>(act: Act<T>, r: SandboxRequest, k: nat)
    requires k < |Requests(r)|
  {
    act.Prints? && ParseResponse(act.first).Some? && Check(r, k, ParseResponse(act.first).value).None?
  }

  /** An act in time leaves its exchange without a fate exactly when a line passes for the
      answer and fits the budget. */
  lemma ActFate<S, T>(loaded: Loaded<S>, r: SandboxRequest, around: Surroundings, k: nat, act: Act<T>,
                      sequence: Option<int>, done: RawResponse)
    requires k <= |r.bars|
    requires Spent(r, around, k + 1) <= r.limits.timeoutSeconds
    requires Says(loaded, r, k) == Owe(act, sequence, done)
    requires sequence.Some? ==> 0 <= sequence.value
    requires act.Did? ==> ParseResponse(done).Some? && !ParseResponse(done).value.CandidateError?
                          && Check(r, k, ParseResponse(done).value).Some?
    ensures var fits := Bytes(loaded, r, around, k + 1) <= r.limits.maxOutputBytes;
            && (Fate(loaded, r, around, k).None? <==> PassesForAnswer(act, r, k) && fits)
            && (Fate(loaded, r, around, k).Some? ==>
                  var fault := Fate(loaded, r, around, k).value;
                  forall result: SandboxResult ::
                    result.status == StatusOf(fault) && result.error == ErrorOf(fault) ==> ActVerdict(act, fits, result))
  {
    hide Says, Spent, Bytes;
    BytesIncludeLine(loaded, r, around, k);
  }

  /** A strategy that behaves up to bar k and then answers inadmissibly, raises, loops or
      prints: late, it is a TIMEOUT with k frames; in time, it gets past bar k if and only if
      a line it printed passes for the answer and fits the budget, which is then the frame of
      bar k; otherwise there are exactly k frames and the status is PROTOCOL_ERROR,
      RUNTIME_ERROR or TIMEOUT. Raising is RUNTIME_ERROR exactly when the exception can be
      rendered, to 1 to 512 characters, on a line within the budget. */
  lemma FirstMisstepDecides<S>(strategy: Strategy<S>, r: SandboxRequest, around: Surroundings, k: nat)
    requires r.Valid() && around.Valid() && k < |r.bars|
    requires BehavesThrough(strategy, r, k) && !BehavesThrough(strategy, r, k + 1)
    requires InBounds(Worker.Done(strategy), r, around, k)
    ensures InstanceBefore(strategy, r.init, r.bars, k).Some?
    ensures var result := Drive(WithWorker(Worker.Done(strategy), around, r.limits), r);
            var act := ActAt(strategy, r, k);
            var fits := Bytes(Worker.Done(strategy), r, around, k + 2) <= r.limits.maxOutputBytes;
            if r.limits.timeoutSeconds < Spent(r, around, k + 2) then
              |result.frames| == k && result.status == Timeout
            else
              && (k < |result.frames| <==> PassesForAnswer(act, r, k + 1) && fits)
              && (k < |result.frames| ==> act == Prints(RawWeights(r.bars[k].sequence, result.frames[k].weights)))
              && (|result.frames| <= k ==> |result.frames| == k && ActVerdict(act, fits, result))
  {
    hide Drive, Fate, Spent, Bytes, ActOn, InstanceBefore, StartAct, ActVerdict, Says, Verdict, PassesForAnswer;
    var loaded := Worker.Done(strategy);
    var bar := r.bars[k];
    OwedOnBar(strategy, r, k);
    var act := ActAt(strategy, r, k);
    BehavedPrefix(strategy, r, around, k + 1);
    if r.limits.timeoutSeconds < Spent(r, around, k + 2) {
      LateIsTimedOut(loaded, r, around, k + 1);
      EndsAt(loaded, r, around, k + 1);
    } else {
      MisstepAnswer(strategy, r, k);
      var done := RawWeights(bar.sequence, if act.Did? then act.value else []);
      ActFate(loaded, r, around, k + 1, act, Some(bar.sequence), done);
      if Fate(loaded, r, around, k + 1).Some? {
        EndsAt(loaded, r, around, k + 1);
      } else {
        GetsPast(loaded, r, around, k);
        PassedIsPrinted(act, r, k + 1);
      }
    }
  }

  lemma PassedIsPrinted<T>(act: Act<T>, r: SandboxRequest, k: nat)
    requires k < |Requests(r)| && PassesForAnswer(act, r, k)
    ensures act.Prints?
  {
  }

  lemma EndsAt<S>(loaded: Loaded<S>, r: SandboxRequest, around: Surroundings, k: nat)
    requires around.Valid() && k < |Requests(r)|
    requires forall j :: 0 <= j < k ==> Fate(loaded, r, around, j).None?
    requires Fate(loaded, r, around, k).Some?
    ensures var result, fault := Drive(WithWorker(loaded, around, r.limits), r), Fate(loaded, r, around, k).value;
            |result.frames| == BarsAnswered(r, k) && result.status == StatusOf(fault) && result.error == ErrorOf(fault)
  {
    hide Drive, Fate, FramesOwed;
    EveryRunIsClassified(loaded, r, around, k);
  }

  lemma GetsPast<S>(loaded: Loaded<S>, r: SandboxRequest, around: Surroundings, k: nat)
    requires around.Valid() && k < |r.bars|
    requires forall j :: 0 <= j < k + 2 ==> Fate(loaded, r, around, j).None?
    ensures var frames := Drive(WithWorker(loaded, around, r.limits), r).frames;
            k < |frames| && Says(loaded, r, k + 1) == Owes(RawWeights(r.bars[k].sequence, frames[k].weights))
  {
    hide Drive, Fate, Says;
    var first := SomeFirstFate(loaded, r, around, k + 2);
    EveryRunIsClassified(loaded, r, around, first);
    var frames := Drive(WithWorker(loaded, around, r.limits), r).frames;
    assert FrameOwed(loaded, r, k, frames[k]);
  }

  lemma LateIsTimedOut<S>(loaded: Loaded<S>, r: SandboxRequest, around: Surroundings, k: nat)
    requires k < |Requests(r)| && r.limits.timeoutSeconds < Spent(r, around, k + 1)
    ensures Fate(loaded, r, around, k) == Some(TimedOut)
  {
  }

  lemma MisstepAnswer<S>(strategy: Strategy<S>, r: SandboxRequest, k: nat)
    requires r.Valid() && k < |r.bars|
    requires BehavesThrough(strategy, r, k) && !BehavesThrough(strategy, r, k + 1)
    requires InstanceBefore(strategy, r.init, r.bars, k).Some?
    ensures var act := ActAt(strategy, r, k);
            act.Did? ==>
              var done := ParseResponse(RawWeights(r.bars[k].sequence, act.value));
              done.Some? && done.value.Weights? && Check(r, k + 1, done.value).Some?
  {
    hide StartAct, InstanceBefore, ActOn;
    DidWeightsAreFiniteAt(strategy, r, k);
  }

  lemma DidWeightsAreFiniteAt<S>(strategy: Strategy<S>, r: SandboxRequest, k: nat)
    requires k < |r.bars| && InstanceBefore(strategy, r.init, r.bars, k).Some?
    ensures ActAt(strategy, r, k).Did? ==> AllFinite(ActAt(strategy, r, k).value)
  {
    hide InstanceBefore;
    DidWeightsAreFinite(strategy, InstanceBefore(strategy, r.init, r.bars, k).value, r.bars[k]);
  }

  /** Late, the start is a TIMEOUT; in time, the driver goes on to the first bar if and only
      if a printed line passes for ready and fits the budget; otherwise there are no frames
      and the act decides. */
  predicate StartDecides<S>(loaded: Loaded<S>, act: Act<S>, r: SandboxRequest, around: Surroundings) {
    var result := Drive(WithWorker(loaded, around, r.limits), r);
    var fits := Bytes(loaded, r, around, 1) <= r.limits.maxOutputBytes;
    if r.limits.timeoutSeconds < Spent(r, around, 1) then
      result.frames == [] && result.status == Timeout
    else
      && (Fate(loaded, r, around, 0).None? <==> PassesForAnswer(act, r, 0) && fits)
      && (Fate(loaded, r, around, 0).Some? ==> result.frames == [] && ActVerdict(act, fits, result))
  }

  lemma FaultyStart<S>(loaded: Loaded<S>, act: Act<S>, r: SandboxRequest, around: Surroundings)
    requires r.Valid() && around.Valid() && !act.Did?
    requires Says(loaded, r, 0) == Owe(act, None, RawReady(PROTOCOL_VERSION))
    ensures StartDecides(loaded, act, r, around)
  {
    hide Drive, Fate, Spent, Bytes, ActVerdict, Says;
    if r.limits.timeoutSeconds < Spent(r, around, 1) {
      LateIsTimedOut(loaded, r, around, 0);
    } else {
      ActFate(loaded, r, around, 0, act, None, RawReady(PROTOCOL_VERSION));
    }
    if Fate(loaded, r, around, 0).Some? {
      EndsAt(loaded, r, around, 0);
    }
  }

  /** The same for a strategy that cannot be constructed. */
  lemma FailedStartDecides<S>(strategy: Strategy<S>, r: SandboxRequest, around: Surroundings)
    requires r.Valid() && around.Valid() && !StartAct(strategy, r.init).Did?
    ensures StartDecides(Worker.Done(strategy), StartAct(strategy, r.init), r, around)
  {
    hide StartAct, Says, StartDecides;
    OwedAtStart(strategy, r);
    FaultyStart(Worker.Done(strategy), StartAct(strategy, r.init), r, around);
  }

  /** And for a module that raises, or hangs, while it is loaded. */
  lemma FailedLoadDecides<S>(loaded: Loaded<S>, r: SandboxRequest, around: Surroundings)
    requires r.Valid() && around.Valid() && !loaded.Done?
    ensures StartDecides(loaded, if loaded.Threw? then Raising(loaded.exc) else Loops, r, around)
  {
    hide StartDecides, Worker.MessageError;
    var act: Act<S> := if loaded.Threw? then Raising(loaded.exc) else Loops;
    assert Says(loaded, r, 0) == Owe(act, None, RawReady(PROTOCOL_VERSION));
    FaultyStart(loaded, act, r, around);
  }

  // ----- running out of time or output

  /** A strategy that would behave to the end but is still answering exchange k when the time
      is up is a TIMEOUT with the bars answered before it, and one whose lines outgrow the
      budget there a PROTOCOL_ERROR with the same frames. */
  lemma OutOfBoundsDecides<S>(strategy: Strategy<S>, r: SandboxRequest, around: Surroundings, k: nat)
    requires r.Valid() && around.Valid() && k < |Requests(r)|
    requires BehavesThrough(strategy, r, BarsAnswered(r, k + 1))
    requires 0 < k ==> InBounds(Worker.Done(strategy), r, around, k - 1)
    requires !InBounds(Worker.Done(strategy), r, around, k)
    ensures var result := Drive(WithWorker(Worker.Done(strategy), around, r.limits), r);
            && |result.frames| == BarsAnswered(r, k)
            && result.status == (if r.limits.timeoutSeconds < Spent(r, around, k + 1) then Timeout else ProtocolError)
  {
    hide Drive, Spent, Bytes, BehavesThrough, Says;
    var loaded := Worker.Done(strategy);
    BehavedEarlier(strategy, r, BarsAnswered(r, k + 1), BarsAnswered(r, k));
    BehavedPrefix(strategy, r, around, k);
    BehavedHasNoFate(strategy, r, around, k);
    OwedWhileBehaving(strategy, r, k);
    hide Fate;
    EveryRunIsClassified(loaded, r, around, k);
  }

  lemma OwedWhileBehaving<S>(strategy: Strategy<S>, r: SandboxRequest, k: nat)
    requires k < |Requests(r)| && BehavesThrough(strategy, r, BarsAnswered(r, k + 1))
    ensures Says(Worker.Done(strategy), r, k).Owes?
  {
    hide Says, StartAct, InstanceBefore, ActOn, DidThrough;
    if k == 0 {
      OwedAtStart(strategy, r);
      StartDid(strategy, r, 0);
    } else if k <= |r.bars| {
      DidEarlier(strategy, r, k, k - 1);
      OwedOnBar(strategy, r, k - 1);
    } else {
      OwedAtStop(strategy, r);
    }
  }

  /** Once every exchange is accepted, only the exit is left: late, it is a TIMEOUT, and with
      another status than 0 a RUNTIME_ERROR, all frames kept. */
  lemma ExitDecides<S>(strategy: Strategy<S>, r: SandboxRequest, around: Surroundings)
    requires r.Valid() && around.Valid() && BehavesThrough(strategy, r, |r.bars|)
    requires InBounds(Worker.Done(strategy), r, around, |r.bars| + 1)
    requires !WellBehaved(strategy, r, around)
    ensures var result := Drive(WithWorker(Worker.Done(strategy), around, r.limits), r);
            && |result.frames| == |r.bars|
            && if r.limits.timeoutSeconds < Spent(r, around, |r.bars| + 2) + around.exitSeconds then
                 result.status == Timeout && result.error == ExceededWallClock
               else if around.exitCode != 0 then
                 result.status == RuntimeError && result.error == WorkerExited(around.exitCode)
               else result.status == ProtocolError && result.error == Violated(OutputExceeded)
  {
    hide Fate, LastFate, Spent, Bytes, BehavesThrough, Drive;
    var n := |Requests(r)|;
    BehavedPrefix(strategy, r, around, n);
    BehavedExit(strategy, r, around);
    EveryRunIsClassified(Worker.Done(strategy), r, around, n);
  }

  // ----- error frames and concrete cases

  /** In any environment: an error frame within the budget after an accepted prefix gives
      RUNTIME_ERROR if and only if the exchange is not the last; in reply to stop it is a
      PROTOCOL_ERROR. */
  lemma ErrorFrameDecides(env: Environment, r: SandboxRequest, k: nat, message: string)
    requires env.spawns && k < |Requests(r)| && Accepted(env, r, k)
    requires Read(ReplyAt(env, r, k), Counted(env, r, k), r.limits.maxOutputBytes) == Success(CandidateError(message))
    ensures var result := Drive(env, r);
            && (result.status == RuntimeError <==> k != |Requests(r)| - 1)
            && (result.status == RuntimeError || result.error == Violated(NotStopped))
            && |result.frames| == BarsAnswered(r, k)
  {
    hide Requests, Read, FrameAt, Counted, Flatten, ReplyAt;
    FaultIsFirst(env, r, k);
  }

  /** One bar of a market of two symbols, with ample limits. */
  function OneBar(): SandboxRequest {
    SandboxRequest(
      CandidateProgram("", ""),
      InitializeFrame(["A", "B"], 0, 1.0, 1.0, true),
      [BarFrame(0, Row("", [1.0, 1.0], [0.0, 0.0], [0.0, 0.0], [0.0, 0.0], [0.0, 0.0], [0.0, 0.0]))],
      ExecutionLimits(10.0, 1024, 1))
  }

  function Calm(): Surroundings {
    Surroundings(_ => 10, _ => 0.0, 0.0, 0, [], 0.0)
  }

  const NO_POSITIONS := RawWeights(0, [Finite(0.0), Finite(0.0)])

  /** Its tolist prints two lines, and returns no weights at all. */
  function PrintsAnswers(): Strategy<()> {
    Worker.Strategy(
      (symbols: seq<string>, seed: int) => Worker.Call([], Worker.Done(())),
      (instance: (), bar: BarFrame) =>
        Worker.Call([NO_POSITIONS, RawStopped], Worker.Done((instance, Worker.Items([])))))
  }


  lemma PrintedHandling()
    ensures var strategy, r := PrintsAnswers(), OneBar();
            && Worker.Handle(strategy, None, Encode(Initialize(r.init)))
                 == ([RawReady(PROTOCOL_VERSION)], Worker.Running(Some(())))
            && Worker.Handle(strategy, Some(()), Encode(Bar(r.bars[0])))
                 == ([NO_POSITIONS, RawStopped, RawWeights(0, [])], Worker.Running(Some(())))
            && Worker.Handle(strategy, Some(()), Encode(Stop)) == ([RawStopped], Worker.Exited(0))
  {
    assert Worker.CoerceWeights(Worker.Items([])) == Success([]);
    assert [] + [RawReady(PROTOCOL_VERSION)] == [RawReady(PROTOCOL_VERSION)];
    assert [NO_POSITIONS, RawStopped] + [RawWeights(0, [])] == [NO_POSITIONS, RawStopped, RawWeights(0, [])];
  }

  /** What the worker has written after each frame. */
  lemma PrintedLines()
    ensures var loaded, sent := Worker.Done(PrintsAnswers()), Requests(OneBar());
            && Worker.Answers(loaded, EncodeAll(sent[..1])) == ([RawReady(PROTOCOL_VERSION)], Worker.Running(Some(())))
            && Worker.Answers(loaded, EncodeAll(sent[..2])) ==
                 ([RawReady(PROTOCOL_VERSION), NO_POSITIONS, RawStopped, RawWeights(0, [])], Worker.Running(Some(())))
            && Worker.Answers(loaded, EncodeAll(sent[..3])) ==
                 ([RawReady(PROTOCOL_VERSION), NO_POSITIONS, RawStopped, RawWeights(0, []), RawStopped], Worker.Exited(0))
  {
    hide Worker.Handle, PrintsAnswers;
    var strategy, r := PrintsAnswers(), OneBar();
    PrintedHandling();
    assert EncodeAll(Requests(r)[..0]) == [];
    assert Requests(r)[0] == Initialize(r.init) && Requests(r)[1] == Bar(r.bars[0]) && Requests(r)[2] == Stop;
    var first, second := [RawReady(PROTOCOL_VERSION)], [NO_POSITIONS, RawStopped, RawWeights(0, [])];
    assert [] + first == first;
    AnswersStep(strategy, r, 0);
    assert first + second == [RawReady(PROTOCOL_VERSION), NO_POSITIONS, RawStopped, RawWeights(0, [])];
    AnswersStep(strategy, r, 1);
    assert first + second + [RawStopped]
      == [RawReady(PROTOCOL_VERSION), NO_POSITIONS, RawStopped, RawWeights(0, []), RawStopped];
    AnswersStep(strategy, r, 2);
  }

  lemma OneBarIsValid()
    ensures OneBar().Valid() && Calm().Valid() && |Requests(OneBar())| == 3
  {
  }

  lemma NoPositionsAreAdmissible()
    ensures GoodContent(OneBar(), 1, NO_POSITIONS)
  {
    var weights := Values(NO_POSITIONS.weights);
    assert weights == [0.0, 0.0] && AbsAll(weights) == [0.0, 0.0];
    assert Sum([0.0]) == 0.0 by { assert [0.0][..0] == []; }
    assert [0.0, 0.0][..1] == [0.0];
  }

  lemma CalmCosts(loaded: Loaded<()>)
    ensures Spent(OneBar(), Calm(), 3) == 0.0
    ensures Bytes(loaded, OneBar(), Calm(), 3) <= 30 && |Flatten(Calm().stderr)| == 0
  {
    hide Says;
    var sent := Requests(OneBar());
    assert sent[..3][..2] == sent[..2] && sent[..2][..1] == sent[..1] && sent[..1][..0] == [];
    assert Calm().Seconds(sent[..1]) == Calm().Seconds(sent[..2]) == 0.0;
    assert Bytes(loaded, OneBar(), Calm(), 1) <= 10;
    assert Bytes(loaded, OneBar(), Calm(), 2) <= 20;
  }

  /** A strategy that answers two symbols with no weights at all, but whose tolist first prints
      a weights line and a stopped line: its own lines stand in for the answers, and the run
      completes with a frame it never returned. */
  lemma StandInCompletes()
    ensures var strategy, r := PrintsAnswers(), OneBar();
            var result := Drive(WithWorker(Worker.Done(strategy), Calm(), r.limits), r);
            && r.Valid() && Calm().Valid()
            && result.Succeeded() && !BehavesThrough(strategy, r, 1)
            && |result.frames| == 1 && result.frames[0].weights == NO_POSITIONS.weights
  {
    hide Drive, Bytes, BehavesThrough, GoodContent, Worker.Answers, FramesOwed;
    var strategy, r := PrintsAnswers(), OneBar();
    var loaded := Worker.Done(strategy);
    OneBarIsValid();
    PrintedLines();
    NoPositionsAreAdmissible();
    CalmCosts(loaded);
    assert Requests(r)[..3] == Requests(r);
    EndsAreGood();
    CompletesExactlyWhenOwed(loaded, r, Calm());
    CompletedFrames(WithWorker(loaded, Calm(), r.limits), r);
    OneFrame(loaded, r, Calm());
    NeverBehaved();
  }

  lemma EndsAreGood()
    ensures GoodContent(OneBar(), 0, RawReady(PROTOCOL_VERSION)) && GoodContent(OneBar(), 2, RawStopped)
  {
  }

  lemma OneFrame(loaded: Loaded<()>, r: SandboxRequest, around: Surroundings)
    requires |r.bars| == 1 && |Drive(WithWorker(loaded, around, r.limits), r).frames| == 1
    ensures Says(loaded, r, 1)
              == Owes(RawWeights(r.bars[0].sequence, Drive(WithWorker(loaded, around, r.limits), r).frames[0].weights))
  {
    hide Drive, Says;
    FramesAreOwed(loaded, r, around);
    assert FrameOwed(loaded, r, 0, Drive(WithWorker(loaded, around, r.limits), r).frames[0]);
  }

  lemma NeverBehaved()
    ensures !BehavesThrough(PrintsAnswers(), OneBar(), 1)
  {
    assert ActAt(PrintsAnswers(), OneBar(), 0).Prints?;
  }

  /** A worked instance: an exception class with a 600-character name is reported as a
      protocol error although the candidate merely raised. */
  lemma LongExceptionNameIsNotReportable()
    ensures !Reportable(Worker.MessageError(seq(600, _ => 'E'), ""))
    ensures Reportable(Worker.MessageError("ValueError", ""))
  {
  }
}
