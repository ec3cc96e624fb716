/** The client of the remote broker: throttled calls retried under one deadline. */
module CloudRun {
  import opened Wrappers
  import opened Vectors
  import opened Executors

  datatype CloudRunConfig = CloudRunConfig(
    transportOverheadSeconds: real,
    throttleRetries: nat,
    throttleRetrySeconds: real)
  {
    predicate Valid() {
      && 1.0 <= transportOverheadSeconds <= 120.0
      && throttleRetries <= 8
      && 0.0 <= throttleRetrySeconds <= 5.0
    }
  }

  const TOO_MANY_REQUESTS := 429

  /** What one POST comes to: a body, an HTTP error, another exception that execute catches
      (an OSError, RuntimeError, ValueError or one of their kinds), or one it does not, such as
      an http.client.IncompleteRead. */
  datatype Reply = Body(text: string) | HttpError(code: int) | Broken | Uncaught

  predicate Throttled(reply: Reply) {
    reply == HttpError(TOO_MANY_REQUESTS)
  }

  datatype Exception = DeadlineExpired | Http(code: int) | Caught | Escaping

  /** One call of the transport: when it was made and how long it was allowed. */
  datatype Call = Call(at: real, timeout: real, reply: Reply)

  /** The clock, the broker and sleep. Time passes by itself, never backwards; a sleep lasts
      at least as long as asked; the broker may answer each call differently. */
  class World {
    const elapse: nat -> real
    const respond: nat -> Reply
    var ticks: nat
    var now: real
    var calls: seq<Call>
    var sleeps: seq<real>

    constructor (elapse: nat -> real, respond: nat -> Reply, now: real)
      ensures this.elapse == elapse && this.respond == respond && this.now == now
      ensures calls == [] && sleeps == []
    {
      this.elapse, this.respond, this.now := elapse, respond, now;
      ticks, calls, sleeps := 0, [], [];
    }

    method Pass(least: real)
      modifies this`now, this`ticks
      ensures old(now) + least <= now
    {
      now := now + least + Abs(elapse(ticks));
      ticks := ticks + 1;
    }

    method Monotonic() returns (t: real)
      modifies this`now, this`ticks
      ensures old(now) <= now == t
    {
      Pass(0.0);
      t := now;
    }

    method Post(timeout: real) returns (reply: Reply)
      modifies this
      ensures reply == respond(|old(calls)|)
      ensures calls == old(calls) + [Call(old(now), timeout, reply)]
      ensures sleeps == old(sleeps) && old(now) <= now
    {
      reply := respond(|calls|);
      calls := calls + [Call(now, timeout, reply)];
      Pass(0.0);
    }

    method Sleep(seconds: real)
      modifies this
      ensures calls == old(calls) && sleeps == old(sleeps) + [seconds]
      ensures old(now) + seconds <= now
    {
      sleeps := sleeps + [seconds];
      Pass(seconds);
    }
  }

  // ----- what the retry loop keeps

  function Power2(n: nat): nat {
    if n == 0 then 1 else 2 * Power2(n - 1)
  }

  function Backoff(config: CloudRunConfig, attempt: nat): real {
    Power2(attempt) as real * config.throttleRetrySeconds
  }

  /** Only throttled calls are followed by another, and every call is cut off exactly at
      the deadline, within the timeout of them all. */
  predicate Patient(calls: seq<Call>, deadline: real, timeout: real) {
    && (forall k :: 0 <= k < |calls| - 1 ==> Throttled(calls[k].reply))
    && (forall k :: 0 <= k < |calls| ==> 0.0 < calls[k].timeout <= timeout && calls[k].at + calls[k].timeout == deadline)
  }

  /** The pauses between calls double, and none is longer than its share. */
  predicate Doubling(config: CloudRunConfig, sleeps: seq<real>) {
    forall k :: 0 <= k < |sleeps| ==> 0.0 <= sleeps[k] <= Backoff(config, k)
  }

  /** A pause taken when the clock read `reading`: 2^attempt times the retry seconds, or the time
      then left if that is less, or none once the deadline has passed. */
  predicate PausedFor(config: CloudRunConfig, attempt: nat, deadline: real, reading: real, pause: real) {
    var share := Power2(attempt) as real * config.throttleRetrySeconds;
    && (reading + share <= deadline ==> pause == share)
    && (deadline < reading + share ==> pause == if reading <= deadline then deadline - reading else 0.0)
  }

  /** Each pause at its own reading of the clock, the readings in order. */
  predicate PausedInTurn(config: CloudRunConfig, deadline: real, readings: seq<real>, sleeps: seq<real>) {
    && |readings| == |sleeps|
    && (forall k :: 0 <= k < |sleeps| ==> PausedFor(config, k, deadline, readings[k], sleeps[k]))
    && (forall k :: 0 <= k < |readings| - 1 ==> readings[k] + sleeps[k] <= readings[k + 1])
  }

  /** How the outcome follows from the last call. */
  predicate Explained(config: CloudRunConfig, calls: seq<Call>, r: Result<string, Exception>) {
    if r == Failure(DeadlineExpired) then
      |calls| <= config.throttleRetries && (calls != [] ==> Throttled(calls[|calls| - 1].reply))
    else
      && 1 <= |calls| <= config.throttleRetries + 1
      && match calls[|calls| - 1].reply
         case Body(text) => r == Success(text)
         case HttpError(code) =>
           r == Failure(Http(code)) && (code == TOO_MANY_REQUESTS ==> |calls| == config.throttleRetries + 1)
         case Broken => r == Failure(Caught)
         case Uncaught => r == Failure(Escaping)
  }

  lemma NoPauses()
    ensures Sum([]) == 0.0
  {
  }

  lemma SumAppend(v: Vec, x: real)
    ensures Sum(v + [x]) == Sum(v) + x
  {
    SumPrefix(v + [x], |v|);
    assert (v + [x])[..|v|] == v && (v + [x])[..|v| + 1] == v + [x];
  }

  lemma BackoffIsNonNegative(config: CloudRunConfig, attempt: nat)
    requires config.Valid()
    ensures 0.0 <= Backoff(config, attempt)
  {
    MulMonotone(0.0, Power2(attempt) as real, config.throttleRetrySeconds);
  }

  lemma {:induction false} PowersGrow(n: nat, m: nat)
    requires n <= m
    ensures 1 <= Power2(n) <= Power2(m)
  {
    if n < m {
      PowersGrow(n, m - 1);
    } else if 0 < n {
      PowersGrow(n - 1, m - 1);
    }
  }

  lemma PauseStep(seconds: real, power: nat, total: real, pause: real)
    requires total <= (power - 1) as real * seconds && pause <= power as real * seconds
    ensures total + pause <= (2 * power - 1) as real * seconds
  {
    var p := power as real;
    assert (power - 1) as real == p - 1.0 && (2 * power - 1) as real == 2.0 * p - 1.0;
    assert (p - 1.0) * seconds + p * seconds == (2.0 * p - 1.0) * seconds;
  }

  /** Doubling pauses add up to at most the retry seconds times 2^pauses - 1. */
  lemma {:induction false} PausesAddUp(config: CloudRunConfig, sleeps: seq<real>)
    requires config.Valid() && Doubling(config, sleeps)
    ensures Sum(sleeps) <= (Power2(|sleeps|) - 1) as real * config.throttleRetrySeconds
  {
    hide Sum;
    var seconds := config.throttleRetrySeconds;
    if sleeps == [] {
      NoPauses();
    } else {
      var n := |sleeps| - 1;
      assert sleeps == sleeps[..n] + [sleeps[n]];
      PausesAddUp(config, sleeps[..n]);
      SumAppend(sleeps[..n], sleeps[n]);
      PauseStep(seconds, Power2(n), Sum(sleeps[..n]), sleeps[n]);
      assert Power2(n + 1) == 2 * Power2(n);
    }
  }

  /** The most a call can pause in all. */
  function LongestPause(config: CloudRunConfig): real {
    (Power2(config.throttleRetries) - 1) as real * config.throttleRetrySeconds
  }

  lemma BoundGrows(total: real, p: real, q: real, seconds: real)
    requires total <= p * seconds && p <= q && 0.0 <= seconds
    ensures total <= q * seconds
  {
    MulMonotone(p, q, seconds);
  }

  lemma PausesAreBounded(config: CloudRunConfig, sleeps: seq<real>)
    requires config.Valid() && Doubling(config, sleeps) && |sleeps| <= config.throttleRetries
    ensures Sum(sleeps) <= LongestPause(config)
  {
    hide Sum, Power2;
    PausesAddUp(config, sleeps);
    PowersGrow(|sleeps|, config.throttleRetries);
    var p, q := (Power2(|sleeps|) - 1) as real, (Power2(config.throttleRetries) - 1) as real;
    BoundGrows(Sum(sleeps), p, q, config.throttleRetrySeconds);
  }

  /** Sleeps for the attempt's share, cut short at the deadline. */
  method Pause(config: CloudRunConfig, attempt: nat, deadline: real, world: World)
    returns (ghost reading: real, ghost pause: real)
    requires config.Valid()
    modifies world
    ensures world.calls == old(world.calls) && world.sleeps == old(world.sleeps) + [pause]
    ensures PausedFor(config, attempt, deadline, reading, pause)
    ensures 0.0 <= pause <= Backoff(config, attempt)
    ensures pause == 0.0 || old(world.now) + pause <= deadline
    ensures old(world.now) <= reading && reading + pause <= world.now
  {
    BackoffIsNonNegative(config, attempt);
    var delay := Backoff(config, attempt);
    var current := world.Monotonic();
    var seconds := Min(delay, Max(0.0, deadline - current));
    world.Sleep(seconds);
    reading, pause := current, seconds;
  }

  /** Where the loop stands before an attempt: as many throttled calls and pauses as attempts
      made, within all bounds. */
  predicate Waiting(config: CloudRunConfig, calls: seq<Call>, sleeps: seq<real>, attempt: nat, deadline: real,
                    timeout: real)
  {
    && |calls| == |sleeps| == attempt
    && Patient(calls, deadline, timeout)
    && (0 < attempt ==> Throttled(calls[attempt - 1].reply))
    && Doubling(config, sleeps)
    && Sum(sleeps) <= timeout
  }

  /** One throttled call and one pause later it still does. */
  lemma WaitsOn(config: CloudRunConfig, calls: seq<Call>, sleeps: seq<real>, attempt: nat, deadline: real,
                timeout: real, call: Call, pause: real)
    requires Waiting(config, calls, sleeps, attempt, deadline, timeout)
    requires Throttled(call.reply) && 0.0 < call.timeout <= timeout && call.at + call.timeout == deadline
    requires 0.0 <= pause <= Backoff(config, attempt) && Sum(sleeps) + pause <= timeout
    ensures Waiting(config, calls + [call], sleeps + [pause], attempt + 1, deadline, timeout)
  {
    hide Sum, Backoff;
    SumAppend(sleeps, pause);
  }

  lemma CallsOn(calls: seq<Call>, deadline: real, timeout: real, call: Call)
    requires Patient(calls, deadline, timeout) && (calls != [] ==> Throttled(calls[|calls| - 1].reply))
    requires 0.0 < call.timeout <= timeout && call.at + call.timeout == deadline
    ensures Patient(calls + [call], deadline, timeout)
  {
    hide Throttled;
  }

  lemma PausesOn(config: CloudRunConfig, deadline: real, readings: seq<real>, sleeps: seq<real>, reading: real, pause: real)
    requires PausedInTurn(config, deadline, readings, sleeps)
    requires PausedFor(config, |sleeps|, deadline, reading, pause)
    requires sleeps != [] ==> readings[|sleeps| - 1] + sleeps[|sleeps| - 1] <= reading
    ensures PausedInTurn(config, deadline, readings + [reading], sleeps + [pause])
  {
    hide PausedFor;
  }

  /** One attempt: None when the call was throttled and another attempt is left. */
  method Attempt(config: CloudRunConfig, attempt: nat, deadline: real, world: World)
    returns (r: Option<Result<string, Exception>>, ghost calls: seq<Call>, ghost readings: seq<real>,
             ghost sleeps: seq<real>)
    requires config.Valid() && attempt <= config.throttleRetries
    modifies world
    ensures world.calls == old(world.calls) + calls && world.sleeps == old(world.sleeps) + sleeps
    ensures |readings| == |sleeps|
    ensures calls == [] ==> r == Some(Failure(DeadlineExpired)) && sleeps == []
    ensures calls != [] ==>
              && |calls| == 1
              && 0.0 < calls[0].timeout && calls[0].at + calls[0].timeout == deadline
              && old(world.now) <= calls[0].at
              && (r.Some? ==> sleeps == [] && r.value != Failure(DeadlineExpired)
                              && Answered(config, calls[0], attempt, r.value))
              && (r.None? ==>
                    && Throttled(calls[0].reply) && attempt < config.throttleRetries
                    && |sleeps| == 1 && 0.0 <= sleeps[0] <= Backoff(config, attempt)
                    && PausedFor(config, attempt, deadline, readings[0], sleeps[0])
                    && (sleeps[0] == 0.0 || old(world.now) + sleeps[0] <= deadline)
                    && old(world.now) <= readings[0] && readings[0] + sleeps[0] <= world.now)
    ensures old(world.now) <= world.now
  {
    hide Backoff, PausedFor;
    calls, readings, sleeps := [], [], [];
    var current := world.Monotonic();
    var remaining := deadline - current;
    if remaining <= 0.0 {
      return Some(Failure(DeadlineExpired)), calls, readings, sleeps;
    }
    calls := [Call(world.now, remaining, world.respond(|world.calls|))];
    var reply := world.Post(remaining);
    match reply {
      case Body(text) =>
        return Some(Success(text)), calls, readings, sleeps;
      case Broken =>
        return Some(Failure(Caught)), calls, readings, sleeps;
      case Uncaught =>
        return Some(Failure(Escaping)), calls, readings, sleeps;
      case HttpError(code) =>
        if code != TOO_MANY_REQUESTS || attempt == config.throttleRetries {
          return Some(Failure(Http(code))), calls, readings, sleeps;
        }
        ghost var reading, pause := Pause(config, attempt, deadline, world);
        return None, calls, [reading], [pause];
    }
  }

  /** The outcome of a call nothing follows. */
  predicate Answered(config: CloudRunConfig, call: Call, attempt: nat, r: Result<string, Exception>) {
    match call.reply
    case Body(text) => r == Success(text)
    case HttpError(code) => r == Failure(Http(code)) && (code == TOO_MANY_REQUESTS ==> attempt == config.throttleRetries)
    case Broken => r == Failure(Caught)
    case Uncaught => r == Failure(Escaping)
  }

  /** At most throttle_retries + 1 calls, each after nothing but 429s, each cut off at the
      one deadline; a pause after each 429 but the last; and never a fall through the loop. */
  method ExecuteSync(config: CloudRunConfig, limits: ExecutionLimits, world: World)
    returns (r: Result<string, Exception>, ghost until: real, ghost calls: seq<Call>, ghost readings: seq<real>,
             ghost sleeps: seq<real>)
    requires config.Valid() && limits.Valid()
    modifies world
    ensures world.calls == old(world.calls) + calls && world.sleeps == old(world.sleeps) + sleeps
    ensures old(world.now) + limits.timeoutSeconds + config.transportOverheadSeconds <= until
    ensures |calls| <= config.throttleRetries + 1
    ensures Patient(calls, until, limits.timeoutSeconds + config.transportOverheadSeconds) && Explained(config, calls, r)
    ensures PausedInTurn(config, until, readings, sleeps) && Doubling(config, sleeps)
    ensures |sleeps| == (if r == Failure(DeadlineExpired) then |calls| else |calls| - 1)
    ensures Sum(sleeps) <= LongestPause(config)
    ensures Sum(sleeps) <= limits.timeoutSeconds + config.transportOverheadSeconds
  {
    hide Sum, Power2, LongestPause, Backoff, Doubling, PausedFor, PausedInTurn, Patient;
    var timeout := limits.timeoutSeconds + config.transportOverheadSeconds;
    var start := world.Monotonic();
    var deadline := start + timeout;
    until, calls, readings, sleeps := deadline, [], [], [];
    NoPauses();
    NothingWaits(config, deadline, timeout);
    for attempt := 0 to config.throttleRetries + 1
      invariant attempt <= config.throttleRetries && until == deadline
      invariant world.calls == old(world.calls) + calls && world.sleeps == old(world.sleeps) + sleeps
      invariant Waiting(config, calls, sleeps, attempt, deadline, timeout)
      invariant |readings| == |sleeps| && PausedInTurn(config, deadline, readings, sleeps)
      invariant sleeps != [] ==> readings[|sleeps| - 1] + sleeps[|sleeps| - 1] <= world.now
      invariant start <= world.now && start + Sum(sleeps) <= world.now
    {
      PausesAreBounded(config, sleeps);
      ghost var madeBefore, readBefore, sleptBefore := calls, readings, sleeps;
      var outcome;
      ghost var made, read, slept;
      outcome, made, read, slept := Attempt(config, attempt, deadline, world);
      calls, readings, sleeps := calls + made, readings + read, sleeps + slept;
      if outcome.Some? {
        assert sleeps == sleptBefore && readings == readBefore && (made == [] ==> calls == madeBefore);
        if made != [] {
          assert made == [made[0]];
          CallsOn(madeBefore, deadline, timeout, made[0]);
        }
        r := outcome.value;
        return;
      }
      assert made == [made[0]] && read == [read[0]] && slept == [slept[0]];
      PausesOn(config, deadline, readBefore, sleptBefore, read[0], slept[0]);
      SumAppend(sleptBefore, slept[0]);
      WaitsOn(config, madeBefore, sleptBefore, attempt, deadline, timeout, made[0], slept[0]);
    }
    assert false;
  }

  lemma NothingWaits(config: CloudRunConfig, deadline: real, timeout: real)
    requires 0.0 <= timeout
    ensures Waiting(config, [], [], 0, deadline, timeout) && PausedInTurn(config, deadline, [], [])
  {
    NoPauses();
  }

  // ----- the whole execution

  /** The result of a remote execution, the broker's body decoded by the result model; None
      exactly when the last call raised an exception that nothing catches. */
  method Execute(config: CloudRunConfig, request: SandboxRequest, world: World,
                 accepts: CandidateProgram -> bool, decode: string -> Option<SandboxResult>)
    returns (result: Option<SandboxResult>)
    requires config.Valid() && request.limits.Valid()
    modifies world
    ensures old(world.calls) <= world.calls
    ensures var calls := world.calls[|old(world.calls)|..];
            && (result.None? <==> calls != [] && calls[|calls| - 1].reply.Uncaught?)
            && (!accepts(request.program) ==> calls == [] && result.value.status.Invalid?)
            && (result.Some? ==> result.value.programSha256 == request.program.sha256)
            && (result.Some? && result.value.Succeeded() <==>
                  && calls != [] && calls[|calls| - 1].reply.Body?
                  && var decoded := decode(calls[|calls| - 1].reply.text);
                     decoded.Some? && decoded.value.Succeeded() && decoded.value.programSha256 == request.program.sha256)
            && (result.Some? && calls != [] && calls[|calls| - 1].reply.Body? ==>
                  var decoded := decode(calls[|calls| - 1].reply.text);
                  if decoded.None? then result.value.status.Unavailable?
                  else if decoded.value.programSha256 != request.program.sha256 then result.value.status.ProtocolError?
                  else result == decoded)
            && (result.Some? && accepts(request.program) && (calls == [] || !calls[|calls| - 1].reply.Body?) ==>
                  result.value.status.Unavailable? && result.value.frames == [])
  {
    if !accepts(request.program) {
      return Some(Rejection(request, Invalid, SourceRejected));
    }
    var body, until, calls, readings, sleeps := ExecuteSync(config, request.limits, world);
    assert world.calls[|old(world.calls)|..] == calls;
    if body.Failure? {
      return if body.error.Escaping? then None else Some(Rejection(request, Unavailable, BrokerFailed));
    }
    var decoded := decode(body.value);
    if decoded.None? {
      return Some(Rejection(request, Unavailable, BrokerFailed));
    }
    if decoded.value.programSha256 != request.program.sha256 {
      return Some(Rejection(request, ProtocolError, BrokerFailed));
    }
    return decoded;
  }

  function Rejection(request: SandboxRequest, status: SandboxStatus, error: SandboxError): SandboxResult {
    SandboxResult(status, request.program.sha256, [], 0.0, 0, 0, [], error)
  }
}
