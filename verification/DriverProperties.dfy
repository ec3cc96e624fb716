/** What a sandbox result guarantees, for every worker behaviour and timing. */
module DriverProperties {
  import opened Wrappers
  import opened Vectors
  import opened Protocol
  import opened Executors
  import opened ProcessDriver

  /** The content exchange k calls for: ready, then an admissible portfolio for bar k - 1,
      then stopped. */
  predicate GoodContent(r: SandboxRequest, k: nat, content: RawResponse)
    requires k < |Requests(r)|
  {
    if k == 0 then
      content == RawReady(PROTOCOL_VERSION)
    else if k == |r.bars| + 1 then
      content == RawStopped
    else
      && content.RawWeights?
      && content.sequence == r.bars[k - 1].sequence
      && AllFinite(content.weights)
      && Admissible(Values(content.weights), r.init)
  }

  predicate GoodReply(env: Environment, r: SandboxRequest, k: nat)
    requires k < |Requests(r)|
  {
    var reply := ReplyAt(env, r, k);
    reply.Line? && 0 < reply.length && GoodContent(r, k, reply.content)
  }

  /** A run a reader would call clean, without mentioning faults: every reply is good, the
      worker exits with status 0, and all its output fits the byte budget. */
  predicate CleanRun(env: Environment, r: SandboxRequest) {
    && env.spawns
    && (forall k :: 0 <= k < |Requests(r)| ==> GoodReply(env, r, k))
    && env.exit(Requests(r)) == Exited(0)
    && Counted(env, r, |Requests(r)|) + |Flatten(env.stderr)| <= r.limits.maxOutputBytes
  }

  lemma AcceptedIsGood(env: Environment, r: SandboxRequest, k: nat)
    requires k < |Requests(r)|
    ensures FaultAt(env, r, k).None? <==>
              GoodReply(env, r, k) && Counted(env, r, k + 1) <= r.limits.maxOutputBytes
  {
    var reply := ReplyAt(env, r, k);
    if reply.Line? {
      assert Counted(env, r, k + 1) == Counted(env, r, k) + reply.length;
    }
  }

  lemma {:induction false} CountedGrows(env: Environment, r: SandboxRequest, j: nat, k: nat)
    requires j <= k <= |Requests(r)|
    ensures Counted(env, r, j) <= Counted(env, r, k)
  {
    if j < k {
      CountedGrows(env, r, j, k - 1);
    }
  }

  /** A run is COMPLETED exactly when it is clean. */
  lemma CompletedExactlyWhenClean(env: Environment, r: SandboxRequest)
    requires r.Valid()
    ensures Drive(env, r).Succeeded() <==> CleanRun(env, r)
  {
    var n := |Requests(r)|;
    forall k | 0 <= k < n
      ensures Counted(env, r, k + 1) <= Counted(env, r, n)
      ensures FaultAt(env, r, k).None? <==>
                GoodReply(env, r, k) && Counted(env, r, k + 1) <= r.limits.maxOutputBytes
    {
      CountedGrows(env, r, k + 1, n);
      AcceptedIsGood(env, r, k);
    }
    if CleanRun(env, r) {
      NoFault(env, r);
    }
  }

  /** The outcome recorded for bar i carries the admissible portfolio the worker answered
      that bar with, and the seconds that took. */
  ghost predicate IsAnswer(env: Environment, r: SandboxRequest, frame: FrameOutcome, i: nat)
    requires i < |r.bars|
  {
    && GoodReply(env, r, i + 1)
    && frame.sequence == i
    && frame.weights == ReplyAt(env, r, i + 1).content.weights
    && frame.duration == ReplyAt(env, r, i + 1).elapsed
    && AllFinite(frame.weights)
    && Admissible(Values(frame.weights), r.init)
  }

  /** Under every status: the frames are the first bars in order, each one answered. */
  ghost predicate FramesArePrefix(env: Environment, r: SandboxRequest, frames: seq<FrameOutcome>) {
    && |frames| <= |r.bars|
    && forall i :: 0 <= i < |frames| ==> IsAnswer(env, r, frames[i], i)
  }

  lemma FrameIsAnswer(env: Environment, r: SandboxRequest, i: nat)
    requires r.Valid() && i < |r.bars|
    requires FaultAt(env, r, i + 1).None?
    ensures IsAnswer(env, r, FrameAt(env, r, i), i)
  {
    AcceptedIsGood(env, r, i + 1);
  }

  lemma FramesThroughPrefix(env: Environment, r: SandboxRequest, k: nat)
    requires r.Valid() && Accepted(env, r, k)
    ensures FramesArePrefix(env, r, FramesThrough(env, r, k))
  {
    hide FaultAt, FrameAt, IsAnswer;
    var frames := FramesThrough(env, r, k);
    forall i | 0 <= i < |frames|
      ensures IsAnswer(env, r, frames[i], i)
    {
      FrameIsAnswer(env, r, i);
    }
  }

  lemma FramesAlwaysPrefix(env: Environment, r: SandboxRequest)
    requires r.Valid()
    ensures FramesArePrefix(env, r, Drive(env, r).frames)
  {
    if env.spawns {
      FramesThroughPrefix(env, r, FirstFault(env, r, 0));
    }
  }

  lemma CompletedFrames(env: Environment, r: SandboxRequest)
    requires r.Valid()
    requires Drive(env, r).Succeeded()
    ensures |Drive(env, r).frames| == |r.bars|
    ensures Drive(env, r).stdoutBytes + Drive(env, r).stderrBytes <= r.limits.maxOutputBytes
    ensures env.exit(Requests(r)) == Exited(0)
    ensures FramesArePrefix(env, r, Drive(env, r).frames)
  {
    FramesAlwaysPrefix(env, r);
  }

  /** The error text is empty exactly for COMPLETED results; a failure that is not a clean
      stream's output overflow is explained by the first exchange that went wrong. */
  lemma FailuresAreExplained(env: Environment, r: SandboxRequest)
    requires r.Valid()
    ensures var result := Drive(env, r);
            && (result.error.NoError? <==> result.Succeeded())
            && result.status != Invalid
            && (env.spawns && FirstFault(env, r, 0) < |Requests(r)| ==>
                  result.status == StatusOf(FaultAt(env, r, FirstFault(env, r, 0)).value)
                  && |result.frames| == BarsAnswered(r, FirstFault(env, r, 0)))
  {
  }

  /** The retained stderr is bounded by the limit only because the limit is not zero. */
  lemma TailBoundNeedsRetention(stream: seq<bv8>, tailLimit: nat)
    ensures |RetainedTail(stream, Retention(tailLimit))| <= Retention(tailLimit) <==>
              0 < tailLimit || stream == []
  {
  }

  // ----- what a result measures

  function Total(lengths: seq<nat>): nat {
    if lengths == [] then 0 else Total(lengths[..|lengths| - 1]) + lengths[|lengths| - 1]
  }

  /** The lengths of the lines read in the first n exchanges, nothing where none was. */
  function LengthsRead(env: Environment, r: SandboxRequest, n: nat): seq<nat>
    requires n <= |r.bars| + 2
  {
    seq<nat>(n, j requires 0 <= j < n => LengthRead(env.respond(Requests(r)[..j + 1])))
  }

  function LengthRead(reply: Reply): nat {
    match reply
    case Line(length, _, _) => length
    case LineOverLimit => 0
    case DeadlineHit => 0
  }

  function ChunkLengths(chunks: seq<seq<bv8>>): seq<nat> {
    seq(|chunks|, j requires 0 <= j < |chunks| => |chunks[j]|)
  }

  lemma {:induction false} CountedIsTotal(env: Environment, r: SandboxRequest, n: nat)
    requires n <= |Requests(r)|
    ensures Counted(env, r, n) == Total(LengthsRead(env, r, n))
  {
    hide Requests;
    if 0 < n {
      CountedIsTotal(env, r, n - 1);
      assert LengthsRead(env, r, n)[..n - 1] == LengthsRead(env, r, n - 1);
    }
  }

  /** A stream is its chunks one after the other. */
  lemma {:induction false} FlattenJoins(a: seq<seq<bv8>>, b: seq<seq<bv8>>)
    ensures Flatten(a + b) == Flatten(a) + Flatten(b)
    ensures |b| == 1 ==> Flatten(b) == b[0]
  {
    if b == [] {
      assert a + b == a;
    } else {
      var n := |b| - 1;
      FlattenJoins(a, b[..n]);
      assert (a + b)[..|a| + n] == a + b[..n];
      assert n == 0 ==> b[..n] == [];
    }
  }

  lemma {:induction false} FlattenedLength(chunks: seq<seq<bv8>>)
    ensures |Flatten(chunks)| == Total(ChunkLengths(chunks))
  {
    if chunks != [] {
      var n := |chunks| - 1;
      FlattenedLength(chunks[..n]);
      assert ChunkLengths(chunks)[..n] == ChunkLengths(chunks[..n]);
    }
  }

  /** The end of the stream, all of it up to 8192 bytes or the output limit. */
  predicate IsTail(tail: seq<bv8>, stream: seq<bv8>, limit: nat) {
    && |tail| <= |stream| && tail == stream[|stream| - |tail|..]
    && (|tail| == |stream| || |tail| == limit || |tail| == 8192)
    && |tail| <= limit && |tail| <= 8192
  }

  /** Whatever the ending: the result names the program and the time taken, its stdout bytes
      are those of the lines read, up to and with the first exchange that goes wrong, and its
      stderr bytes and tail are those of what the worker wrote there. */
  lemma ResultMeasures(env: Environment, r: SandboxRequest, k: nat)
    requires r.Valid() && env.spawns
    requires Accepted(env, r, k) && (k < |Requests(r)| ==> FaultAt(env, r, k).Some?)
    ensures var result := Drive(env, r);
            && result.programSha256 == r.program.sha256
            && result.duration == env.elapsed
            && result.stdoutBytes == Total(LengthsRead(env, r, if k < |Requests(r)| then k + 1 else k))
            && result.stderrBytes == Total(ChunkLengths(env.stderr))
            && IsTail(result.stderrTail, Flatten(env.stderr), r.limits.maxOutputBytes)
  {
    hide Requests, FaultAt, Flatten;
    if k < |Requests(r)| {
      FaultIsFirst(env, r, k);
      CountedIsTotal(env, r, k + 1);
    } else {
      NoFault(env, r);
      CountedIsTotal(env, r, k);
    }
    FlattenedLength(env.stderr);
  }

  /** What has to be true of the reply to exchange k, given the bytes read before it, for the
      run to end with this status and error. */
  predicate Deserved(r: SandboxRequest, k: nat, reply: Reply, read: nat, status: SandboxStatus, error: SandboxError)
    requires k < |r.bars| + 2
  {
    var last := k == |r.bars| + 1;
    var parsed := if reply.Line? then ParseResponse(reply.content) else None;
    var counted := reply.Line? && 0 < reply.length && read + reply.length <= r.limits.maxOutputBytes;
    match error
    case ExceededWallClock => status == Timeout && reply.DeadlineHit?
    case CandidateMessage(message) => status == RuntimeError && !last && counted && parsed == Some(CandidateError(message))
    case Violated(violation) =>
      && status == ProtocolError
      && (match violation
          case LineTooLarge => reply.LineOverLimit?
          case StreamClosed => reply.Line? && reply.length == 0
          case OutputExceeded => reply.Line? && 0 < reply.length && r.limits.maxOutputBytes < read + reply.length
          case InvalidFrame => counted && parsed.None?
          case NotStopped => last && counted && parsed.Some? && !parsed.value.Stopped?
          case NotReady => k == 0 && counted && parsed.Some? && !parsed.value.Ready? && !parsed.value.CandidateError?
          case NotWeights => 0 < k && !last && counted && parsed.Some? && !parsed.value.Weights? && !parsed.value.CandidateError?
          case SequenceMismatch =>
            && 0 < k && !last && counted && parsed.Some? && parsed.value.Weights?
            && parsed.value.sequence != k - 1
          case BadPortfolio(fault) =>
            && 0 < k && !last && counted && parsed.Some? && parsed.value.Weights? && parsed.value.sequence == k - 1
            && HasFault(parsed.value.weights, r.init, fault))
    case _ => false
  }

  /** The first exchange that goes wrong is reported as what it was. */
  lemma ErrorIsDeserved(env: Environment, r: SandboxRequest, k: nat)
    requires r.Valid() && env.spawns && k < |Requests(r)|
    requires Accepted(env, r, k) && FaultAt(env, r, k).Some?
    ensures var result := Drive(env, r);
            Deserved(r, k, env.respond(Requests(r)[..k + 1]), Total(LengthsRead(env, r, k)), result.status, result.error)
  {
    hide Requests, Total, LengthsRead, Counted, Deserved, Read, Check, StatusOf, ErrorOf, Flatten;
    FaultIsFirst(env, r, k);
    CountedIsTotal(env, r, k);
    FaultIsNamed(r, k, ReplyAt(env, r, k), Counted(env, r, k), FaultAt(env, r, k).value);
  }

  lemma FaultIsNamed(r: SandboxRequest, k: nat, reply: Reply, read: nat, fault: Fault)
    requires r.Valid() && k < |Requests(r)|
    requires match Read(reply, read, r.limits.maxOutputBytes)
             case Failure(f) => f == fault
             case Success(response) => Check(r, k, response) == Some(fault)
    ensures Deserved(r, k, reply, read, StatusOf(fault), ErrorOf(fault))
  {
    hide Requests, Gross, Admissible, ValidateTargetWeights, HasFault;
    if reply.Line? && ParseResponse(reply.content).Some? && ParseResponse(reply.content).value.Weights? {
      FirstWeightFault(ParseResponse(reply.content).value.weights, r.init);
    }
  }

  /** A worker that cannot be started costs nothing and answers nothing. */
  lemma UnspawnedMeasures(env: Environment, r: SandboxRequest)
    requires !env.spawns
    ensures var result := Drive(env, r);
            && result.programSha256 == r.program.sha256 && result.duration == env.elapsed
            && result.status == Unavailable && result.frames == []
            && result.stdoutBytes == 0 && result.stderrBytes == 0 && result.stderrTail == []
  {
  }

  // ----- the driver reveals nothing early

  function Upto<T>(s: seq<T>, m: nat): seq<T> {
    if |s| <= m then s else s[..m]
  }

  /** Two requests a worker cannot tell apart before bar m. */
  ghost predicate AgreeBefore(r: SandboxRequest, q: SandboxRequest, m: nat) {
    && r.init == q.init
    && r.limits == q.limits
    && m <= |r.bars| == |q.bars|
    && r.bars[..m] == q.bars[..m]
  }

  lemma RequestsAgree(r: SandboxRequest, q: SandboxRequest, m: nat)
    requires AgreeBefore(r, q, m)
    ensures Requests(r)[..m + 1] == Requests(q)[..m + 1]
  {
    forall k | 0 <= k < m + 1
      ensures Requests(r)[k] == Requests(q)[k]
    {
      if 0 < k {
        assert r.bars[k - 1] == r.bars[..m][k - 1] == q.bars[..m][k - 1] == q.bars[k - 1];
      }
    }
  }

  lemma RepliesAgree(env: Environment, r: SandboxRequest, q: SandboxRequest, m: nat, k: nat)
    requires AgreeBefore(r, q, m) && k <= m
    ensures ReplyAt(env, r, k) == ReplyAt(env, q, k)
  {
    RequestsAgree(r, q, m);
    assert Requests(r)[..k + 1] == Requests(r)[..m + 1][..k + 1];
    assert Requests(q)[..k + 1] == Requests(q)[..m + 1][..k + 1];
  }

  lemma {:induction false} CountsAgree(env: Environment, r: SandboxRequest, q: SandboxRequest, m: nat, k: nat)
    requires AgreeBefore(r, q, m) && k <= m + 1
    ensures Counted(env, r, k) == Counted(env, q, k)
  {
    if 0 < k {
      CountsAgree(env, r, q, m, k - 1);
      RepliesAgree(env, r, q, m, k - 1);
    }
  }

  lemma FaultsAgree(env: Environment, r: SandboxRequest, q: SandboxRequest, m: nat, k: nat)
    requires AgreeBefore(r, q, m) && k <= m
    ensures FaultAt(env, r, k) == FaultAt(env, q, k)
  {
    RepliesAgree(env, r, q, m, k);
    CountsAgree(env, r, q, m, k);
    if 0 < k {
      assert r.bars[k - 1] == r.bars[..m][k - 1] == q.bars[..m][k - 1] == q.bars[k - 1];
    }
  }

  lemma FirstFaultsCoincide(env: Environment, r: SandboxRequest, q: SandboxRequest, m: nat)
    requires AgreeBefore(r, q, m)
    ensures var j, k := FirstFault(env, r, 0), FirstFault(env, q, 0);
            j == k || (m < j && m < k)
  {
    forall k | 0 <= k <= m
      ensures FaultAt(env, r, k) == FaultAt(env, q, k)
    {
      FaultsAgree(env, r, q, m, k);
    }
  }

  lemma FramesAgree(env: Environment, r: SandboxRequest, q: SandboxRequest, m: nat, i: nat)
    requires AgreeBefore(r, q, m) && i < m
    requires FaultAt(env, r, i + 1).None? && FaultAt(env, q, i + 1).None?
    ensures FrameAt(env, r, i) == FrameAt(env, q, i)
  {
    RepliesAgree(env, r, q, m, i + 1);
    assert r.bars[i] == r.bars[..m][i] == q.bars[..m][i] == q.bars[i];
  }

  /** Bars a worker has not been sent yet cannot influence what it has answered: two runs
      over requests that agree before bar m answer the same number of those bars, and with
      the same outcomes. */
  lemma OutcomesDependOnlyOnBarsSent(env: Environment, r: SandboxRequest, q: SandboxRequest, m: nat)
    requires r.Valid() && q.Valid()
    requires AgreeBefore(r, q, m)
    ensures Upto(Drive(env, r).frames, m) == Upto(Drive(env, q).frames, m)
  {
    if env.spawns {
      FramesUptoAgree(env, r, q, m);
    }
  }

  lemma FramesUptoAgree(env: Environment, r: SandboxRequest, q: SandboxRequest, m: nat)
    requires AgreeBefore(r, q, m)
    ensures Upto(FramesThrough(env, r, FirstFault(env, r, 0)), m) ==
              Upto(FramesThrough(env, q, FirstFault(env, q, 0)), m)
  {
    FirstFaultsCoincide(env, r, q, m);
    var j, k := FirstFault(env, r, 0), FirstFault(env, q, 0);
    var f, g := FramesThrough(env, r, j), FramesThrough(env, q, k);
    forall i | 0 <= i < m && i < |f| && i < |g|
      ensures f[i] == g[i]
    {
      FramesAgree(env, r, q, m, i);
    }
    assert |Upto(f, m)| == |Upto(g, m)|;
  }
}
