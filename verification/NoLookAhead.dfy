/** End to end: what a candidate holds and earns on a day cannot depend on later days. */
module NoLookAhead {
  import opened Vectors
  import opened Protocol
  import opened Executors
  import opened ProcessDriver
  import opened DriverProperties
  import opened Backtest
  import Accounting

  /** Two evaluations alike in everything but the market from session `day` on. */
  ghost predicate SameBefore(a: Backtester, b: Backtester, day: nat) {
    && b == a.(market := b.market)
    && a.market.symbols == b.market.symbols
    && day <= |a.market.rows| && day <= |b.market.rows|
    && a.market.rows[..day] == b.market.rows[..day]
  }

  lemma SameRow(a: Backtester, b: Backtester, day: nat, k: nat)
    requires SameBefore(a, b, day) && k < day
    ensures a.market.rows[k] == b.market.rows[k]
  {
    assert a.market.rows[..day][k] == b.market.rows[..day][k];
  }

  /** One fresh sandbox per window, driven over the JSONL protocol. */
  function Sandboxes(envs: nat -> Environment): seq<SandboxRequest> -> SandboxResult {
    calls =>
      if calls == [] then SandboxResult(Unavailable, "", [], 0.0, 0, 0, [], FailedToStart)
      else Drive(envs(|calls| - 1), calls[|calls| - 1])
  }

  lemma AnswerIsDriven(a: Backtester, envs: nat -> Environment, program: CandidateProgram, asOf: nat, i: nat)
    requires a.Valid() && a.ValidateHorizon(asOf).None? && i < a.windows
    ensures a.Answer(Sandboxes(envs), [], program, asOf, i) == Drive(envs(i), a.WindowRequest(program, asOf, i))
  {
    hide Drive, Backtester.WindowRequest;
    var calls := [] + a.WindowRequests(program, asOf)[..i + 1];
    assert |calls| == i + 1 && calls[i] == a.WindowRequest(program, asOf, i);
  }

  // ----- a COMPLETED driver result always meets the scoring contract

  lemma CompletedMeetsContract(a: Backtester, env: Environment, program: CandidateProgram, asOf: nat, i: nat)
    requires a.Valid() && a.ValidateHorizon(asOf).None? && i < a.windows
    requires Drive(env, a.WindowRequest(program, asOf, i)).Succeeded()
    ensures a.ContractHolds(a.WindowRequest(program, asOf, i), Drive(env, a.WindowRequest(program, asOf, i)).frames)
  {
    hide Drive;
    var r := a.WindowRequest(program, asOf, i);
    Accounting.RequestShape(a, program, asOf, i);
    CompletedFrames(env, r);
  }

  lemma PassesExactlyWhenCompleted(a: Backtester, envs: nat -> Environment, program: CandidateProgram, asOf: nat, i: nat)
    requires a.Valid() && a.ValidateHorizon(asOf).None? && i < a.windows
    ensures a.Answer(Sandboxes(envs), [], program, asOf, i) == Drive(envs(i), a.WindowRequest(program, asOf, i))
    ensures a.WindowPasses(Sandboxes(envs), [], program, asOf, i) <==>
              Drive(envs(i), a.WindowRequest(program, asOf, i)).Succeeded()
  {
    hide Drive, Backtester.ContractHolds, Backtester.WindowRequest;
    AnswerIsDriven(a, envs, program, asOf, i);
    if Drive(envs(i), a.WindowRequest(program, asOf, i)).Succeeded() {
      CompletedMeetsContract(a, envs(i), program, asOf, i);
    }
  }

  /** With the protocol driver as executor, an evaluation passes a window exactly when its
      sandbox completed, so the executor-contract error is never reported. */
  lemma ContractNeverViolated(a: Backtester, envs: nat -> Environment, program: CandidateProgram, asOf: nat,
                              after: seq<SandboxRequest>, metadata: CandidateMetadata, e: ProgramEvaluation)
    requires a.Valid() && a.ValidateHorizon(asOf).None?
    requires a.FailsClosed(Sandboxes(envs), [], after, program, asOf, metadata, e)
    ensures !e.error.ContractViolated?
    ensures e.Succeeded() <==>
              forall i :: 0 <= i < a.windows ==> Drive(envs(i), a.WindowRequest(program, asOf, i)).Succeeded()
  {
    hide Drive, Backtester.Summarize, Backtester.ContractHolds, Backtester.WindowRequest;
    forall i | 0 <= i < a.windows
      ensures a.WindowPasses(Sandboxes(envs), [], program, asOf, i) <==>
                Drive(envs(i), a.WindowRequest(program, asOf, i)).Succeeded()
      ensures a.Answer(Sandboxes(envs), [], program, asOf, i) == Drive(envs(i), a.WindowRequest(program, asOf, i))
    {
      PassesExactlyWhenCompleted(a, envs, program, asOf, i);
    }
  }

  // ----- weights

  lemma RequestsAgreeBefore(a: Backtester, b: Backtester, program: CandidateProgram, asOf: nat, i: nat,
                            day: nat, m: nat)
    requires a.Valid() && b.Valid()
    requires a.ValidateHorizon(asOf).None? && b.ValidateHorizon(asOf).None? && i < a.windows
    requires SameBefore(a, b, day)
    requires m <= a.warmupDays + a.windowDays - 1
    requires m + a.WindowStart(asOf, i) <= day + a.warmupDays
    ensures AgreeBefore(a.WindowRequest(program, asOf, i), b.WindowRequest(program, asOf, i), m)
  {
    Accounting.RequestShape(a, program, asOf, i);
    Accounting.RequestShape(b, program, asOf, i);
    var r, q := a.WindowRequest(program, asOf, i), b.WindowRequest(program, asOf, i);
    forall k | 0 <= k < m
      ensures r.bars[k] == q.bars[k]
    {
      SameRow(a, b, day, a.WindowStart(asOf, i) - a.warmupDays + k);
    }
  }

  function WindowPath(a: Backtester, envs: nat -> Environment, program: CandidateProgram, asOf: nat, i: nat): seq<Vec>
    requires a.Valid() && a.ValidateHorizon(asOf).None? && i < a.windows
    requires Drive(envs(i), a.WindowRequest(program, asOf, i)).Succeeded()
  {
    CompletedMeetsContract(a, envs(i), program, asOf, i);
    a.PathOf(Drive(envs(i), a.WindowRequest(program, asOf, i)).frames)
  }

  lemma FramesIgnoreTheFuture(a: Backtester, b: Backtester, envs: nat -> Environment, program: CandidateProgram,
                              asOf: nat, i: nat, o: nat)
    requires a.Valid() && b.Valid()
    requires a.ValidateHorizon(asOf).None? && b.ValidateHorizon(asOf).None?
    requires i < a.windows && o < a.windowDays
    requires SameBefore(a, b, a.WindowStart(asOf, i) + o)
    requires Drive(envs(i), a.WindowRequest(program, asOf, i)).Succeeded()
    requires Drive(envs(i), b.WindowRequest(program, asOf, i)).Succeeded()
    ensures var f := Drive(envs(i), a.WindowRequest(program, asOf, i)).frames;
            var g := Drive(envs(i), b.WindowRequest(program, asOf, i)).frames;
            |f| == |g| == a.warmupDays + a.windowDays - 1 && f[..a.warmupDays + o] == g[..a.warmupDays + o]
  {
    hide Drive;
    var m := a.warmupDays + o;
    var r, q := a.WindowRequest(program, asOf, i), b.WindowRequest(program, asOf, i);
    Accounting.RequestShape(a, program, asOf, i);
    Accounting.RequestShape(b, program, asOf, i);
    RequestsAgreeBefore(a, b, program, asOf, i, a.WindowStart(asOf, i) + o, m);
    OutcomesDependOnlyOnBarsSent(envs(i), r, q, m);
    CompletedFrames(envs(i), r);
    CompletedFrames(envs(i), q);
    var f, g := Drive(envs(i), r).frames, Drive(envs(i), q).frames;
    assert f[..m] == Upto(f, m) == Upto(g, m) == g[..m];
  }

  lemma PathsAgree(a: Backtester, b: Backtester, f: seq<FrameOutcome>, g: seq<FrameOutcome>, o: nat)
    requires a.Valid() && b == a.(market := b.market) && o < a.windowDays
    requires |f| == |g| == a.warmupDays + a.windowDays - 1 && f[..a.warmupDays + o] == g[..a.warmupDays + o]
    requires forall i :: 0 <= i < |f| ==> AllFinite(f[i].weights)
    requires forall i :: 0 <= i < |g| ==> AllFinite(g[i].weights)
    ensures |a.PathOf(f)| == |b.PathOf(g)| == a.windowDays
    ensures a.PathOf(f)[..o + 1] == b.PathOf(g)[..o + 1]
  {
    var m := a.warmupDays + o;
    forall j | 0 <= j <= o
      ensures a.PathOf(f)[j] == b.PathOf(g)[j]
    {
      assert f[a.warmupDays - 1 + j] == f[..m][a.warmupDays - 1 + j] == g[..m][a.warmupDays - 1 + j];
    }
  }

  lemma ContractIsFinite(a: Backtester, r: SandboxRequest, frames: seq<FrameOutcome>)
    requires a.ContractHolds(r, frames)
    ensures forall i :: 0 <= i < |frames| ==> AllFinite(frames[i].weights)
  {
  }

  /** If two markets agree on every session before a day, a program that completes the
      window on both holds the same portfolio on that day and on every earlier one. */
  lemma WeightsIgnoreTheFuture(a: Backtester, b: Backtester, envs: nat -> Environment, program: CandidateProgram,
                               asOf: nat, i: nat, o: nat)
    requires a.Valid() && b.Valid()
    requires a.ValidateHorizon(asOf).None? && b.ValidateHorizon(asOf).None?
    requires i < a.windows && o < a.windowDays
    requires SameBefore(a, b, a.WindowStart(asOf, i) + o)
    requires Drive(envs(i), a.WindowRequest(program, asOf, i)).Succeeded()
    requires Drive(envs(i), b.WindowRequest(program, asOf, i)).Succeeded()
    ensures WindowPath(a, envs, program, asOf, i)[..o + 1] == WindowPath(b, envs, program, asOf, i)[..o + 1]
  {
    hide Drive, Backtester.ContractHolds, Backtester.PathOf;
    var r, q := a.WindowRequest(program, asOf, i), b.WindowRequest(program, asOf, i);
    var f, g := Drive(envs(i), r).frames, Drive(envs(i), q).frames;
    CompletedMeetsContract(a, envs(i), program, asOf, i);
    CompletedMeetsContract(b, envs(i), program, asOf, i);
    ContractIsFinite(a, r, f);
    ContractIsFinite(b, q, g);
    FramesIgnoreTheFuture(a, b, envs, program, asOf, i, o);
    PathsAgree(a, b, f, g, o);
  }

  // ----- returns

  /** A session's return is fixed by the portfolios up to it and the rows up to it. */
  lemma ReturnsUsePastRows(a: Backtester, b: Backtester, ws: seq<Vec>, vs: seq<Vec>, start: nat, o: nat)
    requires a.Priced() && b.Priced() && a.Path(ws, start) && b.Path(vs, start) && o < |ws|
    requires SameBefore(a, b, start + o + 1)
    requires ws[..o + 1] == vs[..o + 1]
    ensures a.Score(ws, start).daily[o] == b.Score(vs, start).daily[o]
  {
    hide Sum;
    SameRow(a, b, start + o + 1, start + o);
    SameRow(a, b, start + o + 1, start + o - 1);
    assert ws[o] == ws[..o + 1][o] == vs[..o + 1][o] == vs[o];
    if 0 < o {
      assert ws[o - 1] == ws[..o + 1][o - 1] == vs[..o + 1][o - 1] == vs[o - 1];
    }
    assert a.PerSide(a.market.rows[start + o - 1]) == b.PerSide(b.market.rows[start + o - 1]);
    assert a.PerSide(a.market.rows[start + o]) == b.PerSide(b.market.rows[start + o]);
    assert a.NetReturn(ws, start, o) == b.NetReturn(vs, start, o);
  }

  lemma ReturnsIgnoreTheFuture(a: Backtester, b: Backtester, envs: nat -> Environment, program: CandidateProgram,
                               asOf: nat, i: nat, o: nat)
    requires a.Valid() && b.Valid()
    requires a.ValidateHorizon(asOf).None? && b.ValidateHorizon(asOf).None?
    requires i < a.windows && o < a.windowDays
    requires SameBefore(a, b, a.WindowStart(asOf, i) + o + 1)
    requires Drive(envs(i), a.WindowRequest(program, asOf, i)).Succeeded()
    requires Drive(envs(i), b.WindowRequest(program, asOf, i)).Succeeded()
    ensures var start := a.WindowStart(asOf, i);
            var ws, vs := WindowPath(a, envs, program, asOf, i), WindowPath(b, envs, program, asOf, i);
            && a.Path(ws, start) && b.Path(vs, start)
            && a.Score(ws, start).daily[o] == b.Score(vs, start).daily[o]
  {
    hide Drive, Backtester.Score;
    a.WindowInHorizon(asOf, i);
    b.WindowInHorizon(asOf, i);
    CompletedMeetsContract(a, envs(i), program, asOf, i);
    CompletedMeetsContract(b, envs(i), program, asOf, i);
    SameEarlier(a, b, a.WindowStart(asOf, i) + o + 1, a.WindowStart(asOf, i) + o);
    WeightsIgnoreTheFuture(a, b, envs, program, asOf, i, o);
    ReturnsUsePastRows(a, b, WindowPath(a, envs, program, asOf, i), WindowPath(b, envs, program, asOf, i),
                       a.WindowStart(asOf, i), o);
  }

  lemma SameEarlier(a: Backtester, b: Backtester, day: nat, earlier: nat)
    requires SameBefore(a, b, day) && earlier <= day
    ensures SameBefore(a, b, earlier)
  {
    assert a.market.rows[..earlier] == a.market.rows[..day][..earlier];
    assert b.market.rows[..earlier] == b.market.rows[..day][..earlier];
  }

  /** The daily returns an evaluation reports when every window passed. */
  ghost function ReportedReturns(a: Backtester, envs: nat -> Environment, program: CandidateProgram, asOf: nat): Vec
    requires a.Valid() && a.ValidateHorizon(asOf).None?
    requires forall i :: 0 <= i < a.windows ==> a.WindowPasses(Sandboxes(envs), [], program, asOf, i)
  {
    a.Summarize(a.AllScores(Sandboxes(envs), [], program, asOf)).daily
  }

  lemma WindowDriven(a: Backtester, envs: nat -> Environment, program: CandidateProgram, asOf: nat, i: nat)
    requires a.Valid() && a.ValidateHorizon(asOf).None? && i < a.windows
    requires a.WindowPasses(Sandboxes(envs), [], program, asOf, i)
    ensures Drive(envs(i), a.WindowRequest(program, asOf, i)).Succeeded()
    ensures a.Path(WindowPath(a, envs, program, asOf, i), a.WindowStart(asOf, i))
    ensures a.WindowScore(Sandboxes(envs), [], program, asOf, i)
              == a.Score(WindowPath(a, envs, program, asOf, i), a.WindowStart(asOf, i))
  {
    hide Drive, Backtester.Score;
    AnswerIsDriven(a, envs, program, asOf, i);
    a.WindowInHorizon(asOf, i);
  }

  lemma ReportedAt(a: Backtester, envs: nat -> Environment, program: CandidateProgram, asOf: nat, i: nat, o: nat)
    requires a.Valid() && a.ValidateHorizon(asOf).None?
    requires forall i :: 0 <= i < a.windows ==> a.WindowPasses(Sandboxes(envs), [], program, asOf, i)
    requires i < a.windows && o < a.windowDays
    ensures Drive(envs(i), a.WindowRequest(program, asOf, i)).Succeeded()
    ensures a.Path(WindowPath(a, envs, program, asOf, i), a.WindowStart(asOf, i))
    ensures var t, daily := i * a.windowDays + o, ReportedReturns(a, envs, program, asOf);
            && 0 <= t < |daily|
            && daily[t] == a.Score(WindowPath(a, envs, program, asOf, i), a.WindowStart(asOf, i)).daily[o]
  {
    hide Drive, Backtester.Score, Backtester.Summarize, Backtester.WindowPasses, Backtester.WindowScore, WindowPath;
    hide Backtester.Path, Backtester.WindowRequest;
    WindowDriven(a, envs, program, asOf, i);
    Accounting.FlattenedReturns(a, a.AllScores(Sandboxes(envs), [], program, asOf), i, o);
  }

  /** Over a whole evaluation: two backtests of one program on markets that agree before a
      day report the same daily returns for every session before that day. */
  lemma NoLookAheadInBacktest(a: Backtester, b: Backtester, envs: nat -> Environment, program: CandidateProgram,
                              asOf: nat, t: nat)
    requires a.Valid() && b.Valid()
    requires a.ValidateHorizon(asOf).None? && b.ValidateHorizon(asOf).None?
    requires t < a.windows * a.windowDays && SameBefore(a, b, asOf + t + 1)
    requires forall i :: 0 <= i < a.windows ==> a.WindowPasses(Sandboxes(envs), [], program, asOf, i)
    requires forall i :: 0 <= i < b.windows ==> b.WindowPasses(Sandboxes(envs), [], program, asOf, i)
    ensures var x, y := ReportedReturns(a, envs, program, asOf), ReportedReturns(b, envs, program, asOf);
            t < |x| && t < |y| && x[t] == y[t]
  {
    hide Drive, Backtester.Score, Backtester.WindowPasses, ReportedReturns, WindowPath;
    var i, o := Accounting.WindowsCover(a, asOf, asOf + t);
    ReportedAt(a, envs, program, asOf, i, o);
    ReportedAt(b, envs, program, asOf, i, o);
    ReturnsIgnoreTheFuture(a, b, envs, program, asOf, i, o);
  }

  // ----- evaluations that fail

  /** The bars of a window are all of sessions before a day. */
  predicate Settled(a: Backtester, asOf: nat, i: nat, day: nat) {
    a.WindowStart(asOf, i) + a.windowDays <= day + 1
  }

  /** The bars of a window that are of sessions before a day. */
  function BarsBefore(a: Backtester, asOf: nat, i: nat, day: nat): nat
    requires a.Valid()
  {
    if Settled(a, asOf, i, day) then a.warmupDays + a.windowDays - 1
    else if day + a.warmupDays < a.WindowStart(asOf, i) then 0
    else day + a.warmupDays - a.WindowStart(asOf, i)
  }

  lemma SettledRequest(a: Backtester, b: Backtester, program: CandidateProgram, asOf: nat, i: nat, day: nat)
    requires a.Valid() && b.Valid()
    requires a.ValidateHorizon(asOf).None? && b.ValidateHorizon(asOf).None? && i < a.windows
    requires SameBefore(a, b, day) && Settled(a, asOf, i, day)
    ensures a.WindowRequest(program, asOf, i) == b.WindowRequest(program, asOf, i)
  {
    var r, q := a.WindowRequest(program, asOf, i), b.WindowRequest(program, asOf, i);
    Accounting.RequestShape(a, program, asOf, i);
    Accounting.RequestShape(b, program, asOf, i);
    RequestsAgreeBefore(a, b, program, asOf, i, day, |r.bars|);
    assert r.bars[..|r.bars|] == r.bars && q.bars[..|q.bars|] == q.bars;
  }

  lemma SettledWindow(a: Backtester, b: Backtester, envs: nat -> Environment, program: CandidateProgram, asOf: nat,
                      i: nat, day: nat)
    requires a.Valid() && b.Valid()
    requires a.ValidateHorizon(asOf).None? && b.ValidateHorizon(asOf).None? && i < a.windows
    requires SameBefore(a, b, day) && Settled(a, asOf, i, day)
    ensures a.Answer(Sandboxes(envs), [], program, asOf, i) == b.Answer(Sandboxes(envs), [], program, asOf, i)
    ensures a.WindowPasses(Sandboxes(envs), [], program, asOf, i) <==>
              b.WindowPasses(Sandboxes(envs), [], program, asOf, i)
  {
    hide Drive, Backtester.WindowRequest, Backtester.WindowPasses, Backtester.Answer;
    SettledRequest(a, b, program, asOf, i, day);
    PassesExactlyWhenCompleted(a, envs, program, asOf, i);
    PassesExactlyWhenCompleted(b, envs, program, asOf, i);
  }

  lemma SettledEarlier(a: Backtester, asOf: nat, i: nat, j: nat, day: nat)
    requires j <= i && Settled(a, asOf, i, day)
    ensures Settled(a, asOf, j, day)
  {
    Accounting.ProductMonotone(j, i, a.windowDays);
  }

  /** How far a failed evaluation got, and why, in terms of its own windows. */
  ghost predicate Stops(a: Backtester, envs: nat -> Environment, program: CandidateProgram, asOf: nat, e: ProgramEvaluation)
    requires a.Valid() && a.ValidateHorizon(asOf).None?
  {
    var k := |e.sandboxResults|;
    && k <= a.windows
    && (forall i :: 0 <= i < k ==> e.sandboxResults[i] == a.Answer(Sandboxes(envs), [], program, asOf, i))
    && (forall i :: 0 <= i < k - 1 ==> a.WindowPasses(Sandboxes(envs), [], program, asOf, i))
    && (e.Succeeded() ==> k == a.windows && (0 < k ==> a.WindowPasses(Sandboxes(envs), [], program, asOf, k - 1)))
    && (!e.Succeeded() ==>
          && 0 < k && !a.WindowPasses(Sandboxes(envs), [], program, asOf, k - 1)
          && e.error == SandboxFailed(k - 1, e.sandboxResults[k - 1].status, e.sandboxResults[k - 1].error))
  }

  lemma EvaluationStops(a: Backtester, envs: nat -> Environment, program: CandidateProgram, asOf: nat,
                        after: seq<SandboxRequest>, metadata: CandidateMetadata, e: ProgramEvaluation)
    requires a.Valid() && a.ValidateHorizon(asOf).None?
    requires a.FailsClosed(Sandboxes(envs), [], after, program, asOf, metadata, e)
    ensures Stops(a, envs, program, asOf, e)
  {
    hide Drive, Backtester.Summarize, Backtester.ContractHolds, Backtester.WindowRequest, Backtester.WindowPasses;
    hide Backtester.Answer, Backtester.Breach;
    ContractNeverViolated(a, envs, program, asOf, after, metadata, e);
  }

  lemma StopsSomewhere(a: Backtester, envs: nat -> Environment, program: CandidateProgram, asOf: nat, e: ProgramEvaluation)
    requires a.Valid() && a.ValidateHorizon(asOf).None? && Stops(a, envs, program, asOf, e)
    ensures |e.sandboxResults| <= a.windows && (!e.Succeeded() ==> 0 < |e.sandboxResults|)
  {
  }

  /** A window whose bars all precede the day is reached by both evaluations or by neither. */
  lemma ReachedByBoth(a: Backtester, b: Backtester, envs: nat -> Environment, program: CandidateProgram, asOf: nat,
                      day: nat, e: ProgramEvaluation, f: ProgramEvaluation, i: nat)
    requires a.Valid() && b.Valid()
    requires a.ValidateHorizon(asOf).None? && b.ValidateHorizon(asOf).None?
    requires SameBefore(a, b, day) && Settled(a, asOf, i, day)
    requires Stops(a, envs, program, asOf, e) && Stops(b, envs, program, asOf, f)
    requires i < |e.sandboxResults|
    ensures i < |f.sandboxResults| && e.sandboxResults[i] == f.sandboxResults[i]
  {
    hide Backtester.WindowPasses, Backtester.Answer, Backtester.Valid, Backtester.ValidateHorizon, Settled, Drive;
    SettledWindow(a, b, envs, program, asOf, i, day);
    if |f.sandboxResults| <= i {
      var last := |f.sandboxResults| - 1;
      SettledEarlier(a, asOf, i, last, day);
      SettledWindow(a, b, envs, program, asOf, last, day);
      assert false;
    }
  }

  lemma SameSettings(a: Backtester, b: Backtester, day: nat)
    requires SameBefore(a, b, day)
    ensures SameBefore(b, a, day)
    ensures forall asOf: nat, i: nat :: Settled(a, asOf, i, day) <==> Settled(b, asOf, i, day)
  {
  }

  /** Whole evaluations of one program, failing ones included, on markets that agree before a
      day: windows whose bars all precede it are reached by both or by neither and have equal
      sandbox results; every window both reach was answered alike before the day; and if one
      of them fails at a window whose bars all precede the day, so does the other, with the
      same error and the same sandbox results. */
  lemma EvaluationsAgreeBefore(a: Backtester, b: Backtester, envs: nat -> Environment, program: CandidateProgram,
                               asOf: nat, day: nat, metadata: CandidateMetadata,
                               callsA: seq<SandboxRequest>, e: ProgramEvaluation,
                               callsB: seq<SandboxRequest>, f: ProgramEvaluation)
    requires a.Valid() && b.Valid()
    requires a.ValidateHorizon(asOf).None? && b.ValidateHorizon(asOf).None?
    requires SameBefore(a, b, day)
    requires a.FailsClosed(Sandboxes(envs), [], callsA, program, asOf, metadata, e)
    requires b.FailsClosed(Sandboxes(envs), [], callsB, program, asOf, metadata, f)
    ensures forall i :: 0 <= i < a.windows && Settled(a, asOf, i, day) ==>
              && (i < |e.sandboxResults| <==> i < |f.sandboxResults|)
              && (i < |e.sandboxResults| ==> e.sandboxResults[i] == f.sandboxResults[i])
    ensures forall i :: 0 <= i < |e.sandboxResults| && i < |f.sandboxResults| ==>
              Upto(e.sandboxResults[i].frames, BarsBefore(a, asOf, i, day))
                == Upto(f.sandboxResults[i].frames, BarsBefore(a, asOf, i, day))
    ensures !e.Succeeded() && Settled(a, asOf, |e.sandboxResults| - 1, day) ==>
              !f.Succeeded() && f.error == e.error && f.sandboxResults == e.sandboxResults
  {
    hide Backtester.FailsClosed, Stops, Backtester.WindowRequest, Drive, Settled, SameBefore, Upto, BarsBefore;
    hide Backtester.Valid, Backtester.ValidateHorizon;
    EvaluationStops(a, envs, program, asOf, callsA, metadata, e);
    EvaluationStops(b, envs, program, asOf, callsB, metadata, f);
    SameSettings(a, b, day);
    StopsSomewhere(a, envs, program, asOf, e);
    forall i | 0 <= i < a.windows && Settled(a, asOf, i, day)
      ensures (i < |e.sandboxResults| <==> i < |f.sandboxResults|)
      ensures i < |e.sandboxResults| ==> e.sandboxResults[i] == f.sandboxResults[i]
    {
      if i < |e.sandboxResults| {
        ReachedByBoth(a, b, envs, program, asOf, day, e, f, i);
      }
      if i < |f.sandboxResults| {
        ReachedByBoth(b, a, envs, program, asOf, day, f, e, i);
      }
    }
    forall i | 0 <= i < |e.sandboxResults| && i < |f.sandboxResults|
      ensures Upto(e.sandboxResults[i].frames, BarsBefore(a, asOf, i, day))
                == Upto(f.sandboxResults[i].frames, BarsBefore(a, asOf, i, day))
    {
      AnsweredAlike(a, b, envs, program, asOf, day, e, f, i);
    }
    if !e.Succeeded() && Settled(a, asOf, |e.sandboxResults| - 1, day) {
      FailsAlike(a, b, envs, program, asOf, day, e, f);
    }
  }

  lemma AnsweredAlike(a: Backtester, b: Backtester, envs: nat -> Environment, program: CandidateProgram, asOf: nat,
                      day: nat, e: ProgramEvaluation, f: ProgramEvaluation, i: nat)
    requires a.Valid() && b.Valid()
    requires a.ValidateHorizon(asOf).None? && b.ValidateHorizon(asOf).None? && SameBefore(a, b, day)
    requires Stops(a, envs, program, asOf, e) && Stops(b, envs, program, asOf, f)
    requires i < |e.sandboxResults| && i < |f.sandboxResults|
    ensures Upto(e.sandboxResults[i].frames, BarsBefore(a, asOf, i, day))
              == Upto(f.sandboxResults[i].frames, BarsBefore(a, asOf, i, day))
  {
    hide Drive, Backtester.WindowPasses, Backtester.Answer, Backtester.WindowRequest;
    var m := BarsBefore(a, asOf, i, day);
    Accounting.RequestShape(a, program, asOf, i);
    Accounting.RequestShape(b, program, asOf, i);
    PassesExactlyWhenCompleted(a, envs, program, asOf, i);
    PassesExactlyWhenCompleted(b, envs, program, asOf, i);
    if 0 < m {
      RequestsAgreeBefore(a, b, program, asOf, i, day, m);
      OutcomesDependOnlyOnBarsSent(envs(i), a.WindowRequest(program, asOf, i), b.WindowRequest(program, asOf, i), m);
    }
  }

  lemma FailsAlike(a: Backtester, b: Backtester, envs: nat -> Environment, program: CandidateProgram, asOf: nat,
                   day: nat, e: ProgramEvaluation, f: ProgramEvaluation)
    requires a.Valid() && b.Valid()
    requires a.ValidateHorizon(asOf).None? && b.ValidateHorizon(asOf).None? && SameBefore(a, b, day)
    requires Stops(a, envs, program, asOf, e) && Stops(b, envs, program, asOf, f)
    requires !e.Succeeded() && 0 < |e.sandboxResults| && Settled(a, asOf, |e.sandboxResults| - 1, day)
    ensures !f.Succeeded() && f.error == e.error && f.sandboxResults == e.sandboxResults
  {
    hide Backtester.WindowPasses, Backtester.Answer, Backtester.Valid, Backtester.ValidateHorizon, Settled, Drive;
    hide SameBefore;
    var k := |e.sandboxResults|;
    forall i: nat | i < k
      ensures i < |f.sandboxResults| && e.sandboxResults[i] == f.sandboxResults[i]
    {
      SettledEarlier(a, asOf, k - 1, i, day);
      ReachedByBoth(a, b, envs, program, asOf, day, e, f, i);
    }
    SettledWindow(a, b, envs, program, asOf, k - 1, day);
    assert |f.sandboxResults| == k;
  }
}
