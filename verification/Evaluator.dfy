/** The evaluator: one backtest per proposed program, in the order proposed, and what its
    honesty gives the experiment loop around it. */
module Evaluator {
  import opened Wrappers
  import opened Executors
  import opened Backtest
  import opened Ledger
  import opened Experiments
  import Counts = ExperimentProperties

  datatype EvaluatorError = NoPrograms | BadHorizon(error: HorizonError)

  /** Every evaluation is of the program in its place. */
  predicate Paired(programs: seq<CandidateProgram>, evaluations: seq<ProgramEvaluation>) {
    && |evaluations| == |programs|
    && forall i :: 0 <= i < |programs| ==> evaluations[i].programSha256 == programs[i].sha256
  }

  /** A backtest is present only together with an empty error, for a valid source. */
  predicate Closed(validate: CandidateProgram -> Result<CandidateMetadata, seq<string>>, windows: nat,
                   program: CandidateProgram, e: ProgramEvaluation) {
    && (e.backtest.Some? <==> e.error.NoEvaluationError?)
    && (e.backtest.Some? ==> validate(program).Success? && |e.sandboxResults| == windows)
    && |e.sandboxResults| <= windows
    && (validate(program).Failure? ==> e.sandboxResults == [] && e.backtest.None?)
  }

  /** Backtests a group of programs; a horizon the market cannot support is raised before
      any sandbox has been called. */
  method BacktestAll(b: Backtester, executor: SandboxExecutor,
                     validate: CandidateProgram -> Result<CandidateMetadata, seq<string>>,
                     programs: seq<CandidateProgram>, asOf: nat)
    returns (r: Result<seq<ProgramEvaluation>, EvaluatorError>)
    requires b.Valid()
    modifies executor
    ensures r.Success? <==> programs != [] && b.ValidateHorizon(asOf).None?
    ensures r.Failure? ==> executor.calls == old(executor.calls)
    ensures r.Success? ==>
              && Paired(programs, r.value)
              && forall i :: 0 <= i < |programs| ==> Closed(validate, b.windows, programs[i], r.value[i])
    ensures |executor.calls| <= |old(executor.calls)| + |programs| * b.windows
  {
    if programs == [] {
      return Failure(NoPrograms);
    }
    var evaluations: seq<ProgramEvaluation> := [];
    for i := 0 to |programs|
      invariant Paired(programs[..i], evaluations)
      invariant forall k :: 0 <= k < i ==> Closed(validate, b.windows, programs[k], evaluations[k])
      invariant 0 < i ==> b.ValidateHorizon(asOf).None?
      invariant i == 0 ==> executor.calls == old(executor.calls)
      invariant |executor.calls| <= |old(executor.calls)| + i * b.windows
    {
      ghost var before := executor.calls;
      var evaluation := EvaluateOne(b, executor, validate, programs[i], asOf);
      if evaluation.Failure? {
        return Failure(BadHorizon(evaluation.error));
      }
      assert (i + 1) * b.windows == i * b.windows + b.windows;
      evaluations := evaluations + [evaluation.value];
      assert programs[..i + 1] == programs[..i] + [programs[i]];
    }
    assert programs[..|programs|] == programs;
    return Success(evaluations);
  }

  method EvaluateOne(b: Backtester, executor: SandboxExecutor,
                     validate: CandidateProgram -> Result<CandidateMetadata, seq<string>>,
                     program: CandidateProgram, asOf: nat)
    returns (r: Result<ProgramEvaluation, HorizonError>)
    requires b.Valid()
    modifies executor
    ensures r.Success? <==> b.ValidateHorizon(asOf).None?
    ensures r.Failure? ==> executor.calls == old(executor.calls)
    ensures r.Success? ==>
              r.value.programSha256 == program.sha256 && Closed(validate, b.windows, program, r.value)
    ensures |executor.calls| <= |old(executor.calls)| + b.windows
  {
    hide Backtester.Summarize, Backtester.WindowPasses, Backtester.Answer, Backtester.AllScores;
    r := b.Evaluate(executor, validate, program, asOf);
  }

  // ----- the experiment loop around an evaluator

  /** Trial and evaluation i are about one program. */
  predicate Matched(trials: seq<CandidateTrial>, evaluations: seq<ProgramEvaluation>)
    requires |trials| == |evaluations|
  {
    forall i :: 0 <= i < |trials| ==> evaluations[i].programSha256 == trials[i].proposal.program.sha256
  }

  predicate SameProgram(s: RunState)
    requires s.Aligned()
  {
    Matched(s.trials, s.evaluations)
  }

  /** What the evaluator was asked in a generation, and answered. */
  function Asked(x: Experiment, seeds: seq<CandidateProgram>, s: RunState, g: nat): seq<CandidateProgram>
    requires s.Aligned() && x.Evaluated(seeds, s, g).Success?
  {
    Programs(x.propose(x.Request(seeds, s, g)).value)
  }

  function Answered(x: Experiment, seeds: seq<CandidateProgram>, s: RunState, g: nat): seq<ProgramEvaluation>
    requires s.Aligned() && x.Evaluated(seeds, s, g).Success?
  {
    x.backtest(g, Asked(x, seeds, s, g), x.config.asOfIndex).value
  }

  lemma MatchedJoin(trials: seq<CandidateTrial>, evaluations: seq<ProgramEvaluation>, more: seq<CandidateTrial>,
                    asked: seq<CandidateProgram>, answered: seq<ProgramEvaluation>)
    requires |trials| == |evaluations| && |more| == |asked| == |answered|
    requires forall k :: 0 <= k < |more| ==> more[k].proposal.program == asked[k]
    ensures Matched(trials + more, evaluations + answered) <==>
              Matched(trials, evaluations) && Paired(asked, answered)
  {
    var all, both, n := trials + more, evaluations + answered, |trials|;
    if Matched(all, both) {
      forall i | 0 <= i < n
        ensures evaluations[i].programSha256 == trials[i].proposal.program.sha256
      {
        assert both[i].programSha256 == all[i].proposal.program.sha256;
      }
      forall k | 0 <= k < |asked|
        ensures answered[k].programSha256 == asked[k].sha256
      {
        assert both[n + k].programSha256 == all[n + k].proposal.program.sha256;
      }
    }
  }

  /** Over one generation, pairing is kept exactly when this very answer keeps the order. */
  lemma EvaluatedPairsExactlyWhen(x: Experiment, seeds: seq<CandidateProgram>, s: RunState, g: nat)
    requires s.Aligned() && x.Evaluated(seeds, s, g).Success?
    ensures SameProgram(x.Evaluated(seeds, s, g).value) <==>
              SameProgram(s) && Paired(Asked(x, seeds, s, g), Answered(x, seeds, s, g))
  {
    hide CandidateId, Matched, Paired;
    var more := x.NewTrials(g, |s.trials|, x.propose(x.Request(seeds, s, g)).value);
    MatchedJoin(s.trials, s.evaluations, more, Asked(x, seeds, s, g), Answered(x, seeds, s, g));
  }

  /** Round h of a run, if it was played to the end, had its batch answered in order. */
  predicate RoundPaired(x: Experiment, seeds: seq<CandidateProgram>, taken: set<Key>, h: nat) {
    var before := x.Reach(seeds, taken, h);
    before.error.None? && |before.state.trials| < x.config.evaluationBudget
    && x.Generation(seeds, taken, before.state, h).error.None? ==>
      Paired(Asked(x, seeds, before.state, h), Answered(x, seeds, before.state, h))
  }

  lemma RoundStep(x: Experiment, seeds: seq<CandidateProgram>, taken: set<Key>, h: nat)
    ensures SameProgram(x.Reach(seeds, taken, h + 1).state) <==>
              SameProgram(x.Reach(seeds, taken, h).state) && RoundPaired(x, seeds, taken, h)
  {
    hide Experiment.Evaluated, Experiment.Audited, Experiment.SelectParents, Experiment.NewRecords, KeysOf, Asked, Answered;
    hide Paired;
    var before := x.Reach(seeds, taken, h);
    if before.error.None? && |before.state.trials| < x.config.evaluationBudget
       && x.Evaluated(seeds, before.state, h).Success? {
      EvaluatedPairsExactlyWhen(x, seeds, before.state, h);
    }
  }

  /** In every state a run reaches, each candidate is paired with its own evaluation if and
      only if the evaluator answered every batch of a round played to the end in order; the
      loop itself never checks it. */
  lemma {:induction false} PairedExactlyWhen(x: Experiment, seeds: seq<CandidateProgram>, taken: set<Key>, g: nat)
    ensures SameProgram(x.Reach(seeds, taken, g).state) <==> forall h :: 0 <= h < g ==> RoundPaired(x, seeds, taken, h)
  {
    hide SameProgram, RoundPaired, Experiment.Reach;
    if g == 0 {
      StartPaired(x, seeds, taken);
    } else {
      PairedExactlyWhen(x, seeds, taken, g - 1);
      RoundStep(x, seeds, taken, g - 1);
    }
  }

  lemma StartPaired(x: Experiment, seeds: seq<CandidateProgram>, taken: set<Key>)
    ensures SameProgram(x.Reach(seeds, taken, 0).state)
  {
  }

  /** The scores follow: what the loop does check makes score i one of evaluation i. */
  lemma ScoresFollow(x: Experiment, seeds: seq<CandidateProgram>, taken: set<Key>, g: nat)
    requires x.config.Valid() && x.Reach(seeds, taken, g).error.None?
    requires SameProgram(x.Reach(seeds, taken, g).state)
    ensures var s := x.Reach(seeds, taken, g).state;
            forall i :: 0 <= i < |s.trials| ==>
              s.scores[i].evaluation.programSha256 == s.trials[i].proposal.program.sha256
  {
    hide Experiment.Reach, Counts.TrialAt, Counts.RecordAt;
    Counts.CountedThroughout(x, seeds, taken, g);
  }
}
