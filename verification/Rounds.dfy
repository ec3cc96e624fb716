/** What one round of a run asks of the evolver, the evaluator and the scorer, which answers
    it accepts, and which scores its audit records carry. */
module Rounds {
  import opened Wrappers
  import opened Executors
  import opened Experiments
  import LocalEvolver
  import Backtest
  import Ledger
  import Counts = ExperimentProperties

  // ----- the request

  /** A batch no larger than what the budget leaves, the seed moved on by the generation, the
      parents chosen last, and exactly the hashes of the trials made so far. */
  predicate RequestAt(x: Experiment, seeds: seq<CandidateProgram>, s: RunState, g: nat,
                      request: LocalEvolver.ProposalRequest)
  {
    var left := x.config.evaluationBudget - |s.trials|;
    && request.generation == g
    && (x.config.batchSize <= left ==> request.batchSize == x.config.batchSize)
    && (left < x.config.batchSize ==> request.batchSize == left)
    && request.seed == x.config.seed + g
    && request.seedPrograms == seeds
    && request.parents == s.parents
    && (forall i :: 0 <= i < |s.trials| ==> s.trials[i].proposal.program.sha256 in request.seen)
    && (forall hash :: hash in request.seen ==> exists i :: 0 <= i < |s.trials| && s.trials[i].proposal.program.sha256 == hash)
  }

  lemma RequestIs(x: Experiment, seeds: seq<CandidateProgram>, s: RunState, g: nat,
                  request: LocalEvolver.ProposalRequest)
    ensures RequestAt(x, seeds, s, g, request) <==> request == x.Request(seeds, s, g)
  {
    if RequestAt(x, seeds, s, g, request) {
      assert request.seen == Hashes(s.trials);
    }
  }

  // ----- the answers

  datatype Answers = Answers(
    proposals: seq<LocalEvolver.Proposal>,
    programs: seq<CandidateProgram>,
    evaluations: seq<Backtest.ProgramEvaluation>,
    scores: seq<ProgramScore>)

  /** The evolver proposed as many as asked, and these are their programs. */
  predicate Proposed(x: Experiment, request: LocalEvolver.ProposalRequest, a: Answers) {
    && x.propose(request) == Success(a.proposals)
    && |a.proposals| == request.batchSize
    && |a.programs| == |a.proposals|
    && (forall k :: 0 <= k < |a.programs| ==> a.programs[k] == a.proposals[k].program)
  }

  /** The evaluator backtested them as of the configured index, one evaluation each. */
  predicate Backtested(x: Experiment, g: nat, a: Answers) {
    x.backtest(g, a.programs, x.config.asOfIndex) == Some(a.evaluations) && |a.evaluations| == |a.programs|
  }

  /** The scorer scored these together with all before, one score each. */
  predicate Scored(x: Experiment, s: RunState, g: nat, a: Answers) {
    && x.score(g, s.evaluations + a.evaluations) == Some(a.scores)
    && |a.scores| == |s.evaluations| + |a.evaluations|
  }

  predicate InOrder(s: RunState, a: Answers) {
    && |a.scores| == |s.evaluations| + |a.evaluations|
    && forall i :: 0 <= i < |a.scores| ==>
         a.scores[i].evaluation.programSha256 == (s.evaluations + a.evaluations)[i].programSha256
  }

  predicate AllCounted(a: Answers) {
    forall i :: 0 <= i < |a.scores| ==> a.scores[i].score.trialCount == |a.scores| as real
  }

  predicate Accepted(x: Experiment, s: RunState, g: nat, request: LocalEvolver.ProposalRequest, a: Answers) {
    && Proposed(x, request, a)
    && Backtested(x, g, a)
    && Scored(x, s, g, a)
    && InOrder(s, a)
    && AllCounted(a)
  }

  /** The error names the first answer that is not acceptable. */
  predicate Rejected(x: Experiment, s: RunState, g: nat, request: LocalEvolver.ProposalRequest, a: Answers,
                     error: ExperimentError)
  {
    match error
    case EvolverFailed(e) => x.propose(request) == Failure(e)
    case WrongProposalCount => x.propose(request) == Success(a.proposals) && |a.proposals| != request.batchSize
    case EvaluatorFailed => Proposed(x, request, a) && x.backtest(g, a.programs, x.config.asOfIndex).None?
    case WrongEvaluationCount =>
      && Proposed(x, request, a)
      && x.backtest(g, a.programs, x.config.asOfIndex) == Some(a.evaluations) && |a.evaluations| != |a.programs|
    case ScorerFailed =>
      && Proposed(x, request, a) && Backtested(x, g, a)
      && x.score(g, s.evaluations + a.evaluations).None?
    case WrongScoreCount =>
      && Proposed(x, request, a) && Backtested(x, g, a)
      && x.score(g, s.evaluations + a.evaluations) == Some(a.scores)
      && |a.scores| != |s.evaluations| + |a.evaluations|
    case ScorerReordered =>
      Proposed(x, request, a) && Backtested(x, g, a) && Scored(x, s, g, a) && !InOrder(s, a)
    case WrongTrialCount =>
      && Proposed(x, request, a) && Backtested(x, g, a) && Scored(x, s, g, a) && InOrder(s, a)
      && !AllCounted(a)
    case _ => false
  }

  /** The state with the accepted answers added: new trials in the order proposed, and the
      scores of this round for every trial. */
  predicate Extended(s: RunState, g: nat, a: Answers, next: RunState) {
    && |next.trials| == |s.trials| + |a.proposals|
    && (forall i :: 0 <= i < |s.trials| ==> next.trials[i] == s.trials[i])
    && (forall k :: 0 <= k < |a.proposals| ==>
          next.trials[|s.trials| + k].proposal == a.proposals[k] && next.trials[|s.trials| + k].generation == g)
    && next.evaluations == s.evaluations + a.evaluations
    && next.scores == a.scores
    && OutcomesAre(next)
  }

  /** Each trial with its own evaluation and its own score. */
  predicate OutcomesAre(s: RunState) {
    && s.Aligned()
    && |s.Outcomes()| == |s.trials|
    && forall i :: 0 <= i < |s.trials| ==>
         && s.Outcomes()[i].trial == s.trials[i]
         && s.Outcomes()[i].evaluation == s.evaluations[i]
         && s.Outcomes()[i].score == s.scores[i]
  }

  lemma AnswersOf(x: Experiment, seeds: seq<CandidateProgram>, s: RunState, g: nat) returns (a: Answers)
    requires s.Aligned()
    ensures var request := x.Request(seeds, s, g);
            match x.Evaluated(seeds, s, g)
            case Success(next) => Accepted(x, s, g, request, a) && Extended(s, g, a, next)
            case Failure(error) => Rejected(x, s, g, request, a, error)
  {
    hide CandidateId, Hashes;
    var request := x.Request(seeds, s, g);
    a := Answers([], [], [], []);
    var proposed := x.propose(request);
    if proposed.Success? {
      a := a.(proposals := proposed.value, programs := Programs(proposed.value));
      var backtested := x.backtest(g, a.programs, x.config.asOfIndex);
      if backtested.Some? {
        a := a.(evaluations := backtested.value);
        var scored := x.score(g, s.evaluations + a.evaluations);
        if scored.Some? {
          a := a.(scores := scored.value);
        }
      }
    }
  }

  lemma AcceptedPasses(x: Experiment, seeds: seq<CandidateProgram>, s: RunState, g: nat, a: Answers)
    requires s.Aligned() && Accepted(x, s, g, x.Request(seeds, s, g), a)
    ensures x.Evaluated(seeds, s, g).Success?
  {
    hide CandidateId, Hashes;
    assert a.programs == Programs(a.proposals);
  }

  lemma EvaluatedExactlyWhen(x: Experiment, seeds: seq<CandidateProgram>, s: RunState, g: nat,
                             request: LocalEvolver.ProposalRequest)
    requires s.Aligned() && request == x.Request(seeds, s, g)
    ensures x.Evaluated(seeds, s, g).Success? <==> exists a :: Accepted(x, s, g, request, a)
  {
    hide Accepted, Rejected, Experiment.Evaluated, Experiment.Request;
    var answers := AnswersOf(x, seeds, s, g);
    if a :| Accepted(x, s, g, request, a) {
      AcceptedPasses(x, seeds, s, g, a);
    }
  }

  lemma GenerationExtends(x: Experiment, seeds: seq<CandidateProgram>, taken: set<Ledger.Key>, s: RunState, g: nat,
                          a: Answers)
    requires s.Aligned() && x.Generation(seeds, taken, s, g).error.None?
    requires Extended(s, g, a, x.Evaluated(seeds, s, g).value)
    ensures Extended(s, g, a, x.Generation(seeds, taken, s, g).state)
  {
    SameTrials(x, seeds, taken, s, g);
    hide Experiment.Evaluated, Experiment.Generation, OutcomesAre;
    OutcomesJoin(x.Generation(seeds, taken, s, g).state);
  }

  lemma SameTrials(x: Experiment, seeds: seq<CandidateProgram>, taken: set<Ledger.Key>, s: RunState, g: nat)
    requires s.Aligned() && x.Generation(seeds, taken, s, g).error.None?
    ensures x.Evaluated(seeds, s, g).Success?
    ensures var next, run := x.Evaluated(seeds, s, g).value, x.Generation(seeds, taken, s, g).state;
            run.trials == next.trials && run.evaluations == next.evaluations && run.scores == next.scores
  {
    hide Experiment.Evaluated, Experiment.Audited, Experiment.SelectParents, Experiment.NewRecords;
  }

  lemma OutcomesJoin(s: RunState)
    requires s.Aligned()
    ensures OutcomesAre(s)
  {
  }

  /** Every round of every run that finds budget left makes one such request, and gets on to
      its audit records exactly when all three answers to it are acceptable; they then extend
      the state. If not, the run ends there with the first fault and no further record. */
  lemma RoundsAreAnswered(x: Experiment, seeds: seq<CandidateProgram>, taken: set<Ledger.Key>, g: nat,
                          request: LocalEvolver.ProposalRequest)
    returns (a: Answers)
    requires seeds != [] && g < x.config.generations
    requires x.Reach(seeds, taken, g).error.None?
    requires |x.Reach(seeds, taken, g).state.trials| < x.config.evaluationBudget
    requires RequestAt(x, seeds, x.Reach(seeds, taken, g).state, g, request)
    ensures var s := x.Reach(seeds, taken, g).state;
            && (x.Evaluated(seeds, s, g).Success? <==> exists b :: Accepted(x, s, g, request, b))
            && match x.Evaluated(seeds, s, g)
               case Success(next) =>
                 && Accepted(x, s, g, request, a)
                 && (x.Reach(seeds, taken, g + 1).error.None? ==> Extended(s, g, a, x.Reach(seeds, taken, g + 1).state))
               case Failure(error) =>
                 && Rejected(x, s, g, request, a, error)
                 && x.Outcome(seeds, taken) == (Failure(error), s.records)
  {
    hide Accepted, Rejected, Experiment.Evaluated, Experiment.Audited, Experiment.SelectParents, Experiment.NewRecords;
    hide RequestAt, Experiment.Request, Extended;
    var s := x.Reach(seeds, taken, g).state;
    RequestIs(x, seeds, s, g, request);
    EvaluatedExactlyWhen(x, seeds, s, g, request);
    a := AnswersOf(x, seeds, s, g);
    if x.Evaluated(seeds, s, g).Failure? {
      x.RunSettles(seeds, taken, g + 1, x.config.generations);
    } else if x.Reach(seeds, taken, g + 1).error.None? {
      GenerationExtends(x, seeds, taken, s, g, a);
    }
  }

  // ----- the scores in the records

  predicate CarriesScore(record: Ledger.TrialRecord, score: HonestScore) {
    && record.reward == score.reward
    && (record.passed <==> score.passed != 0.0)
    && record.validity == score.validity
    && record.metrics == score.metrics
  }

  /** The record is of trial i of this state, with its evaluation and its score there. */
  predicate RecordIn(x: Experiment, record: Ledger.TrialRecord, s: RunState, i: nat)
    requires 0 < x.config.batchSize
  {
    && i < |s.trials| && i < |s.evaluations| && i < |s.scores|
    && Counts.RecordAt(x.config, record, s.trials[i], s.evaluations[i], i)
    && CarriesScore(record, s.scores[i].score)
  }

  lemma NewRecordIn(x: Experiment, next: RunState, first: nat, g: nat, k: nat)
    requires 0 < x.config.batchSize && next.Aligned()
    requires first == g * x.config.batchSize && k < |next.trials| - first
    requires |next.trials| == Counts.Least(x.config.evaluationBudget, (g + 1) * x.config.batchSize)
    requires Counts.TrialAt(x.config, next.trials[first + k], first + k)
    requires x.CountsAllTrials(next)
    ensures RecordIn(x, x.NewRecords(next.trials, next.evaluations, next.scores, first)[k], next, first + k)
  {
    hide Counts.RecordAt, Counts.TrialAt, Experiment.RecordOf, Experiment.CountsAllTrials, Counts.Least, CarriesScore;
    Counts.NewRecordsFit(x, next, first, g, k);
    CarriedByRecord(x, next.trials[first + k], next.evaluations[first + k], next.scores[first + k]);
  }

  lemma CarriedByRecord(x: Experiment, trial: CandidateTrial, evaluation: Backtest.ProgramEvaluation, score: ProgramScore)
    ensures CarriesScore(x.RecordOf(trial, evaluation, score), score.score)
  {
  }

  /** Where record i of a run comes from: the round of its generation, and what it scored. */
  predicate FromItsRound(x: Experiment, seeds: seq<CandidateProgram>, taken: set<Ledger.Key>, g: nat,
                         record: Ledger.TrialRecord, i: nat)
    requires 0 < x.config.batchSize
  {
    var h := Counts.GenerationOf(x.config, i);
    var before := x.Reach(seeds, taken, h);
    && h < g && before.error.None?
    && x.Evaluated(seeds, before.state, h).Success?
    && RecordIn(x, record, x.Evaluated(seeds, before.state, h).value, i)
  }

  lemma GenerationsRecordsCarry(x: Experiment, seeds: seq<CandidateProgram>, taken: set<Ledger.Key>, g: nat)
    requires 0 < x.config.batchSize
    requires x.Reach(seeds, taken, g).error.None?
    requires |x.Reach(seeds, taken, g).state.trials| < x.config.evaluationBudget
    ensures var s := x.Reach(seeds, taken, g).state;
            var records := x.Generation(seeds, taken, s, g).state.records;
            && s.records <= records
            && forall i :: |s.records| <= i < |records| ==> FromItsRound(x, seeds, taken, g + 1, records[i], i)
  {
    hide Experiment.Evaluated, Experiment.Audited, Experiment.SelectParents, Experiment.NewRecords, Experiment.Reach;
    hide Counts.TrialAt, Counts.RecordAt, RecordIn, Ledger.KeysOf;
    var s := x.Reach(seeds, taken, g).state;
    Counts.CountedThroughout(x, seeds, taken, g);
    if x.Evaluated(seeds, s, g).Success? {
      Counts.EvaluatedCounts(x, seeds, s, g);
      var next, first := x.Evaluated(seeds, s, g).value, |s.trials|;
      var items := x.NewRecords(next.trials, next.evaluations, next.scores, first);
      Counts.AuditedIsPrefix(x, taken, s.records, items);
      Counts.NewRecordsLength(x, next, first);
      var records := x.Generation(seeds, taken, s, g).state.records;
      forall i | first <= i < |records|
        ensures FromItsRound(x, seeds, taken, g + 1, records[i], i)
      {
        assert records[i] == items[i - first];
        NewRecordIn(x, next, first, g, i - first);
        Counts.MulBounds(x.config.batchSize, g, g + 1);
        assert (g + 1) * x.config.batchSize == first + x.config.batchSize;
        Counts.Quotient(x.config.batchSize, g, i);
      }
    }
  }

  /** Every record of every run, finished or aborted, is of its own trial and repeats the
      evaluation and the score that trial was given in the generation it was proposed in. */
  lemma {:induction false} RecordsCarryScores(x: Experiment, seeds: seq<CandidateProgram>, taken: set<Ledger.Key>,
                                              g: nat, i: nat)
    requires 0 < x.config.batchSize && i < |x.Reach(seeds, taken, g).state.records|
    ensures FromItsRound(x, seeds, taken, g, x.Reach(seeds, taken, g).state.records[i], i)
  {
    hide Experiment.Generation, FromItsRound;
    var before := x.Reach(seeds, taken, g - 1);
    var earlier := before.state.records;
    if before.error.None? && |before.state.trials| < x.config.evaluationBudget {
      GenerationsRecordsCarry(x, seeds, taken, g - 1);
    }
    if i < |earlier| {
      RecordsCarryScores(x, seeds, taken, g - 1, i);
      StillFromItsRound(x, seeds, taken, g - 1, earlier[i], i);
    }
  }

  lemma StillFromItsRound(x: Experiment, seeds: seq<CandidateProgram>, taken: set<Ledger.Key>, g: nat,
                          record: Ledger.TrialRecord, i: nat)
    requires 0 < x.config.batchSize && FromItsRound(x, seeds, taken, g, record, i)
    ensures FromItsRound(x, seeds, taken, g + 1, record, i)
  {
    hide Experiment.Reach, Experiment.Evaluated, RecordIn;
  }
}
