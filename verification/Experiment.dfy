/** The budget-bounded experiment loop: propose a batch, backtest it once, rescore everything
    evaluated so far, and append one audit record per new candidate. */
module Experiments {
  import opened Wrappers
  import opened Vectors
  import opened Executors
  import opened Ledger
  import opened Ranking
  import Text
  import Backtest
  import LocalEvolver

  // ----- data

  datatype ExperimentConfig = ExperimentConfig(
    experimentId: string,
    asOfIndex: nat,
    seed: int,
    generations: nat,
    batchSize: nat,
    evaluationBudget: nat,
    eliteCount: nat)
  {
    predicate Valid() {
      && IsIdentifier(experimentId)
      && 1 <= generations <= 1_000
      && 1 <= batchSize <= 256
      && 1 <= evaluationBudget <= 100_000
      && 1 <= eliteCount <= 256
      && eliteCount <= batchSize
    }
  }

  predicate IsAlphanumeric(c: char) {
    'A' <= c <= 'Z' || 'a' <= c <= 'z' || '0' <= c <= '9'
  }

  predicate IsIdentifier(id: string) {
    && 1 <= |id| <= 128
    && IsAlphanumeric(id[0])
    && forall i :: 1 <= i < |id| ==> IsAlphanumeric(id[i]) || id[i] in "._-"
  }

  datatype HonestScore = HonestScore(
    reward: real,
    passed: real,
    validity: real,
    trialCount: real,
    metrics: map<string, real>)

  datatype ProgramScore = ProgramScore(evaluation: Backtest.ProgramEvaluation, score: HonestScore)

  datatype CandidateTrial = CandidateTrial(
    candidateId: string,
    evaluationIndex: nat,
    generation: nat,
    proposal: LocalEvolver.Proposal)

  datatype CandidateOutcome = CandidateOutcome(
    trial: CandidateTrial,
    evaluation: Backtest.ProgramEvaluation,
    score: ProgramScore)

  function StandingOf(o: CandidateOutcome): Standing {
    Standing(o.score.score.reward, o.score.score.passed, o.score.score.validity, o.trial.candidateId)
  }

  datatype StopReason = EvaluationBudget | GenerationLimit

  datatype ExperimentResult = ExperimentResult(
    config: ExperimentConfig,
    outcomes: seq<CandidateOutcome>,
    records: seq<TrialRecord>,
    generationsCompleted: nat,
    stopReason: StopReason)
  {
    function EvaluationsUsed(): nat {
      |outcomes|
    }

    function RankedOutcomes(): seq<CandidateOutcome> {
      Ranked(outcomes, StandingOf)
    }
  }

  datatype ExperimentError =
    | NoSeedPrograms
    | EvolverFailed(error: LocalEvolver.EvolveError)
    | WrongProposalCount
    | EvaluatorFailed
    | WrongEvaluationCount
    | ScorerFailed
    | WrongScoreCount
    | ScorerReordered
    | WrongTrialCount
    | InvalidRecord
    | DuplicateRecord

  // ----- one candidate

  function CandidateId(experimentId: string, generation: nat, index: nat): string {
    experimentId + ":g" + Text.Padded(generation, 4) + ":t" + Text.Padded(index, 6)
  }

  /** int() of a float. */
  function Truncated(x: real): int {
    if x < 0.0 then -(-x).Floor else x.Floor
  }

  function SumOfNats(s: seq<nat>): nat {
    if s == [] then 0 else s[0] + SumOfNats(s[1..])
  }

  function Statuses(results: seq<SandboxResult>): seq<SandboxStatus> {
    seq(|results|, i requires 0 <= i < |results| => results[i].status)
  }

  function Durations(results: seq<SandboxResult>): seq<real> {
    seq(|results|, i requires 0 <= i < |results| => results[i].duration)
  }

  function StdoutBytes(results: seq<SandboxResult>): nat {
    SumOfNats(seq(|results|, i requires 0 <= i < |results| => results[i].stdoutBytes))
  }

  function StderrBytes(results: seq<SandboxResult>): nat {
    SumOfNats(seq(|results|, i requires 0 <= i < |results| => results[i].stderrBytes))
  }

  function SourceBytes(metadata: Option<CandidateMetadata>): nat {
    if metadata.Some? then metadata.value.sourceBytes else 0
  }

  function AstNodes(metadata: Option<CandidateMetadata>): nat {
    if metadata.Some? then metadata.value.astNodes else 0
  }

  // ----- the state of a run

  datatype RunState = RunState(
    trials: seq<CandidateTrial>,
    evaluations: seq<Backtest.ProgramEvaluation>,
    scores: seq<ProgramScore>,
    records: seq<TrialRecord>,
    parents: seq<LocalEvolver.ParentCandidate>,
    generations: nat)
  {
    predicate Aligned() {
      |trials| == |evaluations| == |scores|
    }

    function Outcomes(): seq<CandidateOutcome>
      requires Aligned()
    {
      seq(|trials|, i requires 0 <= i < |trials| => CandidateOutcome(trials[i], evaluations[i], scores[i]))
    }
  }

  const START := RunState([], [], [], [], [], 0)

  /** A run so far, and the error that ended it, if one did. */
  datatype Progress = Progress(state: RunState, error: Option<ExperimentError>)

  function Hashes(trials: seq<CandidateTrial>): set<string> {
    set i | 0 <= i < |trials| :: trials[i].proposal.program.sha256
  }

  function Programs(proposals: seq<LocalEvolver.Proposal>): seq<CandidateProgram> {
    seq(|proposals|, i requires 0 <= i < |proposals| => proposals[i].program)
  }

  /** Any evolver, evaluator and scorer: each may answer differently in each generation, or
      raise. */
  datatype Experiment = Experiment(
    config: ExperimentConfig,
    propose: LocalEvolver.ProposalRequest -> Result<seq<LocalEvolver.Proposal>, LocalEvolver.EvolveError>,
    backtest: (nat, seq<CandidateProgram>, nat) -> Option<seq<Backtest.ProgramEvaluation>>,
    score: (nat, seq<Backtest.ProgramEvaluation>) -> Option<seq<ProgramScore>>,
    sha256: string -> string)
  {
    function RecordOf(trial: CandidateTrial, evaluation: Backtest.ProgramEvaluation, score: ProgramScore): TrialRecord {
      var results := evaluation.sandboxResults;
      TrialRecord(
        config.experimentId, trial.candidateId, trial.evaluationIndex, trial.generation,
        trial.proposal.program.sha256, trial.proposal.program.source, trial.proposal.parentSha256,
        trial.proposal.origin, trial.proposal.mutation,
        score.score.reward, score.score.passed != 0.0, score.score.validity, Truncated(score.score.trialCount),
        SourceBytes(evaluation.metadata), AstNodes(evaluation.metadata), score.score.metrics, evaluation.error,
        Statuses(results), Durations(results), Sum(Durations(results)), StdoutBytes(results), StderrBytes(results))
    }

    function NewTrials(generation: nat, first: nat, proposals: seq<LocalEvolver.Proposal>): seq<CandidateTrial> {
      seq(|proposals|, i requires 0 <= i < |proposals| =>
        CandidateTrial(CandidateId(config.experimentId, generation, first + i), first + i, generation, proposals[i]))
    }

    function NewRecords(trials: seq<CandidateTrial>, evaluations: seq<Backtest.ProgramEvaluation>,
                        scores: seq<ProgramScore>, first: nat): seq<TrialRecord>
      requires |trials| == |evaluations| == |scores| && first <= |trials|
    {
      seq(|trials| - first, i requires 0 <= i < |trials| - first =>
        RecordOf(trials[first + i], evaluations[first + i], scores[first + i]))
    }

    /** Records accepted one by one, by their own checks and by a ledger that already holds
        the keys in `taken` and the records in `before`. */
    function Audited(taken: set<Key>, before: seq<TrialRecord>, items: seq<TrialRecord>)
      : (r: (seq<TrialRecord>, Option<ExperimentError>))
    {
      if items == [] then (before, None)
      else
        var n := |items| - 1;
        var (records, error) := Audited(taken, before, items[..n]);
        if error.Some? then (records, error)
        else if !items[n].Valid(sha256) then (records, Some(InvalidRecord))
        else if items[n].Key() in taken + KeysOf(records) then (records, Some(DuplicateRecord))
        else (records + [items[n]], None)
    }

    function SelectParents(s: RunState): seq<LocalEvolver.ParentCandidate>
      requires s.Aligned()
    {
      var ranked := Ranked(s.Outcomes(), StandingOf);
      var n := if config.eliteCount < |ranked| then config.eliteCount else |ranked|;
      seq(n, i requires 0 <= i < n =>
        LocalEvolver.ParentCandidate(ranked[i].trial.proposal.program, ranked[i].score.score.reward,
                                     ranked[i].score.score.passed != 0.0, ranked[i].score.score.validity))
    }

    function Batch(s: RunState): int {
      if config.batchSize < config.evaluationBudget - |s.trials|
      then config.batchSize else config.evaluationBudget - |s.trials|
    }

    function Request(seeds: seq<CandidateProgram>, s: RunState, generation: nat): LocalEvolver.ProposalRequest {
      LocalEvolver.ProposalRequest(generation, Batch(s), config.seed + generation, seeds, s.parents, Hashes(s.trials))
    }

    predicate KeepsOrder(s: RunState)
      requires s.Aligned()
    {
      forall i :: 0 <= i < |s.scores| ==> s.scores[i].evaluation.programSha256 == s.evaluations[i].programSha256
    }

    predicate CountsAllTrials(s: RunState) {
      forall i :: 0 <= i < |s.scores| ==> s.scores[i].score.trialCount == |s.trials| as real
    }

    /** The trials and evaluations of one more generation, scored together with all before. */
    function Evaluated(seeds: seq<CandidateProgram>, s: RunState, generation: nat): (r: Result<RunState, ExperimentError>)
      requires s.Aligned()
      ensures r.Success? ==> r.value.Aligned() && |s.trials| <= |r.value.trials| && r.value.records == s.records
    {
      match propose(Request(seeds, s, generation))
      case Failure(error) => Failure(EvolverFailed(error))
      case Success(proposals) =>
        if |proposals| != Batch(s) then Failure(WrongProposalCount)
        else match backtest(generation, Programs(proposals), config.asOfIndex)
          case None => Failure(EvaluatorFailed)
          case Some(evaluations) =>
            if |evaluations| != Batch(s) then Failure(WrongEvaluationCount)
            else match score(generation, s.evaluations + evaluations)
              case None => Failure(ScorerFailed)
              case Some(scores) =>
                var trials := s.trials + NewTrials(generation, |s.trials|, proposals);
                var next := s.(trials := trials, evaluations := s.evaluations + evaluations, scores := scores);
                if |scores| != |trials| then Failure(WrongScoreCount)
                else if !KeepsOrder(next) then Failure(ScorerReordered)
                else if !CountsAllTrials(next) then Failure(WrongTrialCount)
                else Success(next)
    }

    /** One generation; when it fails, what is left is the records it had appended. */
    function Generation(seeds: seq<CandidateProgram>, taken: set<Key>, s: RunState, generation: nat): (run: Progress)
      requires s.Aligned()
      ensures run.state.Aligned()
    {
      match Evaluated(seeds, s, generation)
      case Failure(error) => Progress(s, Some(error))
      case Success(next) =>
        var (records, error) := Audited(taken, s.records, NewRecords(next.trials, next.evaluations, next.scores, |s.trials|));
        if error.Some? then Progress(s.(records := records), error)
        else Progress(next.(records := records, parents := SelectParents(next), generations := s.generations + 1), None)
    }

    /** The run after its first g rounds against a ledger already holding `taken`; a round
        does nothing once the budget is spent or an error has been raised. */
    function Reach(seeds: seq<CandidateProgram>, taken: set<Key>, g: nat): (run: Progress)
      ensures run.state.Aligned()
    {
      if g == 0 then Progress(START, None)
      else
        var before := Reach(seeds, taken, g - 1);
        if before.error.Some? || config.evaluationBudget <= |before.state.trials| then before
        else Generation(seeds, taken, before.state, g - 1)
    }

    function Conclude(run: Progress): Result<ExperimentResult, ExperimentError>
      requires run.state.Aligned()
    {
      if run.error.Some? then Failure(run.error.value)
      else
        Success(ExperimentResult(
          config, run.state.Outcomes(), run.state.records, run.state.generations,
          if config.evaluationBudget <= |run.state.trials| then EvaluationBudget else GenerationLimit))
    }

    /** What a run from these seeds returns, and the records it leaves in the ledger. */
    function Outcome(seeds: seq<CandidateProgram>, taken: set<Key>)
      : (Result<ExperimentResult, ExperimentError>, seq<TrialRecord>)
    {
      if seeds == [] then (Failure(NoSeedPrograms), [])
      else
        var run := Reach(seeds, taken, config.generations);
        (Conclude(run), run.state.records)
    }

    lemma {:induction false} AuditFailureStays(taken: set<Key>, before: seq<TrialRecord>, items: seq<TrialRecord>, k: nat)
      requires k <= |items| && Audited(taken, before, items[..k]).1.Some?
      ensures Audited(taken, before, items) == Audited(taken, before, items[..k])
    {
      if k == |items| {
        assert items[..k] == items;
      } else {
        var n := |items| - 1;
        assert items[..n][..k] == items[..k];
        AuditFailureStays(taken, before, items[..n], k);
      }
    }

    /** Once a run has failed or spent its budget, later rounds change nothing. */
    lemma {:induction false} RunSettles(seeds: seq<CandidateProgram>, taken: set<Key>, k: nat, g: nat)
      requires k <= g
      requires var run := Reach(seeds, taken, k);
               run.error.Some? || config.evaluationBudget <= |run.state.trials|
      ensures Reach(seeds, taken, g) == Reach(seeds, taken, k)
    {
      hide Generation;
      if k < g {
        RunSettles(seeds, taken, k, g - 1);
      }
    }
  }

  // ----- the runner

  class ExperimentRunner {
    const experiment: Experiment
    const ledger: TrialLedger

    constructor (experiment: Experiment, ledger: TrialLedger)
      ensures this.experiment == experiment && this.ledger == ledger
    {
      this.experiment, this.ledger := experiment, ledger;
    }

    /** Appends the records of the new trials one by one, stopping at the first refusal. */
    method AppendRecords(trials: seq<CandidateTrial>, evaluations: seq<Backtest.ProgramEvaluation>,
                         scores: seq<ProgramScore>, first: nat, earlier: seq<TrialRecord>, ghost taken: set<Key>)
      returns (records: seq<TrialRecord>, error: Option<ExperimentError>)
      requires |trials| == |evaluations| == |scores| && first <= |trials|
      requires ledger.Valid() && ledger.Keys() == taken + KeysOf(earlier)
      modifies ledger.Repr()
      ensures ledger.Valid() && ledger.Keys() == taken + KeysOf(records)
      ensures earlier <= records && ledger.Records() == old(ledger.Records()) + records[|earlier|..]
      ensures (records, error)
                == experiment.Audited(taken, earlier, experiment.NewRecords(trials, evaluations, scores, first))
    {
      hide TrialRecord.Valid, KeysOf, Experiment.RecordOf;
      hide TrialLedger.Valid, TrialLedger.Keys, TrialLedger.Records, TrialLedger.Repr;
      ghost var items := experiment.NewRecords(trials, evaluations, scores, first);
      records := earlier;
      assert items[..0] == [];
      for i := first to |trials|
        invariant ledger.Valid() && ledger.Keys() == taken + KeysOf(records)
        invariant earlier <= records && ledger.Records() == old(ledger.Records()) + records[|earlier|..]
        invariant experiment.Audited(taken, earlier, items[..i - first]) == (records, None)
      {
        assert items[..i - first + 1][..i - first] == items[..i - first];
        var record := experiment.RecordOf(trials[i], evaluations[i], scores[i]);
        assert record == items[i - first];
        if !record.Valid(experiment.sha256) {
          experiment.AuditFailureStays(taken, earlier, items, i - first + 1);
          return records, Some(InvalidRecord);
        }
        var refused := ledger.Append(record);
        if refused.Some? {
          experiment.AuditFailureStays(taken, earlier, items, i - first + 1);
          return records, Some(DuplicateRecord);
        }
        KeysOfAppend(records, record);
        records := records + [record];
      }
      assert items[..|trials| - first] == items;
      return records, None;
    }

    /** Proposes, backtests and rescores one batch; None when every check passed. */
    method EvaluateBatch(seeds: seq<CandidateProgram>, generation: nat, batchSize: nat, s: RunState)
      returns (error: Option<ExperimentError>, trials: seq<CandidateTrial>,
               evaluations: seq<Backtest.ProgramEvaluation>, finalScores: seq<ProgramScore>)
      requires s.Aligned() && batchSize == experiment.Batch(s)
      ensures match experiment.Evaluated(seeds, s, generation)
              case Failure(e) => error == Some(e)
              case Success(next) =>
                error.None? && next == s.(trials := trials, evaluations := evaluations, scores := finalScores)
    {
      var config := experiment.config;
      trials, evaluations, finalScores := s.trials, s.evaluations, s.scores;
      var request := LocalEvolver.ProposalRequest(
        generation, batchSize, config.seed + generation, seeds, s.parents, Hashes(trials));
      var proposed := experiment.propose(request);
      if proposed.Failure? {
        return Some(EvolverFailed(proposed.error)), trials, evaluations, finalScores;
      }
      var proposals := proposed.value;
      if |proposals| != batchSize {
        return Some(WrongProposalCount), trials, evaluations, finalScores;
      }
      var newTrials := experiment.NewTrials(generation, |trials|, proposals);
      var evaluated := experiment.backtest(generation, Programs(proposals), config.asOfIndex);
      if evaluated.None? {
        return Some(EvaluatorFailed), trials, evaluations, finalScores;
      }
      if |evaluated.value| != batchSize {
        return Some(WrongEvaluationCount), trials, evaluations, finalScores;
      }
      trials := trials + newTrials;
      evaluations := evaluations + evaluated.value;
      var scored := experiment.score(generation, evaluations);
      if scored.None? {
        return Some(ScorerFailed), trials, evaluations, finalScores;
      }
      finalScores := scored.value;
      if |finalScores| != |trials| {
        return Some(WrongScoreCount), trials, evaluations, finalScores;
      }
      var next := s.(trials := trials, evaluations := evaluations, scores := finalScores);
      if !experiment.KeepsOrder(next) {
        return Some(ScorerReordered), trials, evaluations, finalScores;
      }
      if !experiment.CountsAllTrials(next) {
        return Some(WrongTrialCount), trials, evaluations, finalScores;
      }
      return None, trials, evaluations, finalScores;
    }

    method Run(seeds: seq<CandidateProgram>) returns (r: Result<ExperimentResult, ExperimentError>)
      requires ledger.Valid()
      modifies ledger.Repr()
      ensures ledger.Valid()
      ensures var (result, records) := experiment.Outcome(seeds, old(ledger.Keys()));
              && r == result
              && ledger.Records() == old(ledger.Records()) + records
              && ledger.Keys() == old(ledger.Keys()) + KeysOf(records)
    {
      hide KeysOf, Experiment.Evaluated, Experiment.Audited, Experiment.NewRecords, Experiment.SelectParents;
      hide TrialLedger.Valid, TrialLedger.Keys, TrialLedger.Records;
      NoKeys();
      if seeds == [] {
        return Failure(NoSeedPrograms);
      }
      ghost var taken := ledger.Keys();
      var config := experiment.config;
      var trials: seq<CandidateTrial> := [];
      var evaluations: seq<Backtest.ProgramEvaluation> := [];
      var records: seq<TrialRecord> := [];
      var parents: seq<LocalEvolver.ParentCandidate> := [];
      var finalScores: seq<ProgramScore> := [];
      var generationsCompleted := 0;
      for generation := 0 to config.generations
        invariant ledger.Valid() && ledger.Keys() == taken + KeysOf(records)
        invariant ledger.Records() == old(ledger.Records()) + records
        invariant |trials| == |evaluations| == |finalScores|
        invariant experiment.Reach(seeds, taken, generation)
                    == Progress(RunState(trials, evaluations, finalScores, records, parents, generationsCompleted), None)
      {
        var remaining := config.evaluationBudget - |trials|;
        if remaining <= 0 {
          experiment.RunSettles(seeds, taken, generation, config.generations);
          break;
        }
        var batchSize := if config.batchSize < remaining then config.batchSize else remaining;
        var firstIndex := |trials|;
        var state := RunState(trials, evaluations, finalScores, records, parents, generationsCompleted);
        var error;
        error, trials, evaluations, finalScores := EvaluateBatch(seeds, generation, batchSize, state);
        if error.Some? {
          experiment.RunSettles(seeds, taken, generation + 1, config.generations);
          return Failure(error.value);
        }
        records, error := AppendRecords(trials, evaluations, finalScores, firstIndex, records, taken);
        assert state.records + records[|state.records|..] == records;
        var next := RunState(trials, evaluations, finalScores, state.records, parents, generationsCompleted);
        if error.Some? {
          experiment.RunSettles(seeds, taken, generation + 1, config.generations);
          return Failure(error.value);
        }
        parents := experiment.SelectParents(next);
        generationsCompleted := generationsCompleted + 1;
      }
      return experiment.Conclude(Progress(
        RunState(trials, evaluations, finalScores, records, parents, generationsCompleted), None));
    }
  }

  lemma NoKeys()
    ensures KeysOf([]) == {}
  {
  }
}
