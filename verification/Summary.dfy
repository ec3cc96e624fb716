/** The durable summary of a finished experiment, and the checks it must pass. */
module Summary {
  import opened Wrappers
  import opened Vectors
  import opened Executors
  import opened Ledger
  import opened Ranking
  import opened Experiments
  import Backtest
  import Counts = ExperimentProperties

  datatype FinalCandidateSummary = FinalCandidateSummary(
    rank: nat,
    candidateId: string,
    evaluationIndex: nat,
    generation: nat,
    programSha256: string,
    programSource: string,
    parentSha256: seq<string>,
    origin: string,
    mutation: string,
    reward: real,
    passed: bool,
    validity: real,
    finalTrialCount: int,
    sourceBytes: nat,
    astNodes: nat,
    metrics: map<string, real>,
    error: Backtest.EvaluationError,
    windowStatuses: seq<SandboxStatus>,
    windowDurations: seq<real>,
    totalDuration: real,
    stdoutBytes: nat,
    stderrBytes: nat)
  {
    /** The field bounds and the alignment checks of one candidate. */
    predicate Valid() {
      && 1 <= rank
      && 1 <= |candidateId| <= 256
      && IsDigest(programSha256)
      && 1 <= |programSource| <= 131_072
      && 1 <= |origin| <= 128
      && 1 <= |mutation| <= 512
      && 0.0 <= validity <= 1.0
      && 1 <= finalTrialCount
      && 0.0 <= totalDuration
      && |windowStatuses| == |windowDurations|
      && IsClose(totalDuration, Sum(windowDurations))
      && MetricsAgree(metrics, reward, finalTrialCount)
    }
  }

  datatype ExperimentSummary = ExperimentSummary(
    config: ExperimentConfig,
    generationsCompleted: nat,
    stopReason: StopReason,
    evaluationsUsed: nat,
    validCandidates: nat,
    passedCandidates: nat,
    sandboxWindowLaunches: nat,
    sandboxTotalDuration: real,
    candidates: seq<FinalCandidateSummary>)

  datatype SummaryFault =
    | InvalidCandidate(rank: nat)
    | NoCandidates
    | NegativeDuration
    | WrongCandidateCount
    | RanksNotContiguous
    | IdsNotUnique
    | IncompleteTrialCount
    | ValidCountDiffers
    | PassedCountDiffers
    | LaunchesDiffer
    | DurationDiffers

  // ----- aggregates

  function SumBy<T>(items: seq<T>, f: T -> nat): nat {
    if items == [] then 0 else SumBy(items[..|items| - 1], f) + f(items[|items| - 1])
  }

  function Totals(candidates: seq<FinalCandidateSummary>): Vec {
    seq(|candidates|, i requires 0 <= i < |candidates| => candidates[i].totalDuration)
  }

  function CountsValid(c: FinalCandidateSummary): nat {
    if 0.0 < c.validity then 1 else 0
  }

  function CountsPassed(c: FinalCandidateSummary): nat {
    if c.passed then 1 else 0
  }

  function CountsLaunches(c: FinalCandidateSummary): nat {
    |c.windowStatuses|
  }

  function Ids(candidates: seq<FinalCandidateSummary>): set<string> {
    set i | 0 <= i < |candidates| :: candidates[i].candidateId
  }

  // ----- the validator

  /** The first check a summary fails, in the order they are made. */
  function Fault(s: ExperimentSummary): Option<SummaryFault> {
    if s.evaluationsUsed < 1 || s.candidates == [] then Some(NoCandidates)
    else if s.sandboxTotalDuration < 0.0 then Some(NegativeDuration)
    else if |s.candidates| != s.evaluationsUsed then Some(WrongCandidateCount)
    else if exists i :: 0 <= i < |s.candidates| && s.candidates[i].rank != i + 1 then Some(RanksNotContiguous)
    else if |Ids(s.candidates)| != |s.candidates| then Some(IdsNotUnique)
    else if exists i :: 0 <= i < |s.candidates| && s.candidates[i].finalTrialCount != s.evaluationsUsed
      then Some(IncompleteTrialCount)
    else if s.validCandidates != SumBy(s.candidates, CountsValid) then Some(ValidCountDiffers)
    else if s.passedCandidates != SumBy(s.candidates, CountsPassed) then Some(PassedCountDiffers)
    else if s.sandboxWindowLaunches != SumBy(s.candidates, CountsLaunches) then Some(LaunchesDiffer)
    else if !IsClose(s.sandboxTotalDuration, Sum(Totals(s.candidates))) then Some(DurationDiffers)
    else None
  }

  // ----- building the summary

  function CandidateSummary(rank: nat, o: CandidateOutcome): FinalCandidateSummary {
    var metadata, results := o.evaluation.metadata, o.evaluation.sandboxResults;
    FinalCandidateSummary(
      rank, o.trial.candidateId, o.trial.evaluationIndex, o.trial.generation,
      o.trial.proposal.program.sha256, o.trial.proposal.program.source, o.trial.proposal.parentSha256,
      o.trial.proposal.origin, o.trial.proposal.mutation,
      o.score.score.reward, o.score.score.passed != 0.0, o.score.score.validity,
      Truncated(o.score.score.trialCount),
      SourceBytes(metadata), AstNodes(metadata), o.score.score.metrics, o.evaluation.error,
      Statuses(results), Durations(results), Sum(Durations(results)), StdoutBytes(results), StderrBytes(results))
  }

  function CandidateSummaries(ranked: seq<CandidateOutcome>): seq<FinalCandidateSummary> {
    seq(|ranked|, i requires 0 <= i < |ranked| => CandidateSummary(i + 1, ranked[i]))
  }

  predicate AllValid(candidates: seq<FinalCandidateSummary>) {
    forall i :: 0 <= i < |candidates| ==> candidates[i].Valid()
  }

  function Assemble(result: ExperimentResult, candidates: seq<FinalCandidateSummary>): ExperimentSummary {
    ExperimentSummary(
      result.config, result.generationsCompleted, result.stopReason, result.EvaluationsUsed(),
      SumBy(candidates, CountsValid), SumBy(candidates, CountsPassed), SumBy(candidates, CountsLaunches),
      Sum(Totals(candidates)), candidates)
  }

  /** Builds one validated candidate per ranked outcome, then the validated summary. */
  method FromResult(result: ExperimentResult) returns (r: Result<ExperimentSummary, SummaryFault>)
    ensures var candidates := CandidateSummaries(result.RankedOutcomes());
            var summary := Assemble(result, candidates);
            && (r.Success? <==> AllValid(candidates) && Fault(summary).None?)
            && (r.Success? ==> r.value == summary)
            && (r.Failure? && AllValid(candidates) ==> Fault(summary) == Some(r.error))
            && (!AllValid(candidates) ==>
                  r.Failure? && r.error.InvalidCandidate? && 1 <= r.error.rank <= |candidates|
                  && !candidates[r.error.rank - 1].Valid() && AllValid(candidates[..r.error.rank - 1]))
  {
    hide Ranked, FinalCandidateSummary.Valid, CandidateSummary, Fault, Assemble;
    var ranked := result.RankedOutcomes();
    ghost var all := CandidateSummaries(ranked);
    var candidates: seq<FinalCandidateSummary> := [];
    for i := 0 to |ranked|
      invariant candidates == all[..i] && AllValid(candidates)
    {
      var candidate := CandidateSummary(i + 1, ranked[i]);
      assert candidate == all[i];
      if !candidate.Valid() {
        return Failure(InvalidCandidate(i + 1));
      }
      candidates := candidates + [candidate];
    }
    assert candidates == all;
    var summary := Assemble(result, candidates);
    var fault := Fault(summary);
    return if fault.Some? then Failure(fault.value) else Success(summary);
  }

  // ----- a finished run can be summarized

  /** What the scorer's metrics must say about themselves, all trials counted. */
  predicate SelfConsistent(score: HonestScore, trials: nat) {
    0.0 <= score.validity <= 1.0 && MetricsAgree(score.metrics, score.reward, trials)
  }

  predicate AllSelfConsistent(outcomes: seq<CandidateOutcome>) {
    forall i :: 0 <= i < |outcomes| ==> SelfConsistent(outcomes[i].score.score, |outcomes|)
  }

  /** What the audit records of a finished run already vouch for in an outcome. */
  predicate Vouched(o: CandidateOutcome, trials: nat) {
    && 1 <= |o.trial.candidateId| <= 256
    && IsDigest(o.trial.proposal.program.sha256)
    && 1 <= |o.trial.proposal.program.source| <= 131_072
    && 1 <= |o.trial.proposal.origin| <= 128
    && 1 <= |o.trial.proposal.mutation| <= 512
    && 0.0 <= Sum(Durations(o.evaluation.sandboxResults))
    && o.score.score.trialCount == trials as real
    && 1 <= trials
  }

  lemma CandidateValidExactlyWhen(rank: nat, o: CandidateOutcome, trials: nat)
    requires Vouched(o, trials)
    ensures CandidateSummary(rank + 1, o).Valid() <==> SelfConsistent(o.score.score, trials)
    ensures CandidateSummary(rank + 1, o).finalTrialCount == trials
  {
    hide Sum, IsDigest, MetricsAgree;
    Counts.TruncatedOfCount(trials);
  }

  lemma RecordVouches(x: Experiment, record: TrialRecord, o: CandidateOutcome, i: nat, trials: nat)
    requires 0 < x.config.batchSize && 1 <= trials
    requires Counts.RecordAt(x.config, record, o.trial, o.evaluation, i)
    requires record.Valid(x.sha256)
    requires o.score.score.trialCount == trials as real
    ensures Vouched(o, trials)
  {
    hide Sum, IsDigest, IsClose, MetricsAgree, Counts.Least, Counts.GenerationOf;
    SumNonNegative(record.windowDurations);
    assert record.windowDurations == Durations(o.evaluation.sandboxResults);
  }

  lemma FinishedOutcomes(x: Experiment, seeds: seq<CandidateProgram>, taken: set<Key>)
    requires x.config.Valid()
    requires x.Outcome(seeds, taken).0.Success?
    ensures var r := x.Outcome(seeds, taken).0.value;
            && r.outcomes != []
            && (forall i :: 0 <= i < |r.outcomes| ==> Vouched(r.outcomes[i], |r.outcomes|))
            && Counts.UsesItsBudget(x.config, r)
  {
    hide Counts.RecordAt, Counts.TrialAt, Counts.CeilDiv, Experiment.Reach, TrialRecord.Valid;
    Counts.FinishedRunCounts(x, seeds, taken);
    Counts.AuditTrailThroughout(x, seeds, taken, x.config.generations);
    Counts.CountedThroughout(x, seeds, taken, x.config.generations);
    var s := x.Reach(seeds, taken, x.config.generations).state;
    var r := x.Outcome(seeds, taken).0.value;
    Counts.MulBounds(x.config.batchSize, 1, x.config.generations);
    forall i | 0 <= i < |r.outcomes|
      ensures Vouched(r.outcomes[i], |r.outcomes|)
    {
      RecordVouches(x, s.records[i], r.outcomes[i], i, |r.outcomes|);
    }
  }

  // ----- unique ids, and totals that do not depend on the order

  lemma IdsOfNext(before: seq<FinalCandidateSummary>, last: FinalCandidateSummary)
    ensures Ids(before + [last]) == Ids(before) + {last.candidateId}
  {
    var all := before + [last];
    forall id | id in Ids(before) + {last.candidateId}
      ensures id in Ids(all)
    {
      if id in Ids(before) {
        var i :| 0 <= i < |before| && before[i].candidateId == id;
        assert all[i].candidateId == id;
      } else {
        assert all[|before|].candidateId == id;
      }
    }
  }

  lemma {:induction false} IdsCounted(candidates: seq<FinalCandidateSummary>)
    requires forall i, j :: 0 <= i < j < |candidates| ==> candidates[i].candidateId != candidates[j].candidateId
    ensures |Ids(candidates)| == |candidates|
  {
    if candidates != [] {
      var n := |candidates| - 1;
      var before, last := candidates[..n], candidates[n];
      IdsCounted(before);
      assert last.candidateId !in Ids(before);
      hide Ids;
      assert candidates == before + [last];
      IdsOfNext(before, last);
    }
  }

  lemma {:induction false} SumByPlaced<T>(ranked: seq<T>, item: T, key: T -> Standing, f: T -> nat)
    ensures SumBy(Placed(ranked, item, key), f) == SumBy(ranked, f) + f(item)
  {
    hide Before;
    var n := |ranked| - 1;
    if ranked != [] && Before(key(item), key(ranked[n])) {
      SumByPlaced(ranked[..n], item, key, f);
      var front := Placed(ranked[..n], item, key);
      assert (front + [ranked[n]])[..|front|] == front;
    } else {
      assert (ranked + [item])[..|ranked|] == ranked;
    }
  }

  lemma {:induction false} SumByRanked<T>(items: seq<T>, key: T -> Standing, f: T -> nat)
    ensures SumBy(Ranked(items, key), f) == SumBy(items, f)
  {
    if items != [] {
      var n := |items| - 1;
      SumByRanked(items[..n], key, f);
      SumByPlaced(Ranked(items[..n], key), items[n], key, f);
    }
  }

  lemma {:induction false} SumBySummaries(ranked: seq<CandidateOutcome>, f: FinalCandidateSummary -> nat,
                                          g: CandidateOutcome -> nat)
    requires forall rank: nat, o :: f(CandidateSummary(rank, o)) == g(o)
    ensures SumBy(CandidateSummaries(ranked), f) == SumBy(ranked, g)
  {
    hide CandidateSummary;
    if ranked != [] {
      var n := |ranked| - 1;
      SumBySummaries(ranked[..n], f, g);
      assert CandidateSummaries(ranked)[..n] == CandidateSummaries(ranked[..n]);
    }
  }

  function Launched(o: CandidateOutcome): nat {
    |o.evaluation.sandboxResults|
  }

  lemma LaunchesAreCounted(ranked: seq<CandidateOutcome>)
    ensures SumBy(CandidateSummaries(ranked), CountsLaunches) == SumBy(ranked, Launched)
  {
    hide CandidateSummaries, SumBy;
    forall rank: nat, o
      ensures CountsLaunches(CandidateSummary(rank, o)) == Launched(o)
    {
    }
    SumBySummaries(ranked, CountsLaunches, Launched);
  }

  lemma TotalIsNonNegative(candidates: seq<FinalCandidateSummary>)
    requires forall i :: 0 <= i < |candidates| ==> 0.0 <= candidates[i].totalDuration
    ensures 0.0 <= Sum(Totals(candidates)) && IsClose(Sum(Totals(candidates)), Sum(Totals(candidates)))
  {
    SumNonNegative(Totals(candidates));
  }

  // ----- the theorem

  lemma RankedAreVouched(outcomes: seq<CandidateOutcome>, trials: nat)
    requires forall i :: 0 <= i < |outcomes| ==> Vouched(outcomes[i], trials)
    ensures forall i :: 0 <= i < |Ranked(outcomes, StandingOf)| ==> Vouched(Ranked(outcomes, StandingOf)[i], trials)
    ensures (forall i :: 0 <= i < |outcomes| ==> SelfConsistent(outcomes[i].score.score, trials)) <==>
              (forall i :: 0 <= i < |Ranked(outcomes, StandingOf)| ==>
                 SelfConsistent(Ranked(outcomes, StandingOf)[i].score.score, trials))
  {
    hide Vouched, SelfConsistent, Ranked;
    var ranked := Ranked(outcomes, StandingOf);
    RankedKeeps(outcomes, StandingOf);
    forall i | 0 <= i < |ranked|
      ensures exists k :: 0 <= k < |outcomes| && outcomes[k] == ranked[i]
    {
      SharedMember(ranked, outcomes, ranked[i]);
    }
    forall k | 0 <= k < |outcomes|
      ensures exists i :: 0 <= i < |ranked| && ranked[i] == outcomes[k]
    {
      SharedMember(outcomes, ranked, outcomes[k]);
    }
  }

  lemma SummariesValidExactlyWhen(ranked: seq<CandidateOutcome>, trials: nat)
    requires forall i :: 0 <= i < |ranked| ==> Vouched(ranked[i], trials)
    ensures AllValid(CandidateSummaries(ranked)) <==>
              forall i :: 0 <= i < |ranked| ==> SelfConsistent(ranked[i].score.score, trials)
    ensures forall i :: 0 <= i < |ranked| ==> CandidateSummaries(ranked)[i].finalTrialCount == trials
  {
    hide Vouched, SelfConsistent, FinalCandidateSummary.Valid, CandidateSummary;
    forall i | 0 <= i < |ranked|
      ensures CandidateSummaries(ranked)[i].Valid() <==> SelfConsistent(ranked[i].score.score, trials)
      ensures CandidateSummaries(ranked)[i].finalTrialCount == trials
    {
      CandidateValidExactlyWhen(i, ranked[i], trials);
    }
  }

  /** The validator accepts what is assembled from distinct, complete, valid candidates. */
  lemma AssembledPasses(result: ExperimentResult, ranked: seq<CandidateOutcome>)
    requires |ranked| == |result.outcomes| != 0
    requires DistinctIds(ranked, StandingOf)
    requires var candidates := CandidateSummaries(ranked);
             && AllValid(candidates)
             && forall i :: 0 <= i < |candidates| ==> candidates[i].finalTrialCount == |result.outcomes|
    ensures Fault(Assemble(result, CandidateSummaries(ranked))).None?
  {
    hide SumBy, Sum, IsClose, IsDigest, MetricsAgree;
    var candidates := CandidateSummaries(ranked);
    forall i, j | 0 <= i < j < |candidates|
      ensures candidates[i].candidateId != candidates[j].candidateId
    {
      assert StandingOf(ranked[i]).candidateId != StandingOf(ranked[j]).candidateId;
    }
    IdsCounted(candidates);
    TotalIsNonNegative(candidates);
  }

  lemma OutcomesIdentified(x: Experiment, seeds: seq<CandidateProgram>, taken: set<Key>)
    requires x.config.Valid()
    requires x.Outcome(seeds, taken).0.Success?
    ensures DistinctIds(x.Outcome(seeds, taken).0.value.outcomes, StandingOf)
  {
    hide Counts.Counted, Experiment.Reach;
    var g := x.config.generations;
    Counts.CountedThroughout(x, seeds, taken, g);
    var s := x.Reach(seeds, taken, g).state;
    forall i, j | 0 <= i < j < |s.Outcomes()|
      ensures StandingOf(s.Outcomes()[i]).candidateId != StandingOf(s.Outcomes()[j]).candidateId
    {
      Counts.OutcomeIds(x, s, g, i, j);
    }
  }

  /** A finished run can be summarized exactly when every final score lies in range and
      agrees with its own metrics; every other check, the candidates' own and the summary's,
      then passes, and the launches it reports are those of all evaluations. */
  lemma FinishedRunSummarizedExactlyWhen(x: Experiment, seeds: seq<CandidateProgram>, taken: set<Key>)
    requires x.config.Valid()
    requires x.Outcome(seeds, taken).0.Success?
    ensures var result := x.Outcome(seeds, taken).0.value;
            var candidates := CandidateSummaries(result.RankedOutcomes());
            && (AllValid(candidates) && Fault(Assemble(result, candidates)).None? <==> AllSelfConsistent(result.outcomes))
            && (AllValid(candidates) ==> Fault(Assemble(result, candidates)).None?)
            && multiset(result.RankedOutcomes()) == multiset(result.outcomes)
            && SumBy(candidates, CountsLaunches) == SumBy(result.outcomes, Launched)
  {
    hide Vouched, SelfConsistent, Ranked, Counts.UsesItsBudget, CandidateSummaries, Fault, Assemble, SumBy;
    hide Experiment.Outcome, AllValid;
    var result := x.Outcome(seeds, taken).0.value;
    var outcomes, ranked := result.outcomes, result.RankedOutcomes();
    FinishedOutcomes(x, seeds, taken);
    OutcomesIdentified(x, seeds, taken);
    RankedKeeps(outcomes, StandingOf);
    RankedAreVouched(outcomes, |outcomes|);
    SummariesValidExactlyWhen(ranked, |outcomes|);
    RankedKeepsIds(outcomes, StandingOf);
    LaunchesAreCounted(ranked);
    SumByRanked(outcomes, StandingOf, Launched);
    SummariesLength(ranked);
    if AllValid(CandidateSummaries(ranked)) {
      AssembledPasses(result, ranked);
    }
  }

  lemma SummariesLength(ranked: seq<CandidateOutcome>)
    ensures |CandidateSummaries(ranked)| == |ranked|
  {
  }
}
