/** What the summary of a finished run says about it, field by field and in plain counts. */
module SummaryProperties {
  import opened Wrappers
  import opened Vectors
  import opened Executors
  import opened Ranking
  import opened Experiments
  import opened Summary
  import Counts = ExperimentProperties
  import Ledger
  import Selection

  // ----- sums over the ranking are sums over the outcomes

  function SumOver<T>(items: seq<T>, f: T -> real): real {
    if items == [] then 0.0 else SumOver(items[..|items| - 1], f) + f(items[|items| - 1])
  }

  lemma {:induction false} SumOverPlaced<T>(ranked: seq<T>, item: T, key: T -> Standing, f: T -> real)
    ensures SumOver(Placed(ranked, item, key), f) == SumOver(ranked, f) + f(item)
  {
    hide Before;
    var n := |ranked| - 1;
    if ranked != [] && Before(key(item), key(ranked[n])) {
      SumOverPlaced(ranked[..n], item, key, f);
      var front := Placed(ranked[..n], item, key);
      assert (front + [ranked[n]])[..|front|] == front;
    } else {
      assert (ranked + [item])[..|ranked|] == ranked;
    }
  }

  lemma {:induction false} SumOverRanked<T>(items: seq<T>, key: T -> Standing, f: T -> real)
    ensures SumOver(Ranked(items, key), f) == SumOver(items, f)
  {
    if items != [] {
      var n := |items| - 1;
      SumOverRanked(items[..n], key, f);
      SumOverPlaced(Ranked(items[..n], key), items[n], key, f);
    }
  }

  /** The seconds all windows of an outcome took together. */
  function TimeOf(o: CandidateOutcome): real {
    Counts.DurationOver(o.evaluation.sandboxResults)
  }

  lemma {:induction false} TotalsAreTimes(ranked: seq<CandidateOutcome>)
    ensures Sum(Totals(CandidateSummaries(ranked))) == SumOver(ranked, TimeOf)
  {
    hide CandidateSummary;
    if ranked != [] {
      var n := |ranked| - 1;
      TotalsAreTimes(ranked[..n]);
      assert Totals(CandidateSummaries(ranked))[..n] == Totals(CandidateSummaries(ranked[..n]));
      TotalIsTime(n + 1, ranked[n]);
    }
  }

  lemma TotalIsTime(rank: nat, o: CandidateOutcome)
    ensures CandidateSummary(rank, o).totalDuration == TimeOf(o)
  {
    Counts.DurationsAddUp(o.evaluation.sandboxResults);
  }

  // ----- counts

  /** The positions of the items that meet a condition. */
  function Where<T>(items: seq<T>, p: T -> bool): set<nat> {
    set k: nat | k < |items| && p(items[k])
  }

  lemma WhereNext<T>(before: seq<T>, item: T, p: T -> bool)
    ensures |Where(before + [item], p)| == |Where(before, p)| + if p(item) then 1 else 0
  {
    var n := |before|;
    assert forall k: nat :: k < n ==> (before + [item])[k] == before[k];
    if p(item) {
      assert Where(before + [item], p) == Where(before, p) + {n};
    } else {
      assert Where(before + [item], p) == Where(before, p);
    }
  }

  lemma {:induction false} SumOfOnes<T(!new)>(items: seq<T>, p: T -> bool, f: T -> nat)
    requires forall item :: f(item) == if p(item) then 1 else 0
    ensures SumBy(items, f) == |Where(items, p)|
  {
    if items == [] {
      assert Where(items, p) == {};
    } else {
      var n := |items| - 1;
      hide Where;
      SumOfOnes(items[..n], p, f);
      WhereNext(items[..n], items[n], p);
      assert items[..n] + [items[n]] == items;
    }
  }

  predicate ScoredValid(o: CandidateOutcome) {
    0.0 < o.score.score.validity
  }

  predicate ScoredPassed(o: CandidateOutcome) {
    o.score.score.passed != 0.0
  }

  function OneIfValid(o: CandidateOutcome): nat {
    if ScoredValid(o) then 1 else 0
  }

  function OneIfPassed(o: CandidateOutcome): nat {
    if ScoredPassed(o) then 1 else 0
  }

  /** The sandboxes started for these outcomes. */
  function LaunchesOver(outcomes: seq<CandidateOutcome>): nat {
    if outcomes == [] then 0
    else LaunchesOver(outcomes[..|outcomes| - 1]) + |outcomes[|outcomes| - 1].evaluation.sandboxResults|
  }

  lemma {:induction false} LaunchesAddUp(outcomes: seq<CandidateOutcome>)
    ensures SumBy(outcomes, Launched) == LaunchesOver(outcomes)
  {
    if outcomes != [] {
      LaunchesAddUp(outcomes[..|outcomes| - 1]);
    }
  }

  lemma TotalsCount(outcomes: seq<CandidateOutcome>)
    ensures var candidates := CandidateSummaries(Ranked(outcomes, StandingOf));
            && SumBy(candidates, CountsValid) == |Where(outcomes, ScoredValid)|
            && SumBy(candidates, CountsPassed) == |Where(outcomes, ScoredPassed)|
            && SumBy(candidates, CountsLaunches) == LaunchesOver(outcomes)
            && Sum(Totals(candidates)) == SumOver(outcomes, TimeOf)
  {
    hide CandidateSummaries, SumBy, SumOver, Ranked, Sum, Where, LaunchesOver;
    var ranked := Ranked(outcomes, StandingOf);
    assert forall rank: nat, o :: CountsValid(CandidateSummary(rank, o)) == OneIfValid(o);
    assert forall rank: nat, o :: CountsPassed(CandidateSummary(rank, o)) == OneIfPassed(o);
    SumBySummaries(ranked, CountsValid, OneIfValid);
    SumBySummaries(ranked, CountsPassed, OneIfPassed);
    SumByRanked(outcomes, StandingOf, OneIfValid);
    SumByRanked(outcomes, StandingOf, OneIfPassed);
    SumOfOnes(outcomes, ScoredValid, OneIfValid);
    SumOfOnes(outcomes, ScoredPassed, OneIfPassed);
    LaunchesAreCounted(ranked);
    SumByRanked(outcomes, StandingOf, Launched);
    LaunchesAddUp(outcomes);
    TotalsAreTimes(ranked);
    SumOverRanked(outcomes, StandingOf, TimeOf);
  }

  // ----- the summary of a finished run

  /** The candidate at this rank is this outcome, all trials of the run counted. */
  predicate Describes(c: FinalCandidateSummary, rank: nat, o: CandidateOutcome, trials: nat) {
    var results := o.evaluation.sandboxResults;
    && c.rank == rank
    && c.candidateId == o.trial.candidateId
    && c.evaluationIndex == o.trial.evaluationIndex
    && c.generation == o.trial.generation
    && c.programSha256 == o.trial.proposal.program.sha256
    && c.programSource == o.trial.proposal.program.source
    && c.parentSha256 == o.trial.proposal.parentSha256
    && c.origin == o.trial.proposal.origin
    && c.mutation == o.trial.proposal.mutation
    && c.reward == o.score.score.reward
    && (c.passed <==> o.score.score.passed != 0.0)
    && c.validity == o.score.score.validity
    && c.finalTrialCount == trials
    && c.metrics == o.score.score.metrics
    && c.error == o.evaluation.error
    && c.sourceBytes == (if o.evaluation.metadata.Some? then o.evaluation.metadata.value.sourceBytes else 0)
    && c.astNodes == (if o.evaluation.metadata.Some? then o.evaluation.metadata.value.astNodes else 0)
    && |c.windowStatuses| == |c.windowDurations| == |results|
    && (forall k :: 0 <= k < |results| ==>
          c.windowStatuses[k] == results[k].status && c.windowDurations[k] == results[k].duration)
    && c.totalDuration == Counts.DurationOver(results)
    && c.stdoutBytes == Counts.StdoutOver(results)
    && c.stderrBytes == Counts.StderrOver(results)
  }

  lemma CandidateDescribes(rank: nat, o: CandidateOutcome, trials: nat)
    requires o.score.score.trialCount == trials as real
    ensures Describes(CandidateSummary(rank, o), rank, o, trials)
  {
    hide Counts.DurationOver, Counts.StdoutOver, Counts.StderrOver, StdoutBytes, StderrBytes, Sum;
    Counts.TruncatedOfCount(trials);
    Counts.BytesAddUp(o.evaluation.sandboxResults);
    Counts.DurationsAddUp(o.evaluation.sandboxResults);
  }

  /** Candidate i is one of the outcomes, the one its evaluation index names. */
  predicate IsOutcome(c: FinalCandidateSummary, rank: nat, outcomes: seq<CandidateOutcome>) {
    c.evaluationIndex < |outcomes| && Describes(c, rank, outcomes[c.evaluationIndex], |outcomes|)
  }

  /** Every outcome once, best first; the counts, launches and seconds of them all. */
  predicate Reads(s: ExperimentSummary, result: ExperimentResult) {
    var outcomes, candidates := result.outcomes, s.candidates;
    && s.config == result.config
    && s.generationsCompleted == result.generationsCompleted
    && s.stopReason == result.stopReason
    && s.evaluationsUsed == |outcomes| == |candidates|
    && s.validCandidates == |Where(outcomes, ScoredValid)|
    && s.passedCandidates == |Where(outcomes, ScoredPassed)|
    && s.sandboxWindowLaunches == LaunchesOver(outcomes)
    && s.sandboxTotalDuration == SumOver(outcomes, TimeOf)
    && (forall i :: 0 <= i < |candidates| ==> IsOutcome(candidates[i], i + 1, outcomes))
    && (forall i, j :: 0 <= i < j < |candidates| ==>
          && candidates[i].evaluationIndex != candidates[j].evaluationIndex
          && Selection.Better(outcomes[candidates[i].evaluationIndex], outcomes[candidates[j].evaluationIndex]))
  }

  lemma CandidatesDescribe(ranked: seq<CandidateOutcome>, outcomes: seq<CandidateOutcome>)
    requires Selection.BestFirst(ranked, outcomes)
    requires forall k :: 0 <= k < |outcomes| ==> outcomes[k].score.score.trialCount == |outcomes| as real
    ensures var candidates := CandidateSummaries(ranked);
            && |candidates| == |outcomes|
            && (forall i :: 0 <= i < |candidates| ==> IsOutcome(candidates[i], i + 1, outcomes))
            && (forall i, j :: 0 <= i < j < |candidates| ==>
                  && candidates[i].evaluationIndex != candidates[j].evaluationIndex
                  && Selection.Better(outcomes[candidates[i].evaluationIndex], outcomes[candidates[j].evaluationIndex]))
  {
    hide Describes, CandidateSummary, Selection.Better;
    var candidates := CandidateSummaries(ranked);
    forall i | 0 <= i < |ranked|
      ensures candidates[i].evaluationIndex == ranked[i].trial.evaluationIndex
      ensures IsOutcome(candidates[i], i + 1, outcomes)
    {
      CandidateDescribes(i + 1, ranked[i], |outcomes|);
      assert candidates[i].evaluationIndex == ranked[i].trial.evaluationIndex by { IndexOf(i + 1, ranked[i]); }
    }
    forall i, j | 0 <= i < j < |ranked|
      ensures ranked[i].trial.evaluationIndex != ranked[j].trial.evaluationIndex
    {
      Selection.NotBetterThanItself(ranked[i], ranked[j]);
    }
  }

  lemma IndexOf(rank: nat, o: CandidateOutcome)
    ensures CandidateSummary(rank, o).evaluationIndex == o.trial.evaluationIndex
  {
  }

  lemma OutcomesCountAll(x: Experiment, seeds: seq<CandidateProgram>, taken: set<Ledger.Key>)
    requires x.config.Valid() && x.Outcome(seeds, taken).0.Success?
    ensures var outcomes := x.Outcome(seeds, taken).0.value.outcomes;
            forall k :: 0 <= k < |outcomes| ==> outcomes[k].score.score.trialCount == |outcomes| as real
  {
    hide Counts.RecordAt, Counts.TrialAt, Experiment.Reach;
    Counts.CountedThroughout(x, seeds, taken, x.config.generations);
    var s := x.Reach(seeds, taken, x.config.generations).state;
    assert forall k :: 0 <= k < |s.scores| ==> s.Outcomes()[k].score == s.scores[k];
  }

  /** The summary assembled for a finished run says all this of it. */
  lemma FinishedRunIsSummarized(x: Experiment, seeds: seq<CandidateProgram>, taken: set<Ledger.Key>)
    requires x.config.Valid() && x.Outcome(seeds, taken).0.Success?
    ensures var result := x.Outcome(seeds, taken).0.value;
            Reads(Assemble(result, CandidateSummaries(result.RankedOutcomes())), result)
  {
    hide Experiment.Outcome, Ranked, CandidateSummaries, SumBy, SumOver, Sum, Where, LaunchesOver;
    hide Selection.BestFirst, Selection.Better, IsOutcome, Totals;
    var result := x.Outcome(seeds, taken).0.value;
    Selection.FinishedRunRanksBestFirst(x, seeds, taken);
    OutcomesCountAll(x, seeds, taken);
    CandidatesDescribe(result.RankedOutcomes(), result.outcomes);
    TotalsCount(result.outcomes);
  }

  // ----- what the validator accepts

  predicate IsValid(c: FinalCandidateSummary) {
    0.0 < c.validity
  }

  predicate IsPassed(c: FinalCandidateSummary) {
    c.passed
  }

  function LaunchesAmong(candidates: seq<FinalCandidateSummary>): nat {
    if candidates == [] then 0
    else LaunchesAmong(candidates[..|candidates| - 1]) + |candidates[|candidates| - 1].windowStatuses|
  }

  function TimeAmong(candidates: seq<FinalCandidateSummary>): real {
    if candidates == [] then 0.0
    else TimeAmong(candidates[..|candidates| - 1]) + candidates[|candidates| - 1].totalDuration
  }

  lemma {:induction false} TotalsAmong(candidates: seq<FinalCandidateSummary>)
    ensures SumBy(candidates, CountsLaunches) == LaunchesAmong(candidates)
    ensures Sum(Totals(candidates)) == TimeAmong(candidates)
  {
    if candidates != [] {
      var n := |candidates| - 1;
      TotalsAmong(candidates[..n]);
      assert Totals(candidates)[..n] == Totals(candidates[..n]);
    }
  }

  lemma {:induction false} IdsDifferWhenCounted(candidates: seq<FinalCandidateSummary>)
    ensures |Ids(candidates)| <= |candidates|
    ensures |Ids(candidates)| == |candidates| ==>
              forall i, j :: 0 <= i < j < |candidates| ==> candidates[i].candidateId != candidates[j].candidateId
  {
    if candidates != [] {
      var n := |candidates| - 1;
      var before, last := candidates[..n], candidates[n];
      IdsDifferWhenCounted(before);
      assert candidates == before + [last];
      IdsOfNext(before, last);
      assert forall i :: 0 <= i < n ==> candidates[i].candidateId == before[i].candidateId;
      assert forall i :: 0 <= i < n ==> before[i].candidateId in Ids(before);
    }
  }

  /** The checks of a summary, in the order they are made. */
  predicate Passes(s: ExperimentSummary, check: nat) {
    var candidates := s.candidates;
    match check
    case 0 => 1 <= s.evaluationsUsed && candidates != []
    case 1 => 0.0 <= s.sandboxTotalDuration
    case 2 => |candidates| == s.evaluationsUsed
    case 3 => forall i :: 0 <= i < |candidates| ==> candidates[i].rank == i + 1
    case 4 => forall i, j :: 0 <= i < j < |candidates| ==> candidates[i].candidateId != candidates[j].candidateId
    case 5 => forall i :: 0 <= i < |candidates| ==> candidates[i].finalTrialCount == s.evaluationsUsed
    case 6 => s.validCandidates == |Where(candidates, IsValid)|
    case 7 => s.passedCandidates == |Where(candidates, IsPassed)|
    case 8 => s.sandboxWindowLaunches == LaunchesAmong(candidates)
    case _ => Ledger.IsClose(s.sandboxTotalDuration, TimeAmong(candidates))
  }

  const CHECKS: nat := 10

  function CheckOf(fault: SummaryFault): nat {
    match fault
    case InvalidCandidate(rank) => CHECKS
    case NoCandidates => 0
    case NegativeDuration => 1
    case WrongCandidateCount => 2
    case RanksNotContiguous => 3
    case IdsNotUnique => 4
    case IncompleteTrialCount => 5
    case ValidCountDiffers => 6
    case PassedCountDiffers => 7
    case LaunchesDiffer => 8
    case DurationDiffers => 9
  }

  predicate PassesUpTo(s: ExperimentSummary, checks: nat) {
    forall check: nat :: check < checks ==> Passes(s, check)
  }

  /** The validator accepts a summary, assembled or read, exactly when it passes all checks;
      otherwise it reports the first one failed. */
  lemma FirstFailedCheckIsReported(s: ExperimentSummary)
    ensures match Fault(s)
            case None => PassesUpTo(s, CHECKS)
            case Some(fault) => CheckOf(fault) < CHECKS && PassesUpTo(s, CheckOf(fault)) && !Passes(s, CheckOf(fault))
  {
    hide SumBy, Sum, Ledger.IsClose, Where, LaunchesAmong, TimeAmong, Ids, Totals;
    TotalsAmong(s.candidates);
    SumOfOnes(s.candidates, IsValid, CountsValid);
    SumOfOnes(s.candidates, IsPassed, CountsPassed);
    IdsDifferWhenCounted(s.candidates);
    if forall i, j :: 0 <= i < j < |s.candidates| ==> s.candidates[i].candidateId != s.candidates[j].candidateId {
      IdsCounted(s.candidates);
    }
  }
}
