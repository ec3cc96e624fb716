/** Who ranks first and who becomes a parent, in plain comparisons of what was scored. */
module Selection {
  import opened Wrappers
  import opened Executors
  import opened Ranking
  import opened Experiments
  import LocalEvolver
  import Ledger
  import Text
  import Counts = ExperimentProperties

  /** Higher reward first; then higher passed, then higher validity, then the one evaluated
      earlier. */
  predicate Better(a: CandidateOutcome, b: CandidateOutcome) {
    var x, y := a.score.score, b.score.score;
    && y.reward <= x.reward
    && (x.reward == y.reward ==> y.passed <= x.passed)
    && (x.reward == y.reward && x.passed == y.passed ==> y.validity <= x.validity)
    && (x.reward == y.reward && x.passed == y.passed && x.validity == y.validity ==>
          a.trial.evaluationIndex < b.trial.evaluationIndex)
  }

  /** Outcome k of a state is that of its trial k, whose id sorts in the order of proposal. */
  predicate InOrderOfProposal(outcomes: seq<CandidateOutcome>) {
    && (forall k :: 0 <= k < |outcomes| ==> outcomes[k].trial.evaluationIndex == k)
    && (forall j, k :: 0 <= j < k < |outcomes| ==>
          Text.Less(outcomes[j].trial.candidateId, outcomes[k].trial.candidateId))
  }

  lemma OutcomesInOrder(x: Experiment, seeds: seq<CandidateProgram>, taken: set<Ledger.Key>, g: nat)
    requires x.config.Valid() && g <= x.config.generations
    requires x.Reach(seeds, taken, g).error.None?
    ensures InOrderOfProposal(x.Reach(seeds, taken, g).state.Outcomes())
  {
    hide Counts.RecordAt, Text.Less, Experiment.Reach, CandidateId;
    Counts.CountedThroughout(x, seeds, taken, g);
    var s := x.Reach(seeds, taken, g).state;
    forall j, k | 0 <= j < k < |s.trials|
      ensures Text.Less(s.trials[j].candidateId, s.trials[k].candidateId)
    {
      Counts.OutcomeIds(x, s, g, j, k);
    }
    assert forall k :: 0 <= k < |s.trials| ==> Counts.TrialAt(x.config, s.trials[k], k);
  }

  lemma BeforeIsBetter(outcomes: seq<CandidateOutcome>, j: nat, k: nat)
    requires InOrderOfProposal(outcomes) && j < |outcomes| && k < |outcomes|
    requires Before(StandingOf(outcomes[j]), StandingOf(outcomes[k]))
    ensures Better(outcomes[j], outcomes[k])
  {
    hide Text.Less;
    Text.LessIrreflexive(outcomes[j].trial.candidateId);
    if k < j && Text.Less(outcomes[j].trial.candidateId, outcomes[k].trial.candidateId) {
      LessIsTransitive(outcomes[j].trial.candidateId, outcomes[k].trial.candidateId, outcomes[j].trial.candidateId);
    }
  }

  /** The same outcomes in another order, best first. */
  predicate BestFirst(ranked: seq<CandidateOutcome>, outcomes: seq<CandidateOutcome>) {
    && multiset(ranked) == multiset(outcomes)
    && |ranked| == |outcomes|
    && (forall i :: 0 <= i < |ranked| ==>
          ranked[i].trial.evaluationIndex < |outcomes| && outcomes[ranked[i].trial.evaluationIndex] == ranked[i])
    && forall i, j :: 0 <= i < j < |ranked| ==> Better(ranked[i], ranked[j])
  }

  lemma RankedBestFirst(outcomes: seq<CandidateOutcome>)
    requires InOrderOfProposal(outcomes)
    ensures BestFirst(Ranked(outcomes, StandingOf), outcomes)
  {
    hide Ranked, Before, Better, Text.Less;
    var ranked := Ranked(outcomes, StandingOf);
    IdsDiffer(outcomes);
    RankedKeeps(outcomes, StandingOf);
    RankedIsRanked(outcomes, StandingOf);
    forall i | 0 <= i < |ranked|
      ensures ranked[i].trial.evaluationIndex < |outcomes| && outcomes[ranked[i].trial.evaluationIndex] == ranked[i]
    {
      SharedMember(ranked, outcomes, ranked[i]);
    }
    forall i, j | 0 <= i < j < |ranked|
      ensures Better(ranked[i], ranked[j])
    {
      assert Before(StandingOf(ranked[i]), StandingOf(ranked[j]));
      BeforeIsBetter(outcomes, ranked[i].trial.evaluationIndex, ranked[j].trial.evaluationIndex);
    }
  }

  lemma IdsDiffer(outcomes: seq<CandidateOutcome>)
    requires InOrderOfProposal(outcomes)
    ensures DistinctIds(outcomes, StandingOf)
  {
    hide Text.Less;
    forall j, k | 0 <= j < k < |outcomes|
      ensures StandingOf(outcomes[j]).candidateId != StandingOf(outcomes[k]).candidateId
    {
      Text.LessIrreflexive(outcomes[j].trial.candidateId);
    }
  }

  /** The ranking of a finished run: all its outcomes, the higher reward always first, ties
      by passed, validity and age. */
  lemma FinishedRunRanksBestFirst(x: Experiment, seeds: seq<CandidateProgram>, taken: set<Ledger.Key>)
    requires x.config.Valid() && x.Outcome(seeds, taken).0.Success?
    ensures var result := x.Outcome(seeds, taken).0.value; BestFirst(result.RankedOutcomes(), result.outcomes)
  {
    hide Ranked, BestFirst, InOrderOfProposal, Experiment.Reach;
    OutcomesInOrder(x, seeds, taken, x.config.generations);
    RankedBestFirst(x.Reach(seeds, taken, x.config.generations).state.Outcomes());
  }

  // ----- parents

  /** The parent is this outcome's program, with what was scored for it. */
  predicate IsParent(parent: LocalEvolver.ParentCandidate, o: CandidateOutcome) {
    && parent.program == o.trial.proposal.program
    && parent.reward == o.score.score.reward
    && parent.passed == (o.score.score.passed != 0.0)
    && parent.validity == o.score.score.validity
  }

  /** The chosen outcomes are distinct, as many as the elite count allows, best first, and no
      other outcome is better than any of them. */
  predicate Elite(chosen: seq<nat>, outcomes: seq<CandidateOutcome>, eliteCount: nat) {
    && |chosen| == (if eliteCount < |outcomes| then eliteCount else |outcomes|)
    && (forall i :: 0 <= i < |chosen| ==> chosen[i] < |outcomes|)
    && (forall i, j :: 0 <= i < j < |chosen| ==>
          chosen[i] != chosen[j] && Better(outcomes[chosen[i]], outcomes[chosen[j]]))
    && (forall i, k :: 0 <= i < |chosen| && 0 <= k < |outcomes| && k !in chosen ==>
          Better(outcomes[chosen[i]], outcomes[k]))
  }

  /** The parents of the next generation are the best trials so far: no trial left out has a
      higher reward than a parent, nor an equal reward and a higher passed, and so on. */
  lemma ParentsAreTheBest(x: Experiment, seeds: seq<CandidateProgram>, taken: set<Ledger.Key>, g: nat)
    returns (chosen: seq<nat>)
    requires x.config.Valid() && 1 <= g <= x.config.generations
    requires x.Reach(seeds, taken, g).error.None?
    ensures var s := x.Reach(seeds, taken, g).state;
            && Elite(chosen, s.Outcomes(), x.config.eliteCount)
            && |s.parents| == |chosen|
            && forall i :: 0 <= i < |chosen| ==> IsParent(s.parents[i], s.Outcomes()[chosen[i]])
  {
    hide Ranked, Better, InOrderOfProposal, Experiment.Reach;
    var s := x.Reach(seeds, taken, g).state;
    OutcomesInOrder(x, seeds, taken, g);
    RankedBestFirst(s.Outcomes());
    ParentsWereSelected(x, seeds, taken, g);
    var ranked := Ranked(s.Outcomes(), StandingOf);
    chosen := ChosenFrom(ranked, s.Outcomes(), x.config.eliteCount);
  }

  lemma {:induction false} ParentsWereSelected(x: Experiment, seeds: seq<CandidateProgram>, taken: set<Ledger.Key>, g: nat)
    requires x.config.Valid() && 1 <= g <= x.config.generations
    requires x.Reach(seeds, taken, g).error.None?
    ensures var s := x.Reach(seeds, taken, g).state; s.parents == x.SelectParents(s)
  {
    hide Experiment.Generation, Experiment.SelectParents;
    var before := x.Reach(seeds, taken, g - 1);
    if x.config.evaluationBudget <= |before.state.trials| {
      assert g != 1;
      ParentsWereSelected(x, seeds, taken, g - 1);
    } else {
      Counts.ParentsOfGeneration(x, seeds, taken, before.state, g - 1);
    }
  }

  lemma ChosenFrom(ranked: seq<CandidateOutcome>, outcomes: seq<CandidateOutcome>, eliteCount: nat)
    returns (chosen: seq<nat>)
    requires BestFirst(ranked, outcomes) && InOrderOfProposal(outcomes)
    ensures Elite(chosen, outcomes, eliteCount)
    ensures forall i :: 0 <= i < |chosen| ==> outcomes[chosen[i]] == ranked[i]
  {
    hide Better, Text.Less;
    var n := if eliteCount < |ranked| then eliteCount else |ranked|;
    chosen := seq(n, i requires 0 <= i < n => ranked[i].trial.evaluationIndex);
    forall i, j | 0 <= i < j < n
      ensures chosen[i] != chosen[j]
    {
      NotBetterThanItself(ranked[i], ranked[j]);
    }
    assert forall j :: 0 <= j < n ==> ranked[j].trial.evaluationIndex in chosen by {
      assert forall j :: 0 <= j < n ==> chosen[j] == ranked[j].trial.evaluationIndex;
    }
    forall i, k | 0 <= i < n && 0 <= k < |outcomes| && k !in chosen
      ensures Better(outcomes[chosen[i]], outcomes[k])
    {
      SharedMember(outcomes, ranked, outcomes[k]);
      var j :| 0 <= j < |ranked| && ranked[j] == outcomes[k];
    }
  }

  lemma NotBetterThanItself(a: CandidateOutcome, b: CandidateOutcome)
    requires Better(a, b)
    ensures a != b
  {
  }
}
